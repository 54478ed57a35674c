// InstructorAttributes: one instructor's membership of one course, with a
// role, a displayed name and a privilege set. The object is built with
// co-owner defaults, updated in place from one of two kinds of update options
// and sanitized before saving.

module InstructorAttributes {
  import opened Common
  import opened Const
  import JavaStrings
  import Sorting

  const DEFAULT_DISPLAY_NAME: string := "Instructor"

  /** An InstructorPrivileges object. Its contents are not part of this model: it is either the
      privilege set a named role starts with, or one read back from its stored JSON text. */
  datatype Privileges = RolePrivileges(role: string) | StoredPrivileges(json: string)

  const COOWNER_PRIVILEGES := RolePrivileges(ROLE_COOWNER)

  /** The field values of an instructor record. */
  datatype Instructor = Instructor(
    courseId: Option<string>,
    email: Option<string>,
    name: Option<string>,
    googleId: Option<string>,
    key: Option<string>,
    role: Option<string>,
    displayedName: Option<string>,
    isArchived: bool,
    isDisplayedToStudents: bool,
    privileges: Option<Privileges>)

  /** The record the constructor leaves: the co-owner role and privileges, the default displayed
      name, not archived and displayed to students. */
  function Defaults(courseId: Option<string>, email: Option<string>): (r: Instructor)
    ensures r.courseId == courseId && r.email == email
    ensures r.role == Some(ROLE_COOWNER) && r.privileges == Some(COOWNER_PRIVILEGES)
    ensures r.displayedName == Some(DEFAULT_DISPLAY_NAME)
    ensures !r.isArchived && r.isDisplayedToStudents
    ensures !IsRegistered(r)
  {
    Instructor(courseId, email, None, None, None, Some(ROLE_COOWNER), Some(DEFAULT_DISPLAY_NAME),
               false, true, Some(COOWNER_PRIVILEGES))
  }

  /** isRegistered: the googleId is present and not blank. */
  predicate IsRegistered(i: Instructor)
  {
    i.googleId.Some? && JavaStrings.Trim(i.googleId.value) != ""
  }

  lemma RegisteredIffNotBlank(i: Instructor)
    ensures IsRegistered(i) <==> i.googleId.Some? && !JavaStrings.IsBlank(i.googleId.value)
  {
    if i.googleId.Some? {
      JavaStrings.TrimEmptyIffBlank(i.googleId.value);
    }
  }

  predicate IsCustomRole(i: Instructor)
  {
    i.role == Some(ROLE_CUSTOM)
  }

  // ---------------------------------------------------------------------
  // Reading a stored entity

  /** The getters of a stored Instructor entity (the entity class is not part of this model). */
  datatype InstructorEntity = InstructorEntity(
    courseId: Option<string>,
    email: Option<string>,
    name: Option<string>,
    googleId: Option<string>,
    registrationKey: Option<string>,
    role: Option<string>,
    displayedName: Option<string>,
    isArchived: bool,
    isDisplayedToStudents: bool,
    privilegesText: Option<string>)

  /** valueOf: the stored values over the defaults; a missing role or displayed name keeps the
      default, and missing privilege text gives the privileges of the resulting role. */
  function AttributesOf(e: InstructorEntity): (r: Instructor)
    ensures r.courseId == e.courseId && r.email == e.email && r.name == e.name
    ensures r.googleId == e.googleId && r.key == e.registrationKey
    ensures r.role == (if e.role.Some? then e.role else Some(ROLE_COOWNER))
    ensures r.displayedName == (if e.displayedName.Some? then e.displayedName else Some(DEFAULT_DISPLAY_NAME))
    ensures r.isArchived == e.isArchived && r.isDisplayedToStudents == e.isDisplayedToStudents
    ensures e.privilegesText.None? ==> r.privileges == Some(RolePrivileges(r.role.value))
    ensures e.privilegesText.Some? ==> r.privileges == Some(StoredPrivileges(e.privilegesText.value))
    ensures e.role.None? && e.privilegesText.None? ==> r.privileges == Some(COOWNER_PRIVILEGES)
  {
    var d := Defaults(e.courseId, e.email);
    var role := if e.role.Some? then e.role else d.role;
    var privileges := if e.privilegesText.None? then RolePrivileges(role.value) else StoredPrivileges(e.privilegesText.value);
    d.(name := e.name, googleId := e.googleId, key := e.registrationKey, role := role,
       displayedName := if e.displayedName.Some? then e.displayedName else d.displayedName,
       isArchived := e.isArchived, isDisplayedToStudents := e.isDisplayedToStudents,
       privileges := Some(privileges))
  }

  // ---------------------------------------------------------------------
  // Update options

  /** The options both kinds of update share. Their builders refuse null values. */
  datatype BasicOptions = BasicOptions(
    name: Option<string>,
    isArchived: Option<bool>,
    role: Option<string>,
    isDisplayedToStudents: Option<bool>,
    displayedName: Option<string>,
    privileges: Option<Privileges>)

  const NO_BASIC_OPTIONS := BasicOptions(None, None, None, None, None, None)

  /** UpdateOptionsWithEmail: identifies the instructor by course and email, and may set the googleId
      (to null as well: its builder does not refuse null). */
  datatype OptionsWithEmail = OptionsWithEmail(courseId: string, email: string, googleId: Option<Option<string>>,
                                               basic: BasicOptions)

  /** UpdateOptionsWithGoogleId: identifies the instructor by course and googleId, and may set the email. */
  datatype OptionsWithGoogleId = OptionsWithGoogleId(courseId: string, googleId: string, email: Option<string>,
                                                     basic: BasicOptions)



  /** updateBasic: the shared fields whose option is present take the option's value; courseId, email,
      googleId and the key never change. */
  function UpdatedBasic(i: Instructor, b: BasicOptions): (r: Instructor)
    ensures r.courseId == i.courseId && r.email == i.email && r.googleId == i.googleId && r.key == i.key
    ensures r.name == (if b.name.Some? then b.name else i.name)
    ensures r.role == (if b.role.Some? then b.role else i.role)
    ensures r.displayedName == (if b.displayedName.Some? then b.displayedName else i.displayedName)
    ensures r.privileges == (if b.privileges.Some? then b.privileges else i.privileges)
    ensures r.isArchived == b.isArchived.GetOr(i.isArchived)
    ensures r.isDisplayedToStudents == b.isDisplayedToStudents.GetOr(i.isDisplayedToStudents)
    ensures b == NO_BASIC_OPTIONS ==> r == i
  {
    i.(name := FillNullable(b.name, i.name), isArchived := Fill(b.isArchived, i.isArchived),
       role := FillNullable(b.role, i.role), isDisplayedToStudents := Fill(b.isDisplayedToStudents, i.isDisplayedToStudents),
       privileges := FillNullable(b.privileges, i.privileges), displayedName := FillNullable(b.displayedName, i.displayedName))
  }

  /** update(UpdateOptionsWithEmail): may set the googleId, never the email. */
  function UpdatedWithEmail(i: Instructor, o: OptionsWithEmail): (r: Instructor)
    ensures r.email == i.email && r.courseId == i.courseId
    ensures r.googleId == (if o.googleId.Some? then o.googleId.value else i.googleId)
    ensures r == UpdatedBasic(i, o.basic).(googleId := r.googleId)
  {
    UpdatedBasic(i.(googleId := Fill(o.googleId, i.googleId)), o.basic)
  }

  /** update(UpdateOptionsWithGoogleId): may set the email, never the googleId. */
  function UpdatedWithGoogleId(i: Instructor, o: OptionsWithGoogleId): (r: Instructor)
    ensures r.googleId == i.googleId && r.courseId == i.courseId
    ensures r.email == (if o.email.Some? then o.email else i.email)
    ensures r == UpdatedBasic(i, o.basic).(email := r.email)
  {
    UpdatedBasic(i.(email := if o.email.Some? then o.email else i.email), o.basic)
  }

  /** Applying the same options twice changes nothing more. */
  lemma UpdatesAreIdempotent(i: Instructor, o: OptionsWithEmail, g: OptionsWithGoogleId)
    ensures UpdatedWithEmail(UpdatedWithEmail(i, o), o) == UpdatedWithEmail(i, o)
    ensures UpdatedWithGoogleId(UpdatedWithGoogleId(i, g), g) == UpdatedWithGoogleId(i, g)
  {
  }

  /** The two update kinds agree on every field but the one that identifies the instructor. */
  lemma UpdateKindsAgree(i: Instructor, o: OptionsWithEmail, g: OptionsWithGoogleId)
    requires o.basic == g.basic && o.googleId.None? && g.email.None?
    ensures UpdatedWithEmail(i, o) == UpdatedWithGoogleId(i, g) == UpdatedBasic(i, o.basic)
  {
  }

  // ---------------------------------------------------------------------
  // Sanitizing


  /** sanitizeForSaving: googleId, name, email and course are sanitized where present; a missing
      role becomes the co-owner role; a missing displayed name becomes the co-owner role's name
      (not DEFAULT_DISPLAY_NAME); missing privileges become the co-owner privileges. */
  function Sanitized(i: Instructor, sanitizeGoogleId: string -> string, sanitizeName: string -> string,
                     sanitizeEmail: string -> string, sanitizeTitle: string -> string): (r: Instructor)
    ensures r.role.Some? && r.displayedName.Some? && r.privileges.Some?
    ensures i.role.None? ==> r.role == Some(ROLE_COOWNER)
    ensures i.role.Some? ==> r.role == Some(sanitizeName(i.role.value))
    ensures i.displayedName.None? ==> r.displayedName == Some(ROLE_COOWNER)
    ensures i.displayedName.Some? ==> r.displayedName == Some(sanitizeName(i.displayedName.value))
    ensures r.privileges == (if i.privileges.None? then Some(COOWNER_PRIVILEGES) else i.privileges)
    ensures r.googleId.Some? <==> i.googleId.Some?
    ensures r.isArchived == i.isArchived && r.isDisplayedToStudents == i.isDisplayedToStudents && r.key == i.key
  {
    i.(googleId := MapOption(i.googleId, sanitizeGoogleId), name := MapOption(i.name, sanitizeName),
       email := MapOption(i.email, sanitizeEmail), courseId := MapOption(i.courseId, sanitizeTitle),
       role := if i.role.None? then Some(ROLE_COOWNER) else MapOption(i.role, sanitizeName),
       displayedName := if i.displayedName.None? then Some(ROLE_COOWNER) else MapOption(i.displayedName, sanitizeName),
       privileges := if i.privileges.None? then Some(COOWNER_PRIVILEGES) else i.privileges)
  }

  // ---------------------------------------------------------------------
  // Privilege queries

  /** The four isAllowedForPrivilege forms: course-wide, for a section, for a session in a section,
      and for a session in any section. */
  datatype PrivilegeQuery =
    | CourseWide(privilege: string)
    | InSection(section: string, privilege: string)
    | InSession(section: string, session: string, privilege: string)
    | InAnySection(session: string, privilege: string)

  /** The privileges a query is answered from: missing privileges are first reset to co-owner. */
  function EffectivePrivileges(i: Instructor): (r: Privileges)
    ensures i.privileges.Some? ==> r == i.privileges.value
    ensures i.privileges.None? ==> r == COOWNER_PRIVILEGES
  {
    if i.privileges.Some? then i.privileges.value else COOWNER_PRIVILEGES
  }

  // ---------------------------------------------------------------------
  // COMPARE_BY_NAME

  function NameKey(i: Instructor): string { JavaStrings.ToLower(i.name.GetOr("")) }

  /** COMPARE_BY_NAME: the lower-cased names in string order. */
  function ByName(a: Instructor, b: Instructor): int { JavaStrings.CompareTo(NameKey(a), NameKey(b)) }

  lemma ByNameIsPreorder()
    ensures Sorting.IsTotalPreorder(ByName)
  {
    forall x: Instructor, y: Instructor, z: Instructor
      ensures ByName(x, y) == -ByName(y, x)
      ensures ByName(x, y) <= 0 && ByName(y, z) <= 0 ==> ByName(x, z) <= 0
    {
      JavaStrings.CompareToAntisymmetric(NameKey(x), NameKey(y));
      JavaStrings.CompareToTotalOrder(NameKey(x), NameKey(y), NameKey(z));
    }
  }

  /** Names differing only in case compare equal. */
  lemma ByNameIgnoresCase(a: Instructor, b: Instructor)
    requires a.name.Some? && b.name.Some? && JavaStrings.EqualsIgnoreCase(a.name.value, b.name.value)
    ensures ByName(a, b) == 0
  {
    JavaStrings.CompareToTotalOrder(NameKey(a), NameKey(b), NameKey(b));
  }

  predicate HasNullName(list: seq<Instructor>)
  {
    |list| >= 2 && exists i | 0 <= i < |list| :: list[i].name.None?
  }

  /** sort(COMPARE_BY_NAME): a stable sort by lower-cased name; a null name throws once the
      comparator is called, which needs two or more elements. */
  function SortByName(list: seq<Instructor>): (r: Outcome<seq<Instructor>>)
    ensures r.Fail? <==> HasNullName(list)
    ensures r.Fail? ==> r.failure == NullPointer
    ensures r.Ok? ==> Sorting.SortedBy(r.value, ByName) && multiset(r.value) == multiset(list)
  {
    if HasNullName(list) then Fail(NullPointer)
    else
      ByNameIsPreorder();
      Sorting.SortBySorted(list, ByName);
      Ok(Sorting.SortBy(list, ByName))
  }

  // ---------------------------------------------------------------------
  // The mutable object

  class InstructorAttributes {
    var courseId: Option<string>
    var email: Option<string>
    var name: Option<string>
    var googleId: Option<string>
    var key: Option<string>
    var role: Option<string>
    var displayedName: Option<string>
    var isArchived: bool
    var isDisplayedToStudents: bool
    var privileges: Option<Privileges>

    function State(): Instructor
      reads this
    {
      Instructor(courseId, email, name, googleId, key, role, displayedName, isArchived, isDisplayedToStudents, privileges)
    }

    /** The package-private constructor: the co-owner defaults. */
    constructor (course: Option<string>, emailAddress: Option<string>)
      ensures State() == Defaults(course, emailAddress)
    {
      courseId := course;
      email := emailAddress;
      name := None;
      googleId := None;
      key := None;
      role := Some(ROLE_COOWNER);
      displayedName := Some(DEFAULT_DISPLAY_NAME);
      isArchived := false;
      isDisplayedToStudents := true;
      privileges := Some(COOWNER_PRIVILEGES);
    }

    /** getCopy: a new object holding the same values (the privilege object itself is shared). */
    method GetCopy() returns (c: InstructorAttributes)
      ensures fresh(c) && c.State() == State()
    {
      c := new InstructorAttributes(courseId, email);
      c.name, c.googleId, c.key, c.role, c.displayedName := name, googleId, key, role, displayedName;
      c.isArchived, c.isDisplayedToStudents, c.privileges := isArchived, isDisplayedToStudents, privileges;
    }

    method UpdateBasic(b: BasicOptions)
      modifies this
      ensures State() == UpdatedBasic(old(State()), b)
    {
      name := FillNullable(b.name, name);
      isArchived := Fill(b.isArchived, isArchived);
      role := FillNullable(b.role, role);
      isDisplayedToStudents := Fill(b.isDisplayedToStudents, isDisplayedToStudents);
      privileges := FillNullable(b.privileges, privileges);
      displayedName := FillNullable(b.displayedName, displayedName);
    }

    method UpdateWithEmail(o: OptionsWithEmail)
      modifies this
      ensures State() == UpdatedWithEmail(old(State()), o)
    {
      googleId := Fill(o.googleId, googleId);
      UpdateBasic(o.basic);
    }

    method UpdateWithGoogleId(o: OptionsWithGoogleId)
      modifies this
      ensures State() == UpdatedWithGoogleId(old(State()), o)
    {
      if o.email.Some? {
        email := o.email;
      }
      UpdateBasic(o.basic);
    }

    method SanitizeForSaving(sanitizeGoogleId: string -> string, sanitizeName: string -> string,
                             sanitizeEmail: string -> string, sanitizeTitle: string -> string)
      modifies this
      ensures State() == Sanitized(old(State()), sanitizeGoogleId, sanitizeName, sanitizeEmail, sanitizeTitle)
    {
      googleId := MapOption(googleId, sanitizeGoogleId);
      name := MapOption(name, sanitizeName);
      email := MapOption(email, sanitizeEmail);
      courseId := MapOption(courseId, sanitizeTitle);
      role := if role.None? then Some(ROLE_COOWNER) else MapOption(role, sanitizeName);
      displayedName := if displayedName.None? then Some(ROLE_COOWNER) else MapOption(displayedName, sanitizeName);
      if privileges.None? {
        privileges := Some(COOWNER_PRIVILEGES);
      }
    }

    /** isAllowedForPrivilege (all four forms): resets missing privileges to co-owner, then asks the
        privilege set, whose answer is the parameter `allowed`. */
    method IsAllowedForPrivilege(q: PrivilegeQuery, allowed: (Privileges, PrivilegeQuery) -> bool)
      returns (r: bool)
      modifies this
      ensures State() == old(State()).(privileges := Some(EffectivePrivileges(old(State()))))
      ensures r == allowed(EffectivePrivileges(old(State())), q)
    {
      if privileges.None? {
        privileges := Some(COOWNER_PRIVILEGES);
      }
      r := allowed(privileges.value, q);
    }
  }

  /** valueOf(Instructor). */
  method ValueOf(e: InstructorEntity) returns (a: InstructorAttributes)
    ensures fresh(a) && a.State() == AttributesOf(e)
  {
    a := new InstructorAttributes(e.courseId, e.email);
    a.name, a.googleId, a.key := e.name, e.googleId, e.registrationKey;
    a.role := FillNullable(e.role, a.role);
    a.displayedName := FillNullable(e.displayedName, a.displayedName);
    a.isArchived, a.isDisplayedToStudents := e.isArchived, e.isDisplayedToStudents;
    a.privileges := Some(if e.privilegesText.None? then RolePrivileges(a.role.value) else StoredPrivileges(e.privilegesText.value));
  }

  /** builder(courseId, email)[.withGoogleId(g)]...build(): the defaults, the googleId, then updateBasic. */
  method Build(courseId: string, email: string, googleId: Option<string>, b: BasicOptions)
    returns (a: InstructorAttributes)
    ensures fresh(a)
    ensures a.State() == UpdatedBasic(Defaults(Some(courseId), Some(email)).(googleId := googleId), b)
  {
    a := new InstructorAttributes(Some(courseId), Some(email));
    a.googleId := googleId;
    a.UpdateBasic(b);
  }
}
