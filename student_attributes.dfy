// StudentAttributes: one student's enrolment in one course. The record's
// fields are nullable strings; the object is built with defaults, updated in
// place from update options, filled from an existing record and sanitized.

module StudentAttributes {
  import opened Common
  import opened Const
  import JavaStrings
  import Sorting
  import Streams

  datatype Timestamps = Timestamps(createdAt: Option<Instant>, updatedAt: Option<Instant>)

  /** The field values of a student record (the deprecated, transient updateStatus is not kept). */
  datatype Student = Student(
    email: Option<string>,
    course: Option<string>,
    name: Option<string>,
    googleId: Option<string>,
    lastName: Option<string>,
    comments: Option<string>,
    team: Option<string>,
    section: Option<string>,
    key: Option<string>,
    stamps: Timestamps)

  const DEFAULT_STAMPS := Timestamps(Some(TIME_REPRESENTS_DEFAULT_TIMESTAMP), Some(TIME_REPRESENTS_DEFAULT_TIMESTAMP))

  /** The record the constructor leaves: an empty googleId, the default section and default timestamps. */
  function Defaults(course: Option<string>, email: Option<string>): (r: Student)
    ensures r.course == course && r.email == email
    ensures !IsRegistered(r)
    ensures r.section == Some(DEFAULT_SECTION)
  {
    Student(email, course, None, Some(""), None, None, None, Some(DEFAULT_SECTION), None, DEFAULT_STAMPS)
  }

  // ---------------------------------------------------------------------
  // Queries

  /** googleId is neither null nor empty after trimming. */
  predicate IsRegistered(s: Student)
  {
    s.googleId.Some? && JavaStrings.Trim(s.googleId.value) != ""
  }

  /** Registration in terms of the id's characters: some character above ' '. */
  lemma RegisteredIffNotBlank(s: Student)
    ensures IsRegistered(s) <==> s.googleId.Some? && !JavaStrings.IsBlank(s.googleId.value)
  {
    if s.googleId.Some? {
      JavaStrings.TrimEmptyIffBlank(s.googleId.value);
    }
  }

  /** getStudentStatus. */
  function StudentStatus(s: Student): (r: string)
    ensures r == STUDENT_COURSE_STATUS_JOINED <==> IsRegistered(s)
    ensures r == STUDENT_COURSE_STATUS_JOINED || r == STUDENT_COURSE_STATUS_YET_TO_JOIN
  {
    if IsRegistered(s) then STUDENT_COURSE_STATUS_JOINED else STUDENT_COURSE_STATUS_YET_TO_JOIN
  }

  const ENROLLMENT_SEPARATOR := '|'

  /** section|team|name|email|comments, a null field printing as "null". */
  function ToEnrollmentString(s: Student): string
  {
    JStr(s.section) + [ENROLLMENT_SEPARATOR] + JStr(s.team) + [ENROLLMENT_SEPARATOR] + JStr(s.name)
      + [ENROLLMENT_SEPARATOR] + JStr(s.email) + [ENROLLMENT_SEPARATOR] + JStr(s.comments)
  }

  /** The five enrolment columns in the order of the enrollment string. */
  function EnrollmentColumns(s: Student): seq<string>
  {
    [JStr(s.section), JStr(s.team), JStr(s.name), JStr(s.email), JStr(s.comments)]
  }

  /** Splitting the enrollment string at '|' gives back the five columns when none of them holds a
      '|' and the comments are not empty; with empty comments split drops the last column. */
  lemma EnrollmentStringSplits(s: Student)
    requires forall i | 0 <= i < 5 :: ENROLLMENT_SEPARATOR !in EnrollmentColumns(s)[i]
    ensures JStr(s.comments) != "" ==> JavaStrings.Split(ToEnrollmentString(s), ENROLLMENT_SEPARATOR) == EnrollmentColumns(s)
    ensures JStr(s.comments) == "" ==> |JavaStrings.Split(ToEnrollmentString(s), ENROLLMENT_SEPARATOR)| < 5
  {
    var cols := EnrollmentColumns(s);
    JoinFive(cols[0], cols[1], cols[2], cols[3], cols[4], ENROLLMENT_SEPARATOR);
    JavaStrings.SplitJoin(cols, ENROLLMENT_SEPARATOR);
  }

  lemma JoinFive(a: string, b: string, c: string, d: string, e: string, sep: char)
    ensures JavaStrings.Join([a, b, c, d, e], sep) == a + [sep] + b + [sep] + c + [sep] + d + [sep] + e
  {
    var p := [a, b, c, d, e];
    assert JavaStrings.Join(p[4..], sep) == e;
    assert JavaStrings.Join(p[3..], sep) == d + [sep] + e;
    assert JavaStrings.Join(p[2..], sep) == c + [sep] + (d + [sep] + e);
    assert JavaStrings.Join(p[1..], sep) == b + [sep] + (c + [sep] + (d + [sep] + e));
  }

  const ID_SEPARATOR := '%'

  /** getId: email%course. */
  function Id(s: Student): string
  {
    JStr(s.email) + [ID_SEPARATOR] + JStr(s.course)
  }

  /** Ids of students whose email and course hold no '%' tell the students' email and course apart. */
  lemma IdInjective(a: Student, b: Student)
    requires ID_SEPARATOR !in JStr(a.email) && ID_SEPARATOR !in JStr(a.course)
    requires ID_SEPARATOR !in JStr(b.email) && ID_SEPARATOR !in JStr(b.course)
    ensures Id(a) == Id(b) <==> JStr(a.email) == JStr(b.email) && JStr(a.course) == JStr(b.course)
  {
    JavaStrings.SplitPiecesAround(JStr(a.email), ID_SEPARATOR, JStr(a.course));
    JavaStrings.SplitPiecesAround(JStr(b.email), ID_SEPARATOR, JStr(b.course));
  }

  /** `receivers[0].equals(args[0]) && ...`: a null receiver throws, the first mismatch ends the chain. */
  function EqualsChain(receivers: seq<Option<string>>, args: seq<Option<string>>): (r: Outcome<bool>)
    requires |receivers| == |args|
    ensures r.Fail? ==> r.failure == NullPointer
    ensures None !in receivers ==> r.Ok?
    ensures r == Ok(true) <==> None !in receivers && receivers == args
  {
    if |receivers| == 0 then Ok(true)
    else if receivers[0].None? then Fail(NullPointer)
    else if args[0] != receivers[0] then Ok(false)
    else
      var r := EqualsChain(receivers[1..], args[1..]);
      assert receivers == [receivers[0]] + receivers[1..] && args == [args[0]] + args[1..];
      r
  }

  /** isEnrollInfoSameAs: false for null, otherwise `other.f.equals(this.f)` for email, course,
      name, comments, team and section, in that order; a null field of `other` reached by the chain throws. */
  function IsEnrollInfoSameAs(s: Student, other: Option<Student>): (r: Outcome<bool>)
    ensures other.None? ==> r == Ok(false)
    ensures r.Fail? ==> r.failure == NullPointer && other.Some?
    ensures r == Ok(true) <==> other.Some? && EnrollInfoPresent(other.value) && EnrollInfo(other.value) == EnrollInfo(s)
  {
    if other.None? then Ok(false)
    else
      EqualsChain(EnrollInfo(other.value), EnrollInfo(s))
  }

  /** The six fields compared by isEnrollInfoSameAs. */
  function EnrollInfo(s: Student): seq<Option<string>>
  {
    [s.email, s.course, s.name, s.comments, s.team, s.section]
  }

  predicate EnrollInfoPresent(s: Student)
  {
    None !in EnrollInfo(s)
  }

  /** Between records whose six fields are all present the comparison never throws and is an
      equivalence on those fields. */
  lemma EnrollInfoSameIsEquivalence(a: Student, b: Student)
    requires EnrollInfoPresent(a) && EnrollInfoPresent(b)
    ensures IsEnrollInfoSameAs(a, Some(b)).Ok?
    ensures IsEnrollInfoSameAs(a, Some(a)) == Ok(true)
    ensures IsEnrollInfoSameAs(a, Some(b)) == IsEnrollInfoSameAs(b, Some(a))
  {
    var ab, ba := IsEnrollInfoSameAs(a, Some(b)), IsEnrollInfoSameAs(b, Some(a));
    assert ab.Ok? && ba.Ok?;
    assert ab.value <==> EnrollInfo(b) == EnrollInfo(a);
    assert ba.value <==> EnrollInfo(a) == EnrollInfo(b);
  }

  /** isSectionChanged, isTeamChanged and isEmailChanged: the new value is present and differs. */
  predicate IsSectionChanged(s: Student, original: Student) { s.section.Some? && s.section != original.section }
  predicate IsTeamChanged(s: Student, original: Student) { s.team.Some? && s.team != original.team }
  predicate IsEmailChanged(s: Student, original: Student) { s.email.Some? && s.email != original.email }

  // ---------------------------------------------------------------------
  // Validation

  /** The FieldValidator checks a student goes through; each returns "" or an error message. */
  datatype StudentValidator = StudentValidator(
    googleIdError: string -> string,
    courseIdError: Option<string> -> string,
    emailError: Option<string> -> string,
    teamNameError: string -> string,
    sectionNameError: Option<string> -> string,
    commentsError: string -> string,
    personNameError: Option<string> -> string)

  /** The checks in the order they run; the googleId check runs only for a registered student. */
  function Checks(s: Student, v: StudentValidator): seq<string>
    requires s.team.Some? && s.comments.Some?
  {
    (if IsRegistered(s) then [v.googleIdError(s.googleId.value)] else [])
      + [v.courseIdError(s.course), v.emailError(s.email), v.teamNameError(s.team.value),
         v.sectionNameError(s.section), v.commentsError(s.comments.value), v.personNameError(s.name)]
  }

  /** getInvalidityInfo: the non-empty check messages in order; a null team or null comments fail the
      assertion that opens it. */
  function InvalidityInfo(s: Student, v: StudentValidator): (r: Outcome<seq<string>>)
    ensures r.Fail? <==> s.team.None? || s.comments.None?
    ensures r.Fail? ==> r.failure == AssertionFailure
    ensures r.Ok? ==> forall e | e in r.value :: e != "" && e in Checks(s, v)
    ensures r.Ok? ==> forall e | e in Checks(s, v) && e != "" :: e in r.value
    ensures r.Ok? ==> (r.value == [] <==> forall e | e in Checks(s, v) :: e == "")
  {
    if s.team.None? || s.comments.None? then Fail(AssertionFailure)
    else
      var errors := Streams.Filter(Checks(s, v), (m: string) => m != "");
      assert errors != [] ==> errors[0] in errors;
      Ok(errors)
  }

  // ---------------------------------------------------------------------
  // Updates

  /** UpdateOptions: the course and email that identify the record, and one optional value per
      field. googleId may be set to null, so its option holds a nullable value. */
  datatype UpdateOptions = UpdateOptions(
    courseId: string,
    email: string,
    newEmail: Option<string>,
    name: Option<string>,
    lastName: Option<string>,
    comment: Option<string>,
    googleId: Option<Option<string>>,
    teamName: Option<string>,
    sectionName: Option<string>)

  function NoUpdates(courseId: string, email: string): UpdateOptions
  {
    UpdateOptions(courseId, email, None, None, None, None, None, None, None)
  }



  /** update: each present option overwrites its field. A new name also sets the last name to the
      last part of splitting it (`lastNameOf`); an explicit last name wins over that. */
  function Updated(s: Student, opts: UpdateOptions, lastNameOf: string -> string): (r: Student)
    ensures opts.lastName.Some? ==> r.lastName == opts.lastName
    ensures opts.lastName.None? && opts.name.Some? ==> r.lastName == Some(lastNameOf(opts.name.value))
    ensures opts.lastName.None? && opts.name.None? ==> r.lastName == s.lastName
    ensures r.course == s.course && r.key == s.key && r.stamps == s.stamps
    ensures opts.googleId.Some? ==> r.googleId == opts.googleId.value
    ensures opts.googleId.None? ==> r.googleId == s.googleId
    ensures r.email == (if opts.newEmail.Some? then opts.newEmail else s.email)
    ensures r.name == (if opts.name.Some? then opts.name else s.name)
    ensures r.comments == (if opts.comment.Some? then opts.comment else s.comments)
    ensures r.team == (if opts.teamName.Some? then opts.teamName else s.team)
    ensures r.section == (if opts.sectionName.Some? then opts.sectionName else s.section)
  {
    Student(
      FillNullable(opts.newEmail, s.email),
      s.course,
      FillNullable(opts.name, s.name),
      Fill(opts.googleId, s.googleId),
      if opts.lastName.Some? then opts.lastName
      else if opts.name.Some? then Some(lastNameOf(opts.name.value))
      else s.lastName,
      FillNullable(opts.comment, s.comments),
      FillNullable(opts.teamName, s.team),
      FillNullable(opts.sectionName, s.section),
      s.key,
      s.stamps)
  }

  /** Options with nothing present leave the record as it is, and applying options twice is
      applying them once. */
  lemma UpdatedIdempotent(s: Student, opts: UpdateOptions, lastNameOf: string -> string)
    ensures Updated(s, NoUpdates(opts.courseId, opts.email), lastNameOf) == s
    ensures Updated(Updated(s, opts, lastNameOf), opts, lastNameOf) == Updated(s, opts, lastNameOf)
  {
  }

  /** The change predicates after an update see exactly the options that changed a value. */
  lemma UpdatedChanges(s: Student, opts: UpdateOptions, lastNameOf: string -> string)
    requires s.section.Some? && s.team.Some? && s.email.Some?
    ensures IsSectionChanged(Updated(s, opts, lastNameOf), s) <==> opts.sectionName.Some? && opts.sectionName != s.section
    ensures IsTeamChanged(Updated(s, opts, lastNameOf), s) <==> opts.teamName.Some? && opts.teamName != s.team
    ensures IsEmailChanged(Updated(s, opts, lastNameOf), s) <==> opts.newEmail.Some? && opts.newEmail != s.email
  {
  }

  /** updateWithExistingRecord: email, name, googleId, team, comments and section are taken from the
      original record only where this record holds null. */
  function WithExistingRecord(s: Student, original: Student): (r: Student)
    ensures r.course == s.course && r.lastName == s.lastName && r.key == s.key && r.stamps == s.stamps
  {
    s.(email := FillNullable(s.email, original.email), name := FillNullable(s.name, original.name),
       googleId := FillNullable(s.googleId, original.googleId), team := FillNullable(s.team, original.team),
       comments := FillNullable(s.comments, original.comments), section := FillNullable(s.section, original.section))
  }

  /** Filling keeps every present value, is idempotent, and never makes a field look changed that
      the record had left null. */
  lemma WithExistingRecordProperties(s: Student, original: Student)
    ensures WithExistingRecord(WithExistingRecord(s, original), original) == WithExistingRecord(s, original)
    ensures EnrollInfoPresent(s) ==> WithExistingRecord(s, original).(googleId := s.googleId) == s
    ensures IsSectionChanged(WithExistingRecord(s, original), original) <==> IsSectionChanged(s, original)
    ensures IsTeamChanged(WithExistingRecord(s, original), original) <==> IsTeamChanged(s, original)
    ensures IsEmailChanged(WithExistingRecord(s, original), original) <==> IsEmailChanged(s, original)
  {
  }


  /** sanitizeForSaving: the googleId, name and comments go through their sanitizers (which leave
      null as null); nothing else changes. */
  function Sanitized(s: Student, sanitizeGoogleId: string -> string, sanitizeName: string -> string,
                     sanitizeText: string -> string): (r: Student)
    ensures r.(googleId := s.googleId, name := s.name, comments := s.comments) == s
    ensures r.googleId.Some? <==> s.googleId.Some?
    ensures r.name.Some? <==> s.name.Some?
    ensures r.comments.Some? <==> s.comments.Some?
  {
    s.(googleId := MapOption(s.googleId, sanitizeGoogleId), name := MapOption(s.name, sanitizeName),
       comments := MapOption(s.comments, sanitizeText))
  }

  /** valueOf: the stored entity's values, with a null googleId, section or timestamp replaced by the
      constructor's default. */
  function AttributesOf(e: Student): (r: Student)
    ensures r.googleId.Some? && r.section.Some? && r.stamps.createdAt.Some? && r.stamps.updatedAt.Some?
    ensures e.googleId.Some? ==> r.googleId == e.googleId
    ensures e.section.Some? ==> r.section == e.section
    ensures r.(googleId := e.googleId, section := e.section, stamps := e.stamps) == e
  {
    e.(googleId := FillNullable(e.googleId, Some("")), section := FillNullable(e.section, Some(DEFAULT_SECTION)),
       stamps := Timestamps(FillNullable(e.stamps.createdAt, DEFAULT_STAMPS.createdAt),
                            FillNullable(e.stamps.updatedAt, DEFAULT_STAMPS.updatedAt)))
  }

  // ---------------------------------------------------------------------
  // Sorts

  function SectionKeys(s: Student): seq<string> { [s.section.GetOr(""), s.team.GetOr(""), s.name.GetOr("")] }
  function TeamKeys(s: Student): seq<string> { [s.team.GetOr(""), s.name.GetOr("")] }
  function NameKeys(s: Student): seq<string> { [s.name.GetOr(""), s.email.GetOr("")] }

  function BySection(a: Student, b: Student): int { JavaStrings.CompareKeys(SectionKeys(a), SectionKeys(b)) }
  function ByTeam(a: Student, b: Student): int { JavaStrings.CompareKeys(TeamKeys(a), TeamKeys(b)) }
  function ByNameThenEmail(a: Student, b: Student): int { JavaStrings.CompareKeys(NameKeys(a), NameKeys(b)) }

  lemma BySectionIsPreorder()
    ensures Sorting.IsTotalPreorder(BySection)
  {
    forall x: Student, y: Student, z: Student
      ensures BySection(x, y) == -BySection(y, x)
      ensures BySection(x, y) <= 0 && BySection(y, z) <= 0 ==> BySection(x, z) <= 0
    {
      JavaStrings.CompareKeysTotalOrder(SectionKeys(x), SectionKeys(y), SectionKeys(z));
    }
  }

  lemma ByTeamIsPreorder()
    ensures Sorting.IsTotalPreorder(ByTeam)
  {
    forall x: Student, y: Student, z: Student
      ensures ByTeam(x, y) == -ByTeam(y, x)
      ensures ByTeam(x, y) <= 0 && ByTeam(y, z) <= 0 ==> ByTeam(x, z) <= 0
    {
      JavaStrings.CompareKeysTotalOrder(TeamKeys(x), TeamKeys(y), TeamKeys(z));
    }
  }

  lemma ByNameThenEmailIsPreorder()
    ensures Sorting.IsTotalPreorder(ByNameThenEmail)
  {
    forall x: Student, y: Student, z: Student
      ensures ByNameThenEmail(x, y) == -ByNameThenEmail(y, x)
      ensures ByNameThenEmail(x, y) <= 0 && ByNameThenEmail(y, z) <= 0 ==> ByNameThenEmail(x, z) <= 0
    {
      JavaStrings.CompareKeysTotalOrder(NameKeys(x), NameKeys(y), NameKeys(z));
    }
  }

  /** Two students that tie on the keys before `p`, the first with a null key at `p`: comparing
      them reads that key and throws. */
  predicate NullKeyAt(keys: Student -> seq<Option<string>>, a: Student, b: Student, p: int)
  {
    0 <= p < |keys(a)| && p <= |keys(b)| && keys(a)[p].None? && keys(a)[..p] == keys(b)[..p]
  }

  /** A thenComparing chain reads key `p` of two elements only when they tie on the keys before it,
      so a sort throws exactly when two of the list's elements are such a pair: a correct sort of
      the list has to compare a student with a null key against some student it ties with. */
  predicate HasNullKey(list: seq<Student>, keys: Student -> seq<Option<string>>)
  {
    exists i, j, p | 0 <= i < |list| && 0 <= j < |list| && i != j && 0 <= p < |keys(list[i])| ::
      NullKeyAt(keys, list[i], list[j], p)
  }

  /** With no comparison that throws, a list of two or more has its first key everywhere. */
  lemma FirstKeyPresent(list: seq<Student>, keys: Student -> seq<Option<string>>, i: int)
    requires !HasNullKey(list, keys) && 0 <= i < |list| && |list| >= 2 && |keys(list[i])| >= 1
    ensures keys(list[i])[0].Some?
  {
    var j := if i == 0 then 1 else 0;
    assert keys(list[i])[..0] == keys(list[j])[..0];
    assert !NullKeyAt(keys, list[i], list[j], 0);
  }

  /** The fields each sort compares. */
  function SectionSortFields(s: Student): seq<Option<string>> { [s.section, s.team, s.name] }
  function TeamSortFields(s: Student): seq<Option<string>> { [s.team, s.name] }
  function NameSortFields(s: Student): seq<Option<string>> { [s.name, s.email] }

  /** The list sorted stably by `cmp`; a null key that the comparator would dereference throws. */
  function SortedList(list: seq<Student>, cmp: (Student, Student) -> int, keys: Student -> seq<Option<string>>): (r: Outcome<seq<Student>>)
    requires Sorting.IsTotalPreorder(cmp)
    ensures r.Fail? <==> HasNullKey(list, keys)
    ensures r.Fail? ==> r.failure == NullPointer
    ensures r.Ok? ==> Sorting.SortedBy(r.value, cmp) && multiset(r.value) == multiset(list)
  {
    if HasNullKey(list, keys) then Fail(NullPointer)
    else
      Sorting.SortBySorted(list, cmp);
      Ok(Sorting.SortBy(list, cmp))
  }

  /** Two students of different sections sort without throwing, whatever their other keys: the
      comparator never reads past the section. */
  lemma {:induction false} LaterKeysReadOnlyOnTies(a: Student, b: Student)
    requires a.section.Some? && b.section.Some? && a.section != b.section
    ensures !HasNullKey([a, b], SectionSortFields)
  {
    var list := [a, b];
    forall i, j, p | 0 <= i < 2 && 0 <= j < 2 && i != j && 0 <= p < 3
      ensures !NullKeyAt(SectionSortFields, list[i], list[j], p)
    {
      assert p > 0 ==> SectionSortFields(list[i])[..p][0] == list[i].section;
    }
  }

  /** sortBySectionName: by section, then team, then name. */
  function SortBySectionName(list: seq<Student>): (r: Outcome<seq<Student>>)
    ensures r.Fail? <==> HasNullKey(list, SectionSortFields)
    ensures r.Ok? ==> Sorting.SortedBy(r.value, BySection) && multiset(r.value) == multiset(list)
  {
    BySectionIsPreorder();
    SortedList(list, BySection, SectionSortFields)
  }

  /** sortByTeamName: by team, then name. */
  function SortByTeamName(list: seq<Student>): (r: Outcome<seq<Student>>)
    ensures r.Fail? <==> HasNullKey(list, TeamSortFields)
    ensures r.Ok? ==> Sorting.SortedBy(r.value, ByTeam) && multiset(r.value) == multiset(list)
  {
    ByTeamIsPreorder();
    SortedList(list, ByTeam, TeamSortFields)
  }

  /** sortByNameAndThenByEmail: by name, then email. */
  function SortByNameAndThenByEmail(list: seq<Student>): (r: Outcome<seq<Student>>)
    ensures r.Fail? <==> HasNullKey(list, NameSortFields)
    ensures r.Ok? ==> Sorting.SortedBy(r.value, ByNameThenEmail) && multiset(r.value) == multiset(list)
  {
    ByNameThenEmailIsPreorder();
    SortedList(list, ByNameThenEmail, NameSortFields)
  }

  /** In a list sorted by section the students of one section sit next to each other. */
  lemma SectionsAreContiguous(list: seq<Student>, i: int, j: int, k: int)
    requires Sorting.SortedBy(list, BySection)
    requires 0 <= i < j < k < |list| && list[i].section.GetOr("") == list[k].section.GetOr("")
    ensures list[j].section.GetOr("") == list[i].section.GetOr("")
  {
    var a, b, c := SectionKeys(list[i]), SectionKeys(list[j]), SectionKeys(list[k]);
    assert BySection(list[i], list[j]) <= 0 && BySection(list[j], list[k]) <= 0;
    JavaStrings.CompareKeysFirst(a, b);
    JavaStrings.CompareKeysFirst(b, c);
    JavaStrings.CompareToAntisymmetric(a[0], b[0]);
  }

  /** In a list sorted by team the students of one team sit next to each other. */
  lemma TeamsAreContiguous(list: seq<Student>, i: int, j: int, k: int)
    requires Sorting.SortedBy(list, ByTeam)
    requires 0 <= i < j < k < |list| && list[i].team.GetOr("") == list[k].team.GetOr("")
    ensures list[j].team.GetOr("") == list[i].team.GetOr("")
  {
    var a, b, c := TeamKeys(list[i]), TeamKeys(list[j]), TeamKeys(list[k]);
    assert ByTeam(list[i], list[j]) <= 0 && ByTeam(list[j], list[k]) <= 0;
    JavaStrings.CompareKeysFirst(a, b);
    JavaStrings.CompareKeysFirst(b, c);
    JavaStrings.CompareToAntisymmetric(a[0], b[0]);
  }

  // ---------------------------------------------------------------------
  // The mutable object

  class StudentAttributes {
    var email: Option<string>
    var course: Option<string>
    var name: Option<string>
    var googleId: Option<string>
    var lastName: Option<string>
    var comments: Option<string>
    var team: Option<string>
    var section: Option<string>
    var key: Option<string>
    var stamps: Timestamps

    function State(): Student
      reads this
    {
      Student(email, course, name, googleId, lastName, comments, team, section, key, stamps)
    }

    /** The package-private constructor: an empty googleId, the default section and timestamps. */
    constructor (courseId: Option<string>, emailAddress: Option<string>)
      ensures State() == Defaults(courseId, emailAddress)
    {
      course := courseId;
      email := emailAddress;
      name := None;
      googleId := Some("");
      lastName := None;
      comments := None;
      team := None;
      section := Some(DEFAULT_SECTION);
      key := None;
      stamps := DEFAULT_STAMPS;
    }

    /** getCopy: a new object holding the same values. */
    method GetCopy() returns (c: StudentAttributes)
      ensures fresh(c) && c.State() == State()
    {
      c := new StudentAttributes(course, email);
      c.name, c.lastName, c.googleId, c.team, c.section := name, lastName, googleId, team, section;
      c.comments, c.key, c.stamps := comments, key, stamps;
    }

    method Update(opts: UpdateOptions, lastNameOf: string -> string)
      modifies this
      ensures State() == Updated(old(State()), opts, lastNameOf)
    {
      email := FillNullable(opts.newEmail, email);
      if opts.name.Some? {
        name := opts.name;
        lastName := Some(lastNameOf(opts.name.value));
      }
      lastName := FillNullable(opts.lastName, lastName);
      comments := FillNullable(opts.comment, comments);
      googleId := Fill(opts.googleId, googleId);
      team := FillNullable(opts.teamName, team);
      section := FillNullable(opts.sectionName, section);
    }

    method UpdateWithExistingRecord(original: StudentAttributes)
      modifies this
      ensures State() == WithExistingRecord(old(State()), old(original.State()))
    {
      var o := original.State();
      email := FillNullable(email, o.email);
      name := FillNullable(name, o.name);
      googleId := FillNullable(googleId, o.googleId);
      team := FillNullable(team, o.team);
      comments := FillNullable(comments, o.comments);
      section := FillNullable(section, o.section);
    }

    method SanitizeForSaving(sanitizeGoogleId: string -> string, sanitizeName: string -> string,
                             sanitizeText: string -> string)
      modifies this
      ensures State() == Sanitized(old(State()), sanitizeGoogleId, sanitizeName, sanitizeText)
    {
      googleId := MapOption(googleId, sanitizeGoogleId);
      name := MapOption(name, sanitizeName);
      comments := MapOption(comments, sanitizeText);
    }

    method SetTimestamps(createdAt: Option<Instant>, updatedAt: Option<Instant>)
      modifies this
      ensures State() == old(State()).(stamps := Timestamps(createdAt, updatedAt))
    {
      stamps := Timestamps(createdAt, updatedAt);
    }
  }

  /** valueOf(CourseStudent). The entity class is not part of this model; its getters are given as
      a Student value. */
  method ValueOf(e: Student) returns (a: StudentAttributes)
    ensures fresh(a) && a.State() == AttributesOf(e)
  {
    a := new StudentAttributes(e.course, e.email);
    a.name, a.lastName, a.team, a.comments, a.key := e.name, e.lastName, e.team, e.comments, e.key;
    a.googleId := FillNullable(e.googleId, a.googleId);
    a.section := FillNullable(e.section, a.section);
    a.stamps := Timestamps(FillNullable(e.stamps.createdAt, a.stamps.createdAt), FillNullable(e.stamps.updatedAt, a.stamps.updatedAt));
  }

  /** builder(courseId, email)...build(): the constructor's defaults, then update with the options. */
  method Build(courseId: string, email: string, opts: UpdateOptions, lastNameOf: string -> string)
    returns (a: StudentAttributes)
    ensures fresh(a) && a.State() == Updated(Defaults(Some(courseId), Some(email)), opts, lastNameOf)
  {
    a := new StudentAttributes(Some(courseId), Some(email));
    a.Update(opts, lastNameOf);
  }
}
