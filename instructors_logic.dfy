// InstructorsLogic: the rules the logic layer applies around the instructor
// store — keeping at least one instructor visible to students, recognising a
// new instructor, listing co-owners, and the response, comment and respondent
// updates that follow an instructor's change of email.

module InstructorsLogic {
  import opened Common
  import opened Const
  import Sorting
  import opened InstructorAttributes

  const AT_LEAST_ONE_DISPLAYED_MESSAGE: string := "At least one instructor must be displayed to students"

  // ---------------------------------------------------------------------
  // At least one instructor displayed

  /** The number of instructors in `list` who are displayed to students; the store's
      getInstructorsDisplayedToStudents returns that many for the course. */
  function DisplayedCount(list: seq<Instructor>): (r: nat)
    ensures r <= |list|
  {
    if |list| == 0 then 0
    else DisplayedCount(list[..|list| - 1]) + (if list[|list| - 1].isDisplayedToStudents then 1 else 0)
  }

  /** Replacing one instructor changes the count by the difference of the two flags. */
  lemma {:induction false} DisplayedCountReplace(list: seq<Instructor>, k: int, x: Instructor)
    requires 0 <= k < |list|
    ensures DisplayedCount(list[k := x]) + (if list[k].isDisplayedToStudents then 1 else 0)
         == DisplayedCount(list) + (if x.isDisplayedToStudents then 1 else 0)
    decreases |list|
  {
    var n := |list| - 1;
    if k == n {
      assert list[k := x][..n] == list[..n];
    } else {
      DisplayedCountReplace(list[..n], k, x);
      assert list[k := x][..n] == list[..n][k := x];
    }
  }

  /** verifyAtLeastOneInstructorIsDisplayed, given how many of the course's instructors are displayed
      now, whether the edited instructor was displayed and whether it will be. */
  function VerifyAtLeastOneDisplayed(displayedCount: nat, isOriginalDisplayed: bool, isEditedDisplayed: bool)
    : (r: Outcome<()>)
    ensures r.Fail? ==> r.failure == InvalidParameters([AT_LEAST_ONE_DISPLAYED_MESSAGE])
    ensures isEditedDisplayed ==> r.Ok?
  {
    var isEditedInstructorChangedToNonVisible := isOriginalDisplayed && !isEditedDisplayed;
    var isNoInstructorMadeVisible := displayedCount == 0 && !isEditedDisplayed;
    if isNoInstructorMadeVisible || (displayedCount == 1 && isEditedInstructorChangedToNonVisible) then
      Fail(InvalidParameters([AT_LEAST_ONE_DISPLAYED_MESSAGE]))
    else Ok(())
  }

  /** The check passes exactly when, after the edit replaces instructor `k` of the course, some
      instructor of the course is still displayed to students. */
  lemma DisplayCheckMeaning(course: seq<Instructor>, k: int, edited: Instructor)
    requires 0 <= k < |course|
    ensures VerifyAtLeastOneDisplayed(DisplayedCount(course), course[k].isDisplayedToStudents,
                                      edited.isDisplayedToStudents).Ok?
        <==> DisplayedCount(course[k := edited]) > 0
  {
    DisplayedCountReplace(course, k, edited);
    DisplayedCountReplace(course, k, course[k].(isDisplayedToStudents := false));
  }

  // ---------------------------------------------------------------------
  // Queries

  /** isNewInstructor, given the instructor records of the googleId and the sample-course test:
      no records, or a single one for a sample course. */
  function IsNewInstructor(records: seq<Instructor>, isSampleCourse: Option<string> -> bool): (r: bool)
    ensures r <==> |records| <= 1 && forall i | 0 <= i < |records| :: isSampleCourse(records[i].courseId)
  {
    |records| == 0 || (|records| == 1 && isSampleCourse(records[0].courseId))
  }

  /** The instructor store, keyed by course and email. */
  datatype InstructorKey = InstructorKey(courseId: string, email: string)
  type InstructorStore = map<InstructorKey, Instructor>

  /** verifyIsEmailOfInstructorOfCourse: fails with the not-a-member message exactly for a non-member. */
  function VerifyIsEmailOfInstructorOfCourse(store: InstructorStore, email: string, courseId: string)
    : (r: Outcome<()>)
    ensures r.Ok? <==> InstructorKey(courseId, email) in store
    ensures r.Fail? ==>
      r.failure == EntityDoesNotExist("Instructor " + email + " does not belong to course " + courseId)
  {
    if InstructorKey(courseId, email) in store then Ok(())
    else Fail(EntityDoesNotExist("Instructor " + email + " does not belong to course " + courseId))
  }

  /** The instructors among `list` with co-owner privileges, in order; `hasCoowner` answers
      hasCoownerPrivileges for a privilege set. */
  function CoOwners(list: seq<Instructor>, hasCoowner: Privileges -> bool): (r: seq<Instructor>)
    ensures |r| <= |list|
  {
    if |list| == 0 then []
    else
      var last := list[|list| - 1];
      CoOwners(list[..|list| - 1], hasCoowner)
        + (if last.privileges.Some? && hasCoowner(last.privileges.value) then [last] else [])
  }

  /** Exactly the instructors with co-owner privileges are selected. */
  lemma {:induction false} CoOwnersMembers(list: seq<Instructor>, hasCoowner: Privileges -> bool)
    ensures forall x ::
      (x in CoOwners(list, hasCoowner) <==> x in list && x.privileges.Some? && hasCoowner(x.privileges.value))
    decreases |list|
  {
    if |list| > 0 {
      var last := list[|list| - 1];
      CoOwnersMembers(list[..|list| - 1], hasCoowner);
      assert list == list[..|list| - 1] + [last];
    }
  }

  /** Selecting co-owners keeps the order of a sorted list. */
  lemma {:induction false} CoOwnersSorted(list: seq<Instructor>, hasCoowner: Privileges -> bool)
    requires Sorting.SortedBy(list, ByName)
    ensures Sorting.SortedBy(CoOwners(list, hasCoowner), ByName)
    decreases |list|
  {
    if |list| > 0 {
      var n := |list| - 1;
      var init := list[..n];
      assert Sorting.SortedBy(init, ByName) by {
        forall i, j | 0 <= i < j < |init| ensures ByName(init[i], init[j]) <= 0 {
          assert init[i] == list[i] && init[j] == list[j];
        }
      }
      CoOwnersSorted(init, hasCoowner);
      var q := CoOwners(init, hasCoowner);
      if list[n].privileges.Some? && hasCoowner(list[n].privileges.value) {
        forall k | 0 <= k < |q| ensures ByName(q[k], list[n]) <= 0 {
          CoOwnersMembers(init, hasCoowner);
          assert q[k] in init;
          var m :| 0 <= m < |init| && init[m] == q[k];
          assert list[m] == q[k];
        }
        Sorting.AppendGreatest(q, list[n], ByName);
      }
    }
  }

  predicate HasNullPrivileges(list: seq<Instructor>)
  {
    exists i | 0 <= i < |list| :: list[i].privileges.None?
  }

  /** getInstructorsForCourse: the course's instructors sorted by name. */
  function InstructorsForCourse(course: seq<Instructor>): (r: Outcome<seq<Instructor>>)
    ensures r.Fail? <==> HasNullName(course)
    ensures r.Ok? ==> Sorting.SortedBy(r.value, ByName) && multiset(r.value) == multiset(course)
  {
    SortByName(course)
  }

  /** The loop of getCoOwnersForCourse: keeps the instructors with co-owner privileges; a missing
      privilege set throws when it is asked. */
  method SelectCoOwners(instructors: seq<Instructor>, hasCoowner: Privileges -> bool)
    returns (r: Outcome<seq<Instructor>>)
    ensures r.Fail? <==> HasNullPrivileges(instructors)
    ensures r.Fail? ==> r.failure == NullPointer
    ensures r.Ok? ==> r.value == CoOwners(instructors, hasCoowner)
  {
    var result: seq<Instructor> := [];
    var i := 0;
    while i < |instructors|
      invariant 0 <= i <= |instructors|
      invariant result == CoOwners(instructors[..i], hasCoowner)
      invariant forall m | 0 <= m < i :: instructors[m].privileges.Some?
    {
      if instructors[i].privileges.None? {
        return Fail(NullPointer);
      }
      assert instructors[..i + 1][..i] == instructors[..i];
      if hasCoowner(instructors[i].privileges.value) {
        result := result + [instructors[i]];
      }
      i := i + 1;
    }
    assert instructors[..i] == instructors;
    r := Ok(result);
  }

  /** getCoOwnersForCourse: the co-owners among the name-sorted instructors of the course. */
  method CoOwnersForCourse(course: seq<Instructor>, hasCoowner: Privileges -> bool)
    returns (r: Outcome<seq<Instructor>>)
    ensures r.Fail? <==> HasNullName(course) || HasNullPrivileges(course)
    ensures r.Fail? ==> r.failure == NullPointer
    ensures r.Ok? ==> r.value == CoOwners(InstructorsForCourse(course).value, hasCoowner)
    ensures r.Ok? ==> Sorting.SortedBy(r.value, ByName)
    ensures r.Ok? ==> forall x :: x in r.value <==> x in course && hasCoowner(x.privileges.value)
  {
    var sorted := InstructorsForCourse(course);
    if sorted.Fail? {
      return Fail(sorted.failure);
    }
    SameElements(sorted.value, course);
    r := SelectCoOwners(sorted.value, hasCoowner);
    if r.Ok? {
      CoOwnersSorted(sorted.value, hasCoowner);
      CoOwnersMembers(sorted.value, hasCoowner);
    }
  }

  /** Two lists with the same multiset hold the same elements. */
  lemma SameElements(a: seq<Instructor>, b: seq<Instructor>)
    requires multiset(a) == multiset(b)
    ensures forall x :: x in a <==> x in b
    ensures HasNullPrivileges(a) <==> HasNullPrivileges(b)
  {
    forall x ensures x in a <==> x in b {
      assert x in a <==> x in multiset(a);
    }
    if HasNullPrivileges(a) {
      var m :| 0 <= m < |a| && a[m].privileges.None?;
      assert a[m] in b;
    }
    if HasNullPrivileges(b) {
      var m :| 0 <= m < |b| && b[m].privileges.None?;
      assert b[m] in a;
    }
  }

  // ---------------------------------------------------------------------
  // The store's update by email, and resetting a googleId

  /** The store's updateInstructorByEmail, as its tests pin it: a missing (course, email) key fails
      with EntityDoesNotExist; an updated record with validation errors (`errorsOf`, the field
      validator) fails with InvalidParameters and writes nothing; otherwise it is written. */
  function UpdateByEmailInStore(store: InstructorStore, o: OptionsWithEmail, errorsOf: Instructor -> seq<string>)
    : (r: Outcome<InstructorStore>)
    ensures InstructorKey(o.courseId, o.email) !in store ==> r == Fail(EntityDoesNotExist(ERROR_UPDATE_NON_EXISTENT))
    ensures r.Ok? ==> var k := InstructorKey(o.courseId, o.email);
      k in store && r.value == store[k := UpdatedWithEmail(store[k], o)]
    ensures r.Fail? && InstructorKey(o.courseId, o.email) in store ==> r.failure.InvalidParameters?
  {
    var k := InstructorKey(o.courseId, o.email);
    if k !in store then Fail(EntityDoesNotExist(ERROR_UPDATE_NON_EXISTENT))
    else
      var updated := UpdatedWithEmail(store[k], o);
      if errorsOf(updated) != [] then Fail(InvalidParameters(errorsOf(updated)))
      else Ok(store[k := updated])
  }

  /** The options resetInstructorGoogleId builds, as written: the original email is passed for the
      course id as well as for the email. */
  function ResetOptionsAsWritten(originalEmail: string, courseId: string): OptionsWithEmail
  {
    OptionsWithEmail(originalEmail, originalEmail, Some(None), NO_BASIC_OPTIONS)
  }

  /** The options the method evidently intends: the instructor's own course and email. */
  function ResetOptions(originalEmail: string, courseId: string): OptionsWithEmail
  {
    OptionsWithEmail(courseId, originalEmail, Some(None), NO_BASIC_OPTIONS)
  }

  /** resetInstructorGoogleId as written; an InvalidParametersException becomes an assertion failure. */
  function ResetInstructorGoogleIdAsWritten(store: InstructorStore, originalEmail: string, courseId: string,
                                            errorsOf: Instructor -> seq<string>): (r: Outcome<InstructorStore>)
    ensures r.Ok? ==> var k := InstructorKey(originalEmail, originalEmail);
      k in store && r.value == store[k := store[k].(googleId := None)]
  {
    var r := UpdateByEmailInStore(store, ResetOptionsAsWritten(originalEmail, courseId), errorsOf);
    if r.Fail? && r.failure.InvalidParameters? then Fail(AssertionFailure) else r
  }

  /** As written, resetting the googleId of an existing instructor fails unless the store happens to
      hold a record whose course id is the instructor's email. */
  lemma ResetAsWrittenMissesInstructor(store: InstructorStore, originalEmail: string, courseId: string,
                                       errorsOf: Instructor -> seq<string>)
    requires InstructorKey(courseId, originalEmail) in store
    requires InstructorKey(originalEmail, originalEmail) !in store
    ensures ResetInstructorGoogleIdAsWritten(store, originalEmail, courseId, errorsOf)
         == Fail(EntityDoesNotExist(ERROR_UPDATE_NON_EXISTENT))
  {
  }

  /** A concrete instance: a registered instructor of course "CS101" whose reset fails. */
  lemma ResetAsWrittenCounterexample(errorsOf: Instructor -> seq<string>)
    ensures var i := Defaults(Some("CS101"), Some("ann@x.org")).(googleId := Some("ann.g"));
      var store := map[InstructorKey("CS101", "ann@x.org") := i];
      IsRegistered(i) && ResetInstructorGoogleIdAsWritten(store, "ann@x.org", "CS101", errorsOf).Fail?
  {
    var i := Defaults(Some("CS101"), Some("ann@x.org")).(googleId := Some("ann.g"));
    var store := map[InstructorKey("CS101", "ann@x.org") := i];
    assert InstructorKey("ann@x.org", "ann@x.org") != InstructorKey("CS101", "ann@x.org");
    ResetAsWrittenMissesInstructor(store, "ann@x.org", "CS101", errorsOf);
  }

  /** resetInstructorGoogleId with the course id it is given. */
  function ResetInstructorGoogleId(store: InstructorStore, originalEmail: string, courseId: string,
                                   errorsOf: Instructor -> seq<string>): (r: Outcome<InstructorStore>)
    ensures InstructorKey(courseId, originalEmail) !in store ==> r == Fail(EntityDoesNotExist(ERROR_UPDATE_NON_EXISTENT))
    ensures r.Fail? && InstructorKey(courseId, originalEmail) in store ==> r.failure == AssertionFailure
  {
    var r := UpdateByEmailInStore(store, ResetOptions(originalEmail, courseId), errorsOf);
    if r.Fail? && r.failure.InvalidParameters? then Fail(AssertionFailure) else r
  }

  /** The corrected reset leaves that instructor unregistered, with every other field and every other
      record unchanged. */
  lemma ResetUnregistersInstructor(store: InstructorStore, originalEmail: string, courseId: string,
                                   errorsOf: Instructor -> seq<string>)
    requires InstructorKey(courseId, originalEmail) in store
    requires errorsOf(store[InstructorKey(courseId, originalEmail)].(googleId := None)) == []
    ensures var r := ResetInstructorGoogleId(store, originalEmail, courseId, errorsOf);
      var k := InstructorKey(courseId, originalEmail);
      r.Ok? && k in r.value && !IsRegistered(r.value[k])
      && r.value[k] == store[k].(googleId := None)
      && forall k' | k' in store && k' != k :: k' in r.value && r.value[k'] == store[k']
  {
  }

  // ---------------------------------------------------------------------
  // Update cascades

  /** A response given by or to the instructor, with the giver and recipient types of its question. */
  datatype ResponseRef = ResponseRef(id: string, giverType: ParticipantType, recipientType: ParticipantType)

  /** The calls the cascade makes into the response, comment and session logic. */
  datatype CascadeStep =
    | SetResponseGiver(responseId: string, giver: Option<string>)
    | SetResponseRecipient(responseId: string, recipient: Option<string>)
    | UpdateCommentEmails(courseId: Option<string>, oldEmail: Option<string>, newEmail: Option<string>)
    | UpdateRespondents(oldEmail: Option<string>, newEmail: Option<string>, courseId: Option<string>)

  /** A "from" response whose giver is rewritten: its question is given by instructors or by the creator. */
  predicate RewritesGiver(r: ResponseRef)
  {
    r.giverType == INSTRUCTORS || r.giverType == SELF
  }

  /** A "to" response whose recipient is rewritten: its question goes to instructors, or is
      given by instructors to themselves. */
  predicate RewritesRecipient(r: ResponseRef)
  {
    r.recipientType == INSTRUCTORS || (r.giverType == INSTRUCTORS && r.recipientType == SELF)
  }

  function GiverSteps(from: seq<ResponseRef>, newEmail: Option<string>): (r: seq<CascadeStep>)
    ensures forall s | s in r :: s.SetResponseGiver? && s.giver == newEmail
    ensures forall id :: (SetResponseGiver(id, newEmail) in r
      <==> exists k | 0 <= k < |from| :: from[k].id == id && RewritesGiver(from[k]))
  {
    if |from| == 0 then []
    else
      var n := |from| - 1;
      var rest := GiverSteps(from[..n], newEmail);
      assert forall k | 0 <= k < n :: from[..n][k] == from[k];
      rest + (if RewritesGiver(from[n]) then [SetResponseGiver(from[n].id, newEmail)] else [])
  }

  function RecipientSteps(to: seq<ResponseRef>, newEmail: Option<string>): (r: seq<CascadeStep>)
    ensures forall s | s in r :: s.SetResponseRecipient? && s.recipient == newEmail
    ensures forall id :: (SetResponseRecipient(id, newEmail) in r
      <==> exists k | 0 <= k < |to| :: to[k].id == id && RewritesRecipient(to[k]))
  {
    if |to| == 0 then []
    else
      var n := |to| - 1;
      var rest := RecipientSteps(to[..n], newEmail);
      assert forall k | 0 <= k < n :: to[..n][k] == to[k];
      rest + (if RewritesRecipient(to[n]) then [SetResponseRecipient(to[n].id, newEmail)] else [])
  }

  /** The steps of an email change: the "from" rewrites, the "to" rewrites, then the comments and
      the session respondents. */
  function EmailChangeSteps(original: Instructor, updated: Instructor, from: seq<ResponseRef>, to: seq<ResponseRef>)
    : (r: seq<CascadeStep>)
    ensures |r| >= 2
    ensures r[|r| - 2] == UpdateCommentEmails(updated.courseId, original.email, updated.email)
    ensures r[|r| - 1] == UpdateRespondents(original.email, updated.email, updated.courseId)
  {
    GiverSteps(from, updated.email) + RecipientSteps(to, updated.email)
      + [UpdateCommentEmails(updated.courseId, original.email, updated.email),
         UpdateRespondents(original.email, updated.email, updated.courseId)]
  }

  /** The two loops of the cascade over the responses from and to the instructor. */
  method CascadeEmailChange(original: Instructor, updated: Instructor, from: seq<ResponseRef>, to: seq<ResponseRef>)
    returns (steps: seq<CascadeStep>)
    ensures steps == EmailChangeSteps(original, updated, from, to)
  {
    steps := [];
    var i := 0;
    while i < |from|
      invariant 0 <= i <= |from|
      invariant steps == GiverSteps(from[..i], updated.email)
    {
      assert from[..i + 1][..i] == from[..i];
      if RewritesGiver(from[i]) {
        steps := steps + [SetResponseGiver(from[i].id, updated.email)];
      }
      i := i + 1;
    }
    assert from[..i] == from;
    var givers := steps;
    var j := 0;
    while j < |to|
      invariant 0 <= j <= |to|
      invariant steps == givers + RecipientSteps(to[..j], updated.email)
    {
      assert to[..j + 1][..j] == to[..j];
      if RewritesRecipient(to[j]) {
        steps := steps + [SetResponseRecipient(to[j].id, updated.email)];
      }
      j := j + 1;
    }
    assert to[..j] == to;
    steps := steps + [UpdateCommentEmails(updated.courseId, original.email, updated.email),
                      UpdateRespondents(original.email, updated.email, updated.courseId)];
  }

  /** updateInstructorByGoogleIdCascade, given the stored record (`original`, null when absent), the
      number of the course's instructors displayed to students, the outcome of the store's update
      and the responses from and to the instructor's old email. */
  method UpdateInstructorByGoogleIdCascade(original: Option<Instructor>, o: OptionsWithGoogleId, displayedCount: nat,
                                           stored: Outcome<Instructor>, from: seq<ResponseRef>, to: seq<ResponseRef>)
    returns (r: Outcome<Instructor>, steps: seq<CascadeStep>)
    ensures original.None? ==> r == Fail(EntityDoesNotExist(ERROR_UPDATE_NON_EXISTENT))
    ensures original.Some? ==>
      var check := VerifyAtLeastOneDisplayed(displayedCount, original.value.isDisplayedToStudents,
                                             UpdatedWithGoogleId(original.value, o).isDisplayedToStudents);
      (check.Fail? ==> r == Fail(check.failure)) && (check.Ok? && stored.Fail? ==> r == Fail(stored.failure))
    ensures r.Fail? ==> steps == []
    ensures r.Ok? ==> original.Some? && original.value.email.Some? && r == stored
    ensures r.Ok? && original.value.email == r.value.email ==> steps == []
    ensures r.Ok? && original.value.email != r.value.email ==>
      steps == EmailChangeSteps(original.value, r.value, from, to)
  {
    steps := [];
    if original.None? {
      return Fail(EntityDoesNotExist(ERROR_UPDATE_NON_EXISTENT)), [];
    }
    var edited := UpdatedWithGoogleId(original.value, o);
    var check := VerifyAtLeastOneDisplayed(displayedCount, original.value.isDisplayedToStudents,
                                           edited.isDisplayedToStudents);
    if check.Fail? {
      return Fail(check.failure), [];
    }
    if stored.Fail? {
      return Fail(stored.failure), [];
    }
    if original.value.email.None? {
      return Fail(NullPointer), [];
    }
    r := stored;
    if original.value.email != stored.value.email {
      steps := CascadeEmailChange(original.value, stored.value, from, to);
    }
  }

  /** updateInstructorByEmail: the same existence and display checks, then the store's outcome. */
  function UpdateInstructorByEmail(original: Option<Instructor>, o: OptionsWithEmail, displayedCount: nat,
                                   stored: Outcome<Instructor>): (r: Outcome<Instructor>)
    ensures original.None? ==> r == Fail(EntityDoesNotExist(ERROR_UPDATE_NON_EXISTENT))
    ensures r.Ok? ==> r == stored
    ensures original.Some? && UpdatedWithEmail(original.value, o).isDisplayedToStudents ==> r == stored
  {
    if original.None? then Fail(EntityDoesNotExist(ERROR_UPDATE_NON_EXISTENT))
    else
      var check := VerifyAtLeastOneDisplayed(displayedCount, original.value.isDisplayedToStudents,
                                             UpdatedWithEmail(original.value, o).isDisplayedToStudents);
      if check.Fail? then Fail(check.failure) else stored
  }
}
