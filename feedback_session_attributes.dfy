// FeedbackSessionAttributes: a feedback session of a course, its time rules,
// its validation, its sort order and its in-place updates.

module FeedbackSessionAttributes {
  import opened Common
  import opened Const
  import JavaStrings
  import Sorting

  const MILLIS_PER_MINUTE: int := 60_000

  /** The time settings of a session. */
  datatype Schedule = Schedule(
    startTime: Option<Instant>,
    endTime: Option<Instant>,
    sessionVisibleFromTime: Option<Instant>,
    resultsVisibleFromTime: Option<Instant>,
    timeZone: Option<string>,
    gracePeriodMinutes: int)

  /** The email flags of a session: which emails were sent and which are enabled. */
  datatype EmailSettings = EmailSettings(
    sentOpenEmail: bool,
    sentClosingEmail: bool,
    sentClosedEmail: bool,
    sentPublishedEmail: bool,
    isOpeningEmailEnabled: bool,
    isClosingEmailEnabled: bool,
    isPublishedEmailEnabled: bool)

  /** The fields of a session, as held by the attributes object and by its stored entity.
      A Java null is None; the grace period is a whole number of minutes. */
  datatype Session = Session(
    feedbackSessionName: Option<string>,
    courseId: Option<string>,
    creatorEmail: Option<string>,
    instructions: Option<string>,
    createdTime: Option<Instant>,
    deletedTime: Option<Instant>,
    times: Schedule,
    emails: EmailSettings,
    respondingInstructorList: set<string>,
    respondingStudentList: set<string>)
  {
    /** isSessionDeleted: soft-deleted sessions carry a deletion time. */
    predicate IsSessionDeleted() { deletedTime.Some? }

    /** The end of the session including its grace period. */
    function GracedEnd(): Instant
      requires times.endTime.Some?
    {
      times.endTime.value + times.gracePeriodMinutes * MILLIS_PER_MINUTE
    }
  }

  // -----------------------------------------------------------------------
  // Time predicates, with the current instant as an explicit argument.

  /** isClosed: after the end plus the grace period. */
  predicate IsClosed(s: Session, now: Instant)
    requires s.times.endTime.Some?
  {
    now > s.GracedEnd()
  }

  /** isOpened: from the start (inclusive) to the end (exclusive). */
  predicate IsOpened(s: Session, now: Instant)
    requires s.times.startTime.Some? && s.times.endTime.Some?
  {
    s.times.startTime.value <= now < s.times.endTime.value
  }

  /** isInGracePeriod: from the end to the graced end, both inclusive. */
  predicate IsInGracePeriod(s: Session, now: Instant)
    requires s.times.endTime.Some?
  {
    s.times.endTime.value <= now <= s.GracedEnd()
  }

  /** isWaitingToOpen: before the start. */
  predicate IsWaitingToOpen(s: Session, now: Instant)
    requires s.times.startTime.Some?
  {
    now < s.times.startTime.value
  }

  predicate HasVisibleTime(s: Session)
  {
    s.times.sessionVisibleFromTime.Some?
    && (s.times.sessionVisibleFromTime.value == TIME_REPRESENTS_FOLLOW_OPENING ==> s.times.startTime.Some?)
  }

  /** The time the session becomes visible, with the follow-opening sentinel resolved. */
  function ActualVisibleTime(s: Session): (t: Instant)
    requires HasVisibleTime(s)
    ensures s.times.sessionVisibleFromTime.value == TIME_REPRESENTS_FOLLOW_OPENING ==> t == s.times.startTime.value
    ensures s.times.sessionVisibleFromTime.value != TIME_REPRESENTS_FOLLOW_OPENING ==> t == s.times.sessionVisibleFromTime.value
  {
    if s.times.sessionVisibleFromTime.value == TIME_REPRESENTS_FOLLOW_OPENING then s.times.startTime.value
    else s.times.sessionVisibleFromTime.value
  }

  /** isVisible: at or after the visible time. */
  predicate IsVisible(s: Session, now: Instant)
    requires HasVisibleTime(s)
  {
    now >= ActualVisibleTime(s)
  }

  predicate HasPublishTime(s: Session)
  {
    s.times.resultsVisibleFromTime.Some?
    && (s.times.resultsVisibleFromTime.value == TIME_REPRESENTS_FOLLOW_VISIBLE ==> HasVisibleTime(s))
  }

  /** isPublished: the sentinels first, then the publish time itself. */
  predicate IsPublished(s: Session, now: Instant)
    requires HasPublishTime(s)
  {
    var p := s.times.resultsVisibleFromTime.value;
    if p == TIME_REPRESENTS_FOLLOW_VISIBLE then IsVisible(s, now)
    else if p == TIME_REPRESENTS_LATER then false
    else if p == TIME_REPRESENTS_NOW then true
    else now >= p
  }

  /** isManuallyPublished: the results wait for, or were given, an explicit publication. */
  predicate IsManuallyPublished(s: Session)
    requires s.times.resultsVisibleFromTime.Some?
  {
    s.times.resultsVisibleFromTime.value == TIME_REPRESENTS_LATER
    || s.times.resultsVisibleFromTime.value == TIME_REPRESENTS_NOW
  }

  /** With a start not after the end and a non-negative grace period, every instant is
      in exactly one phase: waiting, open, grace period, closed. */
  lemma SessionPhasesPartition(s: Session, now: Instant)
    requires s.times.startTime.Some? && s.times.endTime.Some?
    requires s.times.startTime.value <= s.times.endTime.value && s.times.gracePeriodMinutes >= 0
    ensures IsWaitingToOpen(s, now) || IsOpened(s, now) || IsInGracePeriod(s, now) || IsClosed(s, now)
    ensures !(IsInGracePeriod(s, now) && IsClosed(s, now))
    ensures !(IsOpened(s, now) && (IsInGracePeriod(s, now) || IsClosed(s, now) || IsWaitingToOpen(s, now)))
    ensures !(IsWaitingToOpen(s, now) && (IsInGracePeriod(s, now) || IsClosed(s, now)))
  {
  }

  /** isPublished for each kind of publish time. */
  lemma PublishedBySentinel(s: Session, now: Instant)
    requires HasPublishTime(s)
    ensures s.times.resultsVisibleFromTime.value == TIME_REPRESENTS_LATER ==> !IsPublished(s, now)
    ensures s.times.resultsVisibleFromTime.value == TIME_REPRESENTS_NOW ==> IsPublished(s, now)
    ensures s.times.resultsVisibleFromTime.value == TIME_REPRESENTS_FOLLOW_VISIBLE ==>
              (IsPublished(s, now) <==> IsVisible(s, now))
    ensures !IsResultsSentinel(s.times.resultsVisibleFromTime.value) ==>
              (IsPublished(s, now) <==> now >= s.times.resultsVisibleFromTime.value)
    ensures IsManuallyPublished(s) ==> (IsPublished(s, now) <==> s.times.resultsVisibleFromTime.value == TIME_REPRESENTS_NOW)
  {
  }

  // -----------------------------------------------------------------------
  // DESCENDING_ORDER

  /** DESCENDING_ORDER: later end first, then later start first, then name by compareTo.
      The comparator asserts that the three fields are present. */
  function DescendingOrder(a: Session, b: Session): (r: int)
    requires a.feedbackSessionName.Some? && a.times.startTime.Some? && a.times.endTime.Some?
    requires b.feedbackSessionName.Some? && b.times.startTime.Some? && b.times.endTime.Some?
    ensures r < 0 <==> a.times.endTime.value > b.times.endTime.value
                       || (a.times.endTime.value == b.times.endTime.value && a.times.startTime.value > b.times.startTime.value)
                       || (a.times.endTime.value == b.times.endTime.value && a.times.startTime.value == b.times.startTime.value
                           && JavaStrings.CompareTo(a.feedbackSessionName.value, b.feedbackSessionName.value) < 0)
    ensures r == 0 <==> a.times.endTime == b.times.endTime && a.times.startTime == b.times.startTime
                        && a.feedbackSessionName == b.feedbackSessionName
  {
    var byEnd := if a.times.endTime.value > b.times.endTime.value then -1 else if a.times.endTime.value < b.times.endTime.value then 1 else 0;
    var byStart := if a.times.startTime.value > b.times.startTime.value then -1 else if a.times.startTime.value < b.times.startTime.value then 1 else 0;
    if byEnd != 0 then byEnd
    else if byStart != 0 then byStart
    else JavaStrings.CompareTo(a.feedbackSessionName.value, b.feedbackSessionName.value)
  }

  /** The sort key the comparator reads: end, start and name. */
  datatype SortKey = SortKey(end: Instant, start: Instant, name: string)

  function KeyOf(s: Session): SortKey
    requires s.feedbackSessionName.Some? && s.times.startTime.Some? && s.times.endTime.Some?
  {
    SortKey(s.times.endTime.value, s.times.startTime.value, s.feedbackSessionName.value)
  }

  /** DESCENDING_ORDER on the sort keys. */
  function DescendingKeyOrder(a: SortKey, b: SortKey): int
  {
    if a.end > b.end then -1 else if a.end < b.end then 1
    else if a.start > b.start then -1 else if a.start < b.start then 1
    else JavaStrings.CompareTo(a.name, b.name)
  }

  lemma DescendingOrderByKey(a: Session, b: Session)
    requires a.feedbackSessionName.Some? && a.times.startTime.Some? && a.times.endTime.Some?
    requires b.feedbackSessionName.Some? && b.times.startTime.Some? && b.times.endTime.Some?
    ensures DescendingOrder(a, b) == DescendingKeyOrder(KeyOf(a), KeyOf(b))
  {
  }

  /** DESCENDING_ORDER keeps the Comparator contract, so sorting with it is well defined. */
  lemma DescendingOrderIsTotalPreorder()
    ensures Sorting.IsTotalPreorder(DescendingKeyOrder)
  {
    forall x: SortKey, y: SortKey | DescendingKeyOrder(x, y) >= 0
      ensures DescendingKeyOrder(y, x) <= 0
    {
      JavaStrings.CompareToAntisymmetric(x.name, y.name);
    }
    forall x: SortKey, y: SortKey, z: SortKey | DescendingKeyOrder(x, y) <= 0 && DescendingKeyOrder(y, z) <= 0
      ensures DescendingKeyOrder(x, z) <= 0
    {
      JavaStrings.CompareToTotalOrder(x.name, y.name, z.name);
    }
  }

  // -----------------------------------------------------------------------
  // getInvalidityInfo

  /** The field checks of FieldValidator, whose messages are not part of this model.
      Each returns "" for an acceptable value. */
  datatype Validator = Validator(
    nullFieldError: string -> string,
    sessionNameError: string -> string,
    courseIdError: string -> string,
    emailError: string -> string,
    gracePeriodError: int -> string,
    startEndError: (Instant, Instant) -> string,
    visibleStartError: (Instant, Instant) -> string,
    visiblePublishError: (Instant, Instant) -> string)

  const NAME_FIELD := "feedback session name"
  const COURSE_FIELD := "course ID"
  const INSTRUCTIONS_FIELD := "instructions to students"
  const VISIBLE_FIELD := "time for the session to become visible"
  const ZONE_FIELD := "session time zone"
  const CREATOR_FIELD := "creator's email"
  const CREATED_FIELD := "session creation time"
  const START_FIELD := "submission opening time"
  const END_FIELD := "submission closing time"
  const RESULTS_FIELD := "time for the responses to become visible"

  /** The null-field message of FieldValidator is never empty. */
  predicate NullMessagesNonEmpty(v: Validator)
  {
    v.nullFieldError(NAME_FIELD) != "" && v.nullFieldError(COURSE_FIELD) != ""
    && v.nullFieldError(INSTRUCTIONS_FIELD) != "" && v.nullFieldError(VISIBLE_FIELD) != ""
    && v.nullFieldError(ZONE_FIELD) != "" && v.nullFieldError(CREATOR_FIELD) != ""
    && v.nullFieldError(CREATED_FIELD) != "" && v.nullFieldError(START_FIELD) != ""
    && v.nullFieldError(END_FIELD) != "" && v.nullFieldError(RESULTS_FIELD) != ""
  }

  /** addNonEmptyError. */
  function AddNonEmpty(errors: seq<string>, message: string): (r: seq<string>)
    ensures message == "" ==> r == errors
    ensures message != "" ==> r == errors + [message]
  {
    if message == "" then errors else errors + [message]
  }

  function NullCheck<T>(v: Validator, errors: seq<string>, field: string, value: Option<T>): seq<string>
  {
    AddNonEmpty(errors, if value.None? then v.nullFieldError(field) else "")
  }

  /** The fields checked first, whose absence ends validation. */
  predicate FirstGroupPresent(s: Session)
  {
    s.feedbackSessionName.Some? && s.courseId.Some? && s.instructions.Some? && s.times.sessionVisibleFromTime.Some?
    && s.times.timeZone.Some? && s.creatorEmail.Some? && s.createdTime.Some?
  }

  function FirstGroupErrors(s: Session, v: Validator): seq<string>
  {
    var e1 := NullCheck(v, [], NAME_FIELD, s.feedbackSessionName);
    var e2 := NullCheck(v, e1, COURSE_FIELD, s.courseId);
    var e3 := NullCheck(v, e2, INSTRUCTIONS_FIELD, s.instructions);
    var e4 := NullCheck(v, e3, VISIBLE_FIELD, s.times.sessionVisibleFromTime);
    var e5 := NullCheck(v, e4, ZONE_FIELD, s.times.timeZone);
    var e6 := NullCheck(v, e5, CREATOR_FIELD, s.creatorEmail);
    NullCheck(v, e6, CREATED_FIELD, s.createdTime)
  }

  /** The field-content checks, in their fixed order: name, course, email, grace period. */
  function ContentErrors(s: Session, v: Validator): seq<string>
    requires FirstGroupPresent(s)
  {
    var e1 := AddNonEmpty([], v.sessionNameError(s.feedbackSessionName.value));
    var e2 := AddNonEmpty(e1, v.courseIdError(s.courseId.value));
    var e3 := AddNonEmpty(e2, v.emailError(s.creatorEmail.value));
    AddNonEmpty(e3, v.gracePeriodError(s.times.gracePeriodMinutes))
  }

  predicate SecondGroupPresent(s: Session)
  {
    s.times.startTime.Some? && s.times.endTime.Some? && s.times.resultsVisibleFromTime.Some?
  }

  function SecondGroupErrors(s: Session, v: Validator): seq<string>
    requires FirstGroupPresent(s)
  {
    var e1 := NullCheck(v, ContentErrors(s, v), START_FIELD, s.times.startTime);
    var e2 := NullCheck(v, e1, END_FIELD, s.times.endTime);
    NullCheck(v, e2, RESULTS_FIELD, s.times.resultsVisibleFromTime)
  }

  function TimeOrderErrors(s: Session, v: Validator): seq<string>
    requires FirstGroupPresent(s) && SecondGroupPresent(s)
  {
    var start := s.times.startTime.value;
    var visible := s.times.sessionVisibleFromTime.value;
    var actualVisible := if visible == TIME_REPRESENTS_FOLLOW_OPENING then start else visible;
    var e1 := AddNonEmpty([], v.startEndError(start, s.times.endTime.value));
    var e2 := AddNonEmpty(e1, v.visibleStartError(visible, start));
    AddNonEmpty(e2, v.visiblePublishError(actualVisible, s.times.resultsVisibleFromTime.value))
  }

  /** getInvalidityInfo: three groups of checks; a group with a missing field ends the checks. */
  function InvalidityInfo(s: Session, v: Validator): (errors: seq<string>)
    ensures !FirstGroupPresent(s) ==> errors == FirstGroupErrors(s, v)
  {
    if !FirstGroupPresent(s) then FirstGroupErrors(s, v)
    else if !SecondGroupPresent(s) then SecondGroupErrors(s, v)
    else if SecondGroupErrors(s, v) != [] then SecondGroupErrors(s, v)
    else TimeOrderErrors(s, v)
  }

  lemma NullCheckGrows<T>(v: Validator, errors: seq<string>, field: string, value: Option<T>)
    ensures var r := NullCheck(v, errors, field, value);
      |r| == |errors| + (if value.None? && v.nullFieldError(field) != "" then 1 else 0)
      && r[..|errors|] == errors
      && (forall e | e in r :: e in errors || e == v.nullFieldError(field))
  {
  }

  /** The first group of checks reports null fields only. */
  lemma FirstGroupErrorsAreNullMessages(s: Session, v: Validator)
    ensures forall e | e in FirstGroupErrors(s, v) :: e in NullFieldMessages(v)
  {
    var m := NullFieldMessages(v);
    var e1 := NullCheck(v, [], NAME_FIELD, s.feedbackSessionName);
    NullCheckGrows(v, [], NAME_FIELD, s.feedbackSessionName);
    var e2 := NullCheck(v, e1, COURSE_FIELD, s.courseId);
    NullCheckGrows(v, e1, COURSE_FIELD, s.courseId);
    var e3 := NullCheck(v, e2, INSTRUCTIONS_FIELD, s.instructions);
    NullCheckGrows(v, e2, INSTRUCTIONS_FIELD, s.instructions);
    var e4 := NullCheck(v, e3, VISIBLE_FIELD, s.times.sessionVisibleFromTime);
    NullCheckGrows(v, e3, VISIBLE_FIELD, s.times.sessionVisibleFromTime);
    assert forall e | e in e4 :: e in m;
    var e5 := NullCheck(v, e4, ZONE_FIELD, s.times.timeZone);
    NullCheckGrows(v, e4, ZONE_FIELD, s.times.timeZone);
    var e6 := NullCheck(v, e5, CREATOR_FIELD, s.creatorEmail);
    NullCheckGrows(v, e5, CREATOR_FIELD, s.creatorEmail);
    var e7 := NullCheck(v, e6, CREATED_FIELD, s.createdTime);
    NullCheckGrows(v, e6, CREATED_FIELD, s.createdTime);
  }

  /** The first group reports something as soon as one of its fields is missing. */
  lemma FirstGroupErrorsNonEmpty(s: Session, v: Validator)
    requires NullMessagesNonEmpty(v) && !FirstGroupPresent(s)
    ensures FirstGroupErrors(s, v) != []
  {
    var e1 := NullCheck(v, [], NAME_FIELD, s.feedbackSessionName);
    NullCheckGrows(v, [], NAME_FIELD, s.feedbackSessionName);
    var e2 := NullCheck(v, e1, COURSE_FIELD, s.courseId);
    NullCheckGrows(v, e1, COURSE_FIELD, s.courseId);
    var e3 := NullCheck(v, e2, INSTRUCTIONS_FIELD, s.instructions);
    NullCheckGrows(v, e2, INSTRUCTIONS_FIELD, s.instructions);
    var e4 := NullCheck(v, e3, VISIBLE_FIELD, s.times.sessionVisibleFromTime);
    NullCheckGrows(v, e3, VISIBLE_FIELD, s.times.sessionVisibleFromTime);
    var e5 := NullCheck(v, e4, ZONE_FIELD, s.times.timeZone);
    NullCheckGrows(v, e4, ZONE_FIELD, s.times.timeZone);
    var e6 := NullCheck(v, e5, CREATOR_FIELD, s.creatorEmail);
    NullCheckGrows(v, e5, CREATOR_FIELD, s.creatorEmail);
    NullCheckGrows(v, e6, CREATED_FIELD, s.createdTime);
  }

  /** With a first-group field missing, the result holds null-field messages only, and at least one. */
  lemma InvalidityInfoStopsAtNullFields(s: Session, v: Validator)
    requires NullMessagesNonEmpty(v) && !FirstGroupPresent(s)
    ensures InvalidityInfo(s, v) != []
    ensures forall e | e in InvalidityInfo(s, v) :: e in NullFieldMessages(v)
  {
    FirstGroupErrorsAreNullMessages(s, v);
    FirstGroupErrorsNonEmpty(s, v);
  }

  /** With the first group present, the content checks come first, in the order name, course, email, grace. */
  lemma InvalidityInfoContentOrder(s: Session, v: Validator)
    requires FirstGroupPresent(s)
    ensures var c := ContentErrors(s, v);
      |InvalidityInfo(s, v)| >= |c| && InvalidityInfo(s, v)[..|c|] == c
  {
    var c := ContentErrors(s, v);
    var e1 := NullCheck(v, c, START_FIELD, s.times.startTime);
    var e2 := NullCheck(v, e1, END_FIELD, s.times.endTime);
    NullCheckGrows(v, c, START_FIELD, s.times.startTime);
    NullCheckGrows(v, e1, END_FIELD, s.times.endTime);
    NullCheckGrows(v, e2, RESULTS_FIELD, s.times.resultsVisibleFromTime);
    if SecondGroupPresent(s) && SecondGroupErrors(s, v) == [] {
      assert c == [];
    }
  }

  function NullFieldMessages(v: Validator): set<string>
  {
    {v.nullFieldError(NAME_FIELD), v.nullFieldError(COURSE_FIELD), v.nullFieldError(INSTRUCTIONS_FIELD),
     v.nullFieldError(VISIBLE_FIELD), v.nullFieldError(ZONE_FIELD), v.nullFieldError(CREATOR_FIELD),
     v.nullFieldError(CREATED_FIELD), v.nullFieldError(START_FIELD), v.nullFieldError(END_FIELD),
     v.nullFieldError(RESULTS_FIELD)}
  }

  /** isValid. */
  predicate IsValid(s: Session, v: Validator)
  {
    InvalidityInfo(s, v) == []
  }

  /** A valid session has all its fields present and passes every field check. */
  lemma ValidSessionIsComplete(s: Session, v: Validator)
    requires NullMessagesNonEmpty(v) && IsValid(s, v)
    ensures FirstGroupPresent(s) && SecondGroupPresent(s)
    ensures v.sessionNameError(s.feedbackSessionName.value) == "" && v.courseIdError(s.courseId.value) == ""
    ensures v.emailError(s.creatorEmail.value) == "" && v.gracePeriodError(s.times.gracePeriodMinutes) == ""
    ensures v.startEndError(s.times.startTime.value, s.times.endTime.value) == ""
  {
    if !FirstGroupPresent(s) {
      InvalidityInfoStopsAtNullFields(s, v);
    }
    InvalidityInfoContentOrder(s, v);
    var c := ContentErrors(s, v);
    var e1 := NullCheck(v, c, START_FIELD, s.times.startTime);
    var e2 := NullCheck(v, e1, END_FIELD, s.times.endTime);
    NullCheckGrows(v, c, START_FIELD, s.times.startTime);
    NullCheckGrows(v, e1, END_FIELD, s.times.endTime);
    NullCheckGrows(v, e2, RESULTS_FIELD, s.times.resultsVisibleFromTime);
  }

  // -----------------------------------------------------------------------
  // Respondent sets

  /** An EmailChange of UpdateOptions. */
  datatype EmailChange = EmailChange(oldEmail: string, newEmail: string)

  /** Replaces the old email by the new one, only when the old one is a respondent. */
  function ChangeRespondentEmail(respondents: set<string>, change: EmailChange): set<string>
  {
    if change.oldEmail in respondents then respondents - {change.oldEmail} + {change.newEmail}
    else respondents
  }

  lemma ChangeRespondentEmailEffect(respondents: set<string>, change: EmailChange)
    ensures var r := ChangeRespondentEmail(respondents, change);
      && (change.oldEmail !in respondents ==> r == respondents)
      && (change.oldEmail in respondents ==>
            change.newEmail in r
            && (change.oldEmail != change.newEmail ==> change.oldEmail !in r)
            && forall e | e != change.oldEmail && e != change.newEmail :: (e in r <==> e in respondents))
  {
  }

  /** UpdateOptions of a session: every present option is applied. */
  datatype UpdateOptions = UpdateOptions(
    feedbackSessionName: string,
    courseId: string,
    instructions: Option<string>,
    deletedTime: Option<Instant>,
    startTime: Option<Instant>,
    endTime: Option<Instant>,
    sessionVisibleFromTime: Option<Instant>,
    resultsVisibleFromTime: Option<Instant>,
    timeZone: Option<string>,
    gracePeriodMinutes: Option<int>,
    sentOpenEmail: Option<bool>,
    sentClosingEmail: Option<bool>,
    sentClosedEmail: Option<bool>,
    sentPublishedEmail: Option<bool>,
    isClosingEmailEnabled: Option<bool>,
    isPublishedEmailEnabled: Option<bool>,
    addingStudentRespondent: Option<string>,
    removingStudentRespondent: Option<string>,
    addingInstructorRespondent: Option<string>,
    removingInstructorRespondent: Option<string>,
    updatingStudentRespondent: Option<EmailChange>,
    updatingInstructorRespondent: Option<EmailChange>)

  /** An UpdateOptions.Builder for a session, before any option is set. */
  function NoUpdates(feedbackSessionName: string, courseId: string): UpdateOptions
  {
    UpdateOptions(feedbackSessionName, courseId, None, None, None, None, None, None, None, None,
                  None, None, None, None, None, None, None, None, None, None, None, None)
  }



  /** The respondent set after an add, a remove and an email change, applied in that order. */
  function EditRespondents(respondents: set<string>, adding: Option<string>, removing: Option<string>,
                           updating: Option<EmailChange>): (r: set<string>)
    ensures adding.None? && removing.None? && updating.None? ==> r == respondents
  {
    var added := if adding.Some? then respondents + {adding.value} else respondents;
    var removed := if removing.Some? then added - {removing.value} else added;
    if updating.Some? then ChangeRespondentEmail(removed, updating.value) else removed
  }

  /** The in-place add, remove and email change on one respondent HashSet. */
  method EditRespondentSet(respondents: set<string>, adding: Option<string>, removing: Option<string>,
                           updating: Option<EmailChange>) returns (r: set<string>)
    ensures r == EditRespondents(respondents, adding, removing, updating)
  {
    r := respondents;
    if adding.Some? {
      r := r + {adding.value};
    }
    if removing.Some? {
      r := r - {removing.value};
    }
    if updating.Some? {
      var change := updating.value;
      if change.oldEmail in r {
        r := r - {change.oldEmail};
        r := r + {change.newEmail};
      }
    }
  }

  /** The schedule after update(UpdateOptions). */
  function UpdatedSchedule(t: Schedule, opts: UpdateOptions): Schedule
  {
    Schedule(FillNullable(opts.startTime, t.startTime),
             FillNullable(opts.endTime, t.endTime),
             FillNullable(opts.sessionVisibleFromTime, t.sessionVisibleFromTime),
             FillNullable(opts.resultsVisibleFromTime, t.resultsVisibleFromTime),
             FillNullable(opts.timeZone, t.timeZone),
             Fill(opts.gracePeriodMinutes, t.gracePeriodMinutes))
  }

  /** The email flags after update(UpdateOptions); the opening-email flag has no option. */
  function UpdatedEmails(e: EmailSettings, opts: UpdateOptions): (r: EmailSettings)
    ensures r.isOpeningEmailEnabled == e.isOpeningEmailEnabled
  {
    e.(sentOpenEmail := Fill(opts.sentOpenEmail, e.sentOpenEmail),
       sentClosingEmail := Fill(opts.sentClosingEmail, e.sentClosingEmail),
       sentClosedEmail := Fill(opts.sentClosedEmail, e.sentClosedEmail),
       sentPublishedEmail := Fill(opts.sentPublishedEmail, e.sentPublishedEmail),
       isClosingEmailEnabled := Fill(opts.isClosingEmailEnabled, e.isClosingEmailEnabled),
       isPublishedEmailEnabled := Fill(opts.isPublishedEmailEnabled, e.isPublishedEmailEnabled))
  }

  /** The session after update(UpdateOptions): the present options overwrite their fields, then
      the respondent sets take the add, the remove and the email change. The keys, the creator
      and the creation time have no option. */
  function Updated(s: Session, opts: UpdateOptions): (r: Session)
    ensures r.feedbackSessionName == s.feedbackSessionName && r.courseId == s.courseId
    ensures r.creatorEmail == s.creatorEmail && r.createdTime == s.createdTime
  {
    s.(instructions := FillNullable(opts.instructions, s.instructions),
       deletedTime := FillNullable(opts.deletedTime, s.deletedTime),
       times := UpdatedSchedule(s.times, opts),
       emails := UpdatedEmails(s.emails, opts),
       respondingStudentList := EditRespondents(s.respondingStudentList, opts.addingStudentRespondent,
                                                opts.removingStudentRespondent, opts.updatingStudentRespondent),
       respondingInstructorList := EditRespondents(s.respondingInstructorList, opts.addingInstructorRespondent,
                                                   opts.removingInstructorRespondent, opts.updatingInstructorRespondent))
  }

  /** An update whose options are all absent leaves the session as it was. */
  lemma UpdatedWithoutOptions(s: Session, name: string, course: string)
    ensures Updated(s, NoUpdates(name, course)) == s
  {
  }

  /** The session after sanitizeForSaving: only the instructions pass through the sanitizer. */
  function Sanitized(s: Session, sanitizeForRichText: string -> string): (r: Session)
    ensures r.instructions.Some? <==> s.instructions.Some?
    ensures r.(instructions := s.instructions) == s
  {
    if s.instructions.Some? then s.(instructions := Some(sanitizeForRichText(s.instructions.value))) else s
  }

  /** valueOf(entity): the attributes of a stored session; a null instructions text becomes "". */
  function AttributesOf(e: Session): (r: Session)
    ensures r.instructions.Some?
    ensures r.(instructions := e.instructions) == e
  {
    e.(instructions := Some(e.instructions.GetOr("")))
  }

  /** The FeedbackSessionAttributes object. */
  class FeedbackSessionAttributes {
    var feedbackSessionName: Option<string>
    var courseId: Option<string>
    var creatorEmail: Option<string>
    var instructions: Option<string>
    var createdTime: Option<Instant>
    var deletedTime: Option<Instant>
    var times: Schedule
    var emails: EmailSettings
    var respondingInstructorList: set<string>
    var respondingStudentList: set<string>

    /** The current field values (toEntity). */
    function State(): Session
      reads this
    {
      Session(feedbackSessionName, courseId, creatorEmail, instructions, createdTime, deletedTime,
              times, emails, respondingInstructorList, respondingStudentList)
    }

    /** builder(name, courseId, creatorEmail): the defaults of the private constructor, then the three keys. */
    constructor (name: Option<string>, course: Option<string>, creator: Option<string>)
      ensures State() == Session(name, course, creator, Some(""), None, None,
                                 Schedule(None, None, None, None, Some(DEFAULT_TIME_ZONE), 0),
                                 EmailSettings(false, false, false, false, true, true, true), {}, {})
    {
      feedbackSessionName := name;
      courseId := course;
      creatorEmail := creator;
      instructions := Some("");
      createdTime := None;
      deletedTime := None;
      times := Schedule(None, None, None, None, Some(DEFAULT_TIME_ZONE), 0);
      emails := EmailSettings(false, false, false, false, true, true, true);
      respondingInstructorList := {};
      respondingStudentList := {};
    }

    /** Builder.withInstructions: null becomes "". */
    method WithInstructions(value: Option<string>)
      modifies this
      ensures State() == old(State()).(instructions := Some(value.GetOr("")))
    {
      instructions := Some(value.GetOr(""));
    }

    /** Builder.withCreatedTime and withDeletedTime: a null time is ignored. */
    method WithCreatedAndDeletedTime(created: Option<Instant>, deleted: Option<Instant>)
      modifies this
      ensures State() == old(State()).(createdTime := FillNullable(created, old(createdTime)),
                                       deletedTime := FillNullable(deleted, old(deletedTime)))
    {
      createdTime := FillNullable(created, createdTime);
      deletedTime := FillNullable(deleted, deletedTime);
    }

    /** Builder.withStartTime, withEndTime, withSessionVisibleFromTime and withResultsVisibleFromTime:
        a null time is ignored; then withTimeZone and withGracePeriodMinutes. */
    method WithSchedule(t: Schedule)
      modifies this
      ensures State() == old(State()).(times := Schedule(
                FillNullable(t.startTime, old(times).startTime),
                FillNullable(t.endTime, old(times).endTime),
                FillNullable(t.sessionVisibleFromTime, old(times).sessionVisibleFromTime),
                FillNullable(t.resultsVisibleFromTime, old(times).resultsVisibleFromTime),
                t.timeZone, t.gracePeriodMinutes))
    {
      times := times.(startTime := FillNullable(t.startTime, times.startTime));
      times := times.(endTime := FillNullable(t.endTime, times.endTime));
      times := times.(sessionVisibleFromTime := FillNullable(t.sessionVisibleFromTime, times.sessionVisibleFromTime));
      times := times.(resultsVisibleFromTime := FillNullable(t.resultsVisibleFromTime, times.resultsVisibleFromTime));
      times := times.(timeZone := t.timeZone, gracePeriodMinutes := t.gracePeriodMinutes);
    }

    /** Builder.withRespondingInstructorList and withRespondingStudentList: null becomes the empty set. */
    method WithRespondents(instructors: Option<set<string>>, students: Option<set<string>>)
      modifies this
      ensures State() == old(State()).(respondingInstructorList := instructors.GetOr({}),
                                       respondingStudentList := students.GetOr({}))
    {
      respondingInstructorList := instructors.GetOr({});
      respondingStudentList := students.GetOr({});
    }

    /** update(UpdateOptions): the present options overwrite their fields, then the respondent
        sets take the add, the remove and the email change. The keys, the creator and the
        creation time have no option. */
    method Update(opts: UpdateOptions)
      modifies this
      ensures State() == Updated(old(State()), opts)
    {
      instructions := FillNullable(opts.instructions, instructions);
      deletedTime := FillNullable(opts.deletedTime, deletedTime);
      times := UpdatedSchedule(times, opts);
      emails := UpdatedEmails(emails, opts);

      respondingStudentList := EditRespondentSet(respondingStudentList, opts.addingStudentRespondent,
                                                 opts.removingStudentRespondent, opts.updatingStudentRespondent);
      respondingInstructorList := EditRespondentSet(respondingInstructorList, opts.addingInstructorRespondent,
                                                    opts.removingInstructorRespondent, opts.updatingInstructorRespondent);
    }

    /** sanitizeForSaving: the instructions go through the rich-text sanitizer. */
    method SanitizeForSaving(sanitizeForRichText: string -> string)
      modifies this
      ensures State() == Sanitized(old(State()), sanitizeForRichText)
    {
      if instructions.Some? {
        instructions := Some(sanitizeForRichText(instructions.value));
      }
    }
  }

  /** valueOf(entity): the builder applied to every stored field; of those, only a null
      instructions text is changed (to ""). */
  method ValueOf(e: Session) returns (a: FeedbackSessionAttributes)
    ensures fresh(a)
    ensures a.State() == AttributesOf(e)
  {
    a := new FeedbackSessionAttributes(e.feedbackSessionName, e.courseId, e.creatorEmail);
    a.WithInstructions(e.instructions);
    a.WithCreatedAndDeletedTime(e.createdTime, e.deletedTime);
    a.WithSchedule(e.times);
    a.emails := e.emails;
    a.WithRespondents(Some(e.respondingInstructorList), Some(e.respondingStudentList));
  }
}
