// FeedbackSessionsDb: the store of feedback sessions, keyed by session name and
// course id, with soft deletion, update-only-if-changed and the range queries
// the reminder jobs use.

module FeedbackSessionsDb {
  import opened Common
  import opened Const
  import opened FeedbackSessionAttributes
  import Sorting
  import Streams

  /** FeedbackSession.generateId(name, courseId), kept as the pair itself. */
  datatype SessionKey = SessionKey(feedbackSessionName: string, courseId: string)

  /** A stored entity sits under its own key and has the times every saved session has. */
  predicate StoredUnder(k: SessionKey, e: Session)
  {
    e.feedbackSessionName == Some(k.feedbackSessionName) && e.courseId == Some(k.courseId)
    && e.times.startTime.Some? && e.times.endTime.Some?
  }

  /** The fields updateFeedbackSession compares and writes: the instructions, the times and
      the email flags (the opening-email flag has no option and is not written). */
  predicate HasSameAttributes(e: Session, n: Session)
  {
    e.instructions == n.instructions && e.times == n.times
    && e.emails.sentOpenEmail == n.emails.sentOpenEmail
    && e.emails.sentClosingEmail == n.emails.sentClosingEmail
    && e.emails.sentClosedEmail == n.emails.sentClosedEmail
    && e.emails.sentPublishedEmail == n.emails.sentPublishedEmail
    && e.emails.isClosingEmailEnabled == n.emails.isClosingEmailEnabled
    && e.emails.isPublishedEmailEnabled == n.emails.isPublishedEmailEnabled
  }

  /** The entity after the setters of updateFeedbackSession copy the compared fields of `n`. */
  function Saved(e: Session, n: Session): (r: Session)
    ensures HasSameAttributes(r, n)
    ensures r.deletedTime == e.deletedTime && r.respondingStudentList == e.respondingStudentList
    ensures r.respondingInstructorList == e.respondingInstructorList
    ensures r.feedbackSessionName == e.feedbackSessionName && r.courseId == e.courseId
  {
    e.(instructions := n.instructions, times := n.times,
       emails := n.emails.(isOpeningEmailEnabled := e.emails.isOpeningEmailEnabled))
  }

  /** Skipping the write when nothing changed stores what the write would have stored. */
  lemma SkippedWriteIsSameAsWrite(e: Session, n: Session)
    requires HasSameAttributes(e, n)
    ensures Saved(e, n) == e
  {
  }

  /** The attributes updateFeedbackSession validates: the stored session, updated, then sanitized. */
  function UpdatedForSaving(e: Session, opts: UpdateOptions, sanitize: string -> string): Session
  {
    Sanitized(Updated(AttributesOf(e), opts), sanitize)
  }

  /** Sessions ordered by start time (Comparator.comparing(getStartTime)). */
  function ByStartTime(a: Session, b: Session): int
  {
    a.times.startTime.GetOr(0) - b.times.startTime.GetOr(0)
  }

  lemma ByStartTimeIsTotalPreorder()
    ensures Sorting.IsTotalPreorder(ByStartTime)
  {
  }

  predicate IsDeleted(s: Session) { s.IsSessionDeleted() }

  predicate IsNotDeleted(s: Session) { !s.IsSessionDeleted() }

  // Datastore inequality filters leave out entities whose field is null.

  predicate StartsWithin(e: Session, rangeStart: Instant, rangeEnd: Instant)
  {
    e.times.startTime.Some? && rangeStart <= e.times.startTime.value < rangeEnd
  }

  predicate EndsWithin(e: Session, rangeStart: Instant, rangeEnd: Instant)
  {
    e.times.endTime.Some? && rangeStart <= e.times.endTime.value < rangeEnd
  }

  predicate PublishesWithin(e: Session, rangeStart: Instant, rangeEnd: Instant)
  {
    e.times.resultsVisibleFromTime.Some? && rangeStart < e.times.resultsVisibleFromTime.value <= rangeEnd
  }

  class FeedbackSessionsDb {
    var sessions: map<SessionKey, Session>

    ghost predicate Valid()
      reads this
    {
      forall k | k in sessions :: StoredUnder(k, sessions[k])
    }

    constructor (initial: map<SessionKey, Session>)
      requires forall k | k in initial :: StoredUnder(k, initial[k])
      ensures sessions == initial && Valid()
    {
      sessions := initial;
    }

    /** getFeedbackSession: null when the session is absent or soft-deleted. */
    function GetFeedbackSession(courseId: string, feedbackSessionName: string): (r: Option<Session>)
      reads this
      ensures var k := SessionKey(feedbackSessionName, courseId);
              r.None? <==> k !in sessions || sessions[k].IsSessionDeleted()
      ensures r.Some? ==> r.value == AttributesOf(sessions[SessionKey(feedbackSessionName, courseId)])
    {
      var k := SessionKey(feedbackSessionName, courseId);
      if k !in sessions then None
      else
        var fs := AttributesOf(sessions[k]);
        if fs.IsSessionDeleted() then None else Some(fs)
    }

    /** getSoftDeletedFeedbackSession: null when the session is absent or not soft-deleted. */
    function GetSoftDeletedFeedbackSession(courseId: string, feedbackSessionName: string): (r: Option<Session>)
      reads this
      ensures var k := SessionKey(feedbackSessionName, courseId);
              r.None? <==> k !in sessions || !sessions[k].IsSessionDeleted()
      ensures r.Some? ==> r.value == AttributesOf(sessions[SessionKey(feedbackSessionName, courseId)])
    {
      var k := SessionKey(feedbackSessionName, courseId);
      if k !in sessions then None
      else
        var fs := AttributesOf(sessions[k]);
        if !fs.IsSessionDeleted() then None else Some(fs)
    }

    /** A stored session is found by exactly one of the two getters. */
    lemma GettersSplitStoredSessions(courseId: string, feedbackSessionName: string)
      ensures !(GetFeedbackSession(courseId, feedbackSessionName).Some? &&
                GetSoftDeletedFeedbackSession(courseId, feedbackSessionName).Some?)
      ensures SessionKey(feedbackSessionName, courseId) in sessions <==>
                GetFeedbackSession(courseId, feedbackSessionName).Some? ||
                GetSoftDeletedFeedbackSession(courseId, feedbackSessionName).Some?
    {
    }

    /** The attributes of every stored session of a course. */
    function SessionsOfCourse(courseId: string): set<Session>
      reads this
    {
      set k | k in sessions && sessions[k].courseId == Some(courseId) :: AttributesOf(sessions[k])
    }

    /** getFeedbackSessionsForCourse: the course's sessions that are not soft-deleted. */
    function GetFeedbackSessionsForCourse(courseId: string): (r: set<Session>)
      reads this
      ensures forall s | s in r :: !s.IsSessionDeleted() && s.courseId == Some(courseId)
    {
      set s | s in SessionsOfCourse(courseId) && !s.IsSessionDeleted()
    }

    /** getSoftDeletedFeedbackSessionsForCourse: the course's soft-deleted sessions. */
    function GetSoftDeletedFeedbackSessionsForCourse(courseId: string): (r: set<Session>)
      reads this
      ensures forall s | s in r :: s.IsSessionDeleted() && s.courseId == Some(courseId)
    {
      set s | s in SessionsOfCourse(courseId) && s.IsSessionDeleted()
    }

    /** The two course lists partition the course's sessions by isSessionDeleted. */
    lemma CourseListsPartition(courseId: string)
      ensures GetFeedbackSessionsForCourse(courseId) + GetSoftDeletedFeedbackSessionsForCourse(courseId)
              == SessionsOfCourse(courseId)
      ensures GetFeedbackSessionsForCourse(courseId) * GetSoftDeletedFeedbackSessionsForCourse(courseId) == {}
    {
    }

    /** getFeedbackSessionsPossiblyNeedingOpenEmail: started after two days ago, open email
        not sent, not soft-deleted. */
    function PossiblyNeedingOpenEmail(now: Instant): (r: set<Session>)
      reads this
      ensures forall s | s in r :: !s.IsSessionDeleted() && !s.emails.sentOpenEmail
                                   && s.times.startTime.Some? && s.times.startTime.value > now - 2 * MILLIS_PER_DAY
    {
      set e | e in sessions.Values && e.times.startTime.Some? && e.times.startTime.value > now - 2 * MILLIS_PER_DAY
                && !e.emails.sentOpenEmail && !AttributesOf(e).IsSessionDeleted()
            :: AttributesOf(e)
    }

    /** getFeedbackSessionsPossiblyNeedingClosingEmail: ending after two days ago, closing
        email enabled and not sent, not soft-deleted. */
    function PossiblyNeedingClosingEmail(now: Instant): (r: set<Session>)
      reads this
      ensures forall s | s in r :: !s.IsSessionDeleted() && !s.emails.sentClosingEmail && s.emails.isClosingEmailEnabled
                                   && s.times.endTime.Some? && s.times.endTime.value > now - 2 * MILLIS_PER_DAY
    {
      set e | e in sessions.Values && e.times.endTime.Some? && e.times.endTime.value > now - 2 * MILLIS_PER_DAY
                && !e.emails.sentClosingEmail && e.emails.isClosingEmailEnabled && !AttributesOf(e).IsSessionDeleted()
            :: AttributesOf(e)
    }

    /** getFeedbackSessionsPossiblyNeedingClosedEmail: as the closing query, with the closed
        email flag; it too requires the closing email to be enabled. */
    function PossiblyNeedingClosedEmail(now: Instant): (r: set<Session>)
      reads this
      ensures forall s | s in r :: !s.IsSessionDeleted() && !s.emails.sentClosedEmail && s.emails.isClosingEmailEnabled
                                   && s.times.endTime.Some? && s.times.endTime.value > now - 2 * MILLIS_PER_DAY
    {
      set e | e in sessions.Values && e.times.endTime.Some? && e.times.endTime.value > now - 2 * MILLIS_PER_DAY
                && !e.emails.sentClosedEmail && e.emails.isClosingEmailEnabled && !AttributesOf(e).IsSessionDeleted()
            :: AttributesOf(e)
    }

    /** getFeedbackSessionsPossiblyNeedingPublishedEmail: published email enabled and not sent,
        not soft-deleted. */
    function PossiblyNeedingPublishedEmail(): (r: set<Session>)
      reads this
      ensures forall s | s in r :: !s.IsSessionDeleted() && !s.emails.sentPublishedEmail && s.emails.isPublishedEmailEnabled
    {
      set e | e in sessions.Values && !e.emails.sentPublishedEmail && e.emails.isPublishedEmailEnabled
                && !AttributesOf(e).IsSessionDeleted()
            :: AttributesOf(e)
    }

    /** A soft-deleted session is never a reminder candidate. */
    lemma RemindersSkipSoftDeleted(courseId: string, feedbackSessionName: string, now: Instant)
      requires GetSoftDeletedFeedbackSession(courseId, feedbackSessionName).Some?
      ensures var s := GetSoftDeletedFeedbackSession(courseId, feedbackSessionName).value;
              s !in PossiblyNeedingOpenEmail(now) && s !in PossiblyNeedingClosingEmail(now)
              && s !in PossiblyNeedingClosedEmail(now) && s !in PossiblyNeedingPublishedEmail()
    {
    }

    /** getAllOngoingSessions: the sessions ending in (rangeStart, rangeEnd + window) together
        with those starting in (rangeStart - window, rangeEnd); soft-deleted ones are kept. */
    function GetAllOngoingSessions(rangeStart: Instant, rangeEnd: Instant): (r: set<Session>)
      reads this
    {
      var endEntities := set e | e in sessions.Values && e.times.endTime.Some?
                                 && rangeStart < e.times.endTime.value < rangeEnd + FEEDBACK_SESSIONS_SEARCH_WINDOW;
      var startEntities := set e | e in sessions.Values && e.times.startTime.Some?
                                   && rangeStart - FEEDBACK_SESSIONS_SEARCH_WINDOW < e.times.startTime.value < rangeEnd;
      set e | e in (endEntities - startEntities) + startEntities :: AttributesOf(e)
    }

    /** Every session that starts within the search window before rangeEnd and ends after
        rangeStart is returned; everything returned starts or ends inside the widened range. */
    lemma OngoingSessionsCover(rangeStart: Instant, rangeEnd: Instant, k: SessionKey)
      requires k in sessions
      ensures var e := sessions[k];
              e.times.startTime.Some? && e.times.endTime.Some?
              && rangeStart - FEEDBACK_SESSIONS_SEARCH_WINDOW < e.times.startTime.value < rangeEnd
              && e.times.endTime.value > rangeStart
              ==> AttributesOf(e) in GetAllOngoingSessions(rangeStart, rangeEnd)
      ensures forall s | s in GetAllOngoingSessions(rangeStart, rangeEnd) ::
                (s.times.startTime.Some? && rangeStart - FEEDBACK_SESSIONS_SEARCH_WINDOW < s.times.startTime.value < rangeEnd)
                || (s.times.endTime.Some? && rangeStart < s.times.endTime.value < rangeEnd + FEEDBACK_SESSIONS_SEARCH_WINDOW)
    {
      var e := sessions[k];
      assert e in sessions.Values;
    }

    /** The sessions the time-range query finds, as a set. */
    function WithinTimeRange(rangeStart: Instant, rangeEnd: Instant): set<Session>
      reads this
    {
      set e | e in sessions.Values && !e.IsSessionDeleted()
                && (StartsWithin(e, rangeStart, rangeEnd) || EndsWithin(e, rangeStart, rangeEnd)
                    || PublishesWithin(e, rangeStart, rangeEnd))
            :: AttributesOf(e)
    }

    /** getFeedbackSessionsWithinTimeRange: the sessions starting or ending in [rangeStart, rangeEnd)
        and those publishing in (rangeStart, rangeEnd], each once, ordered by start time,
        without the soft-deleted ones. */
    method GetFeedbackSessionsWithinTimeRange(rangeStart: Instant, rangeEnd: Instant) returns (r: seq<Session>)
      ensures Sorting.SortedBy(r, ByStartTime)
      ensures Streams.Distinct(r)
      ensures forall s :: s in r <==> s in WithinTimeRange(rangeStart, rangeEnd)
    {
      var startEntities := set e | e in sessions.Values && StartsWithin(e, rangeStart, rangeEnd);
      var endEntities := set e | e in sessions.Values && EndsWithin(e, rangeStart, rangeEnd);
      var resultsVisibleEntities := set e | e in sessions.Values && PublishesWithin(e, rangeStart, rangeEnd);

      endEntities := endEntities - startEntities;
      resultsVisibleEntities := resultsVisibleEntities - startEntities;
      resultsVisibleEntities := resultsVisibleEntities - endEntities;

      var found := set e | e in startEntities + endEntities + resultsVisibleEntities :: AttributesOf(e);
      FoundIsWithinRange(rangeStart, rangeEnd, found);
      var list := Streams.ListOf(found);
      ByStartTimeIsTotalPreorder();
      Sorting.SortBySorted(list, ByStartTime);
      var sorted := Sorting.SortBy(list, ByStartTime);
      r := Streams.Filter(sorted, IsNotDeleted);
      SortThenFilter(list, sorted, r);
    }

    /** The merged query results, after removeAll and addAll, are the sessions matching one of
        the three conditions. */
    lemma FoundIsWithinRange(rangeStart: Instant, rangeEnd: Instant, found: set<Session>)
      requires var startEntities := set e | e in sessions.Values && StartsWithin(e, rangeStart, rangeEnd);
               var endEntities := set e | e in sessions.Values && EndsWithin(e, rangeStart, rangeEnd);
               var resultsVisibleEntities := set e | e in sessions.Values && PublishesWithin(e, rangeStart, rangeEnd);
               var end1 := endEntities - startEntities;
               var results1 := (resultsVisibleEntities - startEntities) - end1;
               found == set e | e in startEntities + end1 + results1 :: AttributesOf(e)
      ensures forall s :: s in WithinTimeRange(rangeStart, rangeEnd) <==> s in found && IsNotDeleted(s)
    {
      forall s ensures s in WithinTimeRange(rangeStart, rangeEnd) <==> s in found && IsNotDeleted(s) {
        if s in found {
          var e :| e in sessions.Values && AttributesOf(e) == s
                   && (StartsWithin(e, rangeStart, rangeEnd) || EndsWithin(e, rangeStart, rangeEnd)
                       || PublishesWithin(e, rangeStart, rangeEnd));
          assert e.deletedTime == s.deletedTime;
        }
        if s in WithinTimeRange(rangeStart, rangeEnd) {
          var e :| e in sessions.Values && !e.IsSessionDeleted() && AttributesOf(e) == s
                   && (StartsWithin(e, rangeStart, rangeEnd) || EndsWithin(e, rangeStart, rangeEnd)
                       || PublishesWithin(e, rangeStart, rangeEnd));
          assert e.deletedTime == s.deletedTime;
        }
      }
    }

    /** softDeleteFeedbackSession: the deletion time becomes `now`, which is returned. */
    method SoftDeleteFeedbackSession(feedbackSessionName: string, courseId: string, now: Instant)
      returns (r: Outcome<Instant>)
      requires Valid()
      modifies this
      ensures Valid()
      ensures var k := SessionKey(feedbackSessionName, courseId);
              if k in old(sessions) then
                r == Ok(now) && sessions == old(sessions)[k := old(sessions)[k].(deletedTime := Some(now))]
              else
                r == Fail(EntityDoesNotExist(ERROR_UPDATE_NON_EXISTENT)) && sessions == old(sessions)
      ensures r.Ok? ==> GetFeedbackSession(courseId, feedbackSessionName).None?
                        && GetSoftDeletedFeedbackSession(courseId, feedbackSessionName).Some?
    {
      var k := SessionKey(feedbackSessionName, courseId);
      if k !in sessions {
        return Fail(EntityDoesNotExist(ERROR_UPDATE_NON_EXISTENT));
      }
      var sessionEntity := sessions[k].(deletedTime := Some(now));
      sessions := sessions[k := sessionEntity];
      r := Ok(sessionEntity.deletedTime.value);
    }

    /** restoreDeletedFeedbackSession: the deletion time is cleared. */
    method RestoreDeletedFeedbackSession(feedbackSessionName: string, courseId: string)
      returns (r: Outcome<()>)
      requires Valid()
      modifies this
      ensures Valid()
      ensures var k := SessionKey(feedbackSessionName, courseId);
              if k in old(sessions) then
                r == Ok(()) && sessions == old(sessions)[k := old(sessions)[k].(deletedTime := None)]
              else
                r == Fail(EntityDoesNotExist(ERROR_UPDATE_NON_EXISTENT)) && sessions == old(sessions)
      ensures r.Ok? ==> GetFeedbackSession(courseId, feedbackSessionName).Some?
                        && GetSoftDeletedFeedbackSession(courseId, feedbackSessionName).None?
    {
      var k := SessionKey(feedbackSessionName, courseId);
      if k !in sessions {
        return Fail(EntityDoesNotExist(ERROR_UPDATE_NON_EXISTENT));
      }
      sessions := sessions[k := sessions[k].(deletedTime := None)];
      r := Ok(());
    }

    /** deleteFeedbackSession: removes the session; a missing one is no error. */
    method DeleteFeedbackSession(feedbackSessionName: string, courseId: string)
      requires Valid()
      modifies this
      ensures Valid()
      ensures sessions == old(sessions) - {SessionKey(feedbackSessionName, courseId)}
    {
      sessions := sessions - {SessionKey(feedbackSessionName, courseId)};
    }

    /** deleteFeedbackSessions(query): every session of the query's course, or every session
        when the query names no course. */
    method DeleteFeedbackSessions(queryCourseId: Option<string>)
      requires Valid()
      modifies this
      ensures Valid()
      ensures forall k :: k in sessions <==>
                k in old(sessions) && queryCourseId.Some? && old(sessions)[k].courseId != queryCourseId
      ensures forall k | k in sessions :: sessions[k] == old(sessions)[k]
    {
      if queryCourseId.Some? {
        sessions := map k | k in sessions && sessions[k].courseId != queryCourseId :: sessions[k];
      } else {
        sessions := map[];
      }
    }

    /** updateFeedbackSession: EntityDoesNotExist for a missing session; InvalidParameters and
        no write when the updated attributes are invalid; no write and the stored value when
        the compared fields are unchanged; otherwise those fields are written. The deletion
        time and the respondent sets are never written. `optionsText` is the options' toString,
        which the missing-session message ends with. */
    method UpdateFeedbackSession(opts: UpdateOptions, v: Validator, sanitize: string -> string, optionsText: string)
      returns (r: Outcome<Session>)
      requires Valid() && NullMessagesNonEmpty(v)
      modifies this
      ensures Valid()
      ensures var k := SessionKey(opts.feedbackSessionName, opts.courseId);
              if k !in old(sessions) then
                r == Fail(EntityDoesNotExist(ERROR_UPDATE_NON_EXISTENT + optionsText)) && sessions == old(sessions)
              else
                var e := old(sessions)[k];
                var n := UpdatedForSaving(e, opts, sanitize);
                if !IsValid(n, v) then
                  r == Fail(InvalidParameters(InvalidityInfo(n, v))) && sessions == old(sessions)
                else if HasSameAttributes(e, n) then
                  r == Ok(AttributesOf(e)) && sessions == old(sessions)
                else
                  r == Ok(AttributesOf(Saved(e, n))) && sessions == old(sessions)[k := Saved(e, n)]
    {
      var k := SessionKey(opts.feedbackSessionName, opts.courseId);
      if k !in sessions {
        return Fail(EntityDoesNotExist(ERROR_UPDATE_NON_EXISTENT + optionsText));
      }
      var feedbackSession := sessions[k];
      var newAttributes := ValueOf(feedbackSession);
      newAttributes.Update(opts);
      newAttributes.SanitizeForSaving(sanitize);
      var n := newAttributes.State();
      if !IsValid(n, v) {
        return Fail(InvalidParameters(InvalidityInfo(n, v)));
      }
      if HasSameAttributes(feedbackSession, n) {
        return Ok(AttributesOf(feedbackSession));
      }
      feedbackSession := feedbackSession.(instructions := n.instructions);
      feedbackSession := feedbackSession.(times := n.times);
      feedbackSession := feedbackSession.(emails := feedbackSession.emails.(
                           sentOpenEmail := n.emails.sentOpenEmail,
                           sentClosingEmail := n.emails.sentClosingEmail,
                           sentClosedEmail := n.emails.sentClosedEmail,
                           sentPublishedEmail := n.emails.sentPublishedEmail,
                           isClosingEmailEnabled := n.emails.isClosingEmailEnabled,
                           isPublishedEmailEnabled := n.emails.isPublishedEmailEnabled));
      ValidSessionIsComplete(n, v);
      sessions := sessions[k := feedbackSession];
      r := Ok(AttributesOf(feedbackSession));
    }
  }

  /** Sorting a list without repeats and filtering the result keeps it free of repeats, sorted,
      and holding exactly the listed sessions that pass the filter. */
  lemma SortThenFilter(list: seq<Session>, sorted: seq<Session>, r: seq<Session>)
    requires Streams.Distinct(list) && multiset(sorted) == multiset(list)
    requires Sorting.SortedBy(sorted, ByStartTime)
    requires r == Streams.Filter(sorted, IsNotDeleted)
    ensures Sorting.SortedBy(r, ByStartTime) && Streams.Distinct(r)
    ensures forall s :: s in r <==> s in list && IsNotDeleted(s)
  {
    SortedKeepsDistinct(list, sorted);
    Streams.FilterSorted(sorted, IsNotDeleted, ByStartTime);
    Streams.FilterDistinct(sorted, IsNotDeleted);
    forall s ensures s in r <==> s in list && IsNotDeleted(s) {
      if s in r {
        var i :| 0 <= i < |r| && r[i] == s;
        assert s in multiset(sorted);
      }
      if s in list && IsNotDeleted(s) {
        assert s in multiset(list);
        var i :| 0 <= i < |sorted| && sorted[i] == s;
      }
    }
  }

  /** A sort of a list without repeats has no repeats. */
  lemma SortedKeepsDistinct(list: seq<Session>, sorted: seq<Session>)
    requires Streams.Distinct(list) && multiset(sorted) == multiset(list)
    ensures Streams.Distinct(sorted)
  {
    forall i, j | 0 <= i < j < |sorted| ensures sorted[i] != sorted[j] {
      if sorted[i] == sorted[j] {
        var x := sorted[i];
        assert multiset(sorted)[x] >= 2 by {
          assert sorted == sorted[..j] + [x] + sorted[j + 1..];
          assert x in sorted[..j];
        }
        Streams.DistinctCard(list);
        DistinctCount(list, x);
        assert false;
      }
    }
  }

  lemma {:induction false} DistinctCount(s: seq<Session>, x: Session)
    requires Streams.Distinct(s)
    ensures multiset(s)[x] <= 1
    decreases |s|
  {
    if s != [] {
      var tail := s[1..];
      assert s == [s[0]] + tail;
      assert Streams.Distinct(tail) by {
        forall i, j | 0 <= i < j < |tail| ensures tail[i] != tail[j] {
          assert tail[i] == s[i + 1] && tail[j] == s[j + 1];
        }
      }
      DistinctCount(tail, x);
      if s[0] == x {
        assert x !in tail by {
          forall m | 0 <= m < |tail| ensures tail[m] != x {
            assert tail[m] == s[m + 1];
          }
        }
      }
    }
  }
}
