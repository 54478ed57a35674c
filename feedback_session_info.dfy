// FeedbackSessionInfo: the API view of a session. The response maps the stored
// sentinels and time predicates to settings and a submission status; the request
// maps the settings back to stored instants.

module FeedbackSessionInfo {
  import opened Common
  import opened Const
  import opened FeedbackSessionAttributes

  datatype SessionVisibleSetting = CUSTOM | AT_OPEN
  datatype ResponseVisibleSetting = CUSTOM | AT_VISIBLE | LATER
  datatype SubmissionStatus = NOT_VISIBLE | VISIBLE_NOT_OPEN | OPEN | CLOSED | GRACE_PERIOD

  /** FeedbackSessionResponse: the session as sent to the web client. */
  datatype SessionResponse = SessionResponse(
    courseId: Option<string>,
    timeZone: string,
    feedbackSessionName: Option<string>,
    instructions: Option<string>,
    submissionStartTimestamp: int,
    submissionEndTimestamp: int,
    gracePeriod: int,
    sessionVisibleSetting: SessionVisibleSetting,
    customSessionVisibleTimestamp: Option<int>,
    responseVisibleSetting: ResponseVisibleSetting,
    customResponseVisibleTimestamp: Option<int>,
    submissionStatus: SubmissionStatus,
    publishStatus: string,
    isClosingEmailEnabled: bool,
    isPublishedEmailEnabled: bool)

  /** The fields the response constructor dereferences. */
  predicate Presentable(s: Session)
  {
    s.times.timeZone.Some? && s.times.startTime.Some? && s.times.endTime.Some?
    && HasVisibleTime(s) && HasPublishTime(s)
  }

  /** The status the successive overriding assignments leave: grace period, else closed,
      else open, else visible-not-open, else not visible. */
  function StatusOf(s: Session, now: Instant): SubmissionStatus
    requires Presentable(s)
  {
    if IsInGracePeriod(s, now) then GRACE_PERIOD
    else if IsClosed(s, now) then CLOSED
    else if IsOpened(s, now) then OPEN
    else if IsVisible(s, now) then VISIBLE_NOT_OPEN
    else NOT_VISIBLE
  }

  /** The FeedbackSessionResponse constructor. */
  method Response(s: Session, now: Instant) returns (r: SessionResponse)
    requires Presentable(s)
    ensures r.courseId == s.courseId && r.timeZone == s.times.timeZone.value
    ensures r.feedbackSessionName == s.feedbackSessionName
    ensures r.submissionStatus == StatusOf(s, now)
    ensures r.sessionVisibleSetting == AT_OPEN <==> s.times.sessionVisibleFromTime.value == TIME_REPRESENTS_FOLLOW_OPENING
    ensures r.sessionVisibleSetting == SessionVisibleSetting.CUSTOM ==> r.customSessionVisibleTimestamp == s.times.sessionVisibleFromTime
    ensures r.sessionVisibleSetting == AT_OPEN ==> r.customSessionVisibleTimestamp.None?
    ensures r.responseVisibleSetting == AT_VISIBLE <==> s.times.resultsVisibleFromTime.value == TIME_REPRESENTS_FOLLOW_VISIBLE
    ensures r.responseVisibleSetting == LATER <==> s.times.resultsVisibleFromTime.value == TIME_REPRESENTS_LATER
    ensures r.responseVisibleSetting == ResponseVisibleSetting.CUSTOM ==> r.customResponseVisibleTimestamp == s.times.resultsVisibleFromTime
    ensures r.responseVisibleSetting != ResponseVisibleSetting.CUSTOM ==> r.customResponseVisibleTimestamp.None?
    ensures r.publishStatus == (if IsPublished(s, now) then "Published" else "Not Published")
    ensures r.submissionStartTimestamp == s.times.startTime.value && r.submissionEndTimestamp == s.times.endTime.value
    ensures r.gracePeriod == s.times.gracePeriodMinutes && r.instructions == s.instructions
    ensures r.isClosingEmailEnabled == s.emails.isClosingEmailEnabled
    ensures r.isPublishedEmailEnabled == s.emails.isPublishedEmailEnabled
  {
    var sessionVisibleSetting: SessionVisibleSetting;
    var customSessionVisibleTimestamp: Option<int> := None;
    var sessionVisibleTime := s.times.sessionVisibleFromTime.value;
    if sessionVisibleTime == TIME_REPRESENTS_FOLLOW_OPENING {
      sessionVisibleSetting := AT_OPEN;
    } else {
      sessionVisibleSetting := SessionVisibleSetting.CUSTOM;
      customSessionVisibleTimestamp := Some(sessionVisibleTime);
    }

    var responseVisibleSetting: ResponseVisibleSetting;
    var customResponseVisibleTimestamp: Option<int> := None;
    var responseVisibleTime := s.times.resultsVisibleFromTime.value;
    if responseVisibleTime == TIME_REPRESENTS_FOLLOW_VISIBLE {
      responseVisibleSetting := AT_VISIBLE;
    } else if responseVisibleTime == TIME_REPRESENTS_LATER {
      responseVisibleSetting := ResponseVisibleSetting.LATER;
    } else {
      responseVisibleSetting := ResponseVisibleSetting.CUSTOM;
      customResponseVisibleTimestamp := Some(responseVisibleTime);
    }

    var status := NOT_VISIBLE;
    if !IsVisible(s, now) {
      status := NOT_VISIBLE;
    }
    if IsVisible(s, now) && !IsOpened(s, now) {
      status := VISIBLE_NOT_OPEN;
    }
    if IsOpened(s, now) {
      status := OPEN;
    }
    if IsClosed(s, now) {
      status := CLOSED;
    }
    if IsInGracePeriod(s, now) {
      status := GRACE_PERIOD;
    }

    var publishStatus := if IsPublished(s, now) then "Published" else "Not Published";

    r := SessionResponse(s.courseId, s.times.timeZone.value, s.feedbackSessionName, s.instructions,
                         s.times.startTime.value, s.times.endTime.value, s.times.gracePeriodMinutes,
                         sessionVisibleSetting, customSessionVisibleTimestamp,
                         responseVisibleSetting, customResponseVisibleTimestamp,
                         status, publishStatus, s.emails.isClosingEmailEnabled, s.emails.isPublishedEmailEnabled);
  }

  /** For a well-ordered session (start not after end, grace not negative) the status
      follows the session's phase and the visibility. */
  lemma StatusByPhase(s: Session, now: Instant)
    requires Presentable(s)
    requires s.times.startTime.value <= s.times.endTime.value && s.times.gracePeriodMinutes >= 0
    ensures StatusOf(s, now) == OPEN <==> IsOpened(s, now)
    ensures StatusOf(s, now) == GRACE_PERIOD <==> IsInGracePeriod(s, now)
    ensures StatusOf(s, now) == CLOSED <==> IsClosed(s, now)
    ensures StatusOf(s, now) == VISIBLE_NOT_OPEN <==> IsWaitingToOpen(s, now) && IsVisible(s, now)
    ensures StatusOf(s, now) == NOT_VISIBLE <==> IsWaitingToOpen(s, now) && !IsVisible(s, now)
  {
    SessionPhasesPartition(s, now);
  }

  // -----------------------------------------------------------------------
  // FeedbackSessionBasicRequest

  /** FeedbackSessionBasicRequest: the session fields the web client sends. */
  datatype BasicRequest = BasicRequest(
    instructions: Option<string>,
    submissionStartTimestamp: int,
    submissionEndTimestamp: int,
    gracePeriod: int,
    sessionVisibleSetting: Option<SessionVisibleSetting>,
    customSessionVisibleTimestamp: Option<int>,
    responseVisibleSetting: Option<ResponseVisibleSetting>,
    customResponseVisibleTimestamp: Option<int>,
    isClosingEmailEnabled: bool,
    isPublishedEmailEnabled: bool)

  /** getSessionVisibleFromTime: the inverse of the response's visible setting. */
  function SessionVisibleFromTime(req: BasicRequest): (r: Outcome<Instant>)
    ensures req.sessionVisibleSetting == Some(AT_OPEN) ==> r == Ok(TIME_REPRESENTS_FOLLOW_OPENING)
    ensures req.sessionVisibleSetting == Some(SessionVisibleSetting.CUSTOM) && req.customSessionVisibleTimestamp.Some? ==>
              r == Ok(req.customSessionVisibleTimestamp.value)
    ensures req.sessionVisibleSetting.None? ==> r.Fail?
  {
    match req.sessionVisibleSetting
    case None => Fail(NullPointer)
    case Some(AT_OPEN) => Ok(TIME_REPRESENTS_FOLLOW_OPENING)
    case Some(CUSTOM) =>
      if req.customSessionVisibleTimestamp.None? then Fail(NullPointer)
      else Ok(req.customSessionVisibleTimestamp.value)
  }

  /** getResultsVisibleFromTime: the inverse of the response's results setting. */
  function ResultsVisibleFromTime(req: BasicRequest): (r: Outcome<Instant>)
    ensures req.responseVisibleSetting == Some(AT_VISIBLE) ==> r == Ok(TIME_REPRESENTS_FOLLOW_VISIBLE)
    ensures req.responseVisibleSetting == Some(ResponseVisibleSetting.LATER) ==> r == Ok(TIME_REPRESENTS_LATER)
    ensures req.responseVisibleSetting == Some(ResponseVisibleSetting.CUSTOM) && req.customResponseVisibleTimestamp.Some? ==>
              r == Ok(req.customResponseVisibleTimestamp.value)
    ensures req.responseVisibleSetting.None? ==> r.Fail?
  {
    match req.responseVisibleSetting
    case None => Fail(NullPointer)
    case Some(AT_VISIBLE) => Ok(TIME_REPRESENTS_FOLLOW_VISIBLE)
    case Some(LATER) => Ok(TIME_REPRESENTS_LATER)
    case Some(CUSTOM) =>
      if req.customResponseVisibleTimestamp.None? then Fail(NullPointer)
      else Ok(req.customResponseVisibleTimestamp.value)
  }

  /** validate: the message of the first failed check, or None. */
  function ValidationError(req: BasicRequest): (r: Option<string>)
    ensures r.None? <==> Acceptable(req)
  {
    if req.instructions.None? then Some("Instructions cannot be null")
    else if req.submissionStartTimestamp <= 0 then Some("Start timestamp should be more than zero")
    else if req.submissionEndTimestamp <= 0 then Some("End timestamp should be more than zero")
    else if req.sessionVisibleSetting.None? then Some("sessionVisibleSetting cannot be null")
    else if req.sessionVisibleSetting == Some(SessionVisibleSetting.CUSTOM) && req.customSessionVisibleTimestamp.None? then
      Some("session visible timestamp should not be null")
    else if req.sessionVisibleSetting == Some(SessionVisibleSetting.CUSTOM) && req.customSessionVisibleTimestamp.value <= 0 then
      Some("session visible timestamp should be more than zero")
    else if req.responseVisibleSetting.None? then Some("responseVisibleSetting cannot be null")
    else if req.responseVisibleSetting == Some(ResponseVisibleSetting.CUSTOM) && req.customResponseVisibleTimestamp.None? then
      Some("response visible timestamp should not be null")
    else if req.responseVisibleSetting == Some(ResponseVisibleSetting.CUSTOM) && req.customResponseVisibleTimestamp.value <= 0 then
      Some("response visible timestamp should be more than zero")
    else None
  }

  /** The checks of validate: instructions present, both submission timestamps positive, both
      visibility settings present, and a positive timestamp for each custom setting. */
  predicate Acceptable(req: BasicRequest)
  {
    req.instructions.Some? && req.submissionStartTimestamp > 0 && req.submissionEndTimestamp > 0
    && req.sessionVisibleSetting.Some? && req.responseVisibleSetting.Some?
    && (req.sessionVisibleSetting.value == SessionVisibleSetting.CUSTOM ==>
          req.customSessionVisibleTimestamp.Some? && req.customSessionVisibleTimestamp.value > 0)
    && (req.responseVisibleSetting.value == ResponseVisibleSetting.CUSTOM ==>
          req.customResponseVisibleTimestamp.Some? && req.customResponseVisibleTimestamp.value > 0)
  }

  /** validate throws InvalidHttpRequestBodyException on the first failed check. */
  function Validate(req: BasicRequest): (r: Outcome<BasicRequest>)
    ensures r.Ok? <==> Acceptable(req)
    ensures r.Ok? ==> r.value == req
    ensures r.Fail? ==> r.failure.InvalidHttpRequestBody?
  {
    var e := ValidationError(req);
    if e.Some? then Fail(InvalidHttpRequestBody(e.value)) else Ok(req)
  }

  /** A validated request always yields both stored instants; custom ones are positive. */
  lemma ValidRequestResolves(req: BasicRequest)
    requires Validate(req).Ok?
    ensures SessionVisibleFromTime(req).Ok? && ResultsVisibleFromTime(req).Ok?
    ensures req.sessionVisibleSetting == Some(SessionVisibleSetting.CUSTOM) ==> SessionVisibleFromTime(req).value > 0
    ensures req.responseVisibleSetting == Some(ResponseVisibleSetting.CUSTOM) ==> ResultsVisibleFromTime(req).value > 0
  {
  }

  /** The request built from a response's settings gives back the stored instants. */
  function RequestOf(r: SessionResponse): BasicRequest
  {
    BasicRequest(r.instructions, r.submissionStartTimestamp, r.submissionEndTimestamp, r.gracePeriod,
                 Some(r.sessionVisibleSetting), r.customSessionVisibleTimestamp,
                 Some(r.responseVisibleSetting), r.customResponseVisibleTimestamp,
                 r.isClosingEmailEnabled, r.isPublishedEmailEnabled)
  }

  /** Round trip: the settings of the response resolve to the session's own stored times,
      the NOW sentinel included (it travels as a custom timestamp). */
  method ResponseRoundTrip(s: Session, now: Instant) returns (req: BasicRequest)
    requires Presentable(s)
    ensures SessionVisibleFromTime(req) == Ok(s.times.sessionVisibleFromTime.value)
    ensures ResultsVisibleFromTime(req) == Ok(s.times.resultsVisibleFromTime.value)
    ensures req.submissionStartTimestamp == s.times.startTime.value
    ensures req.submissionEndTimestamp == s.times.endTime.value
  {
    var r := Response(s, now);
    req := RequestOf(r);
  }
}
