// submission-status-name.pipe.ts: the word the session pages show for a
// session's submission status.

module SubmissionStatusName {
  import opened Common
  import opened FeedbackSessionInfo

  /** transform: the status arrives as received; None stands for a value outside the enum. */
  function Transform(status: Option<SubmissionStatus>): (r: string)
    ensures r == "Awaiting" <==> status == Some(NOT_VISIBLE) || status == Some(VISIBLE_NOT_OPEN)
    ensures r == "Open" <==> status == Some(OPEN) || status == Some(GRACE_PERIOD)
    ensures r == "Closed" <==> status == Some(CLOSED)
    ensures r == "Unknown" <==> status.None?
  {
    match status
    case Some(NOT_VISIBLE) => "Awaiting"
    case Some(VISIBLE_NOT_OPEN) => "Awaiting"
    case Some(OPEN) => "Open"
    case Some(GRACE_PERIOD) => "Open"
    case Some(CLOSED) => "Closed"
    case None => "Unknown"
  }
}
