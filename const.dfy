// The application constants the core refers to. The sentinel instants are the
// dates the application uses (1970-01-01, 1970-02-14, 1970-06-22, 1970-12-31 and
// 2011-01-01, in milliseconds) and the limits are its own. Const.java is not part
// of this model, so the strings are stand-ins; the proofs use only that every two
// of them the code compares are distinct.

module Const {
  import opened Common

  // Sentinel instants stored in the session time fields.
  const TIME_REPRESENTS_LATER: Instant := 0
  const TIME_REPRESENTS_NOW: Instant := 3_801_600_000
  const TIME_REPRESENTS_FOLLOW_VISIBLE: Instant := 14_860_800_000
  const TIME_REPRESENTS_FOLLOW_OPENING: Instant := 31_449_600_000
  const TIME_REPRESENTS_DEFAULT_TIMESTAMP: Instant := 1_293_840_000_000

  /** The distinguished values of a session's results-visible time. */
  predicate IsResultsSentinel(t: Instant)
  {
    t == TIME_REPRESENTS_LATER || t == TIME_REPRESENTS_NOW || t == TIME_REPRESENTS_FOLLOW_VISIBLE
  }

  const MILLIS_PER_DAY: int := 86_400_000

  /** The extra search window of the ongoing-sessions query: 30 days. */
  const FEEDBACK_SESSIONS_SEARCH_WINDOW: int := 30 * MILLIS_PER_DAY

  /** The message prefix of a failed update or deletion of a missing entity. */
  const ERROR_UPDATE_NON_EXISTENT: string := "Trying to update non-existent Entity: "

  const DEFAULT_TIME_ZONE: string := "UTC"
  const DEFAULT_SECTION: string := "None"
  const NO_SPECIFIC_SECTION: string := "No specific section"
  const USER_TEAM_FOR_INSTRUCTOR: string := "Instructors"
  const USER_NOBODY_TEXT: string := "-"
  const USER_UNKNOWN_TEXT: string := "Unknown user"
  const USER_IS_NOBODY: string := "%NOBODY%"
  const USER_IS_TEAM: string := "%TEAM%"
  const USER_IS_MISSING: string := "%MISSING%"
  const GENERAL_QUESTION: string := "%GENERAL%"
  const TEAM_OF_EMAIL_OWNER: string := "'s Team"
  const DISPLAYED_NAME_FOR_ANONYMOUS_PARTICIPANT: string := "Anonymous"
  const STUDENT_COURSE_STATUS_JOINED: string := "Joined"
  const STUDENT_COURSE_STATUS_YET_TO_JOIN: string := "Yet to join"
  const ROLE_COOWNER: string := "Co-owner"
  const ROLE_CUSTOM: string := "Custom"
  const INSTRUCTOR_FEEDBACK_RESULTS_MISSING_RESPONSE: string := "No Response"

  // The profile reminders shown to a student (Const.StatusMessages).
  const STUDENT_UPDATE_PROFILE: string := "Complete your profile"
  const STUDENT_UPDATE_PROFILE_SHORTNAME: string := "Add a short name"
  const STUDENT_UPDATE_PROFILE_EMAIL: string := "Add a long-term email"
  const STUDENT_UPDATE_PROFILE_PICTURE: string := "Add a profile picture"
  const STUDENT_UPDATE_PROFILE_MOREINFO: string := "Add more information"
  const STUDENT_UPDATE_PROFILE_NATIONALITY: string := "Add a nationality"

  /** FeedbackParticipantType: who gives, receives or may see a response. */
  datatype ParticipantType =
    | SELF
    | STUDENTS
    | INSTRUCTORS
    | TEAMS
    | OWN_TEAM
    | OWN_TEAM_MEMBERS
    | OWN_TEAM_MEMBERS_INCLUDING_SELF
    | RECEIVER
    | RECEIVER_TEAM_MEMBERS
    | NONE

  /** FeedbackQuestionType. */
  datatype QuestionType =
    | TEXT | MCQ | MSQ | NUMSCALE | CONSTSUM | CONTRIB | RUBRIC | RANK_OPTIONS | RANK_RECIPIENTS
}
