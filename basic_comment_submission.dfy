// BasicCommentSubmissionAction: the guards a participant comment submission
// goes through. Each either passes or throws: comments only on MCQ and MSQ
// questions, at most one participant comment per response, and only on a
// response the submitting student or instructor gave.

module BasicCommentSubmission {
  import opened Common
  import opened Const
  import FeedbackQuestionAttributes
  import FeedbackResponseAttributes
  import FeedbackResponseCommentAttributes
  import StudentAttributes
  import InstructorAttributes

  type Question = FeedbackQuestionAttributes.Question
  type Response = FeedbackResponseAttributes.Response
  type Comment = FeedbackResponseCommentAttributes.Comment
  type Student = StudentAttributes.Student
  type Instructor = InstructorAttributes.Instructor

  const ERROR_INVALID_QUESTION_TYPE: string := "Invalid question type for comment in submission"
  const ERROR_COMMENT_EXISTS: string := "Comment has been created for the response in submission"
  const NOT_ACCESSIBLE: string := "] is not accessible to "

  /** The message of the UnauthorizedAccessException for a response and the one refused. */
  function NotAccessible(response: Response, who: Option<string>): string
  {
    "Response [" + JStr(response.id) + NOT_ACCESSIBLE + JStr(who)
  }

  /** validQuestionTypeForCommentInSubmission: only MCQ and MSQ questions take participant
      comments; any other type, or none, is an invalid HTTP parameter. */
  function ValidQuestionTypeForComment(questionType: Option<QuestionType>): (r: Outcome<()>)
    ensures r.Ok? <==> questionType == Some(MCQ) || questionType == Some(MSQ)
    ensures r.Fail? ==> r.failure == InvalidHttpParameter(ERROR_INVALID_QUESTION_TYPE)
  {
    if questionType != Some(MCQ) && questionType != Some(MSQ) then
      Fail(InvalidHttpParameter(ERROR_INVALID_QUESTION_TYPE))
    else Ok(())
  }

  /** verifyCommentNotExist, with getFeedbackResponseCommentForResponseFromParticipant given as
      `participantCommentFor`: a response that already has a participant comment is an invalid
      HTTP parameter. */
  function VerifyCommentNotExist(participantCommentFor: string -> Option<Comment>, feedbackResponseId: string)
    : (r: Outcome<()>)
    ensures r.Ok? <==> participantCommentFor(feedbackResponseId).None?
    ensures r.Fail? ==> r.failure == InvalidHttpParameter(ERROR_COMMENT_EXISTS)
  {
    var comment := participantCommentFor(feedbackResponseId);
    if comment.Some? then Fail(InvalidHttpParameter(ERROR_COMMENT_EXISTS)) else Ok(())
  }

  /** response.getGiver().equals(other): a null giver throws, a null `other` is never equal. */
  function GiverEquals(response: Response, other: Option<string>): (r: Outcome<bool>)
    ensures r.Fail? <==> response.giver.None?
    ensures r.Fail? ==> r.failure == NullPointer
    ensures r.Ok? ==> (r.value <==> other == response.giver)
  {
    if response.giver.None? then Fail(NullPointer) else Ok(other == response.giver)
  }

  /** verifyResponseOwnerShipForStudent: for a question given by teams the response's giver
      must be the student's team, for one given by students the student's email; for any
      other giver type nothing is checked. A refusal names the team or the student. */
  function VerifyResponseOwnershipForStudent(student: Student, response: Response, question: Question)
    : (r: Outcome<()>)
    ensures question.giverType == Some(TEAMS) ==>
              (r.Ok? <==> response.giver.Some? && student.team == response.giver)
    ensures question.giverType == Some(STUDENTS) ==>
              (r.Ok? <==> response.giver.Some? && student.email == response.giver)
    ensures question.giverType != Some(TEAMS) && question.giverType != Some(STUDENTS) ==> r.Ok?
    ensures r.Fail? ==> r.failure == NullPointer
                        || r.failure == UnauthorizedAccess(NotAccessible(response, student.team))
                        || r.failure == UnauthorizedAccess(NotAccessible(response, student.name))
    ensures r.Fail? && response.giver.Some? ==>
              r.failure == UnauthorizedAccess(NotAccessible(response,
                             if question.giverType == Some(TEAMS) then student.team else student.name))
  {
    if question.giverType == Some(TEAMS) then
      var same := GiverEquals(response, student.team);
      if same.Fail? then Fail(same.failure)
      else if !same.value then Fail(UnauthorizedAccess(NotAccessible(response, student.team)))
      else Ok(())
    else if question.giverType == Some(STUDENTS) then
      var same := GiverEquals(response, student.email);
      if same.Fail? then Fail(same.failure)
      else if !same.value then Fail(UnauthorizedAccess(NotAccessible(response, student.name)))
      else Ok(())
    else Ok(())
  }

  /** verifyResponseOwnerShipForInstructor: the response's giver must be the instructor's
      email; a refusal names the instructor. */
  function VerifyResponseOwnershipForInstructor(instructor: Instructor, response: Response): (r: Outcome<()>)
    ensures r.Ok? <==> response.giver.Some? && instructor.email == response.giver
    ensures r.Fail? ==> r.failure == (if response.giver.None? then NullPointer
                                      else UnauthorizedAccess(NotAccessible(response, instructor.name)))
  {
    var same := GiverEquals(response, instructor.email);
    if same.Fail? then Fail(same.failure)
    else if !same.value then Fail(UnauthorizedAccess(NotAccessible(response, instructor.name)))
    else Ok(())
  }

  /** For a question given by students, a student and an instructor with the same email own
      the same responses. */
  lemma StudentAndInstructorOwnershipAgree(student: Student, instructor: Instructor, response: Response, question: Question)
    requires question.giverType == Some(STUDENTS) && student.email == instructor.email
    ensures VerifyResponseOwnershipForStudent(student, response, question).Ok?
            <==> VerifyResponseOwnershipForInstructor(instructor, response).Ok?
  {
  }
}
