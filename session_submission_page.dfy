// session-submission-page.component.ts: the page on which a student or an
// instructor answers the questions of a feedback session. Each question gets
// one submission form per recipient (or a limited number of forms whose
// recipient the giver chooses); on saving, each form is turned into a delete,
// update or create request, or into none.

module SessionSubmissionPage {
  import opened Common
  import opened Const
  import FeedbackSessionInfo

  /** NumberOfEntitiesToGiveFeedbackToSetting. */
  datatype EntitiesSetting = CUSTOM | UNLIMITED

  /** QuestionSubmissionFormMode. */
  datatype FormMode = FIXED_RECIPIENT | FLEXIBLE_RECIPIENT

  /** A response's question-specific details, held as their serialised text. */
  datatype Details = Details(json: string)

  /** FeedbackResponseRecipient. */
  datatype Recipient = Recipient(recipientIdentifier: string, recipientName: string)

  /** FeedbackResponseRecipientSubmissionFormModel: an empty responseId means no saved response. */
  datatype RecipientForm = RecipientForm(recipientIdentifier: string, responseDetails: Details, responseId: string)

  /** A FeedbackResponse as the server returns it. */
  datatype Response = Response(feedbackResponseId: string, recipientIdentifier: string, responseDetails: Details)

  /** The parts of a FeedbackQuestion the page reads; a missing custom number is None. */
  datatype Question = Question(feedbackQuestionId: string, questionNumber: int, questionType: QuestionType,
                               recipientType: ParticipantType, numberSetting: EntitiesSetting,
                               customNumber: Option<int>)

  /** QuestionSubmissionFormModel, less the fields only the template shows. */
  datatype QuestionForm = QuestionForm(feedbackQuestionId: string, questionNumber: int, questionType: QuestionType,
                                       recipientType: ParticipantType, numberSetting: EntitiesSetting,
                                       customNumber: int, recipientList: seq<Recipient>,
                                       recipientSubmissionForms: seq<RecipientForm>)

  /** A request the save sends. */
  datatype Request =
    | DeleteResponse(responseId: string)
    | UpdateResponse(responseId: string, recipientIdentifier: string, questionType: QuestionType, details: Details)
    | CreateResponse(questionId: string, recipientIdentifier: string, questionType: QuestionType, details: Details)

  /** The model loadFeedbackQuestions makes for a question: no recipients or forms yet, and a
      custom number of 0 when the question has none (a falsy one). */
  function NewQuestionForm(q: Question): (r: QuestionForm)
    ensures r.customNumber == (if q.customNumber.Some? then q.customNumber.value else 0)
    ensures r.recipientList == [] && r.recipientSubmissionForms == []
    ensures r.feedbackQuestionId == q.feedbackQuestionId && r.questionNumber == q.questionNumber
    ensures r.questionType == q.questionType && r.recipientType == q.recipientType
    ensures r.numberSetting == q.numberSetting
  {
    QuestionForm(q.feedbackQuestionId, q.questionNumber, q.questionType, q.recipientType, q.numberSetting,
                 if q.customNumber.Some? && q.customNumber.value != 0 then q.customNumber.value else 0, [], [])
  }

  /** getQuestionSubmissionFormMode: the giver chooses the recipients exactly when the question
      is to students, teams or instructors, limits the number of recipients, and has more
      possible recipients than that number. */
  function FormModeOf(q: QuestionForm): (m: FormMode)
    ensures m == FLEXIBLE_RECIPIENT <==>
              q.recipientType in {STUDENTS, TEAMS, INSTRUCTORS} && q.numberSetting == CUSTOM
              && |q.recipientList| > q.customNumber
  {
    var isLimited := (q.recipientType == STUDENTS || q.recipientType == TEAMS || q.recipientType == INSTRUCTORS)
                     && q.numberSetting == CUSTOM && |q.recipientList| > q.customNumber;
    if isLimited then FLEXIBLE_RECIPIENT else FIXED_RECIPIENT
  }

  /** Array.find: the first existing response to the recipient, if any. */
  function FirstMatching(existing: seq<Response>, recipientIdentifier: string): (r: Option<Response>)
    ensures r.None? <==> forall j | 0 <= j < |existing| :: existing[j].recipientIdentifier != recipientIdentifier
    ensures r.Some? ==> exists j | 0 <= j < |existing| ::
                          existing[j] == r.value && existing[j].recipientIdentifier == recipientIdentifier
                          && forall k | 0 <= k < j :: existing[k].recipientIdentifier != recipientIdentifier
  {
    if |existing| == 0 then None
    else if existing[0].recipientIdentifier == recipientIdentifier then Some(existing[0])
    else
      var r := FirstMatching(existing[1..], recipientIdentifier);
      assert forall j | 0 <= j < |existing[1..]| :: existing[1..][j] == existing[j + 1];
      r
  }

  /** The form for one recipient in fixed mode: the first matching response's details and id,
      or the question type's default details and no id. */
  function FixedFormFor(recipient: Recipient, existing: seq<Response>, defaultDetails: Details): RecipientForm
  {
    var matched := FirstMatching(existing, recipient.recipientIdentifier);
    RecipientForm(recipient.recipientIdentifier,
                  if matched.Some? then matched.value.responseDetails else defaultDetails,
                  if matched.Some? then matched.value.feedbackResponseId else "")
  }

  /** The forms fixed mode generates, one per recipient. */
  function FixedForms(recipients: seq<Recipient>, existing: seq<Response>, defaultDetails: Details): seq<RecipientForm>
  {
    seq(|recipients|, i requires 0 <= i < |recipients| => FixedFormFor(recipients[i], existing, defaultDetails))
  }

  /** The form that shows an existing response. */
  function ExistingForm(response: Response): RecipientForm
  {
    RecipientForm(response.recipientIdentifier, response.responseDetails, response.feedbackResponseId)
  }

  /** `n` empty forms whose recipient is still to be chosen. */
  function EmptyForms(n: nat, defaultDetails: Details): seq<RecipientForm>
  {
    seq(n, _ => RecipientForm("", defaultDetails, ""))
  }

  /** The forms flexible mode generates: the existing responses, then enough empty forms to make
      up the custom number. */
  function FlexibleForms(existing: seq<Response>, customNumber: int, defaultDetails: Details): seq<RecipientForm>
  {
    seq(|existing|, i requires 0 <= i < |existing| => ExistingForm(existing[i]))
    + EmptyForms(if customNumber > |existing| then customNumber - |existing| else 0, defaultDetails)
  }

  /** The forms the preview generates: one per recipient with default details and no id, its
      recipient left to choose in flexible mode. */
  function PreviewForms(recipients: seq<Recipient>, mode: FormMode, defaultDetails: Details): seq<RecipientForm>
  {
    seq(|recipients|, i requires 0 <= i < |recipients| =>
          RecipientForm(if mode == FLEXIBLE_RECIPIENT then "" else recipients[i].recipientIdentifier, defaultDetails, ""))
  }

  /** The forms loadFeedbackResponses adds to a question. */
  function LoadedForms(q: QuestionForm, existing: seq<Response>, defaultDetails: Details): seq<RecipientForm>
  {
    if FormModeOf(q) == FIXED_RECIPIENT then FixedForms(q.recipientList, existing, defaultDetails)
    else FlexibleForms(existing, q.customNumber, defaultDetails)
  }

  /** Fixed mode: one form per recipient, in order; a recipient with an existing response shows
      the first such response, any other gets default details and no id. */
  lemma FixedFormsMatch(recipients: seq<Recipient>, existing: seq<Response>, defaultDetails: Details, i: int)
    requires 0 <= i < |recipients|
    ensures var forms := FixedForms(recipients, existing, defaultDetails);
            var id := recipients[i].recipientIdentifier;
            |forms| == |recipients| && forms[i].recipientIdentifier == id
            && ((forall j | 0 <= j < |existing| :: existing[j].recipientIdentifier != id) ==>
                  forms[i] == RecipientForm(id, defaultDetails, ""))
            && (forall j | 0 <= j < |existing| && existing[j].recipientIdentifier == id
                         && (forall k | 0 <= k < j :: existing[k].recipientIdentifier != id) ::
                  forms[i] == ExistingForm(existing[j]))
  {
    var id := recipients[i].recipientIdentifier;
    var matched := FirstMatching(existing, id);
    if matched.Some? {
      var m :| 0 <= m < |existing| && existing[m] == matched.value && existing[m].recipientIdentifier == id
               && forall k | 0 <= k < m :: existing[k].recipientIdentifier != id;
      forall j | 0 <= j < |existing| && existing[j].recipientIdentifier == id
                 && (forall k | 0 <= k < j :: existing[k].recipientIdentifier != id)
        ensures existing[j] == matched.value
      {
      }
    }
  }

  /** Flexible mode: as many forms as the existing responses or the custom number, whichever is
      larger; the existing responses first, in order, then empty forms with no recipient. */
  lemma FlexibleFormsShape(existing: seq<Response>, customNumber: int, defaultDetails: Details)
    ensures var forms := FlexibleForms(existing, customNumber, defaultDetails);
            |forms| == (if customNumber > |existing| then customNumber else |existing|)
            && (forall i | 0 <= i < |existing| :: forms[i] == ExistingForm(existing[i]))
            && (forall i | |existing| <= i < |forms| ::
                  forms[i].recipientIdentifier == "" && forms[i].responseId == ""
                  && forms[i].responseDetails == defaultDetails)
  {
    var forms := FlexibleForms(existing, customNumber, defaultDetails);
    var pre := seq(|existing|, i requires 0 <= i < |existing| => ExistingForm(existing[i]));
    var empties := EmptyForms(if customNumber > |existing| then customNumber - |existing| else 0, defaultDetails);
    assert forms == pre + empties;
    assert forall i | |existing| <= i < |forms| :: forms[i] == empties[i - |existing|];
  }

  /** In flexible mode fewer forms are generated than there are recipients, unless the giver has
      already answered more of them than the custom number allows. */
  lemma FlexibleFewerThanRecipients(q: QuestionForm, existing: seq<Response>, defaultDetails: Details)
    requires FormModeOf(q) == FLEXIBLE_RECIPIENT && |existing| <= q.customNumber
    ensures |LoadedForms(q, existing, defaultDetails)| == q.customNumber < |q.recipientList|
  {
    FlexibleFormsShape(existing, q.customNumber, defaultDetails);
  }

  /** The preview leaves the recipient to choose exactly in flexible mode, and saves nothing. */
  lemma PreviewFormsBlank(recipients: seq<Recipient>, mode: FormMode, defaultDetails: Details, i: int)
    requires 0 <= i < |recipients|
    ensures var forms := PreviewForms(recipients, mode, defaultDetails);
            |forms| == |recipients| && forms[i].responseId == "" && forms[i].responseDetails == defaultDetails
            && (forms[i].recipientIdentifier == "" <==> mode == FLEXIBLE_RECIPIENT || recipients[i].recipientIdentifier == "")
  {
  }

  /** The forEach that builds fixed-mode forms. */
  method BuildFixedForms(recipients: seq<Recipient>, existing: seq<Response>, defaultDetails: Details)
    returns (forms: seq<RecipientForm>)
    ensures forms == FixedForms(recipients, existing, defaultDetails)
  {
    forms := [];
    for i := 0 to |recipients|
      invariant |forms| == i
      invariant forall k | 0 <= k < i :: forms[k] == FixedFormFor(recipients[k], existing, defaultDetails)
    {
      var recipient := recipients[i];
      var matchedExistingResponse := FirstMatching(existing, recipient.recipientIdentifier);
      forms := forms + [RecipientForm(recipient.recipientIdentifier,
                                      if matchedExistingResponse.Some? then matchedExistingResponse.value.responseDetails
                                      else defaultDetails,
                                      if matchedExistingResponse.Some? then matchedExistingResponse.value.feedbackResponseId
                                      else "")];
    }
  }

  /** The forEach over the existing responses and the while loop that counts down the forms
      still needed. */
  method BuildFlexibleForms(existing: seq<Response>, customNumber: int, defaultDetails: Details)
    returns (forms: seq<RecipientForm>)
    ensures forms == FlexibleForms(existing, customNumber, defaultDetails)
  {
    var needed := customNumber - |existing|;
    forms := [];
    for i := 0 to |existing|
      invariant forms == seq(i, k requires 0 <= k < i => ExistingForm(existing[k]))
    {
      forms := forms + [ExistingForm(existing[i])];
    }
    ghost var pre := forms;
    ghost var initial := needed;
    while needed > 0
      invariant initial > 0 ==> 0 <= needed <= initial && forms == pre + EmptyForms(initial - needed, defaultDetails)
      invariant initial <= 0 ==> needed == initial && forms == pre
    {
      forms := forms + [RecipientForm("", defaultDetails, "")];
      needed := needed - 1;
    }
  }

  /** The forEach that builds the preview's forms. */
  method BuildPreviewForms(recipients: seq<Recipient>, mode: FormMode, defaultDetails: Details)
    returns (forms: seq<RecipientForm>)
    ensures forms == PreviewForms(recipients, mode, defaultDetails)
  {
    forms := [];
    for i := 0 to |recipients|
      invariant forms == seq(i, k requires 0 <= k < i =>
                               RecipientForm(if mode == FLEXIBLE_RECIPIENT then "" else recipients[k].recipientIdentifier,
                                             defaultDetails, ""))
    {
      forms := forms + [RecipientForm(if mode == FLEXIBLE_RECIPIENT then "" else recipients[i].recipientIdentifier,
                                      defaultDetails, "")];
    }
  }

  /** The request for one form: a saved response with empty details is deleted, a saved one with
      details updated, a new one with details created, and a new empty one sends nothing. */
  function Classify(q: QuestionForm, form: RecipientForm, isEmpty: bool): (r: Option<Request>)
    ensures r.None? <==> form.responseId == "" && isEmpty
    ensures r.Some? && r.value.DeleteResponse? <==> form.responseId != "" && isEmpty
    ensures r.Some? && r.value.UpdateResponse? <==> form.responseId != "" && !isEmpty
    ensures r.Some? && r.value.CreateResponse? <==> form.responseId == "" && !isEmpty
    ensures r.Some? && r.value.DeleteResponse? ==> r.value.responseId == form.responseId
    ensures r.Some? && r.value.UpdateResponse? ==>
              r.value == UpdateResponse(form.responseId, form.recipientIdentifier, q.questionType, form.responseDetails)
    ensures r.Some? && r.value.CreateResponse? ==>
              r.value == CreateResponse(q.feedbackQuestionId, form.recipientIdentifier, q.questionType, form.responseDetails)
  {
    if form.responseId != "" && isEmpty then Some(DeleteResponse(form.responseId))
    else if form.responseId != "" && !isEmpty then
      Some(UpdateResponse(form.responseId, form.recipientIdentifier, q.questionType, form.responseDetails))
    else if form.responseId == "" && !isEmpty then
      Some(CreateResponse(q.feedbackQuestionId, form.recipientIdentifier, q.questionType, form.responseDetails))
    else None
  }

  /** The requests for the first `n` forms of a question, in order. */
  function QuestionRequests(q: QuestionForm, n: nat, isEmpty: (QuestionType, Details) -> bool): seq<Request>
    requires n <= |q.recipientSubmissionForms|
  {
    if n == 0 then []
    else
      var form := q.recipientSubmissionForms[n - 1];
      var r := Classify(q, form, isEmpty(q.questionType, form.responseDetails));
      QuestionRequests(q, n - 1, isEmpty) + (if r.Some? then [r.value] else [])
  }

  /** The requests for the first `n` questions, in order. */
  function AllRequests(qs: seq<QuestionForm>, isEmpty: (QuestionType, Details) -> bool): seq<Request>
  {
    if |qs| == 0 then []
    else AllRequests(qs[..|qs| - 1], isEmpty)
         + QuestionRequests(qs[|qs| - 1], |qs[|qs| - 1].recipientSubmissionForms|, isEmpty)
  }

  /** No question sends more requests than it has forms, and one sends a request for every form
      when every form has a saved response or details. */
  lemma {:induction false} QuestionRequestsCount(q: QuestionForm, n: nat, isEmpty: (QuestionType, Details) -> bool)
    requires n <= |q.recipientSubmissionForms|
    ensures |QuestionRequests(q, n, isEmpty)| <= n
    ensures (forall i | 0 <= i < n :: q.recipientSubmissionForms[i].responseId != ""
                                      || !isEmpty(q.questionType, q.recipientSubmissionForms[i].responseDetails))
            ==> |QuestionRequests(q, n, isEmpty)| == n
  {
    if n > 0 {
      QuestionRequestsCount(q, n - 1, isEmpty);
    }
  }

  /** A question is fully answered when none of its forms has empty details. */
  predicate FullyAnswered(q: QuestionForm, isEmpty: (QuestionType, Details) -> bool)
  {
    forall i | 0 <= i < |q.recipientSubmissionForms| :: !isEmpty(q.questionType, q.recipientSubmissionForms[i].responseDetails)
  }

  /** `param ? param : ''`: a query parameter, the empty text when it is missing or empty. */
  function OrEmpty(param: Option<string>): (r: string)
    ensures r == "" <==> param.None? || param.value == ""
    ensures r != "" ==> param == Some(r)
  {
    if param.Some? && param.value != "" then param.value else ""
  }

  /** The page's inputs, session state and question models. */
  class SessionSubmissionPage {
    var courseId: string
    var feedbackSessionName: string
    var regKey: string
    var moderatedPerson: string
    var previewAsPerson: string
    var feedbackSessionSubmissionStatus: FeedbackSessionInfo.SubmissionStatus
    var questionSubmissionForms: seq<QuestionForm>
    var shouldSendConfirmationEmail: bool
    var isSavingResponses: bool
    var isSubmissionFormsDisabled: bool

    /** The fields' initial values. */
    constructor ()
      ensures courseId == "" && feedbackSessionName == "" && regKey == "" && moderatedPerson == ""
      ensures previewAsPerson == "" && feedbackSessionSubmissionStatus == FeedbackSessionInfo.OPEN
      ensures questionSubmissionForms == [] && shouldSendConfirmationEmail
      ensures !isSavingResponses && !isSubmissionFormsDisabled
    {
      courseId, feedbackSessionName, regKey, moderatedPerson, previewAsPerson := "", "", "", "", "";
      feedbackSessionSubmissionStatus := FeedbackSessionInfo.OPEN;
      questionSubmissionForms := [];
      shouldSendConfirmationEmail, isSavingResponses, isSubmissionFormsDisabled := true, false, false;
    }

    /** The query-parameter subscription of ngOnInit: a missing or empty key, moderated person
        or preview person becomes the empty text, and previewing disables submission. */
    method OnQueryParams(courseid: string, fsname: string, key: Option<string>, moderatedperson: Option<string>,
                         previewas: Option<string>)
      modifies this`courseId, this`feedbackSessionName, this`regKey, this`moderatedPerson, this`previewAsPerson,
               this`isSubmissionFormsDisabled
      ensures courseId == courseid && feedbackSessionName == fsname
      ensures regKey == OrEmpty(key) && moderatedPerson == OrEmpty(moderatedperson) && previewAsPerson == OrEmpty(previewas)
      ensures isSubmissionFormsDisabled == (old(isSubmissionFormsDisabled) || previewAsPerson != "")
    {
      courseId := courseid;
      feedbackSessionName := fsname;
      regKey := if key.Some? && key.value != "" then key.value else "";
      moderatedPerson := if moderatedperson.Some? && moderatedperson.value != "" then moderatedperson.value else "";
      previewAsPerson := if previewas.Some? && previewas.value != "" then previewas.value else "";
      if previewAsPerson != "" {
        isSubmissionFormsDisabled := true;
      }
    }

    /** The session's arrival in loadFeedbackSession: outside moderation, a session not yet open
        or already closed disables submission. */
    method LoadFeedbackSession(status: FeedbackSessionInfo.SubmissionStatus)
      modifies this`feedbackSessionSubmissionStatus, this`isSubmissionFormsDisabled
      ensures feedbackSessionSubmissionStatus == status
      ensures isSubmissionFormsDisabled ==
                (old(isSubmissionFormsDisabled)
                 || (moderatedPerson == "" && status in {FeedbackSessionInfo.VISIBLE_NOT_OPEN, FeedbackSessionInfo.CLOSED}))
    {
      feedbackSessionSubmissionStatus := status;
      if moderatedPerson == "" {
        match status {
          case VISIBLE_NOT_OPEN =>
            isSubmissionFormsDisabled := true;
          case OPEN =>
          case CLOSED =>
            isSubmissionFormsDisabled := true;
          case GRACE_PERIOD =>
          case NOT_VISIBLE =>
        }
      }
    }

    /** The questions' arrival in loadFeedbackQuestions: one new model per question is pushed, in
        order. */
    method LoadFeedbackQuestions(questions: seq<Question>)
      modifies this`questionSubmissionForms
      ensures |questionSubmissionForms| == |old(questionSubmissionForms)| + |questions|
      ensures questionSubmissionForms[..|old(questionSubmissionForms)|] == old(questionSubmissionForms)
      ensures forall i | 0 <= i < |questions| ::
                questionSubmissionForms[|old(questionSubmissionForms)| + i] == NewQuestionForm(questions[i])
    {
      var forms := questionSubmissionForms;
      for i := 0 to |questions|
        invariant |forms| == |old(questionSubmissionForms)| + i
        invariant forms[..|old(questionSubmissionForms)|] == old(questionSubmissionForms)
        invariant forall k | 0 <= k < i :: forms[|old(questionSubmissionForms)| + k] == NewQuestionForm(questions[k])
      {
        forms := forms + [NewQuestionForm(questions[i])];
      }
      questionSubmissionForms := forms;
    }

    /** The participants' arrival for question `qi`: the recipients are pushed; in preview the
        forms are generated at once, otherwise the responses are to be loaded, as `loadResponses`
        says. */
    method LoadParticipants(qi: nat, recipients: seq<Recipient>, defaultDetails: QuestionType -> Details)
      returns (loadResponses: bool)
      requires qi < |questionSubmissionForms|
      modifies this`questionSubmissionForms
      ensures loadResponses == (previewAsPerson == "")
      ensures var q := old(questionSubmissionForms)[qi];
              var listed := q.(recipientList := q.recipientList + recipients);
              questionSubmissionForms == old(questionSubmissionForms)[qi :=
                if loadResponses then listed
                else listed.(recipientSubmissionForms := q.recipientSubmissionForms
                               + PreviewForms(listed.recipientList, FormModeOf(listed), defaultDetails(q.questionType)))]
    {
      var model := questionSubmissionForms[qi];
      var recipientList := model.recipientList;
      for i := 0 to |recipients|
        invariant recipientList == model.recipientList + recipients[..i]
      {
        recipientList := recipientList + [recipients[i]];
      }
      assert recipients[..|recipients|] == recipients;
      model := model.(recipientList := recipientList);
      loadResponses := previewAsPerson == "";
      if !loadResponses {
        var forms := BuildPreviewForms(model.recipientList, FormModeOf(model), defaultDetails(model.questionType));
        model := model.(recipientSubmissionForms := model.recipientSubmissionForms + forms);
      }
      questionSubmissionForms := questionSubmissionForms[qi := model];
    }

    /** The existing responses' arrival for question `qi`: the confirmation email stays due only
        while no question had responses, and the forms of the question's mode are pushed. */
    method LoadFeedbackResponses(qi: nat, existing: seq<Response>, defaultDetails: QuestionType -> Details)
      requires qi < |questionSubmissionForms|
      modifies this`shouldSendConfirmationEmail, this`questionSubmissionForms
      ensures shouldSendConfirmationEmail == (old(shouldSendConfirmationEmail) && |existing| == 0)
      ensures var q := old(questionSubmissionForms)[qi];
              questionSubmissionForms == old(questionSubmissionForms)[qi :=
                q.(recipientSubmissionForms := q.recipientSubmissionForms
                                               + LoadedForms(q, existing, defaultDetails(q.questionType)))]
    {
      shouldSendConfirmationEmail := shouldSendConfirmationEmail && |existing| == 0;
      var model := questionSubmissionForms[qi];
      var details := defaultDetails(model.questionType);
      if FormModeOf(model) == FIXED_RECIPIENT {
        var forms := BuildFixedForms(model.recipientList, existing, details);
        model := model.(recipientSubmissionForms := model.recipientSubmissionForms + forms);
      }
      if FormModeOf(model) == FLEXIBLE_RECIPIENT {
        var forms := BuildFlexibleForms(existing, model.customNumber, details);
        model := model.(recipientSubmissionForms := model.recipientSubmissionForms + forms);
      }
      questionSubmissionForms := questionSubmissionForms[qi := model];
    }

    /** hasAnyResponseToSubmit. */
    predicate HasAnyResponseToSubmit()
      reads this
    {
      exists i | 0 <= i < |questionSubmissionForms| :: |questionSubmissionForms[i].recipientSubmissionForms| != 0
    }

    /** The request-building part of saveFeedbackResponses, `isEmpty` standing for
        isFeedbackResponseDetailsEmpty: the requests for every form in order, and the numbers of
        the questions with a form whose details are empty. */
    method SaveFeedbackResponses(isEmpty: (QuestionType, Details) -> bool)
      returns (savingRequests: seq<Request>, notYetAnsweredQuestions: set<int>)
      modifies this`isSavingResponses
      ensures savingRequests == AllRequests(questionSubmissionForms, isEmpty)
      ensures forall n :: n in notYetAnsweredQuestions <==>
                exists i | 0 <= i < |questionSubmissionForms| ::
                  questionSubmissionForms[i].questionNumber == n && !FullyAnswered(questionSubmissionForms[i], isEmpty)
      ensures isSavingResponses
    {
      var qs := questionSubmissionForms;
      savingRequests, notYetAnsweredQuestions := [], {};
      for qi := 0 to |qs|
        invariant savingRequests == AllRequests(qs[..qi], isEmpty)
        invariant forall n :: n in notYetAnsweredQuestions <==>
                    exists i | 0 <= i < qi :: qs[i].questionNumber == n && !FullyAnswered(qs[i], isEmpty)
      {
        assert qs[..qi + 1][..qi] == qs[..qi];
        var model := qs[qi];
        var isQuestionFullyAnswered, requests := QuestionSaving(model, isEmpty);
        savingRequests := savingRequests + requests;
        if !isQuestionFullyAnswered {
          notYetAnsweredQuestions := notYetAnsweredQuestions + {model.questionNumber};
        }
      }
      assert qs[..|qs|] == qs;
      isSavingResponses := true;
    }
  }

  /** The inner forEach of saveFeedbackResponses over one question's forms. */
  method QuestionSaving(model: QuestionForm, isEmpty: (QuestionType, Details) -> bool)
    returns (isQuestionFullyAnswered: bool, requests: seq<Request>)
    ensures isQuestionFullyAnswered == FullyAnswered(model, isEmpty)
    ensures requests == QuestionRequests(model, |model.recipientSubmissionForms|, isEmpty)
  {
    var forms := model.recipientSubmissionForms;
    isQuestionFullyAnswered, requests := true, [];
    for i := 0 to |forms|
      invariant isQuestionFullyAnswered == forall k | 0 <= k < i :: !isEmpty(model.questionType, forms[k].responseDetails)
      invariant requests == QuestionRequests(model, i, isEmpty)
    {
      var form := forms[i];
      var isFeedbackResponseDetailsEmpty := isEmpty(model.questionType, form.responseDetails);
      isQuestionFullyAnswered := isQuestionFullyAnswered && !isFeedbackResponseDetailsEmpty;
      if form.responseId != "" && isFeedbackResponseDetailsEmpty {
        requests := requests + [DeleteResponse(form.responseId)];
      }
      if form.responseId != "" && !isFeedbackResponseDetailsEmpty {
        requests := requests + [UpdateResponse(form.responseId, form.recipientIdentifier, model.questionType,
                                               form.responseDetails)];
      }
      if form.responseId == "" && !isFeedbackResponseDetailsEmpty {
        requests := requests + [CreateResponse(model.feedbackQuestionId, form.recipientIdentifier, model.questionType,
                                               form.responseDetails)];
      }
    }
  }
}
