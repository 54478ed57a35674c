// FeedbackResponseAttributes: one response to one question, from a giver to a
// recipient. Both sections default to the default section; a response without
// details stands for a missing response.

module FeedbackResponseAttributes {
  import opened Common
  import opened Const
  import JavaStrings
  import Sorting

  /** FeedbackResponseDetails: the question type it answers and its answer as text (the
      per-type detail classes are not part of this model). */
  datatype ResponseDetails = ResponseDetails(questionType: QuestionType, answer: string)

  datatype Timestamps = Timestamps(createdAt: Option<Instant>, updatedAt: Option<Instant>)

  /** The field values of a response. */
  datatype Response = Response(
    id: Option<string>,
    sessionName: Option<string>,
    courseId: Option<string>,
    questionId: Option<string>,
    giver: Option<string>,
    recipient: Option<string>,
    details: Option<ResponseDetails>,
    giverSection: string,
    recipientSection: string,
    stamps: Timestamps)

  /** The package-private constructor: both sections are the default section. */
  const DEFAULTS := Response(None, None, None, None, None, None, None, DEFAULT_SECTION, DEFAULT_SECTION,
                             Timestamps(None, None))

  /** isMissingResponse: a response without details is only a placeholder. */
  predicate IsMissingResponse(r: Response)
  {
    r.details.None?
  }

  /** getFeedbackQuestionType: read from the details, so a missing response throws. */
  function QuestionTypeOf(r: Response): (t: Outcome<QuestionType>)
    ensures t.Fail? <==> IsMissingResponse(r)
    ensures t.Fail? ==> t.failure == NullPointer
    ensures t.Ok? ==> t.value == r.details.value.questionType
  {
    if r.details.None? then Fail(NullPointer) else Ok(r.details.value.questionType)
  }

  /** getInvalidityInfo: the non-empty messages of the session name and course id validators
      (the validators are the parameters). */
  function InvalidityInfo(r: Response, sessionNameError: Option<string> -> string,
                          courseIdError: Option<string> -> string): (errors: seq<string>)
    ensures forall e | e in errors :: e != ""
    ensures sessionNameError(r.sessionName) != "" && courseIdError(r.courseId) != ""
            ==> errors == [sessionNameError(r.sessionName), courseIdError(r.courseId)]
    ensures sessionNameError(r.sessionName) != "" && courseIdError(r.courseId) == ""
            ==> errors == [sessionNameError(r.sessionName)]
    ensures sessionNameError(r.sessionName) == "" && courseIdError(r.courseId) != ""
            ==> errors == [courseIdError(r.courseId)]
    ensures sessionNameError(r.sessionName) == "" && courseIdError(r.courseId) == "" ==> errors == []
  {
    var name := sessionNameError(r.sessionName);
    var course := courseIdError(r.courseId);
    (if name == "" then [] else [name]) + (if course == "" then [] else [course])
  }

  // ---------------------------------------------------------------------
  // Reading a stored response

  /** The getters of a stored FeedbackResponse entity (the entity class is not part of this model). */
  datatype ResponseEntity = ResponseEntity(
    id: Option<string>, sessionName: Option<string>, courseId: Option<string>, questionId: Option<string>,
    questionType: QuestionType, giverEmail: Option<string>, giverSection: Option<string>,
    recipientEmail: Option<string>, recipientSection: Option<string>, responseMetaData: string,
    stamps: Timestamps)

  /** The stored details: a text answer is the stored text itself (legacy data); any other type is
      read from its JSON text, whose parser is the parameter `fromJson`. */
  function DeserializedDetails(meta: string, t: QuestionType, fromJson: (string, QuestionType) -> ResponseDetails)
    : (d: ResponseDetails)
    ensures t == TEXT ==> d == ResponseDetails(TEXT, meta)
    ensures t != TEXT ==> d == fromJson(meta, t)
  {
    if t == TEXT then ResponseDetails(TEXT, meta) else fromJson(meta, t)
  }

  /** valueOf: the stored values; a null section keeps the default section. */
  function AttributesOf(e: ResponseEntity, fromJson: (string, QuestionType) -> ResponseDetails): (r: Response)
    ensures r.id == e.id && r.giver == e.giverEmail && r.recipient == e.recipientEmail
    ensures r.sessionName == e.sessionName && r.courseId == e.courseId && r.questionId == e.questionId
    ensures r.stamps == e.stamps
    ensures r.details == Some(DeserializedDetails(e.responseMetaData, e.questionType, fromJson))
    ensures e.questionType == TEXT ==> r.details == Some(ResponseDetails(TEXT, e.responseMetaData))
    ensures r.giverSection == e.giverSection.GetOr(DEFAULT_SECTION)
    ensures r.recipientSection == e.recipientSection.GetOr(DEFAULT_SECTION)
    ensures !IsMissingResponse(r)
  {
    Response(e.id, e.sessionName, e.courseId, e.questionId, e.giverEmail, e.recipientEmail,
             Some(DeserializedDetails(e.responseMetaData, e.questionType, fromJson)),
             Fill(e.giverSection, DEFAULT_SECTION), Fill(e.recipientSection, DEFAULT_SECTION), e.stamps)
  }

  // ---------------------------------------------------------------------
  // Update options

  /** FeedbackResponseAttributes.UpdateOptions: identifies the response by id. Its builders refuse
      null values. */
  datatype UpdateOptions = UpdateOptions(
    responseId: string,
    giver: Option<string>,
    giverSection: Option<string>,
    recipient: Option<string>,
    recipientSection: Option<string>,
    details: Option<ResponseDetails>)

  /** update: each present option overwrites its field; the id, session, course, question and
      timestamps never change. */
  function Updated(r: Response, o: UpdateOptions): (u: Response)
    ensures u.id == r.id && u.sessionName == r.sessionName && u.courseId == r.courseId
    ensures u.questionId == r.questionId && u.stamps == r.stamps
    ensures u.giver == FillNullable(o.giver, r.giver) && u.recipient == FillNullable(o.recipient, r.recipient)
    ensures u.giverSection == Fill(o.giverSection, r.giverSection)
    ensures u.recipientSection == Fill(o.recipientSection, r.recipientSection)
    ensures u.details == FillNullable(o.details, r.details)
    ensures o.details.Some? ==> !IsMissingResponse(u)
  {
    r.(giver := FillNullable(o.giver, r.giver), giverSection := Fill(o.giverSection, r.giverSection),
       recipient := FillNullable(o.recipient, r.recipient),
       recipientSection := Fill(o.recipientSection, r.recipientSection),
       details := FillNullable(o.details, r.details))
  }

  /** Applying the same options twice changes nothing more, and options that repeat the response's
      own values change nothing. */
  lemma UpdateProperties(r: Response, o: UpdateOptions)
    ensures Updated(Updated(r, o), o) == Updated(r, o)
    ensures o.giver.Some? && o.recipient.Some? && o.giverSection.Some? && o.recipientSection.Some?
            && o.details.Some? && Updated(r, o) == r
            ==> r.giver == o.giver && r.recipient == o.recipient && r.details == o.details
  {
  }

  /** builder()...build(): course, session and question set where given, then the collected
      options. The id stays null. */
  function Built(courseId: Option<string>, sessionName: Option<string>, questionId: Option<string>,
                 o: UpdateOptions): (r: Response)
    ensures r.id.None? && r.courseId == courseId && r.sessionName == sessionName && r.questionId == questionId
    ensures o.giverSection.None? ==> r.giverSection == DEFAULT_SECTION
    ensures o.recipientSection.None? ==> r.recipientSection == DEFAULT_SECTION
    ensures IsMissingResponse(r) <==> o.details.None?
  {
    Updated(DEFAULTS.(courseId := courseId, sessionName := sessionName, questionId := questionId), o)
  }

  // ---------------------------------------------------------------------
  // sortFeedbackResponses

  function IdKey(r: Response): string { r.id.GetOr("") }

  /** Comparator.comparing(getId). */
  function ById(a: Response, b: Response): int { JavaStrings.CompareTo(IdKey(a), IdKey(b)) }

  lemma ByIdIsPreorder()
    ensures Sorting.IsTotalPreorder(ById)
  {
    forall x: Response, y: Response, z: Response
      ensures ById(x, y) == -ById(y, x)
      ensures ById(x, y) <= 0 && ById(y, z) <= 0 ==> ById(x, z) <= 0
    {
      JavaStrings.CompareToAntisymmetric(IdKey(x), IdKey(y));
      JavaStrings.CompareToTotalOrder(IdKey(x), IdKey(y), IdKey(z));
    }
  }

  predicate HasNullId(list: seq<Response>)
  {
    |list| >= 2 && exists i | 0 <= i < |list| :: list[i].id.None?
  }

  /** sortFeedbackResponses: a stable sort by id; a null id throws once the comparator runs, which
      needs two or more elements. */
  function SortById(list: seq<Response>): (r: Outcome<seq<Response>>)
    ensures r.Fail? <==> HasNullId(list)
    ensures r.Fail? ==> r.failure == NullPointer
    ensures r.Ok? ==> Sorting.SortedBy(r.value, ById) && multiset(r.value) == multiset(list)
  {
    if HasNullId(list) then Fail(NullPointer)
    else
      ByIdIsPreorder();
      Sorting.SortBySorted(list, ById);
      Ok(Sorting.SortBy(list, ById))
  }

  /** With ids present, a sorted list has its ids in ascending string order. */
  lemma SortedByIdAscends(list: seq<Response>, i: int, j: int)
    requires !HasNullId(list) && SortById(list).Ok?
    requires 0 <= i < j < |list| && |list| >= 2
    ensures SortById(list).value[i].id.Some? && SortById(list).value[j].id.Some?
    ensures JavaStrings.CompareTo(SortById(list).value[i].id.value, SortById(list).value[j].id.value) <= 0
  {
    var s := SortById(list).value;
    assert s[i] in multiset(list);
    assert s[j] in multiset(list);
    assert s[i] in list && s[j] in list;
  }

  // ---------------------------------------------------------------------
  // The mutable object

  class FeedbackResponseAttributes {
    var id: Option<string>
    var sessionName: Option<string>
    var courseId: Option<string>
    var questionId: Option<string>
    var giver: Option<string>
    var recipient: Option<string>
    var details: Option<ResponseDetails>
    var giverSection: string
    var recipientSection: string
    var stamps: Timestamps

    function State(): Response
      reads this
    {
      Response(id, sessionName, courseId, questionId, giver, recipient, details, giverSection, recipientSection,
               stamps)
    }

    /** Writes every field at once. */
    method SetState(r: Response)
      modifies this
      ensures State() == r
    {
      id, sessionName, courseId, questionId, giver, recipient, details, giverSection, recipientSection, stamps :=
        r.id, r.sessionName, r.courseId, r.questionId, r.giver, r.recipient, r.details, r.giverSection,
        r.recipientSection, r.stamps;
    }

    constructor ()
      ensures State() == DEFAULTS
    {
      id, sessionName, courseId, questionId, giver, recipient, details := None, None, None, None, None, None, None;
      giverSection, recipientSection, stamps := DEFAULT_SECTION, DEFAULT_SECTION, Timestamps(None, None);
    }

    /** The copy constructor: the same values in a new object. The details are read through
        getResponseDetails, which deep-copies them, so a missing response cannot be copied. */
    method Copy() returns (r: Outcome<FeedbackResponseAttributes>)
      ensures r.Fail? <==> IsMissingResponse(State())
      ensures r.Fail? ==> r.failure == NullPointer
      ensures r.Ok? ==> fresh(r.value) && r.value.State() == State()
    {
      if details.None? {
        return Fail(NullPointer);
      }
      var c := new FeedbackResponseAttributes();
      c.SetState(State());
      return Ok(c);
    }

    method Update(o: UpdateOptions)
      modifies this
      ensures State() == Updated(old(State()), o)
    {
      giver := FillNullable(o.giver, giver);
      giverSection := Fill(o.giverSection, giverSection);
      recipient := FillNullable(o.recipient, recipient);
      recipientSection := Fill(o.recipientSection, recipientSection);
      details := FillNullable(o.details, details);
    }
  }

  /** valueOf(FeedbackResponse). */
  method ValueOf(e: ResponseEntity, fromJson: (string, QuestionType) -> ResponseDetails)
    returns (a: FeedbackResponseAttributes)
    ensures fresh(a) && a.State() == AttributesOf(e, fromJson)
  {
    a := new FeedbackResponseAttributes();
    a.id, a.sessionName, a.courseId, a.questionId, a.giver, a.recipient :=
      e.id, e.sessionName, e.courseId, e.questionId, e.giverEmail, e.recipientEmail;
    a.giverSection, a.recipientSection, a.details, a.stamps :=
      Fill(e.giverSection, a.giverSection), Fill(e.recipientSection, a.recipientSection),
      Some(DeserializedDetails(e.responseMetaData, e.questionType, fromJson)), e.stamps;
  }

  /** builder()...build(). */
  method Build(courseId: Option<string>, sessionName: Option<string>, questionId: Option<string>, o: UpdateOptions)
    returns (a: FeedbackResponseAttributes)
    ensures fresh(a) && a.State() == Built(courseId, sessionName, questionId, o)
  {
    a := new FeedbackResponseAttributes();
    a.courseId, a.sessionName, a.questionId := courseId, sessionName, questionId;
    a.Update(o);
  }
}
