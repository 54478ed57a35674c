// FeedbackQuestionAttributes: one question of a feedback session. Besides its
// text and number it says who gives feedback to whom, and three lists of who
// may see the responses, the giver's name and the recipient's name. Updates
// overwrite the present options and then prune the visibility entries that
// make no sense for the question's giver and recipient types.

module FeedbackQuestionAttributes {
  import opened Common
  import opened Const
  import JavaStrings
  import Sorting

  /** The three visibility lists; each may be null. */
  datatype Visibility = Visibility(
    showResponsesTo: Option<seq<ParticipantType>>,
    showGiverNameTo: Option<seq<ParticipantType>>,
    showRecipientNameTo: Option<seq<ParticipantType>>)

  const EMPTY_VISIBILITY := Visibility(Some([]), Some([]), Some([]))

  /** The field values of a question (the transient timestamps are not kept). `metaData` is the
      JSON text of the question details. */
  datatype Question = Question(
    sessionName: Option<string>,
    courseId: Option<string>,
    metaData: Option<string>,
    description: Option<string>,
    number: int,
    questionType: Option<QuestionType>,
    giverType: Option<ParticipantType>,
    recipientType: Option<ParticipantType>,
    entitiesToGiveFeedbackTo: int,
    visibility: Visibility,
    id: Option<string>)

  /** The package-private constructor: three empty lists and nothing else set. */
  const DEFAULTS := Question(None, None, None, None, 0, None, None, None, 0, EMPTY_VISIBILITY, None)

  // ---------------------------------------------------------------------
  // Type predicates

  predicate IsGiverAStudent(q: Question)
  {
    q.giverType == Some(SELF) || q.giverType == Some(STUDENTS)
  }

  predicate IsRecipientNameHidden(q: Question)
  {
    q.recipientType == Some(NONE) || q.recipientType == Some(SELF)
  }

  predicate IsRecipientAStudent(q: Question)
  {
    q.recipientType == Some(SELF) || q.recipientType == Some(STUDENTS)
    || q.recipientType == Some(OWN_TEAM_MEMBERS) || q.recipientType == Some(OWN_TEAM_MEMBERS_INCLUDING_SELF)
  }

  predicate IsRecipientInstructor(q: Question)
  {
    q.recipientType == Some(INSTRUCTORS)
  }

  /** How the recipient predicates relate: an instructor recipient is neither a student nor hidden,
      a self-feedback recipient is both, and a nobody recipient is hidden but not a student. */
  lemma RecipientKinds(q: Question)
    ensures IsRecipientInstructor(q) ==> !IsRecipientAStudent(q) && !IsRecipientNameHidden(q)
    ensures q.recipientType == Some(SELF) ==> IsRecipientAStudent(q) && IsRecipientNameHidden(q)
    ensures q.recipientType == Some(NONE) ==> !IsRecipientAStudent(q) && IsRecipientNameHidden(q)
    ensures IsRecipientAStudent(q) && IsRecipientNameHidden(q) ==> q.recipientType == Some(SELF)
  {
  }

  /** isResponseVisibleTo: whether the type is in showResponsesTo; a null list throws. */
  function IsResponseVisibleTo(q: Question, userType: ParticipantType): (r: Outcome<bool>)
    ensures r.Fail? <==> q.visibility.showResponsesTo.None?
    ensures r.Fail? ==> r.failure == NullPointer
    ensures r.Ok? ==> (r.value <==> userType in q.visibility.showResponsesTo.value)
  {
    if q.visibility.showResponsesTo.None? then Fail(NullPointer)
    else Ok(userType in q.visibility.showResponsesTo.value)
  }

  /** areResponseDeletionsRequiredForChanges: a change of giver or recipient type always requires
      it; otherwise the question details decide (`detailsRequireDeletion`). The types are compared
      with `equals` on the new question's values, so a null giver type throws, and so does a null
      recipient type once the giver types agree. */
  function AreResponseDeletionsRequired(q: Question, newQ: Question, detailsRequireDeletion: bool): (r: Outcome<bool>)
    ensures r.Fail? <==> newQ.giverType.None? || (newQ.giverType == q.giverType && newQ.recipientType.None?)
    ensures r.Fail? ==> r.failure == NullPointer
    ensures r.Ok? && (newQ.giverType != q.giverType || newQ.recipientType != q.recipientType) ==> r.value
    ensures r.Ok? && newQ.giverType == q.giverType && newQ.recipientType == q.recipientType
            ==> r.value == detailsRequireDeletion
  {
    if newQ.giverType.None? then Fail(NullPointer)
    else if newQ.giverType != q.giverType then Ok(true)
    else if newQ.recipientType.None? then Fail(NullPointer)
    else Ok(newQ.recipientType != q.recipientType || detailsRequireDeletion)
  }

  // ---------------------------------------------------------------------
  // compareTo and equals

  /** compareTo: a null question comes first; otherwise by question number, then by id. A null id
      on either side throws once the numbers are equal. */
  function CompareTo(q: Question, o: Option<Question>): (r: Outcome<int>)
    ensures o.None? ==> r == Ok(1)
    ensures o.Some? && q.number != o.value.number ==> r.Ok? && (r.value < 0 <==> q.number < o.value.number)
    ensures o.Some? && q.number != o.value.number ==> r.Ok? && r.value != 0
    ensures o.Some? && q.number == o.value.number ==> (r.Fail? <==> q.id.None? || o.value.id.None?)
    ensures r.Fail? ==> r.failure == NullPointer
    ensures o.Some? && q.number == o.value.number && r.Ok? ==> (r.value == 0 <==> q.id == o.value.id)
  {
    if o.None? then Ok(1)
    else if q.number != o.value.number then Ok(IntCompare(q.number, o.value.number))
    else if q.id.None? || o.value.id.None? then Fail(NullPointer)
    else Ok(JavaStrings.CompareTo(q.id.value, o.value.id.value))
  }

  /** The same order as a comparator over questions whose ids are present. */
  function ByNumberThenId(a: Question, b: Question): int
  {
    if a.number != b.number then IntCompare(a.number, b.number)
    else JavaStrings.CompareTo(a.id.GetOr(""), b.id.GetOr(""))
  }

  /** compareTo keeps the Comparator contract: on questions with ids it is ByNumberThenId, whose sign
      flips with its arguments and which is transitive. */
  lemma CompareToIsOrder(a: Question, b: Question)
    requires a.id.Some? && b.id.Some?
    ensures CompareTo(a, Some(b)) == Ok(ByNumberThenId(a, b))
    ensures ByNumberThenId(a, b) == -ByNumberThenId(b, a)
    ensures Sorting.IsTotalPreorder(ByNumberThenId)
  {
    JavaStrings.CompareToAntisymmetric(a.id.value, b.id.value);
    forall x: Question, y: Question, z: Question
      ensures ByNumberThenId(x, y) == -ByNumberThenId(y, x)
      ensures ByNumberThenId(x, y) <= 0 && ByNumberThenId(y, z) <= 0 ==> ByNumberThenId(x, z) <= 0
    {
      JavaStrings.CompareToAntisymmetric(x.id.GetOr(""), y.id.GetOr(""));
      JavaStrings.CompareToTotalOrder(x.id.GetOr(""), y.id.GetOr(""), z.id.GetOr(""));
    }
  }

  /** equals: every field but the id (and the timestamps) agrees. */
  function Equals(q: Question, other: Option<Question>): (r: bool)
    ensures other.None? ==> !r
    ensures other.Some? ==> (r <==> q.(id := None) == other.value.(id := None))
    ensures other == Some(q) ==> r
  {
    other.Some?
    && q.courseId == other.value.courseId && q.sessionName == other.value.sessionName
    && q.giverType == other.value.giverType
    && q.entitiesToGiveFeedbackTo == other.value.entitiesToGiveFeedbackTo
    && q.number == other.value.number && q.metaData == other.value.metaData
    && q.description == other.value.description && q.questionType == other.value.questionType
    && q.recipientType == other.value.recipientType
    && q.visibility.showGiverNameTo == other.value.visibility.showGiverNameTo
    && q.visibility.showRecipientNameTo == other.value.visibility.showRecipientNameTo
    && q.visibility.showResponsesTo == other.value.visibility.showResponsesTo
  }

  // ---------------------------------------------------------------------
  // Pruning the visibility lists

  /** The entries that make no sense for the recipient type and for the giver type. */
  function OptionsToRemove(recipientType: Option<ParticipantType>, giverType: Option<ParticipantType>)
    : (r: seq<ParticipantType>)
    ensures recipientType == Some(NONE) ==> RECEIVER in r && RECEIVER_TEAM_MEMBERS in r
    ensures recipientType.Some? && recipientType.value in {TEAMS, INSTRUCTORS, OWN_TEAM, OWN_TEAM_MEMBERS}
            ==> RECEIVER_TEAM_MEMBERS in r
    ensures giverType.Some? && giverType.value in {TEAMS, INSTRUCTORS} ==> OWN_TEAM_MEMBERS in r
    ensures forall t | t in r :: t in {RECEIVER, RECEIVER_TEAM_MEMBERS, OWN_TEAM_MEMBERS}
    ensures RECEIVER in r ==> recipientType == Some(NONE)
    ensures OWN_TEAM_MEMBERS in r ==> giverType == Some(TEAMS) || giverType == Some(INSTRUCTORS)
  {
    var forRecipient :=
      if recipientType.None? then []
      else match recipientType.value
        case NONE => [RECEIVER, RECEIVER_TEAM_MEMBERS]
        case TEAMS => [RECEIVER_TEAM_MEMBERS]
        case INSTRUCTORS => [RECEIVER_TEAM_MEMBERS]
        case OWN_TEAM => [RECEIVER_TEAM_MEMBERS]
        case OWN_TEAM_MEMBERS => [RECEIVER_TEAM_MEMBERS]
        case _ => [];
    var forGiver :=
      if giverType == Some(TEAMS) || giverType == Some(INSTRUCTORS) then [OWN_TEAM_MEMBERS] else [];
    forRecipient + forGiver
  }

  /** List.removeAll: every entry that is one of `opts` goes; the rest keep their order. */
  function RemoveAll(list: seq<ParticipantType>, opts: seq<ParticipantType>): (r: seq<ParticipantType>)
    ensures forall t :: t in r <==> t in list && t !in opts
    ensures |r| <= |list|
  {
    if list == [] then []
    else if list[0] in opts then RemoveAll(list[1..], opts)
    else [list[0]] + RemoveAll(list[1..], opts)
  }

  lemma {:induction false} RemoveAllNothing(list: seq<ParticipantType>, opts: seq<ParticipantType>)
    requires forall t | t in list :: t !in opts
    ensures RemoveAll(list, opts) == list
    decreases |list|
  {
    if list != [] {
      RemoveAllNothing(list[1..], opts);
      assert list == [list[0]] + list[1..];
    }
  }

  function RemoveAllIfPresent(list: Option<seq<ParticipantType>>, opts: seq<ParticipantType>)
    : (r: Option<seq<ParticipantType>>)
    ensures r.Some? <==> list.Some?
    ensures list.Some? ==> r.value == RemoveAll(list.value, opts)
  {
    if list.Some? then Some(RemoveAll(list.value, opts)) else None
  }

  /** removeVisibilities as written: showResponsesTo is pruned under the guard
      `showRecipientNameTo != null`. A null showRecipientNameTo leaves showResponsesTo unpruned; a
      null showResponsesTo beside a present showRecipientNameTo throws. */
  function RemoveVisibilitiesAsWritten(v: Visibility, opts: seq<ParticipantType>): (r: Outcome<Visibility>)
    ensures r.Fail? <==> v.showRecipientNameTo.Some? && v.showResponsesTo.None?
    ensures r.Fail? ==> r.failure == NullPointer
    ensures r.Ok? && v.showRecipientNameTo.None? ==> r.value.showResponsesTo == v.showResponsesTo
    ensures r.Ok? ==> r.value.showGiverNameTo == RemoveAllIfPresent(v.showGiverNameTo, opts)
    ensures r.Ok? ==> r.value.showRecipientNameTo == RemoveAllIfPresent(v.showRecipientNameTo, opts)
  {
    if v.showRecipientNameTo.Some? && v.showResponsesTo.None? then Fail(NullPointer)
    else
      var responses := if v.showRecipientNameTo.Some? then Some(RemoveAll(v.showResponsesTo.value, opts))
                       else v.showResponsesTo;
      Ok(Visibility(responses, RemoveAllIfPresent(v.showGiverNameTo, opts),
                    RemoveAllIfPresent(v.showRecipientNameTo, opts)))
  }

  /** The guard each list evidently intends: prune a list when that list is present. */
  function RemoveVisibilities(v: Visibility, opts: seq<ParticipantType>): (r: Visibility)
    ensures r.showResponsesTo == RemoveAllIfPresent(v.showResponsesTo, opts)
    ensures r.showGiverNameTo == RemoveAllIfPresent(v.showGiverNameTo, opts)
    ensures r.showRecipientNameTo == RemoveAllIfPresent(v.showRecipientNameTo, opts)
  {
    Visibility(RemoveAllIfPresent(v.showResponsesTo, opts), RemoveAllIfPresent(v.showGiverNameTo, opts),
               RemoveAllIfPresent(v.showRecipientNameTo, opts))
  }

  /** No list named in `v` holds `t`. */
  predicate Hides(v: Visibility, t: ParticipantType)
  {
    (v.showResponsesTo.Some? ==> t !in v.showResponsesTo.value)
    && (v.showGiverNameTo.Some? ==> t !in v.showGiverNameTo.value)
    && (v.showRecipientNameTo.Some? ==> t !in v.showRecipientNameTo.value)
  }

  /** After pruning no present list holds a removed entry, every other entry stays, and a second
      pruning changes nothing. */
  lemma RemoveVisibilitiesProperties(v: Visibility, opts: seq<ParticipantType>)
    ensures forall t | t in opts :: Hides(RemoveVisibilities(v, opts), t)
    ensures forall t | t !in opts ::
              v.showResponsesTo.Some? && t in v.showResponsesTo.value ==> t in RemoveVisibilities(v, opts).showResponsesTo.value
    ensures RemoveVisibilities(RemoveVisibilities(v, opts), opts) == RemoveVisibilities(v, opts)
  {
    var r := RemoveVisibilities(v, opts);
    if v.showResponsesTo.Some? {
      RemoveAllNothing(r.showResponsesTo.value, opts);
    }
    if v.showGiverNameTo.Some? {
      RemoveAllNothing(r.showGiverNameTo.value, opts);
    }
    if v.showRecipientNameTo.Some? {
      RemoveAllNothing(r.showRecipientNameTo.value, opts);
    }
  }

  /** The as-written guard lets an irrelevant entry survive in showResponsesTo: a question for
      nobody whose showRecipientNameTo is null keeps RECEIVER among the response viewers. */
  lemma RemoveVisibilitiesAsWrittenKeepsReceiver()
    ensures var v := Visibility(Some([RECEIVER]), Some([]), None);
            var opts := OptionsToRemove(Some(NONE), Some(STUDENTS));
            RemoveVisibilitiesAsWritten(v, opts) == Ok(v)
            && RECEIVER in RemoveVisibilitiesAsWritten(v, opts).value.showResponsesTo.value
            && RemoveVisibilities(v, opts).showResponsesTo == Some([])
  {
    var opts := OptionsToRemove(Some(NONE), Some(STUDENTS));
    assert opts == [RECEIVER, RECEIVER_TEAM_MEMBERS];
    assert RemoveAll([], opts) == [];
    assert RemoveAll([RECEIVER], opts) == RemoveAll([], opts);
  }

  /** removeIrrelevantVisibilityOptions, with each list guarded by its own null check. */
  function Pruned(q: Question): (r: Question)
    ensures r == q.(visibility := r.visibility)
    ensures q.recipientType == Some(NONE) ==> Hides(r.visibility, RECEIVER) && Hides(r.visibility, RECEIVER_TEAM_MEMBERS)
    ensures q.recipientType.Some? && q.recipientType.value in {TEAMS, INSTRUCTORS, OWN_TEAM, OWN_TEAM_MEMBERS}
            ==> Hides(r.visibility, RECEIVER_TEAM_MEMBERS)
    ensures q.giverType.Some? && q.giverType.value in {TEAMS, INSTRUCTORS} ==> Hides(r.visibility, OWN_TEAM_MEMBERS)
  {
    var opts := OptionsToRemove(q.recipientType, q.giverType);
    RemoveVisibilitiesProperties(q.visibility, opts);
    q.(visibility := RemoveVisibilities(q.visibility, opts))
  }

  /** removeIrrelevantVisibilityOptions as written, through the as-written guard. */
  function PrunedAsWritten(q: Question): (r: Outcome<Question>)
    ensures r.Fail? <==> q.visibility.showRecipientNameTo.Some? && q.visibility.showResponsesTo.None?
    ensures r.Fail? ==> r.failure == NullPointer
    ensures r.Ok? ==> r.value == q.(visibility := r.value.visibility)
  {
    var v := RemoveVisibilitiesAsWritten(q.visibility, OptionsToRemove(q.recipientType, q.giverType));
    if v.Fail? then Fail(NullPointer) else Ok(q.(visibility := v.value))
  }

  /** The two guards agree whenever both showResponsesTo and showRecipientNameTo are present, or
      both are null; they differ only when showRecipientNameTo alone is null or alone present. */
  lemma PrunedAsWrittenAgrees(q: Question)
    requires q.visibility.showRecipientNameTo.Some? == q.visibility.showResponsesTo.Some?
    ensures PrunedAsWritten(q) == Ok(Pruned(q))
  {
  }

  /** Pruning twice prunes no more than once. */
  lemma PrunedIsIdempotent(q: Question)
    ensures Pruned(Pruned(q)) == Pruned(q)
  {
    RemoveVisibilitiesProperties(q.visibility, OptionsToRemove(q.recipientType, q.giverType));
  }

  // ---------------------------------------------------------------------
  // updateValues, update and sanitizeForSaving

  /** updateValues(newAttributes), applied to `newQ`: the session and course always come from `q`;
      every other listed field of `newQ` that is null takes `q`'s value. */
  function ValuesUpdated(newQ: Question, q: Question): (r: Question)
    ensures r.sessionName == q.sessionName && r.courseId == q.courseId
    ensures r.number == newQ.number && r.entitiesToGiveFeedbackTo == newQ.entitiesToGiveFeedbackTo && r.id == newQ.id
    ensures newQ.giverType.Some? ==> r.giverType == newQ.giverType
    ensures newQ.giverType.None? ==> r.giverType == q.giverType
    ensures newQ.recipientType.Some? ==> r.recipientType == newQ.recipientType
    ensures newQ.recipientType.None? ==> r.recipientType == q.recipientType
    ensures newQ.metaData.Some? ==> r.metaData == newQ.metaData
    ensures newQ.metaData.None? ==> r.metaData == q.metaData
    ensures newQ.description.Some? ==> r.description == newQ.description
    ensures newQ.description.None? ==> r.description == q.description
    ensures newQ.questionType.Some? ==> r.questionType == newQ.questionType
    ensures newQ.questionType.None? ==> r.questionType == q.questionType
    ensures newQ.visibility.showResponsesTo.Some? ==> r.visibility.showResponsesTo == newQ.visibility.showResponsesTo
    ensures newQ.visibility.showResponsesTo.None? ==> r.visibility.showResponsesTo == q.visibility.showResponsesTo
    ensures newQ.visibility.showGiverNameTo.Some? ==> r.visibility.showGiverNameTo == newQ.visibility.showGiverNameTo
    ensures newQ.visibility.showGiverNameTo.None? ==> r.visibility.showGiverNameTo == q.visibility.showGiverNameTo
    ensures newQ.visibility.showRecipientNameTo.Some?
            ==> r.visibility.showRecipientNameTo == newQ.visibility.showRecipientNameTo
    ensures newQ.visibility.showRecipientNameTo.None?
            ==> r.visibility.showRecipientNameTo == q.visibility.showRecipientNameTo
  {
    newQ.(sessionName := q.sessionName, courseId := q.courseId,
          metaData := FillNullable(newQ.metaData, q.metaData),
          description := FillNullable(newQ.description, q.description),
          questionType := FillNullable(newQ.questionType, q.questionType),
          giverType := FillNullable(newQ.giverType, q.giverType),
          recipientType := FillNullable(newQ.recipientType, q.recipientType),
          visibility := Visibility(FillNullable(newQ.visibility.showResponsesTo, q.visibility.showResponsesTo),
                                   FillNullable(newQ.visibility.showGiverNameTo, q.visibility.showGiverNameTo),
                                   FillNullable(newQ.visibility.showRecipientNameTo, q.visibility.showRecipientNameTo)))
  }

  /** Filling from the same question twice fills no more than once. */
  lemma ValuesUpdatedIsIdempotent(newQ: Question, q: Question)
    ensures ValuesUpdated(ValuesUpdated(newQ, q), q) == ValuesUpdated(newQ, q)
  {
  }

  /** FeedbackQuestionAttributes.UpdateOptions. The options identify the question by id; the
      details are given as their JSON text, and the description may be set to null. Their builders
      refuse the other nulls. */
  datatype UpdateOptions = UpdateOptions(
    questionId: string,
    questionDetails: Option<string>,
    description: Option<Option<string>>,
    number: Option<int>,
    giverType: Option<ParticipantType>,
    recipientType: Option<ParticipantType>,
    entitiesToGiveFeedbackTo: Option<int>,
    showResponsesTo: Option<seq<ParticipantType>>,
    showGiverNameTo: Option<seq<ParticipantType>>,
    showRecipientNameTo: Option<seq<ParticipantType>>)

  /** The overwriting half of update. */
  function Overwritten(q: Question, o: UpdateOptions): (r: Question)
  {
    q.(number := Fill(o.number, q.number),
       metaData := FillNullable(o.questionDetails, q.metaData),
       description := Fill(o.description, q.description),
       giverType := FillNullable(o.giverType, q.giverType),
       recipientType := FillNullable(o.recipientType, q.recipientType),
       entitiesToGiveFeedbackTo := Fill(o.entitiesToGiveFeedbackTo, q.entitiesToGiveFeedbackTo),
       visibility := Visibility(FillNullable(o.showResponsesTo, q.visibility.showResponsesTo),
                                FillNullable(o.showGiverNameTo, q.visibility.showGiverNameTo),
                                FillNullable(o.showRecipientNameTo, q.visibility.showRecipientNameTo)))
  }

  /** update: each present option overwrites its field, then the irrelevant visibility entries
      go. The session, course, question type and id never change. */
  function Updated(q: Question, o: UpdateOptions): (r: Question)
    ensures r.sessionName == q.sessionName && r.courseId == q.courseId
    ensures r.questionType == q.questionType && r.id == q.id
    ensures r.number == Fill(o.number, q.number)
    ensures r.giverType == FillNullable(o.giverType, q.giverType)
    ensures r.recipientType == FillNullable(o.recipientType, q.recipientType)
    ensures r.description == Fill(o.description, q.description)
    ensures r.metaData == FillNullable(o.questionDetails, q.metaData)
    ensures r.entitiesToGiveFeedbackTo == Fill(o.entitiesToGiveFeedbackTo, q.entitiesToGiveFeedbackTo)
    ensures r.visibility.showResponsesTo
            == RemoveAllIfPresent(FillNullable(o.showResponsesTo, q.visibility.showResponsesTo),
                                  OptionsToRemove(r.recipientType, r.giverType))
    ensures r.visibility.showGiverNameTo
            == RemoveAllIfPresent(FillNullable(o.showGiverNameTo, q.visibility.showGiverNameTo),
                                  OptionsToRemove(r.recipientType, r.giverType))
    ensures r.visibility.showRecipientNameTo
            == RemoveAllIfPresent(FillNullable(o.showRecipientNameTo, q.visibility.showRecipientNameTo),
                                  OptionsToRemove(r.recipientType, r.giverType))
    ensures o.recipientType == Some(NONE) ==> Hides(r.visibility, RECEIVER)
    ensures o.giverType == Some(TEAMS) ==> Hides(r.visibility, OWN_TEAM_MEMBERS)
    ensures o.showResponsesTo.Some? ==> r.visibility.showResponsesTo.Some?
  {
    Pruned(Overwritten(q, o))
  }

  /** An updated question is already pruned. */
  lemma UpdatedIsPruned(q: Question, o: UpdateOptions)
    ensures Pruned(Updated(q, o)) == Updated(q, o)
  {
    PrunedIsIdempotent(Overwritten(q, o));
  }

  /** With no option present, update only prunes; on a pruned question it changes nothing. */
  lemma UpdateWithoutOptions(q: Question, id: string)
    ensures var none := UpdateOptions(id, None, None, None, None, None, None, None, None, None);
            Updated(q, none) == Pruned(q) && Updated(Pruned(q), none) == Pruned(q)
  {
    var none := UpdateOptions(id, None, None, None, None, None, None, None, None, None);
    assert Overwritten(q, none) == q;
    assert Overwritten(Pruned(q), none) == Pruned(q);
    PrunedIsIdempotent(q);
  }

  /** sanitizeForSaving: only the description goes through the rich-text sanitizer. */
  function Sanitized(q: Question, sanitizeRichText: string -> string): (r: Question)
    ensures r == q.(description := r.description)
    ensures r.description.Some? <==> q.description.Some?
  {
    q.(description := MapOption(q.description, sanitizeRichText))
  }

  // ---------------------------------------------------------------------
  // Reading a stored question

  /** The getters of a stored FeedbackQuestion entity (the entity class is not part of this model). */
  datatype QuestionEntity = QuestionEntity(
    sessionName: Option<string>, courseId: Option<string>, metaData: Option<string>,
    description: Option<string>, number: int, questionType: Option<QuestionType>,
    giverType: Option<ParticipantType>, recipientType: Option<ParticipantType>,
    entitiesToGiveFeedbackTo: int, visibility: Visibility, id: Option<string>)

  /** valueOf: the stored values; a null visibility list keeps the empty default. */
  function AttributesOf(e: QuestionEntity): (r: Question)
    ensures r.visibility.showResponsesTo.Some? && r.visibility.showGiverNameTo.Some?
    ensures r.visibility.showRecipientNameTo.Some?
    ensures e.visibility.showResponsesTo.None? ==> r.visibility.showResponsesTo == Some([])
    ensures e.visibility.showResponsesTo.Some? ==> r.visibility.showResponsesTo == e.visibility.showResponsesTo
    ensures r.id == e.id && r.number == e.number && r.giverType == e.giverType && r.recipientType == e.recipientType
  {
    Question(e.sessionName, e.courseId, e.metaData, e.description, e.number, e.questionType,
             e.giverType, e.recipientType, e.entitiesToGiveFeedbackTo,
             Visibility(FillNullable(e.visibility.showResponsesTo, EMPTY_VISIBILITY.showResponsesTo),
                        FillNullable(e.visibility.showGiverNameTo, EMPTY_VISIBILITY.showGiverNameTo),
                        FillNullable(e.visibility.showRecipientNameTo, EMPTY_VISIBILITY.showRecipientNameTo)),
             e.id)
  }

  // ---------------------------------------------------------------------
  // The mutable object

  class FeedbackQuestionAttributes {
    var sessionName: Option<string>
    var courseId: Option<string>
    var metaData: Option<string>
    var description: Option<string>
    var number: int
    var questionType: Option<QuestionType>
    var giverType: Option<ParticipantType>
    var recipientType: Option<ParticipantType>
    var entitiesToGiveFeedbackTo: int
    var visibility: Visibility
    var id: Option<string>

    function State(): Question
      reads this
    {
      Question(sessionName, courseId, metaData, description, number, questionType, giverType, recipientType,
               entitiesToGiveFeedbackTo, visibility, id)
    }

    /** Writes every field at once. */
    method SetState(q: Question)
      modifies this
      ensures State() == q
    {
      sessionName, courseId, metaData, description, number, questionType, giverType, recipientType,
        entitiesToGiveFeedbackTo, visibility, id :=
        q.sessionName, q.courseId, q.metaData, q.description, q.number, q.questionType, q.giverType,
        q.recipientType, q.entitiesToGiveFeedbackTo, q.visibility, q.id;
    }

    constructor ()
      ensures State() == DEFAULTS
    {
      sessionName, courseId, metaData, description := None, None, None, None;
      number, questionType, giverType, recipientType := 0, None, None, None;
      entitiesToGiveFeedbackTo, visibility, id := 0, EMPTY_VISIBILITY, None;
    }

    /** getCopy: a new object with the same values. The three lists are copied with
        `new ArrayList<>(...)`, which throws on a null list; being values, the copies share
        nothing with the original. */
    method GetCopy() returns (r: Outcome<FeedbackQuestionAttributes>)
      ensures r.Fail? <==> visibility.showResponsesTo.None? || visibility.showGiverNameTo.None?
                           || visibility.showRecipientNameTo.None?
      ensures r.Fail? ==> r.failure == NullPointer
      ensures r.Ok? ==> fresh(r.value) && r.value.State() == State()
    {
      var c := new FeedbackQuestionAttributes();
      if visibility.showResponsesTo.None? || visibility.showGiverNameTo.None?
         || visibility.showRecipientNameTo.None? {
        return Fail(NullPointer);
      }
      c.SetState(State());
      return Ok(c);
    }

    /** updateValues: fills `newAttributes` from this question. */
    method UpdateValues(newAttributes: FeedbackQuestionAttributes)
      modifies newAttributes
      ensures newAttributes.State() == ValuesUpdated(old(newAttributes.State()), old(State()))
    {
      var q := State();
      newAttributes.sessionName := q.sessionName;
      newAttributes.courseId := q.courseId;
      newAttributes.metaData := FillNullable(newAttributes.metaData, q.metaData);
      newAttributes.description := FillNullable(newAttributes.description, q.description);
      newAttributes.questionType := FillNullable(newAttributes.questionType, q.questionType);
      newAttributes.giverType := FillNullable(newAttributes.giverType, q.giverType);
      newAttributes.recipientType := FillNullable(newAttributes.recipientType, q.recipientType);
      var v := newAttributes.visibility;
      newAttributes.visibility :=
        Visibility(FillNullable(v.showResponsesTo, q.visibility.showResponsesTo),
                   FillNullable(v.showGiverNameTo, q.visibility.showGiverNameTo),
                   FillNullable(v.showRecipientNameTo, q.visibility.showRecipientNameTo));
    }

    method RemoveIrrelevantVisibilityOptions()
      modifies this
      ensures State() == Pruned(old(State()))
    {
      var opts := OptionsToRemove(recipientType, giverType);
      visibility := RemoveVisibilities(visibility, opts);
    }

    /** update: the number option is applied first; present details are then serialised with
        the details class of the question type, which throws on a null type and leaves only the
        number changed. Otherwise every option is applied and the irrelevant visibility
        entries go. */
    method Update(o: UpdateOptions) returns (r: Outcome<()>)
      modifies this
      ensures r.Fail? <==> o.questionDetails.Some? && old(questionType).None?
      ensures r.Fail? ==> r.failure == NullPointer
                          && State() == old(State()).(number := Fill(o.number, old(number)))
      ensures r.Ok? ==> State() == Updated(old(State()), o)
    {
      number := Fill(o.number, number);
      if o.questionDetails.Some? && questionType.None? {
        return Fail(NullPointer);
      }
      SetState(Overwritten(State(), o));
      RemoveIrrelevantVisibilityOptions();
      r := Ok(());
    }

    method SanitizeForSaving(sanitizeRichText: string -> string)
      modifies this
      ensures State() == Sanitized(old(State()), sanitizeRichText)
    {
      description := MapOption(description, sanitizeRichText);
    }
  }

  /** valueOf(FeedbackQuestion). */
  method ValueOf(e: QuestionEntity) returns (a: FeedbackQuestionAttributes)
    ensures fresh(a) && a.State() == AttributesOf(e)
  {
    a := new FeedbackQuestionAttributes();
    a.sessionName, a.courseId, a.metaData, a.description := e.sessionName, e.courseId, e.metaData, e.description;
    a.number, a.questionType, a.giverType, a.recipientType := e.number, e.questionType, e.giverType, e.recipientType;
    a.entitiesToGiveFeedbackTo, a.id := e.entitiesToGiveFeedbackTo, e.id;
    a.visibility := Visibility(FillNullable(e.visibility.showResponsesTo, a.visibility.showResponsesTo),
                               FillNullable(e.visibility.showGiverNameTo, a.visibility.showGiverNameTo),
                               FillNullable(e.visibility.showRecipientNameTo, a.visibility.showRecipientNameTo));
  }

  /** builder()...build(): session, course and type set directly, then update with the collected
      options and a second pruning, which changes nothing. */
  method Build(sessionName: string, courseId: string, questionType: QuestionType, o: UpdateOptions)
    returns (a: FeedbackQuestionAttributes)
    ensures fresh(a)
    ensures a.State() == Updated(DEFAULTS.(sessionName := Some(sessionName), courseId := Some(courseId),
                                           questionType := Some(questionType)), o)
    ensures a.State().id.None?
  {
    var base := DEFAULTS.(sessionName := Some(sessionName), courseId := Some(courseId),
                          questionType := Some(questionType));
    a := new FeedbackQuestionAttributes();
    a.SetState(base);
    var updated := a.Update(o);
    UpdatedIsPruned(base, o);
    a.RemoveIrrelevantVisibilityOptions();
  }
}
