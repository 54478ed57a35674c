// FeedbackResponseCommentAttributes: a comment on one response, by an
// instructor or by the response's giver, with its own visibility lists.

module FeedbackResponseCommentAttributes {
  import opened Common
  import opened Const
  import Sorting

  /** The field values of a comment. */
  datatype Comment = Comment(
    courseId: Option<string>,
    sessionName: Option<string>,
    commentGiver: Option<string>,
    commentText: Option<string>,
    responseId: Option<string>,
    questionId: Option<string>,
    showCommentTo: seq<ParticipantType>,
    showGiverNameTo: seq<ParticipantType>,
    isVisibilityFollowingQuestion: bool,
    createdAt: Instant,
    lastEditorEmail: Option<string>,
    lastEditedAt: Option<Instant>,
    id: Option<int>,
    giverSection: string,
    receiverSection: string,
    commentGiverType: Option<ParticipantType>,
    isFromParticipant: bool)

  /** The package-private constructor, which reads the clock for createdAt (`now` here). */
  function Defaults(now: Instant): (c: Comment)
    ensures c.giverSection == DEFAULT_SECTION && c.receiverSection == DEFAULT_SECTION
    ensures c.showCommentTo == [] && c.showGiverNameTo == []
    ensures c.isVisibilityFollowingQuestion && c.createdAt == now
    ensures c.commentGiverType == Some(INSTRUCTORS) && !c.isFromParticipant
  {
    Comment(None, None, None, None, None, None, [], [], true, now, None, None, None, DEFAULT_SECTION, DEFAULT_SECTION,
            Some(INSTRUCTORS), false)
  }

  /** isVisibleTo: the viewer type is one of those the comment is shown to. */
  predicate IsVisibleTo(c: Comment, viewerType: ParticipantType)
  {
    viewerType in c.showCommentTo
  }

  // ---------------------------------------------------------------------
  // Reading a stored comment

  /** The getters of a stored FeedbackResponseComment entity (the entity class is not part of
      this model). */
  datatype CommentEntity = CommentEntity(
    courseId: Option<string>, sessionName: Option<string>, giverEmail: Option<string>,
    commentText: Option<string>, responseId: Option<string>, questionId: Option<string>,
    showCommentTo: Option<seq<ParticipantType>>, showGiverNameTo: Option<seq<ParticipantType>>,
    isVisibilityFollowingQuestion: bool, createdAt: Option<Instant>, lastEditorEmail: Option<string>,
    lastEditedAt: Option<Instant>, id: Option<int>, giverSection: Option<string>,
    receiverSection: Option<string>, commentGiverType: Option<ParticipantType>, isFromParticipant: bool)

  /** valueOf: the stored values over the defaults. A null list, section or creation time keeps
      the default; a missing last editor is the giver and a missing edit time is the creation
      time. */
  function AttributesOf(e: CommentEntity, now: Instant): (c: Comment)
    ensures c.showCommentTo == e.showCommentTo.GetOr([]) && c.showGiverNameTo == e.showGiverNameTo.GetOr([])
    ensures c.giverSection == e.giverSection.GetOr(DEFAULT_SECTION)
    ensures c.receiverSection == e.receiverSection.GetOr(DEFAULT_SECTION)
    ensures c.createdAt == e.createdAt.GetOr(now)
    ensures c.lastEditorEmail == if e.lastEditorEmail.None? then e.giverEmail else e.lastEditorEmail
    ensures c.lastEditedAt == Some(e.lastEditedAt.GetOr(c.createdAt))
    ensures c.commentGiver == e.giverEmail && c.id == e.id && c.commentGiverType == e.commentGiverType
    ensures c.isFromParticipant == e.isFromParticipant
  {
    var d := Defaults(now);
    var createdAt := Fill(e.createdAt, d.createdAt);
    Comment(e.courseId, e.sessionName, e.giverEmail, e.commentText, e.responseId, e.questionId,
            Fill(e.showCommentTo, d.showCommentTo), Fill(e.showGiverNameTo, d.showGiverNameTo),
            e.isVisibilityFollowingQuestion, createdAt,
            if e.lastEditorEmail.None? then e.giverEmail else e.lastEditorEmail,
            Some(Fill(e.lastEditedAt, createdAt)), e.id,
            Fill(e.giverSection, d.giverSection), Fill(e.receiverSection, d.receiverSection),
            e.commentGiverType, e.isFromParticipant)
  }

  /** A stored comment without an edit history reads as last edited by its giver when it was
      created. */
  lemma UneditedCommentReadsAsCreated(e: CommentEntity, now: Instant)
    requires e.lastEditorEmail.None? && e.lastEditedAt.None?
    ensures AttributesOf(e, now).lastEditorEmail == AttributesOf(e, now).commentGiver
    ensures AttributesOf(e, now).lastEditedAt == Some(AttributesOf(e, now).createdAt)
  {
  }

  // ---------------------------------------------------------------------
  // Update options

  /** FeedbackResponseCommentAttributes.UpdateOptions: identifies the comment by id. Its builders
      refuse null values, so every present option holds a value. */
  datatype UpdateOptions = UpdateOptions(
    commentId: int,
    responseId: Option<string>,
    commentText: Option<string>,
    showCommentTo: Option<seq<ParticipantType>>,
    showGiverNameTo: Option<seq<ParticipantType>>,
    lastEditorEmail: Option<string>,
    lastEditedAt: Option<Instant>,
    giverSection: Option<string>,
    receiverSection: Option<string>)

  /** update: each present option overwrites its field; course, session, giver, question, id,
      creation time, giver type and the flags never change. */
  function Updated(c: Comment, o: UpdateOptions): (u: Comment)
    ensures u.courseId == c.courseId && u.sessionName == c.sessionName && u.commentGiver == c.commentGiver
    ensures u.questionId == c.questionId && u.id == c.id && u.createdAt == c.createdAt
    ensures u.commentGiverType == c.commentGiverType && u.isFromParticipant == c.isFromParticipant
    ensures u.isVisibilityFollowingQuestion == c.isVisibilityFollowingQuestion
    ensures u.responseId == FillNullable(o.responseId, c.responseId)
    ensures u.commentText == FillNullable(o.commentText, c.commentText)
    ensures u.showCommentTo == Fill(o.showCommentTo, c.showCommentTo)
    ensures u.showGiverNameTo == Fill(o.showGiverNameTo, c.showGiverNameTo)
    ensures u.lastEditorEmail == FillNullable(o.lastEditorEmail, c.lastEditorEmail)
    ensures u.lastEditedAt == FillNullable(o.lastEditedAt, c.lastEditedAt)
    ensures u.giverSection == Fill(o.giverSection, c.giverSection)
    ensures u.receiverSection == Fill(o.receiverSection, c.receiverSection)
  {
    c.(responseId := FillNullable(o.responseId, c.responseId),
       commentText := FillNullable(o.commentText, c.commentText),
       showCommentTo := Fill(o.showCommentTo, c.showCommentTo),
       showGiverNameTo := Fill(o.showGiverNameTo, c.showGiverNameTo),
       lastEditorEmail := FillNullable(o.lastEditorEmail, c.lastEditorEmail),
       lastEditedAt := FillNullable(o.lastEditedAt, c.lastEditedAt),
       giverSection := Fill(o.giverSection, c.giverSection),
       receiverSection := Fill(o.receiverSection, c.receiverSection))
  }

  /** After an update with a showCommentTo option, the comment is visible to exactly those types. */
  lemma UpdatedVisibility(c: Comment, o: UpdateOptions, t: ParticipantType)
    ensures o.showCommentTo.Some? ==> (IsVisibleTo(Updated(c, o), t) <==> t in o.showCommentTo.value)
    ensures o.showCommentTo.None? ==> (IsVisibleTo(Updated(c, o), t) <==> IsVisibleTo(c, t))
  {
  }

  /** builder()...build(): the defaults, the builder's own fields, then the collected options. */
  function Built(now: Instant, courseId: Option<string>, sessionName: Option<string>, commentGiver: Option<string>,
                 questionId: Option<string>, isVisibilityFollowingQuestion: bool,
                 commentGiverType: Option<ParticipantType>, isFromParticipant: bool, o: UpdateOptions): (c: Comment)
    ensures c.courseId == courseId && c.sessionName == sessionName && c.commentGiver == commentGiver
    ensures c.questionId == questionId && c.createdAt == now && c.id.None?
    ensures c.showCommentTo == o.showCommentTo.GetOr([]) && c.giverSection == o.giverSection.GetOr(DEFAULT_SECTION)
  {
    Updated(Defaults(now).(courseId := courseId, sessionName := sessionName, commentGiver := commentGiver,
                           questionId := questionId, isVisibilityFollowingQuestion := isVisibilityFollowingQuestion,
                           commentGiverType := commentGiverType, isFromParticipant := isFromParticipant), o)
  }

  // ---------------------------------------------------------------------
  // sortFeedbackResponseCommentsByCreationTime

  /** Comparator.comparing(createdAt). */
  function ByCreatedAt(a: Comment, b: Comment): int
  {
    IntCompare(a.createdAt, b.createdAt)
  }

  lemma ByCreatedAtIsPreorder()
    ensures Sorting.IsTotalPreorder(ByCreatedAt)
  {
  }

  /** The list sorted by creation time, oldest first. */
  function SortByCreationTime(list: seq<Comment>): (r: seq<Comment>)
    ensures multiset(r) == multiset(list)
    ensures forall i, j | 0 <= i < j < |r| :: r[i].createdAt <= r[j].createdAt
  {
    ByCreatedAtIsPreorder();
    Sorting.SortBySorted(list, ByCreatedAt);
    Sorting.SortBy(list, ByCreatedAt)
  }

  // ---------------------------------------------------------------------
  // The mutable object

  /** Field groups of the mutable object: where the comment belongs, who may see it, its edit
      history, its two sections, and what kind of giver wrote it. */
  datatype Location = Location(courseId: Option<string>, sessionName: Option<string>, questionId: Option<string>)
  datatype CommentVisibility = CommentVisibility(showCommentTo: seq<ParticipantType>,
                                                 showGiverNameTo: seq<ParticipantType>, followsQuestion: bool)
  datatype EditHistory = EditHistory(createdAt: Instant, lastEditorEmail: Option<string>, lastEditedAt: Option<Instant>)
  datatype Sections = Sections(giverSection: string, receiverSection: string)
  datatype GiverKind = GiverKind(commentGiverType: Option<ParticipantType>, isFromParticipant: bool)

  class FeedbackResponseCommentAttributes {
    var location: Location
    var commentGiver: Option<string>
    var commentText: Option<string>
    var responseId: Option<string>
    var visibility: CommentVisibility
    var history: EditHistory
    var id: Option<int>
    var sections: Sections
    var giverKind: GiverKind

    function State(): Comment
      reads this
    {
      Comment(location.courseId, location.sessionName, commentGiver, commentText, responseId, location.questionId,
              visibility.showCommentTo, visibility.showGiverNameTo, visibility.followsQuestion, history.createdAt,
              history.lastEditorEmail, history.lastEditedAt, id, sections.giverSection, sections.receiverSection,
              giverKind.commentGiverType, giverKind.isFromParticipant)
    }

    /** Writes every field at once. */
    method SetState(c: Comment)
      modifies this
      ensures State() == c
    {
      location, commentGiver, commentText, responseId := Location(c.courseId, c.sessionName, c.questionId),
        c.commentGiver, c.commentText, c.responseId;
      visibility, history, id := CommentVisibility(c.showCommentTo, c.showGiverNameTo, c.isVisibilityFollowingQuestion),
        EditHistory(c.createdAt, c.lastEditorEmail, c.lastEditedAt), c.id;
      sections, giverKind := Sections(c.giverSection, c.receiverSection), GiverKind(c.commentGiverType, c.isFromParticipant);
    }

    constructor (now: Instant)
      ensures State() == Defaults(now)
    {
      location, commentGiver, commentText, responseId := Location(None, None, None), None, None, None;
      visibility, history, id := CommentVisibility([], [], true), EditHistory(now, None, None), None;
      sections, giverKind := Sections(DEFAULT_SECTION, DEFAULT_SECTION), GiverKind(Some(INSTRUCTORS), false);
    }

    /** update: the present options, in the order the source applies them. */
    method Update(o: UpdateOptions)
      modifies this
      ensures State() == Updated(old(State()), o)
    {
      responseId := FillNullable(o.responseId, responseId);
      commentText := FillNullable(o.commentText, commentText);
      visibility := visibility.(showCommentTo := Fill(o.showCommentTo, visibility.showCommentTo),
                                showGiverNameTo := Fill(o.showGiverNameTo, visibility.showGiverNameTo));
      history := history.(lastEditorEmail := FillNullable(o.lastEditorEmail, history.lastEditorEmail),
                          lastEditedAt := FillNullable(o.lastEditedAt, history.lastEditedAt));
      sections := Sections(Fill(o.giverSection, sections.giverSection), Fill(o.receiverSection, sections.receiverSection));
    }
  }

  /** valueOf(FeedbackResponseComment): the defaults, then each stored value in turn. */
  method ValueOf(e: CommentEntity, now: Instant) returns (a: FeedbackResponseCommentAttributes)
    ensures fresh(a) && a.State() == AttributesOf(e, now)
  {
    a := new FeedbackResponseCommentAttributes(now);
    var visibility := CommentVisibility(Fill(e.showCommentTo, a.visibility.showCommentTo),
                                        Fill(e.showGiverNameTo, a.visibility.showGiverNameTo),
                                        e.isVisibilityFollowingQuestion);
    var createdAt := Fill(e.createdAt, a.history.createdAt);
    var history := EditHistory(createdAt, if e.lastEditorEmail.None? then e.giverEmail else e.lastEditorEmail,
                               Some(Fill(e.lastEditedAt, createdAt)));
    var sections := Sections(Fill(e.giverSection, a.sections.giverSection),
                             Fill(e.receiverSection, a.sections.receiverSection));
    a.SetState(Comment(e.courseId, e.sessionName, e.giverEmail, e.commentText, e.responseId, e.questionId,
                       visibility.showCommentTo, visibility.showGiverNameTo, visibility.followsQuestion,
                       history.createdAt, history.lastEditorEmail, history.lastEditedAt, e.id,
                       sections.giverSection, sections.receiverSection, e.commentGiverType, e.isFromParticipant));
  }

  /** builder()...build(). */
  method Build(now: Instant, courseId: Option<string>, sessionName: Option<string>, commentGiver: Option<string>,
               questionId: Option<string>, isVisibilityFollowingQuestion: bool,
               commentGiverType: Option<ParticipantType>, isFromParticipant: bool, o: UpdateOptions)
    returns (a: FeedbackResponseCommentAttributes)
    ensures fresh(a)
    ensures a.State() == Built(now, courseId, sessionName, commentGiver, questionId, isVisibilityFollowingQuestion,
                               commentGiverType, isFromParticipant, o)
  {
    a := new FeedbackResponseCommentAttributes(now);
    a.location, a.commentGiver := Location(courseId, sessionName, questionId), commentGiver;
    a.visibility := a.visibility.(followsQuestion := isVisibilityFollowingQuestion);
    a.giverKind := GiverKind(commentGiverType, isFromParticipant);
    a.Update(o);
  }
}
