// SessionResultsData: the API output of a session's results. This module models how the
// comments of a response are ordered, how a student sees givers and recipients, how the
// student view routes each response, how anonymous hashes are stripped from names, and the
// giver identity of a missing response.

module SessionResultsData {
  import opened Common
  import opened Const
  import Streams
  import FQ = FeedbackQuestionAttributes
  import FR = FeedbackResponseAttributes
  import FRC = FeedbackResponseCommentAttributes
  import CR = CourseRoster

  // ---------------------------------------------------------------------
  // removeAnonymousHash

  /** REGEX_ANONYMOUS_PARTICIPANT_HASH allows one to ten digits. */
  const MAX_HASH_DIGITS: nat := 10

  /** The participant tags of the pattern, in the order the alternation tries them. */
  const TAGS: seq<string> := ["student", "instructor", "team"]

  /** The anonymous display name and the blank that follows it. */
  const ANON_PREFIX: string := DISPLAYED_NAME_FOR_ANONYMOUS_PARTICIPANT + " "

  predicate IsDigit(c: char) { '0' <= c <= '9' }

  /** The length of the run of digits at the start of s, at most limit (a greedy [0-9]{..limit}). */
  function LeadingDigits(s: string, limit: nat): (n: nat)
    ensures n <= limit && n <= |s|
    ensures forall k | 0 <= k < n :: IsDigit(s[k])
    ensures n < limit && n < |s| ==> !IsDigit(s[n])
    decreases limit
  {
    if limit == 0 || |s| == 0 || !IsDigit(s[0]) then 0 else 1 + LeadingDigits(s[1..], limit - 1)
  }

  /** Where the hash would begin after the anonymous name, the tag t and a blank. */
  function HashOffset(t: string): nat { |ANON_PREFIX| + |t| + 1 }

  /** The start of a match of the pattern: the anonymous name, a blank, the tag t, a blank and a digit. */
  predicate HashStart(s: string, t: string)
  {
    && HashOffset(t) < |s|
    && s[..|ANON_PREFIX|] == ANON_PREFIX
    && s[|ANON_PREFIX|..|ANON_PREFIX| + |t|] == t
    && s[HashOffset(t) - 1] == ' '
    && IsDigit(s[HashOffset(t)])
  }

  /** The digit run counted on a suffix, stated on the whole string. */
  lemma DigitsInPlace(s: string, head: nat, n: nat)
    requires head <= |s| && n == LeadingDigits(s[head..], MAX_HASH_DIGITS)
    ensures head + n <= |s| && n <= MAX_HASH_DIGITS
    ensures forall k | head <= k < head + n :: IsDigit(s[k])
    ensures n < MAX_HASH_DIGITS && head + n < |s| ==> !IsDigit(s[head + n])
    ensures n == 0 ==> head == |s| || !IsDigit(s[head])
  {
    var t := s[head..];
    assert forall k | head <= k < head + n :: s[k] == t[k - head];
  }

  /** A match of the pattern at the start of a string: its tag and how many characters it spans. */
  datatype HashMatch = HashMatch(tag: string, length: nat)

  /** The match with tag t: as many digits as the greedy quantifier takes. */
  function MatchWith(s: string, t: string): (m: HashMatch)
    requires HashStart(s, t)
    ensures var head := HashOffset(t);
      && m.tag == t
      && head < m.length <= |s| && m.length <= head + MAX_HASH_DIGITS
      && (forall k | head <= k < m.length :: IsDigit(s[k]))
      && (m.length < head + MAX_HASH_DIGITS && m.length < |s| ==> !IsDigit(s[m.length]))
  {
    var head := HashOffset(t);
    var n := LeadingDigits(s[head..], MAX_HASH_DIGITS);
    DigitsInPlace(s, head, n);
    HashMatch(t, head + n)
  }

  /** The match of the pattern at the start of s, trying the tags in the alternation's order. */
  function MatchAt(s: string): (m: Option<HashMatch>)
    ensures m.None? ==> forall t | t in TAGS :: !HashStart(s, t)
    ensures m.Some? ==> m.value.tag in TAGS && HashStart(s, m.value.tag) && m.value == MatchWith(s, m.value.tag)
  {
    if HashStart(s, TAGS[0]) then Some(MatchWith(s, TAGS[0]))
    else if HashStart(s, TAGS[1]) then Some(MatchWith(s, TAGS[1]))
    else if HashStart(s, TAGS[2]) then Some(MatchWith(s, TAGS[2]))
    else None
  }

  /** identifier.replaceAll(anonymous name + " (student|instructor|team) " + hash,
      anonymous name + " $1"): scanning from the left, each match loses its blank and digits,
      and the scan resumes after it. */
  function RemoveAnonymousHash(s: string): (r: string)
    ensures |r| <= |s|
    decreases |s|
  {
    if |s| == 0 then ""
    else
      match MatchAt(s)
      case Some(m) => ANON_PREFIX + m.tag + RemoveAnonymousHash(s[m.length..])
      case None => [s[0]] + RemoveAnonymousHash(s[1..])
  }

  /** A name holding no digit is left as it is. */
  lemma {:induction false} RemoveAnonymousHashKeepsNamesWithoutDigits(s: string)
    requires forall i | 0 <= i < |s| :: !IsDigit(s[i])
    ensures RemoveAnonymousHash(s) == s
    decreases |s|
  {
    if |s| > 0 {
      assert MatchAt(s).None?;
      RemoveAnonymousHashKeepsNamesWithoutDigits(s[1..]);
    }
  }

  /** Only one tag can start a match. */
  lemma HashStartUnique(s: string, t: string, u: string)
    requires t in TAGS && u in TAGS && HashStart(s, t) && HashStart(s, u)
    ensures t == u
  {
    assert t[0] == s[|ANON_PREFIX|] == u[0];
    assert forall v, w | v in TAGS && w in TAGS && v != w :: v[0] != w[0];
  }

  /** Two greedy runs of digits from the same place end at the same place. */
  lemma GreedyRunUnique(s: string, head: nat, a: nat, b: nat)
    requires head < a <= |s| && a <= head + MAX_HASH_DIGITS
    requires head < b <= |s| && b <= head + MAX_HASH_DIGITS
    requires forall k | head <= k < a :: IsDigit(s[k])
    requires forall k | head <= k < b :: IsDigit(s[k])
    requires a == head + MAX_HASH_DIGITS || a == |s| || !IsDigit(s[a])
    requires b == head + MAX_HASH_DIGITS || b == |s| || !IsDigit(s[b])
    ensures a == b
  {
  }

  /** Where the pattern matches with tag t and an n-digit hash (as many digits as the greedy
      quantifier takes), the match becomes the anonymous name and the tag, and the scan goes on
      after the hash. */
  lemma RemoveAnonymousHashDropsHash(s: string, t: string, n: nat)
    requires t in TAGS && HashStart(s, t)
    requires 1 <= n <= MAX_HASH_DIGITS && HashOffset(t) + n <= |s|
    requires forall k | HashOffset(t) <= k < HashOffset(t) + n :: IsDigit(s[k])
    requires n == MAX_HASH_DIGITS || HashOffset(t) + n == |s| || !IsDigit(s[HashOffset(t) + n])
    ensures RemoveAnonymousHash(s) == ANON_PREFIX + t + RemoveAnonymousHash(s[HashOffset(t) + n..])
  {
    var m := MatchAt(s);
    HashStartUnique(s, t, m.value.tag);
    GreedyRunUnique(s, HashOffset(t), m.value.length, HashOffset(t) + n);
  }

  /** "Anonymous student 1234567890" becomes "Anonymous student". */
  lemma RemoveAnonymousHashExample()
    ensures RemoveAnonymousHash(ANON_PREFIX + TAGS[0] + " " + "1234567890") == ANON_PREFIX + TAGS[0]
  {
    var digits := "1234567890";
    var s := ANON_PREFIX + TAGS[0] + " " + digits;
    assert s[..|ANON_PREFIX|] == ANON_PREFIX;
    assert s[|ANON_PREFIX|..|ANON_PREFIX| + |TAGS[0]|] == TAGS[0];
    assert s[HashOffset(TAGS[0])..] == digits;
    assert forall k | HashOffset(TAGS[0]) <= k < HashOffset(TAGS[0]) + 10 :: IsDigit(s[k]);
    assert HashStart(s, TAGS[0]);
    RemoveAnonymousHashDropsHash(s, TAGS[0], 10);
    assert s[HashOffset(TAGS[0]) + 10..] == [];
  }

  // ---------------------------------------------------------------------
  // Output records

  /** CommentOutput: a comment with the names of its giver and of its last editor. */
  datatype CommentOutput = CommentOutput(comment: FRC.Comment, commentGiverName: Option<string>,
                                         lastEditorName: Option<string>)

  /** ResponseOutput. */
  datatype ResponseOutput = ResponseOutput(
    responseId: Option<string>,
    giver: string,
    giverTeam: Option<string>,
    giverEmail: Option<string>,
    relatedGiverEmail: Option<string>,
    giverSection: string,
    recipient: string,
    recipientTeam: Option<string>,
    recipientEmail: Option<string>,
    recipientSection: string,
    details: Option<FR.ResponseDetails>,
    participantComment: Option<CommentOutput>,
    instructorComments: seq<Option<CommentOutput>>)

  /** HashMap.get: null for a missing key. */
  function NameIn(table: map<Option<string>, Option<string>>, key: Option<string>): Option<string>
  {
    if key in table then table[key] else None
  }

  function OutputOf(c: FRC.Comment, names: map<Option<string>, Option<string>>): CommentOutput
  {
    CommentOutput(c, NameIn(names, c.commentGiver), NameIn(names, c.lastEditorEmail))
  }

  // ---------------------------------------------------------------------
  // buildComments

  predicate IsInstructorComment(c: FRC.Comment) { !c.isFromParticipant }

  /** The last comment of the list that comes from a feedback participant. */
  function LastParticipantComment(cs: seq<FRC.Comment>): (r: Option<FRC.Comment>)
    ensures r.None? <==> forall i | 0 <= i < |cs| :: !cs[i].isFromParticipant
    ensures r.Some? ==> exists i | 0 <= i < |cs| :: cs[i] == r.value && r.value.isFromParticipant
                                                  && forall j | i < j < |cs| :: !cs[j].isFromParticipant
    decreases |cs|
  {
    if |cs| == 0 then None
    else if cs[|cs| - 1].isFromParticipant then Some(cs[|cs| - 1])
    else
      var init := cs[..|cs| - 1];
      var r := LastParticipantComment(init);
      assert forall i | 0 <= i < |init| :: init[i] == cs[i];
      assert r.Some? ==> exists i | 0 <= i < |init| :: cs[i] == r.value && r.value.isFromParticipant
                                                     && forall j | i < j < |init| :: !cs[j].isFromParticipant;
      r
  }

  function Outputs(cs: seq<FRC.Comment>, names: map<Option<string>, Option<string>>): seq<Option<CommentOutput>>
  {
    seq(|cs|, i requires 0 <= i < |cs| => Some(OutputOf(cs[i], names)))
  }

  /** The head of the queue: the output of the last participant comment, or null. */
  function ParticipantOutput(cs: seq<FRC.Comment>, names: map<Option<string>, Option<string>>): Option<CommentOutput>
  {
    var last := LastParticipantComment(cs);
    if last.Some? then Some(OutputOf(last.value, names)) else None
  }

  /** The queue buildComments returns: the participant's comment (or null) at the head, then the
      other comments in their original order. */
  function CommentQueue(cs: seq<FRC.Comment>, names: map<Option<string>, Option<string>>): seq<Option<CommentOutput>>
  {
    [ParticipantOutput(cs, names)] + Outputs(Streams.Filter(cs, IsInstructorComment), names)
  }

  /** One more comment: a participant comment becomes the head... */
  lemma ParticipantStep(cs: seq<FRC.Comment>, c: FRC.Comment, names: map<Option<string>, Option<string>>)
    ensures ParticipantOutput(cs + [c], names)
            == if c.isFromParticipant then Some(OutputOf(c, names)) else ParticipantOutput(cs, names)
  {
    assert (cs + [c])[..|cs|] == cs;
  }

  /** ... and any other comment is appended to the rest. */
  lemma InstructorStep(cs: seq<FRC.Comment>, c: FRC.Comment, names: map<Option<string>, Option<string>>)
    ensures Outputs(Streams.Filter(cs + [c], IsInstructorComment), names)
            == Outputs(Streams.Filter(cs, IsInstructorComment), names)
               + if c.isFromParticipant then [] else [Some(OutputOf(c, names))]
  {
    Streams.FilterSnoc(cs, c, IsInstructorComment);
    OutputsSnoc(Streams.Filter(cs, IsInstructorComment), c, names);
  }

  lemma OutputsSnoc(cs: seq<FRC.Comment>, c: FRC.Comment, names: map<Option<string>, Option<string>>)
    ensures Outputs(cs + [c], names) == Outputs(cs, names) + [Some(OutputOf(c, names))]
  {
  }

  method BuildComments(cs: seq<FRC.Comment>, names: map<Option<string>, Option<string>>)
    returns (queue: seq<Option<CommentOutput>>)
    ensures queue == CommentQueue(cs, names)
  {
    var outputs: seq<Option<CommentOutput>> := [];
    var participantComment: Option<CommentOutput> := None;
    for i := 0 to |cs|
      invariant participantComment == ParticipantOutput(cs[..i], names)
      invariant outputs == Outputs(Streams.Filter(cs[..i], IsInstructorComment), names)
    {
      var comment := cs[i];
      assert cs[..i + 1] == cs[..i] + [comment];
      ParticipantStep(cs[..i], comment, names);
      InstructorStep(cs[..i], comment, names);
      if comment.isFromParticipant {
        participantComment := Some(OutputOf(comment, names));
      } else {
        outputs := outputs + [Some(OutputOf(comment, names))];
      }
    }
    assert cs[..|cs|] == cs;
    queue := [participantComment] + outputs;
  }

  /** comments.poll() and the list of what remains: the participant comment is the last comment
      from a participant (null when there is none), and the instructor comments are the other
      comments, in their original order. */
  method CommentsOfResponse(cs: seq<FRC.Comment>, names: map<Option<string>, Option<string>>)
    returns (participantComment: Option<CommentOutput>, instructorComments: seq<Option<CommentOutput>>)
    ensures participantComment == ParticipantOutput(cs, names)
    ensures instructorComments == Outputs(Streams.Filter(cs, IsInstructorComment), names)
  {
    var queue := BuildComments(cs, names);
    participantComment, instructorComments := queue[0], queue[1..];
  }

  // ---------------------------------------------------------------------
  // Naming in the student view

  /** The student who views the results, by email and team. */
  datatype Viewer = Viewer(email: string, team: string)

  const YOU: string := "You"
  const YOUR_TEAM_OPEN: string := "Your Team ("

  /** The lookups the output reads from the results bundle: getNameForEmail,
      getGiverNameForResponse, getResponseComments and commentGiverEmailToNameTable. */
  datatype Lookups = Lookups(
    nameOf: Option<string> -> string,
    giverNameOf: FR.Response -> string,
    responseComments: map<Option<string>, seq<FRC.Comment>>,
    commentGiverNames: map<Option<string>, Option<string>>)

  /** The name a group's recipient is shown under: "You" for the student; "Your Team (name)"
      for the student's team on a question to teams; otherwise the recipient's name. */
  function RecipientLabel(viewer: Viewer, recipientType: Option<ParticipantType>, recipient: Option<string>,
                          recipientName: string): string
  {
    if recipient == Some(viewer.email) then YOU
    else if recipientType == Some(TEAMS) && recipient == Some(viewer.team) then YOUR_TEAM_OPEN + recipientName + ")"
    else recipientName
  }

  /** The name a response's giver is shown under: "Your Team (name)" when a team question's
      giver is the student's team; otherwise "You" for the student; otherwise the giver's name
      without its anonymous hash. */
  function GiverLabel(viewer: Viewer, giverType: Option<ParticipantType>, giver: Option<string>,
                      giverName: string): string
  {
    if giverType == Some(TEAMS) && viewer.team == giverName then YOUR_TEAM_OPEN + giverName + ")"
    else if giver == Some(viewer.email) then YOU
    else RemoveAnonymousHash(giverName)
  }

  /** Unless a name already looks like a label, the recipient label tells the student exactly
      when the recipient is the student and when it is the student's team. */
  lemma RecipientLabelIdentifies(viewer: Viewer, recipientType: Option<ParticipantType>,
                                 recipient: Option<string>, recipientName: string)
    requires recipientName != YOU && !(YOUR_TEAM_OPEN <= recipientName)
    ensures var r := RecipientLabel(viewer, recipientType, recipient, recipientName);
      && (r == YOU <==> recipient == Some(viewer.email))
      && (YOUR_TEAM_OPEN <= r <==>
            recipient != Some(viewer.email) && recipientType == Some(TEAMS) && recipient == Some(viewer.team))
  {
    var r := RecipientLabel(viewer, recipientType, recipient, recipientName);
    if recipient == Some(viewer.email) {
      assert !(YOUR_TEAM_OPEN <= YOU) by { assert |YOU| < |YOUR_TEAM_OPEN|; }
    } else if recipientType == Some(TEAMS) && recipient == Some(viewer.team) {
      assert r[..|YOUR_TEAM_OPEN|] == YOUR_TEAM_OPEN;
      assert r != YOU by { assert |r| > |YOU|; }
    }
  }

  /** Unless a giver's name looks like a label, the student is shown as "You" exactly when the
      student gave the response, outside a team question answered by the student's team. */
  lemma GiverLabelIdentifies(viewer: Viewer, giverType: Option<ParticipantType>, giver: Option<string>,
                             giverName: string)
    requires forall i | 0 <= i < |giverName| :: !IsDigit(giverName[i])
    requires giverName != YOU
    ensures var r := GiverLabel(viewer, giverType, giver, giverName);
      && (r == YOU <==> !(giverType == Some(TEAMS) && viewer.team == giverName) && giver == Some(viewer.email))
      && (r == giverName <==> !(giverType == Some(TEAMS) && viewer.team == giverName) && giver != Some(viewer.email))
  {
    RemoveAnonymousHashKeepsNamesWithoutDigits(giverName);
    var r := GiverLabel(viewer, giverType, giver, giverName);
    if giverType == Some(TEAMS) && viewer.team == giverName {
      assert |r| > |giverName| && |r| > |YOU|;
    }
  }

  /** getResponseComments().getOrDefault(response id, empty list). */
  function CommentsOf(lookups: Lookups, r: FR.Response): seq<FRC.Comment>
  {
    if r.id in lookups.responseComments then lookups.responseComments[r.id] else []
  }

  /** The output of one response in the student view: no teams or emails, the giver's label,
      the given recipient name, and the response's comments. */
  function StudentOutput(viewer: Viewer, question: FQ.Question, lookups: Lookups, r: FR.Response,
                         recipientName: string): ResponseOutput
  {
    var cs := CommentsOf(lookups, r);
    var names := lookups.commentGiverNames;
    ResponseOutput(r.id, GiverLabel(viewer, question.giverType, r.giver, lookups.giverNameOf(r)), None, None,
                   None, r.giverSection, recipientName, None, None, r.recipientSection, r.details,
                   ParticipantOutput(cs, names), Outputs(Streams.Filter(cs, IsInstructorComment), names))
  }

  /** The recipient name on a response of a group, given the responses of the group up to and
      including it: the group's label, until a response the student gave to someone else
      replaces it for good with the recipient's own name. */
  function ShownRecipientName(viewer: Viewer, question: FQ.Question, lookups: Lookups, recipient: Option<string>,
                              prefix: seq<FR.Response>): string
  {
    if recipient != Some(viewer.email) && exists j | 0 <= j < |prefix| :: prefix[j].giver == Some(viewer.email)
    then lookups.nameOf(recipient)
    else RecipientLabel(viewer, question.recipientType, recipient, lookups.nameOf(recipient))
  }

  /** One more response of the group: a response the student gave to someone else switches
      the name to the recipient's own; otherwise the name stays. */
  lemma ShownRecipientNameStep(viewer: Viewer, question: FQ.Question, lookups: Lookups, recipient: Option<string>,
                               prefix: seq<FR.Response>, r: FR.Response)
    ensures ShownRecipientName(viewer, question, lookups, recipient, prefix + [r])
            == if r.giver == Some(viewer.email) && recipient != Some(viewer.email) then lookups.nameOf(recipient)
               else ShownRecipientName(viewer, question, lookups, recipient, prefix)
  {
    var p := prefix + [r];
    assert p[|prefix|] == r;
    assert forall j | 0 <= j < |prefix| :: p[j] == prefix[j];
  }

  /** The outputs of one recipient's group, in the group's order. */
  function StudentGroupOutputs(viewer: Viewer, question: FQ.Question, lookups: Lookups, recipient: Option<string>,
                               group: seq<FR.Response>): seq<ResponseOutput>
    decreases |group|
  {
    if |group| == 0 then []
    else
      StudentGroupOutputs(viewer, question, lookups, recipient, group[..|group| - 1])
        + [StudentOutput(viewer, question, lookups, group[|group| - 1],
                         ShownRecipientName(viewer, question, lookups, recipient, group))]
  }

  /** A group has one output per response... */
  lemma {:induction false} StudentGroupOutputsLength(viewer: Viewer, question: FQ.Question, lookups: Lookups,
                                                     recipient: Option<string>, group: seq<FR.Response>)
    ensures |StudentGroupOutputs(viewer, question, lookups, recipient, group)| == |group|
    decreases |group|
  {
    if |group| > 0 {
      StudentGroupOutputsLength(viewer, question, lookups, recipient, group[..|group| - 1]);
    }
  }

  /** ... and its k-th output is the k-th response, shown under the recipient name that the
      responses up to it give. */
  lemma {:induction false} StudentGroupOutputsAt(viewer: Viewer, question: FQ.Question, lookups: Lookups,
                                                 recipient: Option<string>, group: seq<FR.Response>, k: nat)
    requires k < |group|
    ensures var out := StudentGroupOutputs(viewer, question, lookups, recipient, group);
      |out| == |group| && out[k] == StudentOutput(viewer, question, lookups, group[k],
                       ShownRecipientName(viewer, question, lookups, recipient, group[..k + 1]))
    decreases |group|
  {
    var init := group[..|group| - 1];
    StudentGroupOutputsLength(viewer, question, lookups, recipient, group);
    StudentGroupOutputsLength(viewer, question, lookups, recipient, init);
    if k < |init| {
      StudentGroupOutputsAt(viewer, question, lookups, recipient, init, k);
      assert init[..k + 1] == group[..k + 1];
    } else {
      assert group[..k + 1] == group;
    }
  }

  /** The inner loop of the student buildResponses over the responses to one recipient. */
  method BuildStudentGroup(viewer: Viewer, question: FQ.Question, lookups: Lookups, recipient: Option<string>,
                           group: seq<FR.Response>) returns (out: seq<ResponseOutput>)
    requires forall r | r in group :: r.recipient == recipient
    ensures out == StudentGroupOutputs(viewer, question, lookups, recipient, group)
  {
    var isUserRecipient := recipient == Some(viewer.email);
    var recipientName := RecipientLabel(viewer, question.recipientType, recipient, lookups.nameOf(recipient));
    out := [];
    for i := 0 to |group|
      invariant recipientName == ShownRecipientName(viewer, question, lookups, recipient, group[..i])
      invariant out == StudentGroupOutputs(viewer, question, lookups, recipient, group[..i])
    {
      var response := group[i];
      var giverName := lookups.giverNameOf(response);
      var isUserGiver := response.giver == Some(viewer.email);
      var displayedGiverName := GiverLabel(viewer, question.giverType, response.giver, giverName);
      assert group[..i + 1] == group[..i] + [response];
      ShownRecipientNameStep(viewer, question, lookups, recipient, group[..i], response);
      if isUserGiver && !isUserRecipient {
        recipientName := lookups.nameOf(response.recipient);
      }
      var participantComment, instructorComments :=
        CommentsOfResponse(CommentsOf(lookups, response), lookups.commentGiverNames);
      ghost var prefix := group[..i + 1];
      assert prefix[..i] == group[..i] && prefix[i] == response;
      assert recipientName == ShownRecipientName(viewer, question, lookups, recipient, prefix);
      var output := ResponseOutput(response.id, displayedGiverName, None, None, None, response.giverSection,
                                   recipientName, None, None, response.recipientSection, response.details,
                                   participantComment, instructorComments);
      assert output == StudentOutput(viewer, question, lookups, response, recipientName);
      assert StudentGroupOutputs(viewer, question, lookups, recipient, prefix)
             == StudentGroupOutputs(viewer, question, lookups, recipient, group[..i]) + [output];
      out := out + [output];
    }
    assert group[..|group|] == group;
  }

  /** The responses to one recipient. */
  function ToRecipient(key: Option<string>): FR.Response -> bool
  {
    (r: FR.Response) => r.recipient == key
  }

  function Recipients(responses: seq<FR.Response>): set<Option<string>>
  {
    set r | r in responses :: r.recipient
  }

  /** The responses grouped by recipient: one list per recipient, in the responses' order. */
  function RecipientGroups(responses: seq<FR.Response>): map<Option<string>, seq<FR.Response>>
  {
    map k | k in Recipients(responses) :: Streams.Filter(responses, ToRecipient(k))
  }

  /** Each group holds responses to its own recipient only. */
  predicate GroupsByKey(groups: map<Option<string>, seq<FR.Response>>)
  {
    forall k | k in groups :: forall r | r in groups[k] :: r.recipient == k
  }

  lemma RecipientGroupsByKey(responses: seq<FR.Response>)
    ensures GroupsByKey(RecipientGroups(responses))
  {
    var groups := RecipientGroups(responses);
    forall k | k in groups ensures forall r: FR.Response | r in groups[k] :: r.recipient == k {
      var group := groups[k];
      assert forall i | 0 <= i < |group| :: ToRecipient(k)(group[i]);
    }
  }

  /** The groups of the responses seen so far. */
  ghost predicate IsGroupTable(s: seq<FR.Response>, groups: map<Option<string>, seq<FR.Response>>)
  {
    && groups.Keys == Recipients(s)
    && forall k | k in groups :: groups[k] == Streams.Filter(s, ToRecipient(k))
  }

  /** computeIfAbsent(recipient, new list).add(response). */
  function AddToGroup(groups: map<Option<string>, seq<FR.Response>>, r: FR.Response): map<Option<string>, seq<FR.Response>>
  {
    groups[r.recipient := (if r.recipient in groups then groups[r.recipient] else []) + [r]]
  }

  lemma AddToGroupAt(s: seq<FR.Response>, groups: map<Option<string>, seq<FR.Response>>, r: FR.Response,
                     k: Option<string>)
    requires k in AddToGroup(groups, r)
    requires k in groups ==> groups[k] == Streams.Filter(s, ToRecipient(k))
    requires k !in groups ==> k !in Recipients(s)
    ensures AddToGroup(groups, r)[k] == Streams.Filter(s + [r], ToRecipient(k))
  {
    Streams.FilterSnoc(s, r, ToRecipient(k));
    if k !in groups {
      assert forall j | 0 <= j < |s| :: s[j] in s;
      Streams.FilterNone(s, ToRecipient(k));
    }
  }

  lemma GroupStep(s: seq<FR.Response>, groups: map<Option<string>, seq<FR.Response>>, r: FR.Response)
    requires IsGroupTable(s, groups)
    ensures IsGroupTable(s + [r], AddToGroup(groups, r))
  {
    assert Recipients(s + [r]) == Recipients(s) + {r.recipient};
    forall k | k in AddToGroup(groups, r) ensures AddToGroup(groups, r)[k] == Streams.Filter(s + [r], ToRecipient(k)) {
      AddToGroupAt(s, groups, r, k);
    }
  }

  /** responsesMap.computeIfAbsent(recipient, ...).add(response) over the responses. */
  method GroupByRecipient(responses: seq<FR.Response>) returns (groups: map<Option<string>, seq<FR.Response>>)
    ensures groups == RecipientGroups(responses)
  {
    groups := map[];
    for i := 0 to |responses|
      invariant IsGroupTable(responses[..i], groups)
    {
      var response := responses[i];
      assert responses[..i + 1] == responses[..i] + [response];
      GroupStep(responses[..i], groups, response);
      groups := AddToGroup(groups, response);
    }
    assert responses[..|responses|] == responses;
  }

  /** The groups' outputs one after another, in the given order of recipients. */
  function GroupsInOrder(viewer: Viewer, question: FQ.Question, lookups: Lookups,
                         groups: map<Option<string>, seq<FR.Response>>, order: seq<Option<string>>): seq<ResponseOutput>
    requires forall k | k in order :: k in groups
  {
    if |order| == 0 then []
    else
      GroupsInOrder(viewer, question, lookups, groups, order[..|order| - 1])
        + StudentGroupOutputs(viewer, question, lookups, order[|order| - 1], groups[order[|order| - 1]])
  }

  /** One more recipient adds its group's block at the end. */
  lemma GroupsInOrderStep(viewer: Viewer, question: FQ.Question, lookups: Lookups,
                          groups: map<Option<string>, seq<FR.Response>>, order: seq<Option<string>>,
                          recipient: Option<string>)
    requires forall k | k in order :: k in groups
    requires recipient in groups
    ensures GroupsInOrder(viewer, question, lookups, groups, order + [recipient])
            == GroupsInOrder(viewer, question, lookups, groups, order)
               + StudentGroupOutputs(viewer, question, lookups, recipient, groups[recipient])
  {
    assert (order + [recipient])[..|order|] == order;
  }

  /** responsesMap.forEach: each group's outputs in a block, the blocks in the map's iteration
      order (order, which lists every recipient once). */
  method BuildGroups(viewer: Viewer, question: FQ.Question, lookups: Lookups,
                     groups: map<Option<string>, seq<FR.Response>>)
    returns (out: seq<ResponseOutput>, ghost order: seq<Option<string>>)
    requires GroupsByKey(groups)
    ensures Streams.Distinct(order) && (forall k :: k in order <==> k in groups)
    ensures out == GroupsInOrder(viewer, question, lookups, groups, order)
  {
    out := [];
    order := [];
    var todo := groups.Keys;
    while todo != {}
      invariant todo <= groups.Keys
      invariant Streams.Distinct(order) && (forall k :: k in order <==> k in groups.Keys - todo)
      invariant out == GroupsInOrder(viewer, question, lookups, groups, order)
      decreases |todo|
    {
      var recipient :| recipient in todo;
      var block := BuildStudentGroup(viewer, question, lookups, recipient, groups[recipient]);
      GroupsInOrderStep(viewer, question, lookups, groups, order, recipient);
      Streams.DistinctSnoc(order, recipient);
      order := order + [recipient];
      out := out + block;
      todo := todo - {recipient};
    }
  }

  /** buildResponses for a student: the responses grouped by recipient, then each group's
      outputs in a block, in some order of the recipients that lists each of them once. */
  method BuildStudentResponses(viewer: Viewer, question: FQ.Question, lookups: Lookups, responses: seq<FR.Response>)
    returns (out: seq<ResponseOutput>, ghost order: seq<Option<string>>)
    ensures Streams.Distinct(order) && (forall k :: k in order <==> k in Recipients(responses))
    ensures out == GroupsInOrder(viewer, question, lookups, RecipientGroups(responses), order)
  {
    var groups := GroupByRecipient(responses);
    RecipientGroupsByKey(responses);
    out, order := BuildGroups(viewer, question, lookups, groups);
  }

  // ---------------------------------------------------------------------
  // Routing in the student view

  predicate IsFromSelf(o: ResponseOutput) { o.giver == YOU }

  predicate IsToSelf(o: ResponseOutput) { o.giver != YOU && o.recipient == YOU }

  predicate IsOther(o: ResponseOutput) { o.giver != YOU && o.recipient != YOU }

  /** The other responses shown under one recipient name (with its hash). */
  function OtherTo(key: string): ResponseOutput -> bool
  {
    (o: ResponseOutput) => IsOther(o) && o.recipient == key
  }

  /** The outputs with the anonymous hash removed from the recipient. */
  function Unhashed(s: seq<ResponseOutput>): seq<ResponseOutput>
  {
    seq(|s|, i requires 0 <= i < |s| => s[i].(recipient := RemoveAnonymousHash(s[i].recipient)))
  }

  function OtherRecipients(s: seq<ResponseOutput>): set<string>
  {
    set o | o in s && IsOther(o) :: o.recipient
  }

  /** The other responses of s, grouped under their recipients' names (with the hash). */
  ghost predicate IsOthersTable(s: seq<ResponseOutput>, others: map<string, seq<ResponseOutput>>)
  {
    && others.Keys == OtherRecipients(s)
    && forall k | k in others :: others[k] == Unhashed(Streams.Filter(s, OtherTo(k)))
  }

  /** otherResponsesMap.computeIfAbsent(name, ...).add(response without its hash). */
  function AddOther(others: map<string, seq<ResponseOutput>>, o: ResponseOutput): map<string, seq<ResponseOutput>>
  {
    var shown := o.(recipient := RemoveAnonymousHash(o.recipient));
    others[o.recipient := (if o.recipient in others then others[o.recipient] else []) + [shown]]
  }

  lemma UnhashedSnoc(s: seq<ResponseOutput>, o: ResponseOutput)
    ensures Unhashed(s + [o]) == Unhashed(s) + [o.(recipient := RemoveAnonymousHash(o.recipient))]
  {
  }

  lemma OtherToSnoc(s: seq<ResponseOutput>, o: ResponseOutput, k: string)
    ensures Streams.Filter(s + [o], OtherTo(k))
            == Streams.Filter(s, OtherTo(k)) + (if IsOther(o) && o.recipient == k then [o] else [])
  {
    Streams.FilterSnoc(s, o, OtherTo(k));
  }

  lemma OtherRecipientsSnoc(s: seq<ResponseOutput>, o: ResponseOutput)
    ensures OtherRecipients(s + [o]) == OtherRecipients(s) + (if IsOther(o) then {o.recipient} else {})
  {
  }

  lemma NoOthersTo(s: seq<ResponseOutput>, k: string)
    requires k !in OtherRecipients(s)
    ensures Streams.Filter(s, OtherTo(k)) == []
  {
    assert forall j | 0 <= j < |s| :: s[j] in s;
    Streams.FilterNone(s, OtherTo(k));
  }

  /** A new other response joins its recipient's group, and no other group changes... */
  lemma AddOtherAt(s: seq<ResponseOutput>, others: map<string, seq<ResponseOutput>>, o: ResponseOutput, k: string)
    requires IsOther(o) && k in AddOther(others, o)
    requires k in others ==> others[k] == Unhashed(Streams.Filter(s, OtherTo(k)))
    requires k !in others ==> k !in OtherRecipients(s)
    ensures AddOther(others, o)[k] == Unhashed(Streams.Filter(s + [o], OtherTo(k)))
  {
    OtherToSnoc(s, o, k);
    if k == o.recipient {
      if k !in others {
        NoOthersTo(s, k);
      }
      UnhashedSnoc(Streams.Filter(s, OtherTo(k)), o);
    }
  }

  lemma OthersAdd(s: seq<ResponseOutput>, others: map<string, seq<ResponseOutput>>, o: ResponseOutput)
    requires IsOthersTable(s, others) && IsOther(o)
    ensures IsOthersTable(s + [o], AddOther(others, o))
  {
    OtherRecipientsSnoc(s, o);
    forall k | k in AddOther(others, o)
      ensures AddOther(others, o)[k] == Unhashed(Streams.Filter(s + [o], OtherTo(k)))
    {
      AddOtherAt(s, others, o, k);
    }
  }

  /** ... and a response from or to the student leaves the table as it is. */
  lemma OthersKeep(s: seq<ResponseOutput>, others: map<string, seq<ResponseOutput>>, o: ResponseOutput)
    requires IsOthersTable(s, others) && !IsOther(o)
    ensures IsOthersTable(s + [o], others)
  {
    OtherRecipientsSnoc(s, o);
    forall k | k in others ensures others[k] == Unhashed(Streams.Filter(s + [o], OtherTo(k))) {
      OtherToSnoc(s, o, k);
    }
  }

  /** The loop of the student constructor: a response given by "You" goes to responsesFromSelf;
      otherwise one received by "You" goes to responsesToSelf; any other is grouped under its
      recipient's name as it was, with the hash removed from the recipient it shows. */
  method RouteForStudent(all: seq<ResponseOutput>)
    returns (fromSelf: seq<ResponseOutput>, toSelf: seq<ResponseOutput>, others: map<string, seq<ResponseOutput>>)
    ensures fromSelf == Streams.Filter(all, IsFromSelf)
    ensures toSelf == Streams.Filter(all, IsToSelf)
    ensures others.Keys == OtherRecipients(all)
    ensures forall k | k in others :: others[k] == Unhashed(Streams.Filter(all, OtherTo(k)))
  {
    fromSelf, toSelf, others := [], [], map[];
    for i := 0 to |all|
      invariant fromSelf == Streams.Filter(all[..i], IsFromSelf)
      invariant toSelf == Streams.Filter(all[..i], IsToSelf)
      invariant IsOthersTable(all[..i], others)
    {
      var respOutput := all[i];
      assert all[..i + 1] == all[..i] + [respOutput];
      Streams.FilterSnoc(all[..i], respOutput, IsFromSelf);
      Streams.FilterSnoc(all[..i], respOutput, IsToSelf);
      if respOutput.giver == YOU {
        OthersKeep(all[..i], others, respOutput);
        fromSelf := fromSelf + [respOutput];
      } else if respOutput.recipient == YOU {
        OthersKeep(all[..i], others, respOutput);
        toSelf := toSelf + [respOutput];
      } else {
        OthersAdd(all[..i], others, respOutput);
        others := AddOther(others, respOutput);
      }
    }
    assert all[..|all|] == all;
  }

  /** One question of the student constructor: nothing when the question does not show
      individual responses to students; otherwise the built responses, routed. */
  method StudentQuestionView(viewer: Viewer, question: FQ.Question, lookups: Lookups, responses: seq<FR.Response>,
                             individualResponsesShown: bool)
    returns (fromSelf: seq<ResponseOutput>, toSelf: seq<ResponseOutput>, others: map<string, seq<ResponseOutput>>,
             ghost order: seq<Option<string>>)
    ensures !individualResponsesShown ==> fromSelf == [] && toSelf == [] && others == map[]
    ensures individualResponsesShown ==>
      && Streams.Distinct(order) && (forall k :: k in order <==> k in Recipients(responses))
      && var all := GroupsInOrder(viewer, question, lookups, RecipientGroups(responses), order);
      && fromSelf == Streams.Filter(all, IsFromSelf)
      && toSelf == Streams.Filter(all, IsToSelf)
      && others.Keys == OtherRecipients(all)
      && forall k | k in others :: others[k] == Unhashed(Streams.Filter(all, OtherTo(k)))
  {
    fromSelf, toSelf, others, order := [], [], map[], [];
    if individualResponsesShown {
      var all;
      all, order := BuildStudentResponses(viewer, question, lookups, responses);
      fromSelf, toSelf, others := RouteForStudent(all);
    }
  }

  // ---------------------------------------------------------------------
  // buildMissingResponse: the giver's emails

  /** The giver email and related giver email of a missing response's output. */
  datatype GiverIdentity = GiverIdentity(giverEmail: Option<string>, relatedGiverEmail: Option<string>)

  /** A team is in the course exactly when the roster's team table has it. */
  lemma TeamInCourseHasMembers(roster: CR.CourseRoster, team: Option<string>)
    requires roster.Valid()
    ensures roster.IsTeamInCourse(team) <==> team in roster.teamToMembersTable
  {
    if team in roster.teamToMembersTable {
      var s := roster.teamToMembersTable[team][0];
      assert s.email in roster.studentListByEmail && roster.studentListByEmail[s.email].team == team;
    }
  }

  /** Lines 229-240 as written: for a team giver the giver email is cleared BEFORE it is used
      as the key of the team lookup, so the lookup is for the null team. Without students in a
      null team this throws; with them, it names a student of the null team. */
  function MissingGiverIdentityAsWritten(roster: CR.CourseRoster, giver: Option<string>, giverVisible: bool)
    : (r: Outcome<GiverIdentity>)
    reads roster
    requires roster.Valid()
    ensures r.Fail? <==> roster.IsTeamInCourse(giver) && !roster.IsTeamInCourse(None)
    ensures r.Fail? ==> r.failure == NullPointer
    ensures r.Ok? && giverVisible && roster.IsTeamInCourse(giver) ==>
      r.value.giverEmail.None?
      && exists e | e in roster.studentListByEmail :: roster.studentListByEmail[e].team.None?
                                                      && r.value.relatedGiverEmail == e
  {
    TeamInCourseHasMembers(roster, None);
    if roster.IsTeamInCourse(giver) then
      var giverEmail: Option<string> := None;
      if giverEmail in roster.teamToMembersTable then
        var member := roster.teamToMembersTable[giverEmail][0];
        assert member.email in roster.studentListByEmail && roster.studentListByEmail[member.email] == member;
        Ok(if giverVisible then GiverIdentity(giverEmail, member.email) else GiverIdentity(None, None))
      else
        Fail(NullPointer)
    else
      Ok(if giverVisible then GiverIdentity(giver, giver) else GiverIdentity(None, None))
  }

  /** The as-written lookup fails for any team giver when every student has a team. */
  lemma MissingGiverIdentityAsWrittenFailsForTeams(roster: CR.CourseRoster, giver: Option<string>, giverVisible: bool)
    requires roster.Valid()
    requires giver.Some? && giver in roster.teamToMembersTable
    requires forall e | e in roster.studentListByEmail :: roster.studentListByEmail[e].team.Some?
    ensures MissingGiverIdentityAsWritten(roster, giver, giverVisible) == Fail(NullPointer)
  {
    TeamInCourseHasMembers(roster, giver);
  }

  /** Lines 229-240 as intended: a team giver has no email of its own and is related to one of
      its members; a hidden giver shows neither. */
  function MissingGiverIdentity(roster: CR.CourseRoster, giver: Option<string>, giverVisible: bool)
    : (r: GiverIdentity)
    reads roster
    requires roster.Valid()
    ensures !giverVisible ==> r == GiverIdentity(None, None)
    ensures giverVisible && !roster.IsTeamInCourse(giver) ==> r == GiverIdentity(giver, giver)
    ensures giverVisible && roster.IsTeamInCourse(giver) ==>
      r.giverEmail.None?
      && exists e | e in roster.studentListByEmail :: roster.studentListByEmail[e].team == giver
                                                      && r.relatedGiverEmail == e
  {
    TeamInCourseHasMembers(roster, giver);
    if roster.IsTeamInCourse(giver) then
      var member := roster.teamToMembersTable[giver][0];
      assert member.email in roster.studentListByEmail && roster.studentListByEmail[member.email] == member;
      if giverVisible then GiverIdentity(None, member.email) else GiverIdentity(None, None)
    else if giverVisible then GiverIdentity(giver, giver)
    else GiverIdentity(None, None)
  }
}
