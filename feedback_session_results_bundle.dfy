// FeedbackSessionResultsBundle: the responses of one session together with the
// tables that the result pages read — display names, teams, visibility flags —
// and the pseudo responses that stand for the answers nobody gave yet.

module FeedbackSessionResultsBundle {
  import opened Common
  import opened Const
  import JavaStrings
  import Sorting
  import Streams
  import SA = StudentAttributes
  import FQ = FeedbackQuestionAttributes
  import FR = FeedbackResponseAttributes
  import CR = CourseRoster

  // ---------------------------------------------------------------------
  // compareByNames

  /** Class feedback (the nobody marker) sorts first and team responses (the team marker) last. */
  function Priority(name: string): (p: int)
    ensures p == -1 <==> name == USER_IS_NOBODY
    ensures p == 1 <==> name == USER_IS_TEAM
    ensures p in {-1, 0, 1}
  {
    if name == USER_IS_NOBODY then -1 else if name == USER_IS_TEAM then 1 else 0
  }

  /** compareByNames: hidden names sort after visible ones and tie among themselves; two visible
      names compare by priority and then by String.compareTo, which throws on a null name. */
  function CompareByNames(name1: Option<string>, name2: Option<string>,
                          isFirstVisible: bool, isSecondVisible: bool): (r: Outcome<int>)
    ensures !isFirstVisible && !isSecondVisible ==> r == Ok(0)
    ensures !isFirstVisible && isSecondVisible ==> r == Ok(1)
    ensures isFirstVisible && !isSecondVisible ==> r == Ok(-1)
    ensures isFirstVisible && isSecondVisible ==> (r.Fail? <==> name1.None? || name2.None?)
    ensures r.Fail? ==> r.failure == NullPointer
    ensures isFirstVisible && isSecondVisible && r.Ok? ==>
              var p1, p2 := Priority(name1.value), Priority(name2.value);
              (p1 < p2 ==> r.value < 0) && (p1 > p2 ==> r.value > 0)
              && (p1 == p2 ==> (r.value < 0 <==> JavaStrings.CompareTo(name1.value, name2.value) < 0))
              && (r.value == 0 <==> name1 == name2)
  {
    if !isFirstVisible && !isSecondVisible then Ok(0)
    else if !isFirstVisible then Ok(1)
    else if !isSecondVisible then Ok(-1)
    else if name1.None? || name2.None? then Fail(NullPointer)
    else
      var order := IntCompare(Priority(name1.value), Priority(name2.value));
      Ok(if order == 0 then JavaStrings.CompareTo(name1.value, name2.value) else order)
  }

  /** Swapping the arguments negates the comparison, for every input on which it returns. */
  lemma CompareByNamesAntisymmetric(name1: Option<string>, name2: Option<string>, v1: bool, v2: bool)
    ensures CompareByNames(name1, name2, v1, v2).Ok? <==> CompareByNames(name2, name1, v2, v1).Ok?
    ensures CompareByNames(name1, name2, v1, v2).Ok? ==>
              CompareByNames(name1, name2, v1, v2).value == -CompareByNames(name2, name1, v2, v1).value
  {
    if v1 && v2 && name1.Some? && name2.Some? {
      JavaStrings.CompareToAntisymmetric(name1.value, name2.value);
    }
  }

  /** A non-null name together with whether the user may see it: the comparator's key. */
  datatype ShownName = ShownName(name: string, visible: bool)

  function ByShownName(a: ShownName, b: ShownName): int
  {
    CompareByNames(Some(a.name), Some(b.name), a.visible, b.visible).value
  }

  /** On non-null names compareByNames keeps the Comparator contract, so the stable sorts that
      use it are well defined. */
  lemma CompareByNamesIsOrder()
    ensures Sorting.IsTotalPreorder(ByShownName)
  {
    forall x: ShownName, y: ShownName, z: ShownName
      ensures ByShownName(x, y) == -ByShownName(y, x)
      ensures ByShownName(x, y) <= 0 && ByShownName(y, z) <= 0 ==> ByShownName(x, z) <= 0
    {
      CompareByNamesAntisymmetric(Some(x.name), Some(y.name), x.visible, y.visible);
      JavaStrings.CompareToTotalOrder(x.name, y.name, z.name);
    }
  }

  // ---------------------------------------------------------------------
  // appendTeamNameToName

  /** appendTeamNameToName: "name (team)", except for anonymous, unknown or nobody names and for
      an empty team name, which leave the name as it is. */
  function AppendTeamNameToName(name: string, teamName: string): (r: string)
    ensures |r| >= |name| && r[..|name|] == name
    ensures r == name <==>
              (JavaStrings.Contains(name, DISPLAYED_NAME_FOR_ANONYMOUS_PARTICIPANT)
               || name == USER_UNKNOWN_TEXT || name == USER_NOBODY_TEXT || teamName == "")
    ensures r != name ==> r[|name|..] == " (" + teamName + ")"
  {
    if JavaStrings.Contains(name, DISPLAYED_NAME_FOR_ANONYMOUS_PARTICIPANT)
       || name == USER_UNKNOWN_TEXT || name == USER_NOBODY_TEXT || teamName == ""
    then name
    else name + " (" + teamName + ")"
  }

  // ---------------------------------------------------------------------
  // Roster tables

  type Table = map<Option<string>, set<Option<string>>>

  /** The emails of the students of one team. */
  ghost function TeamEmails(students: map<Option<string>, SA.Student>, team: Option<string>): set<Option<string>>
  {
    set e | e in students && students[e].team == team
  }

  /** The teams of the students of one section. */
  ghost function SectionTeams(students: map<Option<string>, SA.Student>, section: Option<string>): set<Option<string>>
  {
    set e | e in students && students[e].section == section :: students[e].team
  }

  /** What getTeamNameToEmailsTableFromRoster promises: a key per student team listing that
      team's emails, and the instructors under their pseudo team whenever there is one. */
  ghost predicate IsTeamEmailsTable(roster: CR.CourseRoster, table: Table)
    reads roster
  {
    var students, instructors := roster.studentListByEmail, roster.instructorListByEmail;
    (forall team :: team in table <==>
       (exists e | e in students :: students[e].team == team)
       || (team == Some(USER_TEAM_FOR_INSTRUCTOR) && instructors != map[]))
    && (instructors != map[] ==> table[Some(USER_TEAM_FOR_INSTRUCTOR)] == instructors.Keys)
    && (forall team | team in table && !(team == Some(USER_TEAM_FOR_INSTRUCTOR) && instructors != map[]) ::
          table[team] == TeamEmails(students, team))
  }

  /** What getSectionToTeamNamesFromRoster promises: a key per student section listing the teams
      found in it. */
  ghost predicate IsSectionTeamsTable(roster: CR.CourseRoster, table: Table)
    reads roster
  {
    var students := roster.studentListByEmail;
    (forall sec :: sec in table <==> exists e | e in students :: students[e].section == sec)
    && (forall sec | sec in table :: table[sec] == SectionTeams(students, sec))
  }

  /** The student part of the team table once the students keyed by `done` are in. */
  ghost predicate TeamsSoFar(students: map<Option<string>, SA.Student>, done: set<Option<string>>, table: Table)
  {
    done <= students.Keys
    && (forall team :: team in table <==> exists e | e in done :: students[e].team == team)
    && (forall team | team in table :: table[team] == set e | e in done && students[e].team == team)
  }

  /** One loop step: the student's email joins the set of its team. */
  function AddStudentEmail(table: Table, s: SA.Student): Table
  {
    table[s.team := (if s.team in table then table[s.team] else {}) + {s.email}]
  }

  lemma TeamsStep(students: map<Option<string>, SA.Student>, done: set<Option<string>>, table: Table, e: Option<string>)
    requires TeamsSoFar(students, done, table) && e in students && e !in done && students[e].email == e
    ensures TeamsSoFar(students, done + {e}, AddStudentEmail(table, students[e]))
  {
    var s := students[e];
    var t2, d2 := AddStudentEmail(table, s), done + {e};
    forall team ensures team in t2 <==> exists x | x in d2 :: students[x].team == team {
      if team != s.team && team in t2 {
        var x :| x in done && students[x].team == team;
        assert x in d2;
      }
      if team != s.team && (exists x | x in d2 :: students[x].team == team) {
        var x :| x in d2 && students[x].team == team;
        assert x in done;
      }
    }
    forall team | team in t2 ensures t2[team] == set x | x in d2 && students[x].team == team {
      if team == s.team {
        assert (set x | x in d2 && students[x].team == team)
            == (set x | x in done && students[x].team == team) + {e};
      } else {
        assert (set x | x in d2 && students[x].team == team) == (set x | x in done && students[x].team == team);
      }
    }
  }

  /** After the students, the instructors' set goes under their pseudo team when there is one. */
  lemma InstructorsTeam(roster: CR.CourseRoster, studentTable: Table, table: Table)
    requires TeamsSoFar(roster.studentListByEmail, roster.studentListByEmail.Keys, studentTable)
    requires table == if roster.instructorListByEmail.Keys == {} then studentTable
                      else studentTable[Some(USER_TEAM_FOR_INSTRUCTOR) := roster.instructorListByEmail.Keys]
    ensures IsTeamEmailsTable(roster, table)
  {
    var instructors := roster.instructorListByEmail;
    assert instructors != map[] <==> instructors.Keys != {} by {
      if instructors != map[] {
        var k :| k in instructors;
      }
    }
  }

  /** The instructor loop of getTeamNameToEmailsTableFromRoster: each instructor's email joins
      one set, which is put under USER_TEAM_FOR_INSTRUCTOR after every addition. */
  method PutInstructors(table: Table, instructors: map<Option<string>, CR.Instructor>) returns (r: Table)
    requires forall e | e in instructors :: instructors[e].email == e
    ensures r == if instructors.Keys == {} then table else table[Some(USER_TEAM_FOR_INSTRUCTOR) := instructors.Keys]
  {
    r := table;
    var instructorEmails: set<Option<string>> := {};
    var todo := instructors.Keys;
    while todo != {}
      invariant todo <= instructors.Keys && instructorEmails == instructors.Keys - todo
      invariant r == if instructorEmails == {} then table else table[Some(USER_TEAM_FOR_INSTRUCTOR) := instructorEmails]
      decreases |todo|
    {
      var e :| e in todo;
      instructorEmails := instructorEmails + {instructors[e].email};
      r := r[Some(USER_TEAM_FOR_INSTRUCTOR) := instructorEmails];
      todo := todo - {e};
    }
    assert instructorEmails == instructors.Keys;
  }

  /** getTeamNameToEmailsTableFromRoster. The students' emails go into a TreeSet, whose add
      throws on a null email; the instructors' set is put under USER_TEAM_FOR_INSTRUCTOR once
      per instructor and so replaces a student team of that name. */
  method TeamNameToEmailsTable(roster: CR.CourseRoster) returns (r: Outcome<Table>)
    requires roster.Valid()
    ensures r.Fail? <==> None in roster.studentListByEmail
    ensures r.Fail? ==> r.failure == NullPointer
    ensures r.Ok? ==> IsTeamEmailsTable(roster, r.value)
  {
    var studentTable := StudentTeamsTable(roster.studentListByEmail);
    if studentTable.Fail? {
      return studentTable;
    }
    var table := PutInstructors(studentTable.value, roster.instructorListByEmail);
    InstructorsTeam(roster, studentTable.value, table);
    r := Ok(table);
  }

  /** The student loop of getTeamNameToEmailsTableFromRoster: each student's email joins the set
      of its team; a null email throws. */
  method StudentTeamsTable(students: map<Option<string>, SA.Student>) returns (r: Outcome<Table>)
    requires forall e | e in students :: students[e].email == e
    ensures r.Fail? <==> None in students
    ensures r.Fail? ==> r.failure == NullPointer
    ensures r.Ok? ==> TeamsSoFar(students, students.Keys, r.value)
  {
    var table: Table := map[];
    var todo := students.Keys;
    while todo != {}
      invariant todo <= students.Keys && None !in students.Keys - todo
      invariant TeamsSoFar(students, students.Keys - todo, table)
      decreases |todo|
    {
      var e :| e in todo;
      var student := students[e];
      if student.email.None? {
        return Fail(NullPointer);
      }
      TeamsStep(students, students.Keys - todo, table, e);
      assert students.Keys - (todo - {e}) == (students.Keys - todo) + {e};
      table := AddStudentEmail(table, student);
      todo := todo - {e};
    }
    assert students.Keys - todo == students.Keys;
    r := Ok(table);
  }

  /** getSectionToTeamNamesFromRoster. */
  method SectionToTeamNames(roster: CR.CourseRoster) returns (table: Table)
    ensures IsSectionTeamsTable(roster, table)
  {
    var students := roster.studentListByEmail;
    table := map[];
    var todo := students.Keys;
    while todo != {}
      invariant todo <= students.Keys
      invariant forall sec :: sec in table <==> exists e | e in students.Keys - todo :: students[e].section == sec
      invariant forall sec | sec in table ::
                  table[sec] == set e | e in students.Keys - todo && students[e].section == sec :: students[e].team
      decreases |todo|
    {
      var e :| e in todo;
      var student := students[e];
      var teams := if student.section in table then table[student.section] else {};
      ghost var done := students.Keys - todo;
      table := table[student.section := teams + {student.team}];
      todo := todo - {e};
      assert students.Keys - todo == done + {e};
    }
    assert students.Keys - todo == students.Keys;
  }

  // ---------------------------------------------------------------------
  // Missing responses

  /** completeGiverRecipientMap: question id to giver to the recipients that giver should answer. */
  type GiverRecipientMap = map<string, map<string, set<string>>>

  datatype Triple = Triple(questionId: string, giver: string, recipient: string)

  function Triples(m: GiverRecipientMap): set<Triple>
  {
    set q, g, rcp | q in m && g in m[q] && rcp in m[q][g] :: Triple(q, g, rcp)
  }

  /** The (question, giver, recipient) triples that have an actual response. */
  ghost function ActualTriples(actual: seq<FR.Response>): set<Triple>
  {
    set i | 0 <= i < |actual| && actual[i].questionId.Some? && actual[i].giver.Some? && actual[i].recipient.Some?
      :: Triple(actual[i].questionId.value, actual[i].giver.value, actual[i].recipient.value)
  }

  lemma ActualTriplesStep(actual: seq<FR.Response>, i: int)
    requires 0 <= i < |actual|
    ensures var x := actual[i];
            ActualTriples(actual[..i + 1]) ==
              ActualTriples(actual[..i])
              + (if x.questionId.Some? && x.giver.Some? && x.recipient.Some?
                 then {Triple(x.questionId.value, x.giver.value, x.recipient.value)} else {})
  {
    var x := actual[i];
    var a, b := actual[..i + 1], actual[..i];
    forall t | t in ActualTriples(a) ensures t in ActualTriples(b) || (x.questionId.Some? && x.giver.Some? && x.recipient.Some? && t == Triple(x.questionId.value, x.giver.value, x.recipient.value)) {
      var j :| 0 <= j < |a| && a[j].questionId.Some? && a[j].giver.Some? && a[j].recipient.Some?
               && t == Triple(a[j].questionId.value, a[j].giver.value, a[j].recipient.value);
      if j < i {
        assert a[j] == b[j];
      }
    }
    forall t | t in ActualTriples(b) ensures t in ActualTriples(a) {
      var j :| 0 <= j < |b| && b[j].questionId.Some? && b[j].giver.Some? && b[j].recipient.Some?
               && t == Triple(b[j].questionId.value, b[j].giver.value, b[j].recipient.value);
      assert a[j] == b[j];
    }
    if x.questionId.Some? && x.giver.Some? && x.recipient.Some? {
      assert a[i] == x;
    }
  }

  /** Removing one recipient from one giver's set removes exactly that triple. */
  lemma RemoveTriple(m: GiverRecipientMap, q: string, g: string, rcp: string)
    requires q in m && g in m[q]
    ensures Triples(m[q := m[q][g := m[q][g] - {rcp}]]) == Triples(m) - {Triple(q, g, rcp)}
  {
    var m' := m[q := m[q][g := m[q][g] - {rcp}]];
    forall t | t in Triples(m') ensures t in Triples(m) && t != Triple(q, g, rcp) {
      assert t.questionId in m' && t.giver in m'[t.questionId] && t.recipient in m'[t.questionId][t.giver];
    }
    forall t | t in Triples(m) && t != Triple(q, g, rcp) ensures t in Triples(m') {
      assert t.questionId in m && t.giver in m[t.questionId] && t.recipient in m[t.questionId][t.giver];
    }
  }

  /** The first half of buildMissingResponses: every actual response takes its recipient out of
      its giver's set for its question; responses outside the map change nothing. */
  method WithoutAnswered(complete: GiverRecipientMap, actual: seq<FR.Response>) returns (cur: GiverRecipientMap)
    ensures Triples(cur) == Triples(complete) - ActualTriples(actual)
  {
    cur := complete;
    for i := 0 to |actual|
      invariant Triples(cur) == Triples(complete) - ActualTriples(actual[..i])
    {
      var response := actual[i];
      ActualTriplesStep(actual, i);
      if response.questionId.Some? && response.questionId.value in cur {
        var q := response.questionId.value;
        if response.giver.Some? && response.giver.value in cur[q] {
          var g := response.giver.value;
          if response.recipient.Some? {
            RemoveTriple(cur, q, g, response.recipient.value);
            cur := cur[q := cur[q][g := cur[q][g] - {response.recipient.value}]];
          }
        }
      }
    }
    assert actual[..|actual|] == actual;
  }

  /** The triple a response answers (a null part reads as the empty string). */
  function TripleOf(r: FR.Response): Triple
  {
    Triple(r.questionId.GetOr(""), r.giver.GetOr(""), r.recipient.GetOr(""))
  }

  /** The text of every pseudo response. */
  const MISSING_DETAILS := FR.ResponseDetails(TEXT, INSTRUCTOR_FEEDBACK_RESULTS_MISSING_RESPONSE)

  /** The pseudo response for one missing triple, built with the session's course and name and the
      two participants' sections. */
  function MissingResponse(t: Triple, courseId: string, sessionName: string,
                           giverSection: string, recipientSection: string): (r: FR.Response)
    ensures r.questionId == Some(t.questionId) && r.giver == Some(t.giver) && r.recipient == Some(t.recipient)
    ensures r.courseId == Some(courseId) && r.sessionName == Some(sessionName) && r.id.None?
    ensures r.giverSection == giverSection && r.recipientSection == recipientSection
    ensures r.details == Some(MISSING_DETAILS) && !FR.IsMissingResponse(r)
    ensures TripleOf(r) == t
  {
    FR.Built(Some(courseId), Some(sessionName), Some(t.questionId),
             FR.UpdateOptions("", Some(t.giver), Some(giverSection), Some(t.recipient), Some(recipientSection),
                              Some(MISSING_DETAILS)))
  }

  /** The section getInfoForIdentifier reports for a giver or recipient. */
  function SectionOf(roster: CR.CourseRoster, identifier: string): Option<string>
    reads roster
    requires roster.Valid()
  {
    roster.InfoForIdentifier(Some(identifier)).sectionName
  }

  predicate HasSections(roster: CR.CourseRoster, t: Triple)
    reads roster
    requires roster.Valid()
  {
    SectionOf(roster, t.giver).Some? && SectionOf(roster, t.recipient).Some?
  }

  function MissingFor(roster: CR.CourseRoster, courseId: string, sessionName: string, t: Triple): FR.Response
    reads roster
    requires roster.Valid() && HasSections(roster, t)
  {
    MissingResponse(t, courseId, sessionName, SectionOf(roster, t.giver).value, SectionOf(roster, t.recipient).value)
  }

  /** The pseudo responses of exactly the given triples, one each. */
  ghost predicate IsMissingResponses(roster: CR.CourseRoster, courseId: string, sessionName: string,
                                     missing: set<Triple>, responses: seq<FR.Response>)
    reads roster
    requires roster.Valid()
  {
    (forall t | t in missing :: HasSections(roster, t) && MissingFor(roster, courseId, sessionName, t) in responses)
    && (forall k | 0 <= k < |responses| ::
          var t := TripleOf(responses[k]);
          t in missing && HasSections(roster, t) && responses[k] == MissingFor(roster, courseId, sessionName, t))
    && Streams.Distinct(responses)
  }

  /** The second half of buildMissingResponses: a pseudo response per missing triple, in the
      map's iteration order. The builder rejects a null section, so a triple whose giver or
      recipient has no section stops the build with the responses built so far. */
  method MissingResponsesFor(roster: CR.CourseRoster, courseId: string, sessionName: string, missing: set<Triple>)
    returns (built: seq<FR.Response>, r: Outcome<()>)
    requires roster.Valid()
    ensures r.Fail? <==> exists t | t in missing :: !HasSections(roster, t)
    ensures r.Fail? ==> r.failure == AssertionFailure
    ensures r.Ok? ==> IsMissingResponses(roster, courseId, sessionName, missing, built)
  {
    var todo := missing;
    built := [];
    while todo != {}
      invariant todo <= missing
      invariant forall t | t in missing - todo :: HasSections(roster, t) && MissingFor(roster, courseId, sessionName, t) in built
      invariant forall k | 0 <= k < |built| ::
                  var t := TripleOf(built[k]);
                  t in missing - todo && HasSections(roster, t) && built[k] == MissingFor(roster, courseId, sessionName, t)
      invariant Streams.Distinct(built)
      decreases |todo|
    {
      var t :| t in todo;
      var giverSection := SectionOf(roster, t.giver);
      var recipientSection := SectionOf(roster, t.recipient);
      if giverSection.None? || recipientSection.None? {
        return built, Fail(AssertionFailure);
      }
      var x := MissingResponse(t, courseId, sessionName, giverSection.value, recipientSection.value);
      built := built + [x];
      todo := todo - {t};
    }
    r := Ok(());
  }

  // ---------------------------------------------------------------------
  // The bundle

  /** The two flags of a visibilityTable entry: whether the giver and the recipient may be shown. */
  datatype VisibilityFlags = VisibilityFlags(giver: bool, recipient: bool)

  /** The display-name rule shared by getNameForEmail and getLastNameForEmail. */
  function DisplayedName(name: Option<string>, teamName: string): (r: string)
    ensures name.None? || name.value == USER_IS_MISSING ==> r == USER_UNKNOWN_TEXT
    ensures name == Some(USER_IS_NOBODY) ==> r == USER_NOBODY_TEXT
    ensures name == Some(USER_IS_TEAM) ==> r == teamName
    ensures name.Some? && name.value !in {USER_IS_MISSING, USER_IS_NOBODY, USER_IS_TEAM} ==> r == name.value
  {
    if name.None? || name.value == USER_IS_MISSING then USER_UNKNOWN_TEXT
    else if name.value == USER_IS_NOBODY then USER_NOBODY_TEXT
    else if name.value == USER_IS_TEAM then teamName
    else name.value
  }

  function Lookup(table: map<string, string>, key: Option<string>): (r: Option<string>)
    ensures r.Some? <==> key.Some? && key.value in table
    ensures r.Some? ==> r.value == table[key.value]
  {
    if key.Some? && key.value in table then Some(table[key.value]) else None
  }

  class FeedbackSessionResultsBundle {
    var courseId: string
    var sessionName: string
    var responses: seq<FR.Response>
    var actualResponses: seq<FR.Response>
    var questions: map<string, FQ.Question>
    var emailNameTable: map<string, string>
    var emailLastNameTable: map<string, string>
    var emailTeamNameTable: map<string, string>
    var visibilityTable: map<string, VisibilityFlags>
    var missingResponses: seq<FR.Response>
    var roster: CR.CourseRoster
    var rosterTeamNameMembersTable: Table
    var rosterSectionTeamNameTable: Table

    /** The bundle's fields as the constructor receives them; actualResponses are the responses
        before any identity is hidden. */
    constructor (courseId: string, sessionName: string, responses: seq<FR.Response>,
                 actualResponses: seq<FR.Response>, questions: map<string, FQ.Question>,
                 emailNameTable: map<string, string>, emailLastNameTable: map<string, string>,
                 emailTeamNameTable: map<string, string>, visibilityTable: map<string, VisibilityFlags>,
                 roster: CR.CourseRoster)
      ensures this.courseId == courseId && this.sessionName == sessionName
      ensures this.responses == responses && this.actualResponses == actualResponses
      ensures this.questions == questions && this.visibilityTable == visibilityTable
      ensures this.emailNameTable == emailNameTable && this.emailLastNameTable == emailLastNameTable
      ensures this.emailTeamNameTable == emailTeamNameTable && this.roster == roster
      ensures missingResponses == [] && rosterTeamNameMembersTable == map[] && rosterSectionTeamNameTable == map[]
    {
      this.courseId, this.sessionName, this.responses, this.actualResponses := courseId, sessionName, responses, actualResponses;
      this.questions, this.visibilityTable, this.roster := questions, visibilityTable, roster;
      this.emailNameTable, this.emailLastNameTable, this.emailTeamNameTable := emailNameTable, emailLastNameTable, emailTeamNameTable;
      missingResponses, rosterTeamNameMembersTable, rosterSectionTeamNameTable := [], map[], map[];
    }

    // -------------------------------------------------------------------
    // Visibility

    /** isFeedbackParticipantVisible: the giver's or the recipient's flag of the response's entry,
        or a participant type of NONE. A response without an entry, or whose question is not in
        the bundle, throws. */
    function IsFeedbackParticipantVisible(isGiver: bool, response: FR.Response): (r: Outcome<bool>)
      reads this
      ensures r.Fail? <==> response.id.None? || response.id.value !in visibilityTable
                           || response.questionId.None? || response.questionId.value !in questions
      ensures r.Fail? ==> r.failure == NullPointer
      ensures r.Ok? ==>
                var flags, q := visibilityTable[response.id.value], questions[response.questionId.value];
                (r.value <==> (if isGiver then flags.giver else flags.recipient)
                              || (if isGiver then q.giverType else q.recipientType) == Some(NONE))
    {
      if response.id.None? || response.id.value !in visibilityTable then Fail(NullPointer)
      else if response.questionId.None? || response.questionId.value !in questions then Fail(NullPointer)
      else
        var flags := visibilityTable[response.id.value];
        var q := questions[response.questionId.value];
        var isVisible := if isGiver then flags.giver else flags.recipient;
        var participantType := if isGiver then q.giverType else q.recipientType;
        Ok(isVisible || participantType == Some(NONE))
    }

    // -------------------------------------------------------------------
    // Names

    /** getTeamNameForEmail: the nobody text for an email without a team or for the general
        question's pseudo recipient. */
    function TeamNameForEmail(email: Option<string>): (r: string)
      reads this
      ensures Lookup(emailTeamNameTable, email).None? || email == Some(GENERAL_QUESTION) ==> r == USER_NOBODY_TEXT
      ensures Lookup(emailTeamNameTable, email).Some? && email != Some(GENERAL_QUESTION) ==> r == emailTeamNameTable[email.value]
    {
      var teamName := Lookup(emailTeamNameTable, email);
      if teamName.None? || email.value == GENERAL_QUESTION then USER_NOBODY_TEXT else teamName.value
    }

    /** getNameForEmail: the stored name, with the markers turned into display texts. */
    function NameForEmail(email: Option<string>): (r: string)
      reads this
      ensures var name := Lookup(emailNameTable, email);
              (name.None? || name.value == USER_IS_MISSING ==> r == USER_UNKNOWN_TEXT)
              && (name == Some(USER_IS_NOBODY) ==> r == USER_NOBODY_TEXT)
              && (name == Some(USER_IS_TEAM) ==> r == TeamNameForEmail(email))
              && (name.Some? && name.value !in {USER_IS_MISSING, USER_IS_NOBODY, USER_IS_TEAM} ==> r == name.value)
    {
      DisplayedName(Lookup(emailNameTable, email), TeamNameForEmail(email))
    }

    /** getLastNameForEmail: the same rule over the last-name table. */
    function LastNameForEmail(email: Option<string>): (r: string)
      reads this
      ensures var name := Lookup(emailLastNameTable, email);
              (name.None? || name.value == USER_IS_MISSING ==> r == USER_UNKNOWN_TEXT)
              && (name == Some(USER_IS_NOBODY) ==> r == USER_NOBODY_TEXT)
              && (name == Some(USER_IS_TEAM) ==> r == TeamNameForEmail(email))
              && (name.Some? && name.value !in {USER_IS_MISSING, USER_IS_NOBODY, USER_IS_TEAM} ==> r == name.value)
    {
      DisplayedName(Lookup(emailLastNameTable, email), TeamNameForEmail(email))
    }

    /** A displayed name never shows a marker, as long as no stored name or team name is one. */
    lemma DisplayedNamesHideMarkers(email: Option<string>)
      requires forall e | e in emailTeamNameTable :: emailTeamNameTable[e] !in {USER_IS_MISSING, USER_IS_NOBODY, USER_IS_TEAM}
      ensures NameForEmail(email) !in {USER_IS_MISSING, USER_IS_NOBODY, USER_IS_TEAM}
      ensures LastNameForEmail(email) !in {USER_IS_MISSING, USER_IS_NOBODY, USER_IS_TEAM}
    {
    }

    // -------------------------------------------------------------------
    // Roster queries

    predicate IsParticipantIdentifierStudent(identifier: Option<string>)
      reads this, roster
    {
      identifier in roster.studentListByEmail
    }

    predicate IsParticipantIdentifierInstructor(identifier: Option<string>)
      reads this, roster
    {
      identifier in roster.instructorListByEmail
    }

    /** hasResponseFromInstructor: some response's giver is an instructor who is not also a
        student of the course. */
    method HasResponseFromInstructor() returns (r: bool)
      ensures r <==> exists i | 0 <= i < |responses| ::
                       IsParticipantIdentifierInstructor(responses[i].giver)
                       && !IsParticipantIdentifierStudent(responses[i].giver)
    {
      for i := 0 to |responses|
        invariant forall j | 0 <= j < i :: !(IsParticipantIdentifierInstructor(responses[j].giver)
                                              && !IsParticipantIdentifierStudent(responses[j].giver))
      {
        var giver := responses[i].giver;
        if IsParticipantIdentifierInstructor(giver) && !IsParticipantIdentifierStudent(giver) {
          return true;
        }
      }
      return false;
    }

    /** The two roster tables the constructor builds last. */
    method BuildRosterTables() returns (r: Outcome<()>)
      requires roster.Valid()
      modifies this`rosterTeamNameMembersTable, this`rosterSectionTeamNameTable
      ensures r.Fail? <==> None in roster.studentListByEmail
      ensures r.Ok? ==> IsTeamEmailsTable(roster, rosterTeamNameMembersTable)
                        && IsSectionTeamsTable(roster, rosterSectionTeamNameTable)
    {
      var teams := TeamNameToEmailsTable(roster);
      if teams.Fail? {
        return Fail(teams.failure);
      }
      rosterTeamNameMembersTable := teams.value;
      rosterSectionTeamNameTable := SectionToTeamNames(roster);
      r := Ok(());
    }

    /** getTeamMembersFromRoster: a team's emails (the instructors' for their pseudo team), and
        nothing for an unknown team. */
    function TeamMembersFromRoster(teamName: Option<string>): (r: set<Option<string>>)
      reads this, roster
      ensures IsTeamEmailsTable(roster, rosterTeamNameMembersTable) ==>
                if teamName == Some(USER_TEAM_FOR_INSTRUCTOR) && roster.instructorListByEmail != map[]
                then r == roster.instructorListByEmail.Keys
                else r == TeamEmails(roster.studentListByEmail, teamName)
    {
      if teamName in rosterTeamNameMembersTable then rosterTeamNameMembersTable[teamName] else {}
    }

    /** getTeamsInSectionFromRoster: the teams of a section, and nothing for an unknown section. */
    function TeamsInSectionFromRoster(sectionName: Option<string>): (r: set<Option<string>>)
      reads this, roster
      ensures IsSectionTeamsTable(roster, rosterSectionTeamNameTable) ==>
                r == SectionTeams(roster.studentListByEmail, sectionName)
    {
      if sectionName in rosterSectionTeamNameTable then rosterSectionTeamNameTable[sectionName] else {}
    }

    // -------------------------------------------------------------------
    // buildMissingResponses

    /** buildMissingResponses: one pseudo response for every triple of the complete map that has
        no actual response, and nothing else. */
    method BuildMissingResponses(complete: GiverRecipientMap) returns (r: Outcome<()>)
      requires roster.Valid()
      modifies this`missingResponses
      ensures var missing := Triples(complete) - ActualTriples(actualResponses);
              (r.Fail? <==> exists t | t in missing :: !HasSections(roster, t))
              && (r.Fail? ==> r.failure == AssertionFailure)
              && (r.Ok? ==> IsMissingResponses(roster, courseId, sessionName, missing, missingResponses))
    {
      missingResponses := [];
      var cur := WithoutAnswered(complete, actualResponses);
      var built;
      built, r := MissingResponsesFor(roster, courseId, sessionName, Triples(cur));
      missingResponses := built;
    }
  }
}
