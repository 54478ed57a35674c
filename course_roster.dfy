// CourseRoster: a cached copy of a course's students and instructors, keyed
// by email, with the students grouped by team. Java's HashMap allows a null
// key, so the keys here are nullable strings.

module CourseRoster {
  import opened Common
  import opened Const
  import SA = StudentAttributes
  import IA = InstructorAttributes

  type Student = SA.Student
  type Instructor = IA.Instructor

  /** populateStudentListByEmail: each student is put under its email in list order, so a later
      student with the same email replaces an earlier one; a null list gives an empty map. */
  function StudentsByEmail(list: seq<Student>): (r: map<Option<string>, Student>)
    ensures forall e | e in r :: r[e].email == e
  {
    if |list| == 0 then map[]
    else
      var last := list[|list| - 1];
      StudentsByEmail(list[..|list| - 1])[last.email := last]
  }

  /** populateInstructorListByEmail, in the same way. */
  function InstructorsByEmail(list: seq<Instructor>): (r: map<Option<string>, Instructor>)
    ensures forall e | e in r :: r[e].email == e
  {
    if |list| == 0 then map[]
    else
      var last := list[|list| - 1];
      InstructorsByEmail(list[..|list| - 1])[last.email := last]
  }

  /** The position of the last student in `list` with email `e`. */
  predicate IsLastWithEmail(list: seq<Student>, e: Option<string>, j: int)
  {
    0 <= j < |list| && list[j].email == e && forall k | j < k < |list| :: list[k].email != e
  }

  /** Every email of the list is a key, and it holds the last student listed with that email. */
  lemma {:induction false} LastStudentWins(list: seq<Student>, j: int)
    requires 0 <= j < |list| && IsLastWithEmail(list, list[j].email, j)
    ensures list[j].email in StudentsByEmail(list) && StudentsByEmail(list)[list[j].email] == list[j]
    decreases |list|
  {
    var n := |list| - 1;
    if j < n {
      assert IsLastWithEmail(list[..n], list[j].email, j);
      LastStudentWins(list[..n], j);
    }
  }

  /** The keys are exactly the emails of the list. */
  lemma {:induction false} StudentKeys(list: seq<Student>, e: Option<string>)
    ensures e in StudentsByEmail(list) <==> exists i | 0 <= i < |list| :: list[i].email == e
    decreases |list|
  {
    if |list| > 0 {
      var n := |list| - 1;
      StudentKeys(list[..n], e);
      if e in StudentsByEmail(list[..n]) {
        var i :| 0 <= i < n && list[..n][i].email == e;
        assert list[i].email == e;
      }
      if exists i | 0 <= i < |list| :: list[i].email == e {
        var i :| 0 <= i < |list| && list[i].email == e;
        if i < n {
          assert list[..n][i].email == e;
        }
      }
    }
  }

  /** The instructor keys are exactly the emails of the list. */
  lemma {:induction false} InstructorKeys(list: seq<Instructor>, e: Option<string>)
    ensures e in InstructorsByEmail(list) <==> exists i | 0 <= i < |list| :: list[i].email == e
    decreases |list|
  {
    if |list| > 0 {
      var n := |list| - 1;
      InstructorKeys(list[..n], e);
      if e in InstructorsByEmail(list[..n]) {
        var i :| 0 <= i < n && list[..n][i].email == e;
        assert list[i].email == e;
      }
      if exists i | 0 <= i < |list| :: list[i].email == e {
        var i :| 0 <= i < |list| && list[i].email == e;
        if i < n {
          assert list[..n][i].email == e;
        }
      }
    }
  }

  /** The facts about a team table that the constructor establishes: every team list is non-empty
      and lists each student of the map exactly once, under the student's own team. */
  ghost predicate IsTeamTable(students: map<Option<string>, Student>, table: map<Option<string>, seq<Student>>)
  {
    (forall t | t in table :: |table[t]| > 0)
    && (forall t | t in table :: forall s | s in table[t] :: s.team == t && s.email in students && students[s.email] == s)
    && (forall e | e in students :: students[e].team in table && students[e] in table[students[e].team])
    && (forall t | t in table :: forall i, j | 0 <= i < j < |table[t]| :: table[t][i] != table[t][j])
  }

  /** The name, team and section getInfoForIdentifier reports. */
  datatype ParticipantInfo = ParticipantInfo(name: Option<string>, teamName: Option<string>, sectionName: Option<string>)

  const NOBODY_INFO := ParticipantInfo(Some(USER_NOBODY_TEXT), Some(USER_NOBODY_TEXT), Some(DEFAULT_SECTION))

  class CourseRoster {
    var studentListByEmail: map<Option<string>, Student>
    var instructorListByEmail: map<Option<string>, Instructor>
    var teamToMembersTable: map<Option<string>, seq<Student>>

    ghost predicate Valid()
      reads this
    {
      (forall e | e in studentListByEmail :: studentListByEmail[e].email == e)
      && (forall e | e in instructorListByEmail :: instructorListByEmail[e].email == e)
      && IsTeamTable(studentListByEmail, teamToMembersTable)
    }

    /** The constructor: the two email maps (empty for a null list), then the team table, built by
        walking the students of the map. */
    constructor (students: Option<seq<Student>>, instructors: Option<seq<Instructor>>)
      ensures studentListByEmail == (if students.Some? then StudentsByEmail(students.value) else map[])
      ensures instructorListByEmail == (if instructors.Some? then InstructorsByEmail(instructors.value) else map[])
      ensures Valid()
    {
      var byEmail: map<Option<string>, Student> := map[];
      if students.Some? {
        var list := students.value;
        for i := 0 to |list|
          invariant byEmail == StudentsByEmail(list[..i])
        {
          assert list[..i + 1][..i] == list[..i];
          byEmail := byEmail[list[i].email := list[i]];
        }
        assert list[..|list|] == list;
      }
      var instructorsMap: map<Option<string>, Instructor> := map[];
      if instructors.Some? {
        var list := instructors.value;
        for i := 0 to |list|
          invariant instructorsMap == InstructorsByEmail(list[..i])
        {
          assert list[..i + 1][..i] == list[..i];
          instructorsMap := instructorsMap[list[i].email := list[i]];
        }
        assert list[..|list|] == list;
      }
      var table := TeamTable(byEmail);
      studentListByEmail := byEmail;
      instructorListByEmail := instructorsMap;
      teamToMembersTable := table;
    }

    function IsInstructorOfCourse(email: Option<string>): bool
      reads this
    {
      email in instructorListByEmail
    }

    function IsStudentInCourse(email: Option<string>): bool
      reads this
    {
      email in studentListByEmail
    }

    /** A roster built from `list` knows a student exactly when some student of the list has that email. */
    lemma StudentInCourseIffListed(list: seq<Student>, email: Option<string>)
      requires studentListByEmail == StudentsByEmail(list)
      ensures IsStudentInCourse(email) <==> exists i | 0 <= i < |list| :: list[i].email == email
    {
      StudentKeys(list, email);
    }

    /** A roster built from `list` knows an instructor exactly when some instructor of the list has
        that email. */
    lemma InstructorOfCourseIffListed(list: seq<Instructor>, email: Option<string>)
      requires instructorListByEmail == InstructorsByEmail(list)
      ensures IsInstructorOfCourse(email) <==> exists i | 0 <= i < |list| :: list[i].email == email
    {
      InstructorKeys(list, email);
    }

    /** isTeamInCourse: the team is a key of the team table, which holds exactly the students' teams. */
    function IsTeamInCourse(team: Option<string>): (r: bool)
      reads this
      requires Valid()
      ensures r <==> exists e | e in studentListByEmail :: studentListByEmail[e].team == team
    {
      if team in teamToMembersTable then
        var s := teamToMembersTable[team][0];
        assert s.email in studentListByEmail;
        true
      else false
    }

    /** isStudentInTeam: false for an unknown student; the student's null team throws. */
    function IsStudentInTeam(email: Option<string>, targetTeam: Option<string>): (r: Outcome<bool>)
      reads this
      ensures email !in studentListByEmail ==> r == Ok(false)
      ensures r.Fail? ==> r.failure == NullPointer && studentListByEmail[email].team.None?
      ensures r == Ok(true) <==> email in studentListByEmail && targetTeam.Some?
                                 && studentListByEmail[email].team == targetTeam
    {
      if email !in studentListByEmail then Ok(false)
      else
        var team := studentListByEmail[email].team;
        if team.None? then Fail(NullPointer) else Ok(team == targetTeam)
    }

    /** isStudentsInSameTeam: both known, the first one's team non-null and equal to the second's. */
    function IsStudentsInSameTeam(email1: Option<string>, email2: Option<string>): (r: bool)
      reads this
      ensures r <==> email1 in studentListByEmail && email2 in studentListByEmail
                     && studentListByEmail[email1].team.Some?
                     && studentListByEmail[email1].team == studentListByEmail[email2].team
      ensures r ==> studentListByEmail[email2].team.Some?
    {
      email1 in studentListByEmail && email2 in studentListByEmail
      && studentListByEmail[email1].team.Some? && studentListByEmail[email1].team == studentListByEmail[email2].team
    }

    /** The same-team test is reflexive for students with a team, symmetric and transitive. */
    lemma SameTeamIsEquivalence(a: Option<string>, b: Option<string>, c: Option<string>)
      ensures a in studentListByEmail && studentListByEmail[a].team.Some? ==> IsStudentsInSameTeam(a, a)
      ensures IsStudentsInSameTeam(a, b) ==> IsStudentsInSameTeam(b, a)
      ensures IsStudentsInSameTeam(a, b) && IsStudentsInSameTeam(b, c) ==> IsStudentsInSameTeam(a, c)
    {
    }

    /** Two students of the same team are listed together in the team table. */
    lemma SameTeamMeansSameTableEntry(a: Option<string>, b: Option<string>)
      requires Valid() && IsStudentsInSameTeam(a, b)
      ensures var t := studentListByEmail[a].team;
        t in teamToMembersTable && studentListByEmail[a] in teamToMembersTable[t]
        && studentListByEmail[b] in teamToMembersTable[t]
    {
    }

    /** getEmailToNameTableFromRoster: the instructors' names, then the students' names over them. */
    method EmailToNameTable() returns (table: map<Option<string>, Option<string>>)
      ensures table.Keys == instructorListByEmail.Keys + studentListByEmail.Keys
      ensures forall e | e in studentListByEmail :: table[e] == studentListByEmail[e].name
      ensures forall e | e in instructorListByEmail && e !in studentListByEmail :: table[e] == instructorListByEmail[e].name
    {
      table := map[];
      var todo := instructorListByEmail.Keys;
      while todo != {}
        invariant todo <= instructorListByEmail.Keys
        invariant table.Keys == instructorListByEmail.Keys - todo
        invariant forall e | e in table :: table[e] == instructorListByEmail[e].name
        decreases |todo|
      {
        var e :| e in todo;
        table := table[e := instructorListByEmail[e].name];
        todo := todo - {e};
      }
      var instructorTable := table;
      todo := studentListByEmail.Keys;
      while todo != {}
        invariant todo <= studentListByEmail.Keys
        invariant table.Keys == instructorTable.Keys + (studentListByEmail.Keys - todo)
        invariant forall e | e in studentListByEmail.Keys - todo :: table[e] == studentListByEmail[e].name
        invariant forall e | e in table && e !in studentListByEmail.Keys - todo :: table[e] == instructorTable[e]
        decreases |todo|
      {
        var e :| e in todo;
        table := table[e := studentListByEmail[e].name];
        todo := todo - {e};
      }
    }

    /** getInfoForIdentifier: a student first; then an instructor, with the instructors' team and
        the default section; then a team, named by itself, with the section of one of its members;
        otherwise nobody. */
    function InfoForIdentifier(identifier: Option<string>): (r: ParticipantInfo)
      reads this
      requires Valid()
      ensures identifier in studentListByEmail ==>
        var s := studentListByEmail[identifier]; r == ParticipantInfo(s.name, s.team, s.section)
      ensures identifier !in studentListByEmail && identifier in instructorListByEmail ==>
        r == ParticipantInfo(instructorListByEmail[identifier].name, Some(USER_TEAM_FOR_INSTRUCTOR), Some(DEFAULT_SECTION))
      ensures identifier !in studentListByEmail && identifier !in instructorListByEmail && IsTeamInCourse(identifier) ==>
        r.name == identifier && r.teamName == identifier
        && exists e | e in studentListByEmail :: studentListByEmail[e].team == identifier
                                                && studentListByEmail[e].section == r.sectionName
      ensures identifier !in studentListByEmail && identifier !in instructorListByEmail && !IsTeamInCourse(identifier) ==>
        r == NOBODY_INFO
    {
      if identifier in studentListByEmail then
        var s := studentListByEmail[identifier];
        ParticipantInfo(s.name, s.team, s.section)
      else if identifier in instructorListByEmail then
        ParticipantInfo(instructorListByEmail[identifier].name, Some(USER_TEAM_FOR_INSTRUCTOR), Some(DEFAULT_SECTION))
      else if identifier in teamToMembersTable then
        var member := teamToMembersTable[identifier][0];
        assert member.email in studentListByEmail;
        ParticipantInfo(identifier, identifier, member.section)
      else NOBODY_INFO
    }
  }

  /** The team table after the students outside `todo` have been added. */
  ghost predicate TableSoFar(students: map<Option<string>, Student>, table: map<Option<string>, seq<Student>>,
                             todo: set<Option<string>>)
  {
    todo <= students.Keys
    && (forall t | t in table :: |table[t]| > 0)
    && (forall t | t in table :: forall s | s in table[t] ::
          s.team == t && s.email in students && students[s.email] == s && s.email !in todo)
    && (forall e | e in students && e !in todo :: students[e].team in table && students[e] in table[students[e].team])
    && (forall t | t in table :: forall i, j | 0 <= i < j < |table[t]| :: table[t][i] != table[t][j])
  }

  /** computeIfAbsent(team, new list).add(student). */
  function AddToTeam(table: map<Option<string>, seq<Student>>, s: Student): map<Option<string>, seq<Student>>
  {
    table[s.team := (if s.team in table then table[s.team] else []) + [s]]
  }

  lemma TableStep(students: map<Option<string>, Student>, table: map<Option<string>, seq<Student>>,
                  todo: set<Option<string>>, e: Option<string>)
    requires TableSoFar(students, table, todo) && e in todo
    requires forall k | k in students :: students[k].email == k
    ensures TableSoFar(students, AddToTeam(table, students[e]), todo - {e})
  {
    var s := students[e];
    var members := if s.team in table then table[s.team] else [];
    assert s !in members;
    var t2 := AddToTeam(table, s);
    forall t | t in t2
      ensures forall i, j | 0 <= i < j < |t2[t]| :: t2[t][i] != t2[t][j]
    {
      if t == s.team {
        assert t2[t] == members + [s];
      }
    }
  }

  /** buildTeamToMembersTable: walks the students of the map (in the map's order, which is not
      modelled) adding each to the list of its team, creating the list when absent. */
  method TeamTable(students: map<Option<string>, Student>) returns (table: map<Option<string>, seq<Student>>)
    requires forall e | e in students :: students[e].email == e
    ensures IsTeamTable(students, table)
  {
    table := map[];
    var todo := students.Keys;
    while todo != {}
      invariant TableSoFar(students, table, todo)
      decreases |todo|
    {
      var e :| e in todo;
      TableStep(students, table, todo, e);
      table := AddToTeam(table, students[e]);
      todo := todo - {e};
    }
  }
}
