// StudentsLogic: the enrolment checks on a course's students (section quota
// and teams split over sections), the merged enrolment list they run on, and
// the cascades an update or a deletion of a student triggers. The student
// store is not part of this model: its query results are parameters.

module StudentsLogic {
  import opened Common
  import opened Const
  import JavaStrings
  import Sorting
  import Streams
  import opened StudentAttributes

  /** The most students one section may hold. */
  const SECTION_SIZE_LIMIT := 100

  /** The closing sentence of the team error message. */
  const TEAM_ERROR_SUFFIX := "Please use the enroll page to edit multiple students"

  // ---------------------------------------------------------------------
  // The merged list

  predicate HasEmail(s: Student) { s.email.Some? }

  /** `info.email.equalsIgnoreCase(student.email)`, for a non-null receiver. */
  predicate EmailMatches(info: Student, student: Student)
  {
    info.email.Some? && student.email.Some? && JavaStrings.EqualsIgnoreCase(info.email.value, student.email.value)
  }

  /** isInEnrollList: scans the list from the front; a null email reached before a match throws. */
  function InEnrollList(student: Student, list: seq<Student>): (r: Outcome<bool>)
    ensures r.Fail? ==> r.failure == NullPointer
  {
    if |list| == 0 then Ok(false)
    else if list[0].email.None? then Fail(NullPointer)
    else if EmailMatches(list[0], student) then Ok(true)
    else InEnrollList(student, list[1..])
  }

  /** On a list whose emails are all present the scan answers whether some email matches. */
  lemma {:induction false} InEnrollListMeaning(student: Student, list: seq<Student>)
    requires forall i | 0 <= i < |list| :: HasEmail(list[i])
    ensures InEnrollList(student, list).Ok?
    ensures InEnrollList(student, list).value <==> exists i | 0 <= i < |list| :: EmailMatches(list[i], student)
    decreases |list|
  {
    if |list| > 0 {
      InEnrollListMeaning(student, list[1..]);
      if !EmailMatches(list[0], student) {
        forall i | 0 <= i < |list| && EmailMatches(list[i], student)
          ensures exists k | 0 <= k < |list[1..]| :: EmailMatches(list[1..][k], student)
        {
          assert list[1..][i - 1] == list[i];
        }
      }
    }
  }

  method IsInEnrollList(student: Student, list: seq<Student>) returns (r: Outcome<bool>)
    ensures r == InEnrollList(student, list)
  {
    var i := 0;
    while i < |list|
      invariant 0 <= i <= |list|
      invariant InEnrollList(student, list) == InEnrollList(student, list[i..])
    {
      assert list[i..][1..] == list[i + 1..];
      if list[i].email.None? {
        return Fail(NullPointer);
      }
      if EmailMatches(list[i], student) {
        return Ok(true);
      }
      i := i + 1;
    }
    return Ok(false);
  }

  /** getMergedList: the enrolment list, then each course student none of whose predecessors in the
      merged list has the same email ignoring case. */
  function Merged(list: seq<Student>, inCourse: seq<Student>): (r: Outcome<seq<Student>>)
    ensures r.Fail? ==> r.failure == NullPointer
    decreases |inCourse|
  {
    if |inCourse| == 0 then Ok(list)
    else
      var m := Merged(list, inCourse[..|inCourse| - 1]);
      var last := inCourse[|inCourse| - 1];
      if m.Fail? then m
      else
        match InEnrollList(last, m.value)
        case Fail(f) => Fail(f)
        case Ok(found) => if found then m else Ok(m.value + [last])
  }

  /** Once the merge throws on a prefix of the course list, it throws on the whole list. */
  lemma {:induction false} MergedFailureStays(list: seq<Student>, inCourse: seq<Student>, k: int)
    requires 0 <= k <= |inCourse| && Merged(list, inCourse[..k]).Fail?
    ensures Merged(list, inCourse) == Merged(list, inCourse[..k])
    decreases |inCourse| - k
  {
    if k < |inCourse| {
      var n := |inCourse|;
      assert inCourse[..n - 1][..k] == inCourse[..k];
      MergedFailureStays(list, inCourse[..n - 1], k);
    } else {
      assert inCourse[..k] == inCourse;
    }
  }

  method GetMergedList(list: seq<Student>, inCourse: seq<Student>) returns (r: Outcome<seq<Student>>)
    ensures r == Merged(list, inCourse)
  {
    var merged := [];
    for i := 0 to |list|
      invariant merged == list[..i]
    {
      merged := merged + [list[i]];
    }
    assert list[..|list|] == list;
    assert inCourse[..0] == [];
    var k := 0;
    while k < |inCourse|
      invariant 0 <= k <= |inCourse|
      invariant Merged(list, inCourse[..k]) == Ok(merged)
    {
      assert inCourse[..k + 1][..k] == inCourse[..k];
      var found := IsInEnrollList(inCourse[k], merged);
      if found.Fail? {
        MergedFailureStays(list, inCourse, k + 1);
        return Fail(found.failure);
      }
      if !found.value {
        merged := merged + [inCourse[k]];
      }
      k := k + 1;
    }
    assert inCourse[..k] == inCourse;
    return Ok(merged);
  }

  /** With every email present the merge succeeds: its result starts with the enrolment list, and
      every later entry is a course student whose email no earlier entry matches ignoring case. */
  lemma {:induction false} MergedShape(list: seq<Student>, inCourse: seq<Student>)
    requires forall i | 0 <= i < |list| :: HasEmail(list[i])
    requires forall i | 0 <= i < |inCourse| :: HasEmail(inCourse[i])
    ensures Merged(list, inCourse).Ok?
    ensures |list| <= |Merged(list, inCourse).value| <= |list| + |inCourse|
    ensures Merged(list, inCourse).value[..|list|] == list
    ensures forall i | 0 <= i < |Merged(list, inCourse).value| :: HasEmail(Merged(list, inCourse).value[i])
    ensures forall i | |list| <= i < |Merged(list, inCourse).value| :: Merged(list, inCourse).value[i] in inCourse
    ensures forall i, j | 0 <= j < i && |list| <= i < |Merged(list, inCourse).value| ::
              !EmailMatches(Merged(list, inCourse).value[j], Merged(list, inCourse).value[i])
    decreases |inCourse|
  {
    if |inCourse| > 0 {
      var n := |inCourse|;
      MergedShape(list, inCourse[..n - 1]);
      InEnrollListMeaning(inCourse[n - 1], Merged(list, inCourse[..n - 1]).value);
    }
  }

  /** Every course student's email is matched, ignoring case, by some entry of the merged list. */
  lemma {:induction false} MergedCovers(list: seq<Student>, inCourse: seq<Student>)
    requires forall i | 0 <= i < |list| :: HasEmail(list[i])
    requires forall i | 0 <= i < |inCourse| :: HasEmail(inCourse[i])
    ensures Merged(list, inCourse).Ok?
    ensures forall c | c in inCourse :: exists j | 0 <= j < |Merged(list, inCourse).value| ::
              EmailMatches(Merged(list, inCourse).value[j], c)
    decreases |inCourse|
  {
    MergedShape(list, inCourse);
    if |inCourse| > 0 {
      var n := |inCourse|;
      var init := inCourse[..n - 1];
      var last := inCourse[n - 1];
      MergedCovers(list, init);
      MergedShape(list, init);
      var m := Merged(list, init).value;
      InEnrollListMeaning(last, m);
      var r := Merged(list, inCourse).value;
      assert forall i | 0 <= i < |m| :: r[i] == m[i];
      forall c | c in inCourse
        ensures exists j | 0 <= j < |r| :: EmailMatches(r[j], c)
      {
        if c in init {
          var j :| 0 <= j < |m| && EmailMatches(m[j], c);
          assert r[j] == m[j];
        } else {
          assert c == last;
          if !InEnrollList(last, m).value {
            assert r[|m|] == last;
            assert EmailMatches(r[|m|], c);
          }
        }
      }
    }
  }

  // ---------------------------------------------------------------------
  // The section quota

  /** How many students of the list are in the section. */
  function SectionCount(list: seq<Student>, sec: string): nat
  {
    if |list| == 0 then 0
    else SectionCount(list[..|list| - 1], sec) + (if list[|list| - 1].section == Some(sec) then 1 else 0)
  }

  lemma {:induction false} SectionCountAppend(u: seq<Student>, v: seq<Student>, sec: string)
    ensures SectionCount(u + v, sec) == SectionCount(u, sec) + SectionCount(v, sec)
    decreases |v|
  {
    if |v| > 0 {
      assert (u + v)[..|u + v| - 1] == u + v[..|v| - 1];
      SectionCountAppend(u, v[..|v| - 1], sec);
    } else {
      assert u + v == u;
    }
  }

  /** Taking one student out of a list takes it out of the multiset and out of its section's count. */
  lemma RemoveAt(b: seq<Student>, k: int, sec: string)
    requires 0 <= k < |b|
    ensures multiset(b) == multiset(b[..k] + b[k + 1..]) + multiset{b[k]}
    ensures SectionCount(b, sec) == SectionCount(b[..k] + b[k + 1..], sec) + (if b[k].section == Some(sec) then 1 else 0)
  {
    assert b == b[..k] + [b[k]] + b[k + 1..];
    SectionCountAppend(b[..k] + [b[k]], b[k + 1..], sec);
    SectionCountAppend(b[..k], [b[k]], sec);
    SectionCountAppend(b[..k], b[k + 1..], sec);
    assert [b[k]][..0] == [];
  }

  /** The count depends on the students only, not on their order. */
  lemma {:induction false} SectionCountPermutation(a: seq<Student>, b: seq<Student>, sec: string)
    requires multiset(a) == multiset(b)
    ensures SectionCount(a, sec) == SectionCount(b, sec)
    decreases |a|
  {
    if |a| > 0 {
      var x := a[|a| - 1];
      var init := a[..|a| - 1];
      assert a == init + [x];
      assert multiset(a) == multiset(init) + multiset{x};
      assert x in multiset(b);
      var k :| 0 <= k < |b| && b[k] == x;
      RemoveAt(b, k, sec);
      assert multiset(init) == multiset(a) - multiset{x};
      assert multiset(b[..k] + b[k + 1..]) == multiset(b) - multiset{x};
      SectionCountPermutation(init, b[..k] + b[k + 1..], sec);
    } else {
      assert b == [];
    }
  }

  lemma {:induction false} SectionCountAbsent(list: seq<Student>, sec: string)
    requires forall j | 0 <= j < |list| :: list[j].section != Some(sec)
    ensures SectionCount(list, sec) == 0
    decreases |list|
  {
    if |list| > 0 {
      SectionCountAbsent(list[..|list| - 1], sec);
    }
  }

  predicate AllSections(list: seq<Student>)
  {
    forall i | 0 <= i < |list| :: list[i].section.Some?
  }

  /** The state of the quota loop after the students before `i` have been seen: a section is listed
      once its run is over and it holds more than the limit. */
  ghost predicate QuotaLoopState(sorted: seq<Student>, i: int, invalid: seq<string>)
    requires 1 <= i <= |sorted|
  {
    forall sec :: sec in invalid <==>
      SectionCount(sorted[..i], sec) > SECTION_SIZE_LIMIT && (Some(sec) != sorted[i - 1].section || i == |sorted|)
  }

  /** The loop of getSectionInvalidityInfo over the list sorted by section: the sections holding more
      than the limit, once each. */
  method OversizedSections(sorted: seq<Student>) returns (invalid: seq<string>)
    requires Sorting.SortedBy(sorted, BySection)
    requires |sorted| >= 2 ==> AllSections(sorted)
    ensures Streams.Distinct(invalid)
    ensures forall sec :: sec in invalid <==> SectionCount(sorted, sec) > SECTION_SIZE_LIMIT
  {
    invalid := [];
    if |sorted| < 2 {
      forall sec ensures SectionCount(sorted, sec) <= 1 {
        if |sorted| == 1 {
          assert sorted[..0] == [];
        }
      }
      return;
    }
    var studentsCount := 1;
    assert sorted[..1][..0] == [];
    for i := 1 to |sorted|
      invariant studentsCount == SectionCount(sorted[..i], sorted[i - 1].section.value)
      invariant QuotaLoopState(sorted, i, invalid)
      invariant Streams.Distinct(invalid)
    {
      ghost var before := invalid;
      var current, previous := sorted[i], sorted[i - 1];
      assert current.section.Some? && previous.section.Some?;
      if current.section == previous.section {
        studentsCount := studentsCount + 1;
      } else {
        if studentsCount > SECTION_SIZE_LIMIT {
          invalid := invalid + [previous.section.value];
        }
        studentsCount := 1;
      }
      if i == |sorted| - 1 && studentsCount > SECTION_SIZE_LIMIT {
        invalid := invalid + [current.section.value];
      }
      if current.section == previous.section {
        QuotaSameSection(sorted, i, before, invalid);
      } else {
        NewSectionIsFirst(sorted, i);
        QuotaNewSection(sorted, i, before, invalid);
      }
    }
    assert sorted[..|sorted|] == sorted;
  }

  lemma CountStep(sorted: seq<Student>, i: int)
    requires 0 <= i < |sorted|
    ensures forall sec :: SectionCount(sorted[..i + 1], sec)
              == SectionCount(sorted[..i], sec) + (if sorted[i].section == Some(sec) then 1 else 0)
  {
    assert sorted[..i + 1][..i] == sorted[..i];
  }

  /** A student that follows one of the same section extends that section's run. */
  lemma QuotaSameSection(sorted: seq<Student>, i: int, before: seq<string>, after: seq<string>)
    requires 1 <= i < |sorted| && sorted[i].section.Some? && sorted[i].section == sorted[i - 1].section
    requires QuotaLoopState(sorted, i, before) && Streams.Distinct(before)
    requires var count := SectionCount(sorted[..i], sorted[i].section.value) + 1;
      after == before + (if i == |sorted| - 1 && count > SECTION_SIZE_LIMIT then [sorted[i].section.value] else [])
    ensures SectionCount(sorted[..i + 1], sorted[i].section.value) == SectionCount(sorted[..i], sorted[i].section.value) + 1
    ensures QuotaLoopState(sorted, i + 1, after) && Streams.Distinct(after)
  {
    CountStep(sorted, i);
  }

  /** A student that opens a new section closes the previous section's run. */
  lemma QuotaNewSection(sorted: seq<Student>, i: int, before: seq<string>, after: seq<string>)
    requires 1 <= i < |sorted| && sorted[i].section.Some? && sorted[i - 1].section.Some?
    requires sorted[i].section != sorted[i - 1].section
    requires SectionCount(sorted[..i], sorted[i].section.value) == 0
    requires QuotaLoopState(sorted, i, before) && Streams.Distinct(before)
    requires var count := SectionCount(sorted[..i], sorted[i - 1].section.value);
      after == before + (if count > SECTION_SIZE_LIMIT then [sorted[i - 1].section.value] else [])
    ensures SectionCount(sorted[..i + 1], sorted[i].section.value) == 1
    ensures QuotaLoopState(sorted, i + 1, after) && Streams.Distinct(after)
  {
    CountStep(sorted, i);
  }

  /** In the sorted list a student whose section differs from its predecessor's is the first of its section. */
  lemma NewSectionIsFirst(sorted: seq<Student>, i: int)
    requires Sorting.SortedBy(sorted, BySection) && AllSections(sorted) && 1 <= i < |sorted|
    requires sorted[i].section != sorted[i - 1].section
    ensures SectionCount(sorted[..i], sorted[i].section.value) == 0
  {
    forall j | 0 <= j < i ensures sorted[..i][j].section != sorted[i].section {
      if j < i - 1 && sorted[j].section == sorted[i].section {
        SectionsAreContiguous(sorted, j, i - 1, i);
      }
    }
    SectionCountAbsent(sorted[..i], sorted[i].section.value);
  }

  /** The concatenation of one formatted message per item. */
  function Concat(format: string -> string, items: seq<string>): string
  {
    if |items| == 0 then "" else Concat(format, items[..|items| - 1]) + format(items[|items| - 1])
  }

  lemma {:induction false} ConcatEmpty(format: string -> string, items: seq<string>)
    requires forall x :: format(x) != ""
    ensures Concat(format, items) == "" <==> items == []
    decreases |items|
  {
    if |items| > 0 {
      assert format(items[|items| - 1]) != "";
    }
  }

  /** The StringBuilder loop that joins the messages. */
  method AppendAll(format: string -> string, items: seq<string>) returns (message: string)
    ensures message == Concat(format, items)
  {
    message := "";
    for k := 0 to |items|
      invariant message == Concat(format, items[..k])
    {
      assert items[..k + 1][..k] == items[..k];
      message := message + format(items[k]);
    }
    assert items[..|items|] == items;
  }

  predicate AllSectionsWithin(list: seq<Student>)
  {
    forall i | 0 <= i < |list| && list[i].section.Some? :: SectionCount(list, list[i].section.value) <= SECTION_SIZE_LIMIT
  }

  /** A successful section sort of two or more students saw no null section. */
  lemma SortedKeepsSections(merged: seq<Student>, sorted: seq<Student>)
    requires |merged| >= 2 && SortBySectionName(merged) == Ok(sorted)
    ensures AllSections(sorted)
  {
    forall i | 0 <= i < |sorted| ensures sorted[i].section.Some? {
      assert sorted[i] in multiset(merged);
      var j :| 0 <= j < |merged| && merged[j] == sorted[i];
      FirstKeyPresent(merged, SectionSortFields, j);
    }
  }

  /** getSectionInvalidityInfo: sorts the merged list by section, team and name (which throws when
      it compares a null key), then reports each section over the limit once, in section order. */
  method SectionInvalidityInfo(merged: seq<Student>, quotaMessage: string -> string)
    returns (r: Outcome<string>, ghost invalid: seq<string>)
    ensures r.Fail? <==> SortBySectionName(merged).Fail?
    ensures r.Fail? ==> r.failure == NullPointer
    ensures r.Ok? ==> r.value == Concat(quotaMessage, invalid) && Streams.Distinct(invalid)
    ensures r.Ok? ==> forall sec :: sec in invalid <==> SectionCount(merged, sec) > SECTION_SIZE_LIMIT
    ensures r.Ok? && (forall x :: quotaMessage(x) != "") ==> (r.value == "" <==> AllSectionsWithin(merged))
  {
    var sorted := SortBySectionName(merged);
    if sorted.Fail? {
      return Fail(sorted.failure), [];
    }
    if |merged| >= 2 {
      SortedKeepsSections(merged, sorted.value);
    }
    var found := OversizedSections(sorted.value);
    forall sec ensures SectionCount(sorted.value, sec) == SectionCount(merged, sec) {
      SectionCountPermutation(sorted.value, merged, sec);
    }
    var message := AppendAll(quotaMessage, found);
    r, invalid := Ok(message), found;
    if forall x :: quotaMessage(x) != "" {
      ConcatEmpty(quotaMessage, found);
      if found != [] {
        assert found[0] in found;
        if forall j | 0 <= j < |merged| :: merged[j].section != Some(found[0]) {
          SectionCountAbsent(merged, found[0]);
        }
      }
    }
  }

  // ---------------------------------------------------------------------
  // Teams split over sections

  predicate AllTeams(list: seq<Student>)
  {
    forall i | 0 <= i < |list| :: list[i].team.Some?
  }

  /** Two students of the list are in team `t` but in different sections. */
  ghost predicate Spans(list: seq<Student>, t: string)
  {
    exists x, y | x in list && y in list :: x.team == Some(t) && y.team == Some(t) && x.section != y.section
  }

  /** The student at `k` has the team `t` of its predecessor and a different section. */
  predicate SplitAt(sorted: seq<Student>, k: int, t: string)
    requires 1 <= k < |sorted|
  {
    sorted[k].team == Some(t) && sorted[k - 1].team == Some(t) && sorted[k].section != sorted[k - 1].section
  }

  /** The loop of getTeamInvalidityInfo over the list sorted by team: each team that changes section
      between neighbours, once. Comparing sections dereferences the later student's section. */
  method TeamsOverSections(sorted: seq<Student>) returns (r: Outcome<seq<string>>)
    requires |sorted| >= 2 ==> AllTeams(sorted)
    ensures r.Fail? ==> r.failure == NullPointer
    ensures AllSections(sorted) ==> r.Ok?
    ensures r.Ok? ==> Streams.Distinct(r.value)
    ensures r.Ok? ==> forall t :: t in r.value <==> SplitBefore(sorted, |sorted|, t)
  {
    var invalid: seq<string> := [];
    var i := 1;
    while i < |sorted|
      invariant 1 <= i <= |sorted| || |sorted| == 0
      invariant Streams.Distinct(invalid)
      invariant forall t :: t in invalid <==> SplitBefore(sorted, i, t)
    {
      SplitBeforeStep(sorted, i);
      var current, previous := sorted[i], sorted[i - 1];
      if current.team == previous.team {
        if current.section.None? {
          return Fail(NullPointer);
        }
        if current.section != previous.section && current.team.value !in invalid {
          invalid := invalid + [current.team.value];
        }
      }
      i := i + 1;
    }
    return Ok(invalid);
  }

  ghost predicate SplitBefore(sorted: seq<Student>, i: int, t: string)
  {
    exists k | 1 <= k < i && k < |sorted| :: SplitAt(sorted, k, t)
  }

  lemma SplitBeforeStep(sorted: seq<Student>, i: int)
    requires 1 <= i < |sorted|
    ensures forall t :: SplitBefore(sorted, i + 1, t) <==> SplitBefore(sorted, i, t) || SplitAt(sorted, i, t)
  {
  }

  /** Between two students of team `t` in different sections, the sorted list changes section
      somewhere while staying in team `t`. */
  lemma {:induction false} SplitBetween(sorted: seq<Student>, i: int, j: int, t: string) returns (k: int)
    requires Sorting.SortedBy(sorted, ByTeam) && AllTeams(sorted)
    requires 0 <= i < j < |sorted| && sorted[i].team == Some(t) && sorted[j].team == Some(t)
    requires sorted[i].section != sorted[j].section
    ensures i < k <= j && SplitAt(sorted, k, t)
    decreases j - i
  {
    if i + 1 < j {
      TeamsAreContiguous(sorted, i, i + 1, j);
    }
    if sorted[i + 1].section != sorted[i].section {
      k := i + 1;
    } else {
      k := SplitBetween(sorted, i + 1, j, t);
    }
  }

  /** In a list sorted by team a team changes section between neighbours exactly when it spans
      two sections at all. */
  lemma SplitIffSpans(sorted: seq<Student>, t: string)
    requires Sorting.SortedBy(sorted, ByTeam) && AllTeams(sorted)
    ensures SplitBefore(sorted, |sorted|, t) <==> Spans(sorted, t)
  {
    if SplitBefore(sorted, |sorted|, t) {
      var k :| 1 <= k < |sorted| && SplitAt(sorted, k, t);
      assert sorted[k] in sorted && sorted[k - 1] in sorted;
    }
    if Spans(sorted, t) {
      SpansGivesSplit(sorted, t);
    }
  }

  lemma SpansGivesSplit(sorted: seq<Student>, t: string)
    requires Sorting.SortedBy(sorted, ByTeam) && AllTeams(sorted) && Spans(sorted, t)
    ensures SplitBefore(sorted, |sorted|, t)
  {
    var i, j := SpanningIndices(sorted, t);
    var k;
    if i < j {
      k := SplitBetween(sorted, i, j, t);
    } else {
      k := SplitBetween(sorted, j, i, t);
    }
    assert 1 <= k < |sorted| && SplitAt(sorted, k, t);
  }

  /** Two positions of students of team `t` in different sections. */
  lemma SpanningIndices(list: seq<Student>, t: string) returns (i: int, j: int)
    requires Spans(list, t)
    ensures 0 <= i < |list| && 0 <= j < |list|
    ensures list[i].team == Some(t) && list[j].team == Some(t) && list[i].section != list[j].section
  {
    var x, y :| x in list && y in list && x.team == Some(t) && y.team == Some(t) && x.section != y.section;
    i :| 0 <= i < |list| && list[i] == x;
    j :| 0 <= j < |list| && list[j] == y;
  }

  /** A section sort of two or more students that does not throw saw a section for every student. */
  lemma SectionSortSeesSections(list: seq<Student>)
    requires |list| >= 2 && SortBySectionName(list).Ok?
    ensures AllSections(list)
  {
    forall i | 0 <= i < |list| ensures list[i].section.Some? {
      FirstKeyPresent(list, SectionSortFields, i);
    }
  }

  /** The section sort reads a team only for students of one section, so it can succeed where the
      team sort that follows it throws: a null team alone in its section. */
  lemma TeamSortCanThrowAfterSectionSort(a: Student, b: Student)
    requires a.section.Some? && b.section.Some? && a.section != b.section && a.team.None?
    ensures SortBySectionName([a, b]).Ok? && SortByTeamName([a, b]).Fail?
  {
    LaterKeysReadOnlyOnTies(a, b);
    assert TeamSortFields(a)[..0] == TeamSortFields(b)[..0];
    assert NullKeyAt(TeamSortFields, [a, b][0], [a, b][1], 0);
  }

  /** A successful team sort of two or more students saw no null team. */
  lemma SortedKeepsTeams(merged: seq<Student>, sorted: seq<Student>)
    requires |merged| >= 2 && SortByTeamName(merged) == Ok(sorted)
    ensures AllTeams(sorted)
    ensures forall x :: x in sorted <==> x in merged
  {
    forall x ensures x in sorted <==> x in merged {
      assert x in sorted <==> x in multiset(sorted);
      assert x in merged <==> x in multiset(merged);
    }
    forall i | 0 <= i < |sorted| ensures sorted[i].team.Some? {
      assert sorted[i] in merged;
      var j :| 0 <= j < |merged| && merged[j] == sorted[i];
      FirstKeyPresent(merged, TeamSortFields, j);
    }
  }

  /** The team message: one line per team, then the closing sentence when there is any. */
  function TeamMessage(teamMessage: string -> string, teams: seq<string>): string
  {
    var lines := Concat(teamMessage, teams);
    if lines == "" then "" else lines + TEAM_ERROR_SUFFIX
  }

  /** getTeamInvalidityInfo: sorts the merged list by team and name (which throws when it compares a
      null key), then
      reports each team whose students are in more than one section, once, in team order. */
  method TeamInvalidityInfo(merged: seq<Student>, teamMessage: string -> string)
    returns (r: Outcome<string>, ghost invalid: seq<string>)
    ensures r.Fail? ==> r.failure == NullPointer
    ensures SortByTeamName(merged).Fail? ==> r == Fail(NullPointer)
    ensures SortByTeamName(merged).Ok? && AllSections(merged) ==> r.Ok?
    ensures r.Ok? ==> r.value == TeamMessage(teamMessage, invalid) && Streams.Distinct(invalid)
    ensures r.Ok? ==> forall t :: t in invalid <==> Spans(merged, t)
    ensures r.Ok? && (forall x :: teamMessage(x) != "") ==> (r.value == "" <==> forall t :: !Spans(merged, t))
  {
    var sorted := SortByTeamName(merged);
    if sorted.Fail? {
      return Fail(sorted.failure), [];
    }
    if |merged| >= 2 {
      SortedKeepsTeams(merged, sorted.value);
      if AllSections(merged) {
        forall i | 0 <= i < |sorted.value| ensures sorted.value[i].section.Some? {
          assert sorted.value[i] in merged;
        }
      }
    } else if |merged| == 1 {
      assert multiset(sorted.value) == multiset(merged);
      assert sorted.value == merged by {
        assert sorted.value[0] in multiset(merged);
      }
    }
    var teams := TeamsOverSections(sorted.value);
    if teams.Fail? {
      return Fail(teams.failure), [];
    }
    forall t ensures t in teams.value <==> Spans(merged, t) {
      if |merged| >= 2 {
        SplitIffSpans(sorted.value, t);
      }
    }
    var lines := AppendAll(teamMessage, teams.value);
    var message := if lines != "" then lines + TEAM_ERROR_SUFFIX else lines;
    r, invalid := Ok(message), teams.value;
    if forall x :: teamMessage(x) != "" {
      ConcatEmpty(teamMessage, invalid);
      if invalid != [] {
        assert invalid[0] in invalid;
      }
    }
  }

  // ---------------------------------------------------------------------
  // Enrolment validation

  /** validateSectionsAndTeams: no error for a merged list of fewer than two students; otherwise an
      enrolment error carrying the section and team messages when either is non-empty. */
  method ValidateSectionsAndTeams(list: seq<Student>, inCourse: seq<Student>,
                                  quotaMessage: string -> string, teamMessage: string -> string)
    returns (r: Outcome<()>)
    ensures Merged(list, inCourse).Fail? ==> r == Fail(NullPointer)
    ensures Merged(list, inCourse).Ok? && |Merged(list, inCourse).value| < 2 ==> r == Ok(())
    ensures r.Fail? ==> r.failure == NullPointer || r.failure.EnrollFailure?
    ensures Merged(list, inCourse).Ok? && |Merged(list, inCourse).value| >= 2 ==>
              (r == Fail(NullPointer) <==> SortBySectionName(Merged(list, inCourse).value).Fail?
                                           || SortByTeamName(Merged(list, inCourse).value).Fail?)
    ensures (forall x :: quotaMessage(x) != "") && (forall x :: teamMessage(x) != "")
            && Merged(list, inCourse).Ok? && SortBySectionName(Merged(list, inCourse).value).Ok?
            && SortByTeamName(Merged(list, inCourse).value).Ok?
            ==> (r == Ok(()) <==> (|Merged(list, inCourse).value| < 2
                  || (AllSectionsWithin(Merged(list, inCourse).value)
                      && forall t :: !Spans(Merged(list, inCourse).value, t))))
  {
    var merged := GetMergedList(list, inCourse);
    if merged.Fail? {
      return Fail(merged.failure);
    }
    var m := merged.value;
    if |m| < 2 {
      return Ok(());
    }
    var sections, _ := SectionInvalidityInfo(m, quotaMessage);
    if sections.Fail? {
      return Fail(sections.failure);
    }
    SectionSortSeesSections(m);
    // Java hands the team check the list as the section sort left it; the team sort gives the same
    // order up to students that tie on team and name, and with every section present nothing the
    // team check reports or throws depends on that order. Its own sort can still throw.
    var teams, _ := TeamInvalidityInfo(m, teamMessage);
    if teams.Fail? {
      return Fail(teams.failure);
    }
    var errorMessage := sections.value + teams.value;
    if errorMessage != "" {
      return Fail(EnrollFailure(errorMessage));
    }
    return Ok(());
  }

  /** validateTeams: as validateSectionsAndTeams, with the team message alone. */
  method ValidateTeams(list: seq<Student>, inCourse: seq<Student>, teamMessage: string -> string)
    returns (r: Outcome<()>)
    ensures Merged(list, inCourse).Fail? ==> r == Fail(NullPointer)
    ensures Merged(list, inCourse).Ok? && |Merged(list, inCourse).value| < 2 ==> r == Ok(())
    ensures r.Fail? ==> r.failure == NullPointer || r.failure.EnrollFailure?
    ensures (forall x :: teamMessage(x) != "") && Merged(list, inCourse).Ok?
            && SortByTeamName(Merged(list, inCourse).value).Ok? && AllSections(Merged(list, inCourse).value)
            ==> (r == Ok(()) <==> (|Merged(list, inCourse).value| < 2 || forall t :: !Spans(Merged(list, inCourse).value, t)))
  {
    var merged := GetMergedList(list, inCourse);
    if merged.Fail? {
      return Fail(merged.failure);
    }
    var m := merged.value;
    if |m| < 2 {
      return Ok(());
    }
    var teams, _ := TeamInvalidityInfo(m, teamMessage);
    if teams.Fail? {
      return Fail(teams.failure);
    }
    if |teams.value| > 0 {
      return Fail(EnrollFailure(teams.value));
    }
    return Ok(());
  }

  /** getSectionForTeam over the team's students: the default section for an empty team, otherwise
      the first student's section. */
  function SectionForTeam(teamStudents: seq<Student>): (r: Option<string>)
    ensures |teamStudents| == 0 ==> r == Some(DEFAULT_SECTION)
    ensures |teamStudents| > 0 ==> exists i | 0 <= i < |teamStudents| :: r == teamStudents[i].section
  {
    if |teamStudents| == 0 then Some(DEFAULT_SECTION) else teamStudents[0].section
  }

  /** For a team whose students are all in one section, that section is the team's section. */
  lemma SectionOfUnsplitTeam(teamStudents: seq<Student>, t: string)
    requires forall i | 0 <= i < |teamStudents| :: teamStudents[i].team == Some(t)
    requires !Spans(teamStudents, t)
    ensures forall i | 0 <= i < |teamStudents| :: teamStudents[i].section == SectionForTeam(teamStudents)
  {
    forall i | 0 <= i < |teamStudents| ensures teamStudents[i].section == SectionForTeam(teamStudents) {
      assert teamStudents[i] in teamStudents && teamStudents[0] in teamStudents;
    }
  }

  // ---------------------------------------------------------------------
  // Cascades

  /** The calls into the response and student stores that an update or a deletion makes. */
  datatype Cascade =
    | ResponsesForChangingEmail(course: Option<string>, oldEmail: string, newEmail: Option<string>)
    | ResponsesForChangingTeam(course: Option<string>, email: Option<string>, oldTeam: string, newTeam: string)
    | ResponsesForChangingSection(course: Option<string>, email: Option<string>, oldSection: string, newSection: string)
    | DeleteResponsesInvolving(course: Option<string>, entity: Option<string>)
    | DeleteStudentRecord(course: Option<string>, email: Option<string>)

  /** isTeamChanged and isSectionChanged of StudentsLogic: both values present and different. */
  predicate ValueChanged(original: Option<string>, updated: Option<string>)
  {
    updated.Some? && original.Some? && original != updated
  }

  /** updateStudentCascade, given the stored record before the update (`original`) and the outcome of
      the store's update: the update's failure is passed on; then responses follow an email change,
      a team change and a section change, in that order. */
  function UpdateCascades(original: Option<Student>, updated: Outcome<Student>): (r: Outcome<seq<Cascade>>)
    ensures updated.Fail? ==> r == Fail(updated.failure)
    ensures updated.Ok? ==> (r.Ok? <==> original.Some? && original.value.email.Some?)
    ensures updated.Ok? && r.Fail? ==> r.failure == NullPointer
    ensures r.Ok? ==> |r.value| <= 3 && forall c | c in r.value :: c.course == updated.value.course
    ensures r.Ok? && original.Some? ==>
      ((exists c | c in r.value :: c.ResponsesForChangingEmail?) <==> original.value.email != updated.value.email)
    ensures r.Ok? && original.Some? ==>
      ((exists c | c in r.value :: c.ResponsesForChangingTeam?) <==> ValueChanged(original.value.team, updated.value.team))
    ensures r.Ok? && original.Some? ==>
      ((exists c | c in r.value :: c.ResponsesForChangingSection?) <==> ValueChanged(original.value.section, updated.value.section))
  {
    if updated.Fail? then Fail(updated.failure)
    else if original.None? || original.value.email.None? then Fail(NullPointer)
    else
      var o, u := original.value, updated.value;
      var email := if o.email != u.email then [ResponsesForChangingEmail(u.course, o.email.value, u.email)] else [];
      var team := if ValueChanged(o.team, u.team) then [ResponsesForChangingTeam(u.course, u.email, o.team.value, u.team.value)] else [];
      var section := if ValueChanged(o.section, u.section)
        then [ResponsesForChangingSection(u.course, u.email, o.section.value, u.section.value)] else [];
      Ok(email + team + section)
  }

  /** When the store's update applies the options to the stored record, the cascades follow exactly
      the options that change the email, the team or the section. */
  lemma UpdateCascadesFollowOptions(original: Student, opts: UpdateOptions, lastNameOf: string -> string)
    requires original.email.Some? && original.team.Some? && original.section.Some?
    ensures var r := UpdateCascades(Some(original), Ok(Updated(original, opts, lastNameOf)));
      r.Ok? && (r.value == [] <==>
        ((opts.newEmail.None? || opts.newEmail == original.email)
         && (opts.teamName.None? || opts.teamName == original.team)
         && (opts.sectionName.None? || opts.sectionName == original.section)))
  {
    var r := UpdateCascades(Some(original), Ok(Updated(original, opts, lastNameOf)));
    if r.value != [] {
      assert r.value[0] in r.value;
    }
  }

  /** resetStudentGoogleId: an update that only clears the googleId cascades nothing. */
  lemma ResetGoogleIdCascadesNothing(original: Student, lastNameOf: string -> string)
    requires original.email.Some? && original.team.Some? && original.section.Some?
    ensures var opts := NoUpdates(original.course.GetOr(""), original.email.value).(googleId := Some(None));
      UpdateCascades(Some(original), Ok(Updated(original, opts, lastNameOf))) == Ok([])
  {
    UpdateCascadesFollowOptions(original, NoUpdates(original.course.GetOr(""), original.email.value).(googleId := Some(None)), lastNameOf);
  }

  /** deleteStudentCascade, given the stored student (null when absent) and the size of that student's
      team: nothing for an absent student; otherwise the student's responses, the team's responses
      when the student is the team's only member, and the student record. */
  function DeleteCascades(courseId: Option<string>, studentEmail: Option<string>, student: Option<Student>, teamSize: nat)
    : (r: seq<Cascade>)
    ensures student.None? <==> r == []
    ensures student.Some? ==> r[0] == DeleteResponsesInvolving(courseId, studentEmail)
    ensures student.Some? ==> r[|r| - 1] == DeleteStudentRecord(courseId, studentEmail)
    ensures student.Some? ==> (DeleteResponsesInvolving(student.value.course, student.value.team) in r[1..|r| - 1] <==> teamSize == 1)
  {
    if student.None? then []
    else
      [DeleteResponsesInvolving(courseId, studentEmail)]
        + (if teamSize == 1 then [DeleteResponsesInvolving(student.value.course, student.value.team)] else [])
        + [DeleteStudentRecord(courseId, studentEmail)]
  }
}
