// AccountController: the generation of a demo course id for a new instructor. The
// first proposal is built from the email ("lebron@gmail.com" gives
// "lebron.gma-demo"); while a proposal is taken, the next one appends "0" or
// increments the number after the last "-demo"; every proposal is cut to the
// maximum course-id length.

module AccountController {
  import opened Common
  import opened JavaStrings
  import Streams

  const DEMO: string := "-demo"

  /** FieldValidator.COURSE_ID_MAX_LENGTH. */
  const COURSE_ID_MAX_LENGTH: nat := 40

  /** The parts of a first proposal: the sanitized username and the first three characters
      of the email host. */
  datatype DemoRoot = DemoRoot(head: string, hostAbbreviation: string)
  {
    function Text(): string
    {
      head + "." + hostAbbreviation + DEMO
    }
  }

  /** getDemoCourseIdRoot: split on "@", the username with every character outside the
      course-id pattern replaced by '_', then "." and the host's first three characters, then
      "-demo". Fewer than two pieces, or a host shorter than three characters, is an index
      out of bounds. */
  function DemoCourseIdRoot(email: string): (r: Outcome<DemoRoot>)
    ensures r.Fail? <==> |Split(email, '@')| < 2 || |Split(email, '@')[1]| < 3
    ensures r.Fail? ==> r.failure == IndexOutOfBounds
    ensures '@' !in email ==> r.Fail?
    ensures r.Ok? ==> |r.value.hostAbbreviation| == 3 && '@' !in r.value.Text()
    ensures r.Ok? ==> forall i | 0 <= i < |r.value.head| :: IsCourseIdChar(r.value.head[i]) || r.value.head[i] == '_'
  {
    var emailSplit := Split(email, '@');
    if |emailSplit| < 2 then Fail(IndexOutOfBounds)
    else
      var username := emailSplit[0];
      var host := emailSplit[1];
      if |host| < 3 then Fail(IndexOutOfBounds)
      else
        SplitExclude(email, '@');
        var head := ReplaceIllegalChars(username, '_');
        assert '@' !in head by {
          assert forall i | 0 <= i < |head| :: head[i] != '@';
        }
        Ok(DemoRoot(head, host[..3]))
  }

  /** An email of the form user@host, the host at least three characters long, gives the
      sanitized user, ".", the host's first three characters and "-demo". */
  lemma DemoCourseIdRootOfEmail(user: string, host: string)
    requires '@' !in user && '@' !in host && |host| >= 3
    ensures DemoCourseIdRoot(user + "@" + host) == Ok(DemoRoot(ReplaceIllegalChars(user, '_'), host[..3]))
    ensures DemoCourseIdRoot(user + "@" + host).value.Text()
            == ReplaceIllegalChars(user, '_') + "." + host[..3] + DEMO
  {
    SplitAround(user, '@', host);
  }

  /** generateNextDemoCourseId: an input containing "@" gives its root; one ending in "-demo"
      gets "0" appended; otherwise the (32-bit) number after the last "-demo" is incremented.
      Every result is cut by truncateHead, which keeps its last `max` characters. No "-demo"
      at all is an index out of bounds, a suffix that is not an int a number format
      failure. */
  function GenerateNextDemoCourseId(s: string, max: nat): (r: Outcome<string>)
    ensures r.Ok? ==> |r.value| <= max
    ensures r.Fail? ==> r.failure == IndexOutOfBounds || r.failure == NumberFormat
    ensures '@' !in s && EndsWith(s, DEMO) ==> r.Ok? && EndsWith(s + "0", r.value)
  {
    if '@' in s then
      var root := DemoCourseIdRoot(s);
      if root.Fail? then Fail(root.failure) else Ok(TruncateHead(root.value.Text(), max))
    else if EndsWith(s, DEMO) then
      Ok(TruncateHead(s + "0", max))
    else
      var previous := DemoSuffix(s);
      if previous.Fail? then Fail(previous.failure)
      else Ok(TruncateHead(previous.value.root + DEMO + IntToString(Int32Add(previous.value.suffix, 1)), max))
  }

  /** A proposal split at its last "-demo" into the root before it and the number after it. */
  datatype DemoNumbered = DemoNumbered(root: string, suffix: int)

  /** The split of generateNextDemoCourseId's last branch: no "-demo" at all is an index out of
      bounds, a text after the last one that is not an int a number format failure. */
  function DemoSuffix(s: string): (r: Outcome<DemoNumbered>)
    ensures r.Fail? ==> r.failure == IndexOutOfBounds || r.failure == NumberFormat
    ensures r.Ok? ==> IsInt32(r.value.suffix)
  {
    var lastIndexOfDemo := LastIndexOf(s, DEMO);
    if lastIndexOfDemo < 0 then Fail(IndexOutOfBounds)
    else
      var previousDedupSuffix := ParseInt(s[lastIndexOfDemo + 5..]);
      if previousDedupSuffix.None? then Fail(NumberFormat)
      else Ok(DemoNumbered(s[..lastIndexOfDemo], previousDedupSuffix.value))
  }

  /** In "root-demo<digits>", "-demo" occurs last where the root ends. */
  lemma LastDemoAfterRoot(root: string, d: string)
    requires AllDigits(d) && |d| >= 1
    ensures LastIndexOf(root + DEMO + d, DEMO) == |root|
  {
    var s := root + DEMO + d;
    assert s[|root|..|root| + 5] == DEMO;
    assert OccursAt(s, DEMO, |root|);
    forall j | |root| < j <= |s| - 5
      ensures !OccursAt(s, DEMO, j)
    {
      assert s[j + 4] == d[j - |root| - 1];
      assert IsDigit(d[j - |root| - 1]);
    }
  }

  /** A proposal "root-demo<n>" (no "@" in the root, n a non-negative int) is read back as
      its root and n. */
  lemma SuffixParts(root: string, n: int)
    requires '@' !in root && 0 <= n <= INT_MAX
    ensures var s := root + DEMO + IntToString(n);
            '@' !in s && !EndsWith(s, DEMO) && LastIndexOf(s, DEMO) == |root|
            && s[..|root|] == root && ParseInt(s[|root| + 5..]) == Some(n)
  {
    var d := IntToString(n);
    assert d == NatToString(n);
    var s := root + DEMO + d;
    assert '@' !in d by {
      assert forall i | 0 <= i < |d| :: IsDigit(d[i]);
    }
    assert s[|s| - 1] == d[|d| - 1];
    LastDemoAfterRoot(root, d);
    assert s[..|root|] == root;
    assert s[|root| + 5..] == d;
    ParseIntToString(n);
  }

  /** "root-demo<n>" is split back into its root and n. */
  lemma DemoSuffixOf(root: string, n: int)
    requires '@' !in root && 0 <= n <= INT_MAX
    ensures var s := root + DEMO + IntToString(n);
            '@' !in s && !EndsWith(s, DEMO) && DemoSuffix(s) == Ok(DemoNumbered(root, n))
  {
    SuffixParts(root, n);
  }

  /** The proposals after a taken root: "root-demo" gives "root-demo0", and "root-demo<n>"
      gives "root-demo<n+1>", each cut to `max` characters. */
  lemma NextDemoCourseIds(root: string, n: int, max: nat)
    requires '@' !in root && 0 <= n < INT_MAX
    ensures GenerateNextDemoCourseId(root + DEMO, max) == Ok(TruncateHead(root + DEMO + "0", max))
    ensures GenerateNextDemoCourseId(root + DEMO + IntToString(n), max)
            == Ok(TruncateHead(root + DEMO + IntToString(n + 1), max))
  {
    assert '@' !in root + DEMO by {
      assert forall i | 0 <= i < |root + DEMO| :: (root + DEMO)[i] != '@' by {
        forall i | 0 <= i < |root + DEMO| ensures (root + DEMO)[i] != '@' {
          if i < |root| {
            assert (root + DEMO)[i] == root[i];
          } else {
            assert (root + DEMO)[i] == DEMO[i - |root|];
          }
        }
      }
    }
    assert EndsWith(root + DEMO, DEMO) by {
      assert (root + DEMO)[|root|..] == DEMO;
    }
    DemoSuffixOf(root, n);
    assert Int32Add(n, 1) == n + 1;
  }

  // ---------------------------------------------------------------------
  // The cut the comments describe: the username is shortened from its end.

  /** `head` shortened from its end so that head + tail fits in `max`; when the tail alone is
      longer than `max`, the last `max` characters. */
  function CutHead(head: string, tail: string, max: nat): (r: string)
    ensures |r| <= max
    ensures |head| + |tail| <= max ==> r == head + tail
    ensures |tail| <= max ==> |r| == Min(|head| + |tail|, max)
                              && r == head[..|r| - |tail|] + tail
  {
    if |head| + |tail| <= max then head + tail
    else if |tail| <= max then head[..max - |tail|] + tail
    else TruncateHead(head + tail, max)
  }

  function Min(a: int, b: int): int
  {
    if a <= b then a else b
  }

  /** A proposal "root-demo<suffix>" with the username part of the root (all but its last
      four characters, "." and the host abbreviation) shortened from its end. */
  function ShortenedId(root: string, suffix: string, max: nat): (r: string)
    ensures |r| <= max
    ensures |root| + 5 + |suffix| <= max ==> r == root + DEMO + suffix
  {
    var k := if |root| >= 4 then |root| - 4 else 0;
    assert root[..k] + (root[k..] + DEMO + suffix) == root + DEMO + suffix;
    CutHead(root[..k], root[k..] + DEMO + suffix, max)
  }

  /** generateNextDemoCourseId as its comments describe it: the same proposals, but a
      proposal too long is shortened by removing the last characters of the username. */
  function GenerateNextDemoCourseIdIntended(s: string, max: nat): (r: Outcome<string>)
    ensures r.Ok? ==> |r.value| <= max
    ensures r.Fail? <==> GenerateNextDemoCourseId(s, max).Fail?
    ensures r.Fail? ==> r == GenerateNextDemoCourseId(s, max)
  {
    if '@' in s then
      var root := DemoCourseIdRoot(s);
      if root.Fail? then Fail(root.failure)
      else Ok(CutHead(root.value.head, "." + root.value.hostAbbreviation + DEMO, max))
    else if EndsWith(s, DEMO) then
      Ok(ShortenedId(s[..|s| - 5], "0", max))
    else
      var previous := DemoSuffix(s);
      if previous.Fail? then Fail(previous.failure)
      else Ok(ShortenedId(previous.value.root, IntToString(Int32Add(previous.value.suffix, 1)), max))
  }

  /** Both versions agree whenever the id as written is shorter than the maximum, that is
      whenever truncateHead cut nothing. */
  lemma IntendedAgreesWhenShort(s: string, max: nat)
    requires GenerateNextDemoCourseId(s, max).Ok? && |GenerateNextDemoCourseId(s, max).value| < max
    ensures GenerateNextDemoCourseIdIntended(s, max) == GenerateNextDemoCourseId(s, max)
  {
    if '@' in s {
      EmailAgrees(s, max);
    } else if EndsWith(s, DEMO) {
      FirstDuplicateAgrees(s, max);
    } else {
      SuffixAgrees(s, max);
    }
  }

  lemma EmailAgrees(s: string, max: nat)
    requires '@' in s && GenerateNextDemoCourseId(s, max).Ok? && |GenerateNextDemoCourseId(s, max).value| < max
    ensures GenerateNextDemoCourseIdIntended(s, max) == GenerateNextDemoCourseId(s, max)
  {
    var root := DemoCourseIdRoot(s).value;
    var tail := "." + root.hostAbbreviation + DEMO;
    assert root.Text() == root.head + tail;
    assert GenerateNextDemoCourseId(s, max) == Ok(TruncateHead(root.Text(), max));
    assert |root.Text()| <= max;
    assert GenerateNextDemoCourseIdIntended(s, max) == Ok(CutHead(root.head, tail, max));
  }

  lemma SuffixAgrees(s: string, max: nat)
    requires '@' !in s && !EndsWith(s, DEMO)
    requires GenerateNextDemoCourseId(s, max).Ok? && |GenerateNextDemoCourseId(s, max).value| < max
    ensures GenerateNextDemoCourseIdIntended(s, max) == GenerateNextDemoCourseId(s, max)
  {
    var previous := DemoSuffix(s).value;
    ShortenedAgrees(previous.root, IntToString(Int32Add(previous.suffix, 1)), max);
  }

  lemma FirstDuplicateAgrees(s: string, max: nat)
    requires '@' !in s && EndsWith(s, DEMO)
    requires GenerateNextDemoCourseId(s, max).Ok? && |GenerateNextDemoCourseId(s, max).value| < max
    ensures GenerateNextDemoCourseIdIntended(s, max) == GenerateNextDemoCourseId(s, max)
  {
    assert s[..|s| - 5] + s[|s| - 5..] == s;
    assert s[..|s| - 5] + DEMO + "0" == s + "0";
  }

  lemma ShortenedAgrees(root: string, suffix: string, max: nat)
    requires |TruncateHead(root + DEMO + suffix, max)| < max
    ensures ShortenedId(root, suffix, max) == TruncateHead(root + DEMO + suffix, max)
  {
  }

  /** As written, a proposal one character too long loses the first character of its root. */
  lemma TruncateHeadDropsRootFront(root: string, n: int, max: nat)
    requires '@' !in root && 0 <= n < INT_MAX && |root| >= 1
    requires |root| + 5 + |IntToString(n + 1)| == max + 1
    ensures GenerateNextDemoCourseId(root + DEMO + IntToString(n), max)
            == Ok(root[1..] + DEMO + IntToString(n + 1))
  {
    NextDemoCourseIds(root, n, max);
    DropFirst(root, IntToString(n + 1), max);
  }

  /** Cutting a proposal one character too long drops the first character of its root. */
  lemma DropFirst(root: string, suffix: string, max: nat)
    requires |root| >= 1 && |root| + 5 + |suffix| == max + 1
    ensures TruncateHead(root + DEMO + suffix, max) == root[1..] + DEMO + suffix
  {
    assert (root + DEMO + suffix)[1..] == root[1..] + DEMO + suffix;
  }

  /** As intended, the same proposal loses the last character of the username, the part of
      the root before its last four characters. */
  lemma IntendedDropsUsernameEnd(root: string, n: int, max: nat)
    requires '@' !in root && 0 <= n < INT_MAX && |root| >= 5
    requires |root| + 5 + |IntToString(n + 1)| == max + 1
    ensures GenerateNextDemoCourseIdIntended(root + DEMO + IntToString(n), max)
            == Ok(root[..|root| - 5] + root[|root| - 4..] + DEMO + IntToString(n + 1))
  {
    DemoSuffixOf(root, n);
    var s := root + DEMO + IntToString(n);
    var suffix := IntToString(n + 1);
    assert Int32Add(n, 1) == n + 1;
    assert GenerateNextDemoCourseIdIntended(s, max) == Ok(ShortenedId(root, suffix, max));
    var k := |root| - 4;
    assert ShortenedId(root, suffix, max) == CutHead(root[..k], root[k..] + DEMO + suffix, max);
    assert root[..k][..max - |root[k..] + DEMO + suffix|] == root[..|root| - 5];
    assert root[..|root| - 5] + (root[k..] + DEMO + suffix) == root[..|root| - 5] + root[k..] + DEMO + suffix;
  }

  const EXAMPLE_USER: string := "012345678901234567890123456789"
  const EXAMPLE_ROOT: string := EXAMPLE_USER + ".gma"

  /** The facts about the documented example's texts that the two lemmas below use. */
  lemma ExampleTexts()
    ensures IntToString(9) == "9" && IntToString(10) == "10"
    ensures '@' !in EXAMPLE_ROOT && |EXAMPLE_ROOT| == 34 && |IntToString(10)| == 2
    ensures EXAMPLE_ROOT[1..] == EXAMPLE_USER[1..] + ".gma"
    ensures EXAMPLE_ROOT[..29] == EXAMPLE_USER[..29] && EXAMPLE_ROOT[30..] == ".gma"
    ensures EXAMPLE_USER[1..] + ".gma" + DEMO + "10" != EXAMPLE_USER[..29] + ".gma" + DEMO + "10"
  {
    assert IntToString(9) == "9";
    assert IntToString(10) == "10";
    assert EXAMPLE_USER[1] != EXAMPLE_USER[0];
    assert (EXAMPLE_USER[1..] + ".gma" + DEMO + "10")[0] == EXAMPLE_USER[1];
    assert (EXAMPLE_USER[..29] + ".gma" + DEMO + "10")[0] == EXAMPLE_USER[0];
  }

  /** The documented example "012345678901234567890123456789.gma-demo9": as written, the next
      proposal loses the username's first character, and is not the documented
      "01234567890123456789012345678.gma-demo10". */
  lemma DocumentedExampleAsWritten(id: string)
    requires id == EXAMPLE_ROOT + DEMO + "9"
    ensures GenerateNextDemoCourseId(id, COURSE_ID_MAX_LENGTH) == Ok(EXAMPLE_USER[1..] + ".gma" + DEMO + "10")
    ensures GenerateNextDemoCourseId(id, COURSE_ID_MAX_LENGTH) != Ok(EXAMPLE_USER[..29] + ".gma" + DEMO + "10")
  {
    ExampleTexts();
    TruncateHeadDropsRootFront(EXAMPLE_ROOT, 9, COURSE_ID_MAX_LENGTH);
  }

  /** As intended, the documented example gives the documented next proposal. */
  lemma DocumentedExampleIntended(id: string)
    requires id == EXAMPLE_ROOT + DEMO + "9"
    ensures GenerateNextDemoCourseIdIntended(id, COURSE_ID_MAX_LENGTH) == Ok(EXAMPLE_USER[..29] + ".gma" + DEMO + "10")
  {
    ExampleTexts();
    IntendedDropsUsernameEnd(EXAMPLE_ROOT, 9, COURSE_ID_MAX_LENGTH);
  }

  // ---------------------------------------------------------------------
  // generateDemoCourseId

  /** The k-th of the proposals that start at `first` and go on by `next`; a failure ends
      the sequence. */
  function Iterate(first: Outcome<string>, next: string -> Outcome<string>, k: nat): Outcome<string>
  {
    if k == 0 then first
    else
      var prev := Iterate(first, next, k - 1);
      if prev.Fail? then prev else next(prev.value)
  }

  /** generateNextDemoCourseId with the course-id maximum, as the loop calls it. */
  function NextProposal(s: string): (r: Outcome<string>)
    ensures r.Ok? ==> |r.value| <= COURSE_ID_MAX_LENGTH
  {
    GenerateNextDemoCourseIdIntended(s, COURSE_ID_MAX_LENGTH)
  }

  /** Every proposal for an email fits the course-id maximum. */
  lemma {:induction false} ProposalLength(email: string, k: nat)
    ensures Iterate(NextProposal(email), NextProposal, k).Ok? ==> |Iterate(NextProposal(email), NextProposal, k).value| <= COURSE_ID_MAX_LENGTH
  {
    if k > 0 {
      ProposalLength(email, k - 1);
    }
  }

  /** Distinct existing ids are no more than the existing ids. */
  lemma DistinctWithin(ids: seq<string>, existing: set<string>)
    requires Streams.Distinct(ids) && forall j | 0 <= j < |ids| :: ids[j] in existing
    ensures |ids| <= |existing|
  {
    Streams.DistinctCard(ids);
    var found := set x | x in ids;
    assert found <= existing;
    assert existing == found + (existing - found);
  }

  /** `ids` are the first proposals, every one of them taken. */
  ghost predicate TakenTrail(first: Outcome<string>, next: string -> Outcome<string>, existing: set<string>, ids: seq<string>)
  {
    forall j | 0 <= j < |ids| :: Iterate(first, next, j) == Ok(ids[j]) && ids[j] in existing
  }

  lemma TakenTrailStep(first: Outcome<string>, next: string -> Outcome<string>, existing: set<string>,
                       ids: seq<string>, p: string)
    requires TakenTrail(first, next, existing, ids)
    requires Iterate(first, next, |ids|) == Ok(p) && p in existing
    ensures TakenTrail(first, next, existing, ids + [p])
    ensures Iterate(first, next, |ids| + 1) == next(p)
  {
  }

  /** How the loop ends: an id not taken, a failure thrown by a proposal, or a proposal seen
      before, from which the proposals repeat and the loop would never end. */
  datatype DemoId = Found(id: string) | Thrown(failure: Failure) | Loops

  /** The while loop of generateDemoCourseId, for any first proposal and step: proposals
      until one is not taken. The ids already proposed are remembered so that a repeating
      sequence of proposals is reported instead of looping. */
  method ProposeUntilFree(first: Outcome<string>, next: string -> Outcome<string>, existing: set<string>)
    returns (r: DemoId, ghost steps: nat)
    ensures forall j | 0 <= j < steps :: Iterate(first, next, j).Ok? && Iterate(first, next, j).value in existing
    ensures r.Found? ==> Iterate(first, next, steps) == Ok(r.id) && r.id !in existing
    ensures r.Thrown? ==> Iterate(first, next, steps) == Fail(r.failure)
    ensures r.Loops? ==> exists j :: 0 <= j < steps && Iterate(first, next, j) == Iterate(first, next, steps)
  {
    var proposedCourseId := first;
    var proposed: seq<string> := [];
    while proposedCourseId.Ok? && proposedCourseId.value in existing
      invariant proposedCourseId == Iterate(first, next, |proposed|)
      invariant TakenTrail(first, next, existing, proposed)
      invariant Streams.Distinct(proposed) && |proposed| <= |existing|
      decreases |existing| - |proposed|
    {
      var p := proposedCourseId.value;
      if p in proposed {
        ghost var j :| 0 <= j < |proposed| && proposed[j] == p;
        return Loops, |proposed|;
      }
      Streams.DistinctSnoc(proposed, p);
      TakenTrailStep(first, next, existing, proposed, p);
      proposed := proposed + [p];
      DistinctWithin(proposed, existing);
      proposedCourseId := next(p);
    }
    steps := |proposed|;
    if proposedCourseId.Fail? {
      return Thrown(proposedCourseId.failure), steps;
    }
    r := Found(proposedCourseId.value);
  }

  /** generateDemoCourseId, with getCourse given as the set of existing course ids: the first
      proposal not taken, of at most COURSE_ID_MAX_LENGTH characters; a failure of a proposal
      is thrown; a repeating sequence of taken proposals is reported. */
  method GenerateDemoCourseId(email: string, existing: set<string>) returns (r: DemoId, ghost steps: nat)
    ensures forall j | 0 <= j < steps :: Iterate(NextProposal(email), NextProposal, j).Ok?
                                        && Iterate(NextProposal(email), NextProposal, j).value in existing
    ensures r.Found? ==> Iterate(NextProposal(email), NextProposal, steps) == Ok(r.id)
                         && r.id !in existing && |r.id| <= COURSE_ID_MAX_LENGTH
    ensures r.Thrown? ==> Iterate(NextProposal(email), NextProposal, steps) == Fail(r.failure)
    ensures r.Loops? ==> exists j :: 0 <= j < steps
                                     && Iterate(NextProposal(email), NextProposal, j) == Iterate(NextProposal(email), NextProposal, steps)
  {
    var proposedCourseId := NextProposal(email);
    r, steps := ProposeUntilFree(proposedCourseId, NextProposal, existing);
    ProposalLength(email, steps);
  }
}
