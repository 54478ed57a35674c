// contribution-question-statistics-calculation.ts: the statistics shown for a
// contribution question. A student sees the first entry of the server's
// statistics; an instructor sees, for every recipient of a response, the
// recipient's team and name and the difference between the contribution the
// team perceived and the one the recipient claimed.

module ContributionStatistics {
  import opened Common

  /** A plain JavaScript object used as a dictionary: its own keys in insertion order and the
      value at each. */
  datatype JsRecord<V> = JsRecord(keys: seq<string>, values: map<string, V>)

  /** A record whose key list is the value map's domain, each key once. */
  predicate WellFormed<V>(r: JsRecord<V>)
  {
    (forall i, j | 0 <= i < j < |r.keys| :: r.keys[i] != r.keys[j])
    && r.values.Keys == set k | k in r.keys
  }

  function Empty<V>(): (r: JsRecord<V>)
    ensures WellFormed(r) && |r.keys| == 0
  {
    JsRecord([], map[])
  }

  /** record[key], undefined (None) for a key the record does not have. */
  function Get<V>(r: JsRecord<V>, key: string): Option<V>
  {
    if key in r.values then Some(r.values[key]) else None
  }

  /** record[key] = value: a new key goes to the end of the key order. */
  function Put<V>(r: JsRecord<V>, key: string, value: V): (s: JsRecord<V>)
    ensures WellFormed(r) ==> WellFormed(s)
    ensures forall k :: Get(s, k) == if k == key then Some(value) else Get(r, k)
    ensures s.keys == if key in r.values then r.keys else r.keys + [key]
  {
    JsRecord(if key in r.values then r.keys else r.keys + [key], r.values[key := value])
  }

  /** The values at `keys`, in that order, skipping a key without one. */
  function ValuesAt<V>(keys: seq<string>, values: map<string, V>): seq<V>
  {
    if |keys| == 0 then []
    else (if keys[0] in values then [values[keys[0]]] else []) + ValuesAt(keys[1..], values)
  }

  /** Object.values: the values in key order. */
  function Values<V>(r: JsRecord<V>): seq<V>
  {
    ValuesAt(r.keys, r.values)
  }

  /** ContributionStatisticsEntry. */
  datatype Entry = Entry(claimed: int, perceived: int, claimedOthers: seq<int>, perceivedOthers: seq<int>)

  /** ContributionStatistics: the entries by recipient email. */
  datatype Statistics = Statistics(results: JsRecord<Entry>)

  /** The entry a student sees when the statistics hold none. */
  const DEFAULT_ENTRY: Entry := Entry(0, 0, [], [])

  /** The parts of a response the calculation reads; a missing value is None. */
  datatype StatsResponse = StatsResponse(recipientEmail: Option<string>, recipientTeam: Option<string>,
                                         recipient: Option<string>)

  /** JavaScript truthiness of a text that may be undefined. */
  predicate Truthy(s: Option<string>)
  {
    s.Some? && s.value != ""
  }

  /** Whether the record holds a truthy value at the key. */
  predicate TruthyAt(r: JsRecord<Option<string>>, key: string)
  {
    key in r.values && Truthy(r.values[key])
  }

  function TeamOf(response: StatsResponse): Option<string> { response.recipientTeam }
  function NameOf(response: StatsResponse): Option<string> { response.recipient }

  /** The record the response loop builds with `pick`: a response with a truthy recipient email
      sets the value at that email unless a truthy value is already there. */
  function Recorded(responses: seq<StatsResponse>, pick: StatsResponse -> Option<string>): (r: JsRecord<Option<string>>)
    ensures WellFormed(r)
  {
    if |responses| == 0 then Empty()
    else
      var prev := Recorded(responses[..|responses| - 1], pick);
      var response := responses[|responses| - 1];
      if !Truthy(response.recipientEmail) then prev
      else if TruthyAt(prev, response.recipientEmail.value) then prev
      else Put(prev, response.recipientEmail.value, pick(response))
  }

  /** The emails recorded are exactly the truthy recipient emails of the responses. */
  lemma {:induction false} RecordedKeys(responses: seq<StatsResponse>, pick: StatsResponse -> Option<string>, e: string)
    ensures e in Recorded(responses, pick).values <==>
              exists i | 0 <= i < |responses| :: responses[i].recipientEmail == Some(e) && e != ""
  {
    if |responses| > 0 {
      var init := responses[..|responses| - 1];
      RecordedKeys(init, pick, e);
      assert forall i | 0 <= i < |init| :: init[i] == responses[i];
      if exists i | 0 <= i < |responses| :: responses[i].recipientEmail == Some(e) && e != "" {
        var i :| 0 <= i < |responses| && responses[i].recipientEmail == Some(e) && e != "";
        if i < |init| {
          assert init[i].recipientEmail == Some(e);
        }
      }
    }
  }

  /** While no response for an email has a truthy value, the record holds no truthy value there. */
  lemma {:induction false} NoTruthyYet(responses: seq<StatsResponse>, pick: StatsResponse -> Option<string>, e: string)
    requires forall j | 0 <= j < |responses| :: responses[j].recipientEmail == Some(e) ==> !Truthy(pick(responses[j]))
    ensures !TruthyAt(Recorded(responses, pick), e)
  {
    if |responses| > 0 {
      var init := responses[..|responses| - 1];
      assert forall j | 0 <= j < |init| :: init[j] == responses[j];
      NoTruthyYet(init, pick, e);
    }
  }

  /** The first truthy value given for an email is the one kept. */
  lemma {:induction false} FirstTruthyKept(responses: seq<StatsResponse>, pick: StatsResponse -> Option<string>, i: int)
    requires 0 <= i < |responses| && Truthy(responses[i].recipientEmail) && Truthy(pick(responses[i]))
    requires forall j | 0 <= j < i :: responses[j].recipientEmail == responses[i].recipientEmail ==> !Truthy(pick(responses[j]))
    ensures Get(Recorded(responses, pick), responses[i].recipientEmail.value) == Some(pick(responses[i]))
  {
    var init := responses[..|responses| - 1];
    var e := responses[i].recipientEmail.value;
    assert forall j | 0 <= j < |init| :: init[j] == responses[j];
    if i == |responses| - 1 {
      NoTruthyYet(init, pick, e);
    } else {
      FirstTruthyKept(init, pick, i);
    }
  }

  /** The number shown for one recipient: perceived minus claimed, or the not-submitted marker
      when either is negative. */
  function DiffOf(entry: Entry, notSubmitted: int): int
  {
    if entry.claimed < 0 || entry.perceived < 0 then notSubmitted else entry.perceived - entry.claimed
  }

  /** The state of the difference loop: the record so far, and whether an email without an
      entry made the destructuring throw. */
  datatype DiffRun = DiffRun(diff: JsRecord<int>, failed: bool)

  /** The difference loop over `emails`, starting from the record `diff`. */
  function DiffsFor(diff: JsRecord<int>, emails: seq<string>, results: JsRecord<Entry>, notSubmitted: int): DiffRun
  {
    if |emails| == 0 then DiffRun(diff, false)
    else
      var prev := DiffsFor(diff, emails[..|emails| - 1], results, notSubmitted);
      var email := emails[|emails| - 1];
      if prev.failed then prev
      else
        match Get(results, email)
        case None => DiffRun(prev.diff, true)
        case Some(entry) => DiffRun(Put(prev.diff, email, DiffOf(entry, notSubmitted)), false)
  }

  /** The loop throws exactly when some email has no entry. */
  lemma {:induction false} DiffsFailExactly(diff: JsRecord<int>, emails: seq<string>, results: JsRecord<Entry>,
                                            notSubmitted: int)
    ensures DiffsFor(diff, emails, results, notSubmitted).failed <==>
              exists i | 0 <= i < |emails| :: emails[i] !in results.values
  {
    if |emails| > 0 {
      var init := emails[..|emails| - 1];
      var last := emails[|emails| - 1];
      DiffsFailExactly(diff, init, results, notSubmitted);
      if DiffsFor(diff, emails, results, notSubmitted).failed {
        if !DiffsFor(diff, init, results, notSubmitted).failed {
          assert last !in results.values;
        } else {
          var i :| 0 <= i < |init| && init[i] !in results.values;
          assert emails[i] == init[i];
        }
      } else {
        forall i | 0 <= i < |emails| ensures emails[i] in results.values {
          if i < |init| {
            assert emails[i] == init[i];
          }
        }
      }
    }
  }

  /** A loop that does not throw leaves each email's difference as its entry says, and every
      other key of the record as it was: the record is not cleared between calculations. */
  lemma {:induction false} DiffsAsEntries(diff: JsRecord<int>, emails: seq<string>, results: JsRecord<Entry>,
                                          notSubmitted: int, k: string)
    requires !DiffsFor(diff, emails, results, notSubmitted).failed
    ensures var d := DiffsFor(diff, emails, results, notSubmitted).diff;
            (k in emails ==> k in results.values && Get(d, k) == Some(DiffOf(results.values[k], notSubmitted)))
            && (k !in emails ==> Get(d, k) == Get(diff, k))
  {
    if |emails| > 0 {
      var init := emails[..|emails| - 1];
      DiffsAsEntries(diff, init, results, notSubmitted, k);
      assert emails == init + [emails[|emails| - 1]];
    }
  }

  /** What a student sees: the first entry in key order, or the all-zero default. */
  function StudentEntry(results: JsRecord<Entry>): Entry
  {
    var values := Values(results);
    if |values| > 0 then values[0] else DEFAULT_ENTRY
  }

  /** The first key's entry when there is one, the default when there are no entries. */
  lemma StudentEntryFirst(results: JsRecord<Entry>)
    requires WellFormed(results)
    ensures |results.keys| > 0 ==> StudentEntry(results) == results.values[results.keys[0]]
    ensures |results.keys| == 0 ==> StudentEntry(results) == DEFAULT_ENTRY
  {
    assert |results.keys| > 0 ==> results.keys[0] in results.values;
  }

  /** The calculation's inputs (the statistics text and the parsed statistics, the viewer, the
      responses) and the records it fills. */
  class ContributionQuestionStatisticsCalculation {
    var statistics: string
    var isStudent: bool
    var responses: seq<StatsResponse>

    var emailToTeamName: JsRecord<Option<string>>
    var emailToName: JsRecord<Option<string>>
    var emailToDiff: JsRecord<int>
    var questionOverallStatistics: Option<Statistics>
    var questionStatisticsForStudent: Option<Entry>

    /** A fresh calculation: empty statistics and records, neither result set. */
    constructor (isStudent: bool, responses: seq<StatsResponse>)
      ensures statistics == "" && this.isStudent == isStudent && this.responses == responses
      ensures emailToTeamName == Empty() && emailToName == Empty() && emailToDiff == Empty()
      ensures questionOverallStatistics.None? && questionStatisticsForStudent.None?
    {
      statistics := "";
      this.isStudent := isStudent;
      this.responses := responses;
      emailToTeamName, emailToName, emailToDiff := Empty(), Empty(), Empty();
      questionOverallStatistics, questionStatisticsForStudent := None, None;
    }

    /** parseStatistics, `parsed` standing for JSON.parse(statistics) and `notSubmitted` for
        CONTRIBUTION_POINT_NOT_SUBMITTED. The team and name records and both results are reset;
        with statistics, a student gets the first entry and an instructor the records, the whole
        statistics and the differences, an email without an entry throwing a TypeError. */
    method ParseStatistics(parsed: Statistics, notSubmitted: int) returns (r: Outcome<()>)
      modifies this`emailToTeamName, this`emailToName, this`emailToDiff,
               this`questionOverallStatistics, this`questionStatisticsForStudent
      ensures statistics == "" || isStudent ==>
                r.Ok? && emailToTeamName == Empty() && emailToName == Empty() && emailToDiff == old(emailToDiff)
                && questionOverallStatistics == Some(Statistics(Empty()))
      ensures questionStatisticsForStudent ==
                Some(if statistics != "" && isStudent then StudentEntry(parsed.results) else DEFAULT_ENTRY)
      ensures statistics != "" && !isStudent ==>
                emailToTeamName == Recorded(responses, TeamOf) && emailToName == Recorded(responses, NameOf)
                && questionOverallStatistics == Some(parsed)
                && var run := DiffsFor(old(emailToDiff), emailToName.keys, parsed.results, notSubmitted);
                   emailToDiff == run.diff && (r.Ok? <==> !run.failed) && (r.Fail? ==> r.failure == TypeError)
    {
      var teamNames, names, diff := Empty(), Empty(), emailToDiff;
      var overall, forStudent := Some(Statistics(Empty())), Some(DEFAULT_ENTRY);
      r := Ok(());
      if statistics != "" {
        if isStudent {
          var results := Values(parsed.results);
          if |results| > 0 {
            forStudent := Some(results[0]);
          }
        } else {
          teamNames, names := RecordRecipients(responses);
          overall := Some(parsed);
          diff, r := RecordDiffs(diff, names.keys, parsed.results, notSubmitted);
        }
      }
      emailToTeamName, emailToName, emailToDiff := teamNames, names, diff;
      questionOverallStatistics, questionStatisticsForStudent := overall, forStudent;
    }
  }

  /** The response loop: each response with a truthy recipient email records the recipient's
      team and name unless a truthy one is already recorded. */
  method RecordRecipients(responses: seq<StatsResponse>)
    returns (emailToTeamName: JsRecord<Option<string>>, emailToName: JsRecord<Option<string>>)
    ensures emailToTeamName == Recorded(responses, TeamOf) && emailToName == Recorded(responses, NameOf)
  {
    emailToTeamName, emailToName := Empty(), Empty();
    for i := 0 to |responses|
      invariant emailToTeamName == Recorded(responses[..i], TeamOf)
      invariant emailToName == Recorded(responses[..i], NameOf)
    {
      var response := responses[i];
      assert responses[..i + 1][..i] == responses[..i];
      if !Truthy(response.recipientEmail) {
        continue;
      }
      if !TruthyAt(emailToTeamName, response.recipientEmail.value) {
        emailToTeamName := Put(emailToTeamName, response.recipientEmail.value, response.recipientTeam);
      }
      if !TruthyAt(emailToName, response.recipientEmail.value) {
        emailToName := Put(emailToName, response.recipientEmail.value, response.recipient);
      }
    }
    assert responses[..|responses|] == responses;
  }

  /** The difference loop over the recorded names' emails, in key order, writing into the
      differences `initial`; an email without an entry throws a TypeError, leaving the
      differences set before it. */
  method RecordDiffs(initial: JsRecord<int>, emails: seq<string>, results: JsRecord<Entry>, notSubmitted: int)
    returns (emailToDiff: JsRecord<int>, r: Outcome<()>)
    ensures var run := DiffsFor(initial, emails, results, notSubmitted);
            emailToDiff == run.diff && (r.Ok? <==> !run.failed) && (r.Fail? ==> r.failure == TypeError)
  {
    emailToDiff := initial;
    for j := 0 to |emails|
      invariant DiffsFor(initial, emails[..j], results, notSubmitted) == DiffRun(emailToDiff, false)
    {
      DiffsStep(initial, emails, j, results, notSubmitted);
      var statisticsForEmail := Get(results, emails[j]);
      if statisticsForEmail.None? {
        DiffsStayFailed(initial, emails, j + 1, results, notSubmitted);
        assert emails[..|emails|] == emails;
        return emailToDiff, Fail(TypeError);
      }
      var claimed := statisticsForEmail.value.claimed;
      var perceived := statisticsForEmail.value.perceived;
      ghost var before := emailToDiff;
      if claimed < 0 || perceived < 0 {
        emailToDiff := Put(emailToDiff, emails[j], notSubmitted);
      } else {
        emailToDiff := Put(emailToDiff, emails[j], perceived - claimed);
      }
      assert emailToDiff == Put(before, emails[j], DiffOf(statisticsForEmail.value, notSubmitted));
    }
    assert emails[..|emails|] == emails;
    r := Ok(());
  }

  /** One more email of the difference loop, after one that has not thrown. */
  lemma DiffsStep(diff: JsRecord<int>, emails: seq<string>, j: nat, results: JsRecord<Entry>, notSubmitted: int)
    requires j < |emails| && !DiffsFor(diff, emails[..j], results, notSubmitted).failed
    ensures var prev := DiffsFor(diff, emails[..j], results, notSubmitted).diff;
            DiffsFor(diff, emails[..j + 1], results, notSubmitted)
            == if emails[j] in results.values
               then DiffRun(Put(prev, emails[j], DiffOf(results.values[emails[j]], notSubmitted)), false)
               else DiffRun(prev, true)
  {
    assert emails[..j + 1][..j] == emails[..j];
  }

  /** Once the loop has thrown, the later emails change nothing. */
  lemma {:induction false} DiffsStayFailed(diff: JsRecord<int>, emails: seq<string>, n: nat,
                                           results: JsRecord<Entry>, notSubmitted: int)
    requires n <= |emails| && DiffsFor(diff, emails[..n], results, notSubmitted).failed
    ensures DiffsFor(diff, emails, results, notSubmitted) == DiffsFor(diff, emails[..n], results, notSubmitted)
    decreases |emails| - n
  {
    if n < |emails| {
      assert emails[..n + 1][..n] == emails[..n];
      DiffsStayFailed(diff, emails, n + 1, results, notSubmitted);
    } else {
      assert emails[..n] == emails;
    }
  }
}
