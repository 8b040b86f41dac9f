/** internal/rules/simulator.go: a window of stored findings replayed through the
    simulating engine. */
module Simulator {
  import opened Seqs
  import opened Rules
  import opened RuleEngine

  /** Zero times are None; an empty trigger and a limit of 0 or less mean the default. */
  datatype Options = Options(ruleIDs: seq<string>, start: Option<int>, end: Option<int>, trigger: string, limit: int)

  datatype Summary = Summary(ruleID: string, ruleName: string, findingsConsidered: nat, wouldFire: nat)

  /** A finding created in the past, with the facts its event carried then. Its row
      in the findings table has only some of them. */
  datatype Row = Row(createdAt: int, finding: FindingFacts, scan: ScanFacts, resource: ResourceFacts, extras: Params)

  /** As the daemon stores a new finding: first and last seen when it was created. */
  predicate IsStored(row: Row) {
    row.finding.firstSeenAt == Some(row.createdAt) && row.finding.lastSeenAt == Some(row.createdAt)
  }

  const DEFAULT_WINDOW := 30 * 24 * 60 * 60
  const DEFAULT_LIMIT := 10_000
  const FINDING_CREATED := "finding.created"

  function Normalised(o: Options, clock: int): (r: Options)
    ensures r.start.Some? && r.end.Some? && r.limit > 0 && r.trigger != ""
    ensures r.end.value == (if o.end.Some? then o.end.value else clock)
    ensures r.start.value == (if o.start.Some? then o.start.value else r.end.value - 2_592_000)
    ensures r.trigger == (if o.trigger != "" then o.trigger else "finding.created")
    ensures r.limit == (if o.limit > 0 then o.limit else 10_000) && r.ruleIDs == o.ruleIDs
  {
    var end := if o.end.None? then clock else o.end.value;
    Options(o.ruleIDs,
      if o.start.None? then Some(end - DEFAULT_WINDOW) else o.start, Some(end),
      if o.trigger == "" then FINDING_CREATED else o.trigger,
      if o.limit <= 0 then DEFAULT_LIMIT else o.limit)
  }

  function SummaryID(s: Summary): string {
    s.ruleID
  }

  // ---- specification ------------------------------------------------------------------

  /** The rules asked for; all of them when none is named. */
  function Wanted(rls: seq<Rule>, ids: seq<string>): seq<Rule> {
    if rls == [] then []
    else Wanted(rls[..|rls| - 1], ids) + (if ids == [] || rls[|rls| - 1].id in ids then [rls[|rls| - 1]] else [])
  }

  function InWindow(rows: seq<Row>, start: int, end: int): seq<Row> {
    if rows == [] then []
    else
      var row := rows[|rows| - 1];
      InWindow(rows[..|rows| - 1], start, end) + (if start <= row.createdAt <= end then [row] else [])
  }

  function FirstOf(fs: seq<Row>, limit: int): seq<Row>
    requires limit >= 0
  {
    if |fs| <= limit then fs else fs[..limit]
  }

  /** What the query yields on rows stored in the order of created_at. */
  function Replayed(rows: seq<Row>, o: Options): seq<Row>
    requires o.start.Some? && o.end.Some? && o.limit > 0
  {
    FirstOf(InWindow(rows, o.start.value, o.end.value), o.limit)
  }

  /** scanSimFinding: frameworks and tags are not among the columns. */
  function Stored(f: FindingFacts): FindingFacts {
    f.(frameworks := [], tags := [])
  }

  /** The event the simulator evaluates: at the end of the window, with what the row
      holds and nothing else. */
  function EventOf(o: Options, row: Row): Facts {
    Facts(o.trigger, o.end, Stored(row.finding), NO_SCAN, NO_RESOURCE, map[], true)
  }

  /** For how many findings the condition of a rule holds. */
  function FireCount(reg: Conditions, rl: Rule, fs: seq<Row>, o: Options): nat {
    if fs == [] then 0
    else
      FireCount(reg, rl, fs[..|fs| - 1], o) +
      (if VerdictOf(reg, rl.condition, EventOf(o, fs[|fs| - 1])).holds then 1 else 0)
  }

  function SummaryOf(reg: Conditions, rl: Rule, fs: seq<Row>, o: Options): Summary {
    Summary(rl.id, rl.name, |fs|, FireCount(reg, rl, fs, o))
  }

  /** The records of a replay: every listed rule on every finding. */
  function ReplayRuns(reg: Conditions, acts: Actions, listed: seq<Rule>, fs: seq<Row>, o: Options): seq<RunRecord> {
    if fs == [] then []
    else
      ReplayRuns(reg, acts, listed, fs[..|fs| - 1], o) + RunsOf(reg, acts, true, listed, EventOf(o, fs[|fs| - 1]))
  }

  // ---- membership -------------------------------------------------------------------------

  lemma {:induction false} ListedMembers(table: seq<Rule>, trigger: string)
    ensures forall rl :: rl in Listed(table, trigger) <==> rl in table && rl.enabled && rl.trigger == trigger
  {
    if table != [] {
      ListedMembers(table[..|table| - 1], trigger);
      assert table == table[..|table| - 1] + [table[|table| - 1]];
    }
  }

  lemma {:induction false} ListedDistinct(table: seq<Rule>, trigger: string)
    requires DistinctKeys(table, RuleID)
    ensures DistinctKeys(Listed(table, trigger), RuleID)
  {
    if table != [] {
      ListedDistinct(table[..|table| - 1], trigger);
      ListedMembers(table[..|table| - 1], trigger);
    }
  }

  lemma {:induction false} WantedMembers(rls: seq<Rule>, ids: seq<string>)
    ensures forall rl :: rl in Wanted(rls, ids) <==> rl in rls && (ids == [] || rl.id in ids)
    ensures DistinctKeys(rls, RuleID) ==> DistinctKeys(Wanted(rls, ids), RuleID)
  {
    if rls != [] {
      WantedMembers(rls[..|rls| - 1], ids);
      assert rls == rls[..|rls| - 1] + [rls[|rls| - 1]];
    }
  }

  lemma {:induction false} MatchedMembers(reg: Conditions, rules: seq<Rule>, ec: Facts)
    ensures forall rl :: rl in MatchedOf(reg, rules, ec) <==> rl in rules && VerdictOf(reg, rl.condition, ec).holds
  {
    hide VerdictOf;
    if rules != [] {
      var init, last := rules[..|rules| - 1], rules[|rules| - 1];
      MatchedMembers(reg, init, ec);
      forall rl ensures rl in MatchedOf(reg, rules, ec) <==> rl in rules && VerdictOf(reg, rl.condition, ec).holds {
        assert rl in rules <==> rl in init || rl == last;
        assert rl in MatchedOf(reg, rules, ec) <==> rl in MatchedOf(reg, init, ec) || (rl == last && VerdictOf(reg, last.condition, ec).holds);
      }
    }
  }

  lemma {:induction false} MatchedDistinct(reg: Conditions, rules: seq<Rule>, ec: Facts)
    requires DistinctKeys(rules, RuleID)
    ensures DistinctKeys(MatchedOf(reg, rules, ec), RuleID)
  {
    hide VerdictOf;
    if rules != [] {
      MatchedDistinct(reg, rules[..|rules| - 1], ec);
      MatchedMembers(reg, rules[..|rules| - 1], ec);
    }
  }

  // ---- counting -----------------------------------------------------------------------------

  /** The results map holds the summary of each wanted rule. */
  ghost predicate Tallied(results: map<string, Summary>, wanted: seq<Rule>, reg: Conditions, fs: seq<Row>, o: Options) {
    && results.Keys == KeysOf(wanted, RuleID)
    && forall rl :: rl in wanted ==> rl.id in results && results[rl.id] == SummaryOf(reg, rl, fs, o)
  }

  function Considered(results: map<string, Summary>): map<string, Summary> {
    map id | id in results :: results[id].(findingsConsidered := results[id].findingsConsidered + 1)
  }

  ghost function Fired(results: map<string, Summary>, matched: seq<Rule>): map<string, Summary> {
    map id | id in results ::
      results[id].(wouldFire := results[id].wouldFire + if id in KeysOf(matched, RuleID) then 1 else 0)
  }

  lemma {:induction false} TallyStep(results: map<string, Summary>, wanted: seq<Rule>, listed: seq<Rule>, reg: Conditions,
                                     fs: seq<Row>, f: Row, o: Options)
    requires Tallied(results, wanted, reg, fs, o)
    requires DistinctKeys(listed, RuleID) && forall rl :: rl in wanted ==> rl in listed
    ensures Tallied(Fired(Considered(results), MatchedOf(reg, listed, EventOf(o, f))), wanted, reg, fs + [f], o)
  {
    hide VerdictOf, MatchedOf;
    var ec := EventOf(o, f);
    var matched := MatchedOf(reg, listed, ec);
    MatchedMembers(reg, listed, ec);
    forall rl | rl in wanted
      ensures rl.id in KeysOf(matched, RuleID) <==> VerdictOf(reg, rl.condition, ec).holds
    {
      KeyNamesRule(listed, matched, rl);
    }
    assert (fs + [f])[..|fs|] == fs;
  }

  lemma {:induction false} KeyNamesRule(listed: seq<Rule>, matched: seq<Rule>, rl: Rule)
    requires DistinctKeys(listed, RuleID) && rl in listed
    requires forall m :: m in matched ==> m in listed
    ensures rl.id in KeysOf(matched, RuleID) <==> rl in matched
  {
    if rl.id in KeysOf(matched, RuleID) {
      var m :| m in matched && RuleID(m) == rl.id;
      assert m in listed;
      assert m == rl;
    } else {
      assert RuleID(rl) == rl.id;
    }
  }

  method CountMatches(before: map<string, Summary>, matched: seq<Rule>) returns (results: map<string, Summary>)
    requires DistinctKeys(matched, RuleID)
    ensures results == Fired(before, matched)
  {
    results := before;
    for i := 0 to |matched|
      invariant results == Fired(before, matched[..i])
    {
      var id := matched[i].id;
      FiredStep(before, matched, i);
      if id in results {
        results := results[id := results[id].(wouldFire := results[id].wouldFire + 1)];
      }
    }
    assert matched[..|matched|] == matched;
  }

  lemma {:induction false} FiredStep(before: map<string, Summary>, matched: seq<Rule>, i: nat)
    requires DistinctKeys(matched, RuleID) && i < |matched|
    ensures var m, id := Fired(before, matched[..i]), matched[i].id;
      Fired(before, matched[..i + 1]) == if id in m then m[id := m[id].(wouldFire := m[id].wouldFire + 1)] else m
  {
    assert matched[..i + 1] == matched[..i] + [matched[i]];
    assert KeysOf(matched[..i + 1], RuleID) == KeysOf(matched[..i], RuleID) + {RuleID(matched[i])};
    assert RuleID(matched[i]) !in KeysOf(matched[..i], RuleID);
  }

  // ---- the replay ------------------------------------------------------------------------------

  /** None is a failed listing. */
  method LoadSimulatedRules(e: Engine, o: Options) returns (rls: Option<seq<Rule>>)
    ensures rls.Some? ==> rls.value == Wanted(Listed(e.repo.table, o.trigger), o.ruleIDs)
  {
    var listed := e.repo.ListByTrigger(o.trigger);
    if listed.None? {
      return None;
    }
    var filtered := [];
    for i := 0 to |listed.value|
      invariant filtered == Wanted(listed.value[..i], o.ruleIDs)
    {
      assert listed.value[..i + 1][..i] == listed.value[..i];
      if |o.ruleIDs| == 0 || listed.value[i].id in o.ruleIDs {
        filtered := filtered + [listed.value[i]];
      }
    }
    assert listed.value[..|listed.value|] == listed.value;
    rls := Some(filtered);
  }

  lemma {:induction false} SimulatorDispatchesNothing(acts: Actions, matched: seq<Rule>, ec: Facts)
    ensures EventDispatches(acts, true, matched, ec) == []
  {
    if matched != [] {
      SimulatorDispatchesNothing(acts, matched[..|matched| - 1], ec);
    }
  }

  /** Replays one finding; only the record of the runs grows. */
  method ReplayOne(sim: Engine, o: Options, f: Row, clock: int) returns (matched: Option<seq<Rule>>)
    requires sim.simulate && o.end.Some?
    modifies sim.repo`runs, sim.outside`dispatched
    ensures sim.outside.dispatched == old(sim.outside.dispatched)
    ensures matched.None? ==> sim.repo.runs == old(sim.repo.runs)
    ensures matched.Some? ==>
      && matched.value == MatchedOf(sim.reg.conditions, Listed(sim.repo.table, o.trigger), EventOf(o, f))
      && sim.repo.runs == old(sim.repo.runs) +
        RunsOf(sim.reg.conditions, sim.reg.actions, true, Listed(sim.repo.table, o.trigger), EventOf(o, f))
  {
    hide MatchedOf, RunsOf, Listed, EventDispatches;
    var ec := new EvalContext(o.trigger, o.end, Stored(f.finding), NO_SCAN, NO_RESOURCE, map[]);
    matched := sim.HandleEvent(ec, clock);
    if matched.Some? {
      SimulatorDispatchesNothing(sim.reg.actions, matched.value, ec.Facts());
    }
  }

  lemma {:induction false} ReplayStep(reg: Conditions, acts: Actions, listed: seq<Rule>, fs: seq<Row>, i: nat, o: Options)
    ensures ReplayRuns(reg, acts, listed, fs[..0], o) == []
    ensures i < |fs| ==>
      ReplayRuns(reg, acts, listed, fs[..i + 1], o) ==
      ReplayRuns(reg, acts, listed, fs[..i], o) + RunsOf(reg, acts, true, listed, EventOf(o, fs[i]))
  {
    hide RunsOf;
    if i < |fs| {
      assert fs[..i + 1][..i] == fs[..i];
    }
  }

  /** `k` findings were replayed: all of them, unless a read failed. */
  method ReplayFindings(e: Engine, rows: seq<Row>, o: Options, wanted: seq<Rule>, before: map<string, Summary>, clock: int)
    returns (results: map<string, Summary>, ok: bool, ghost k: nat)
    requires o.start.Some? && o.end.Some? && o.limit > 0
    requires DistinctKeys(e.repo.table, RuleID)
    requires wanted == Wanted(Listed(e.repo.table, o.trigger), o.ruleIDs)
    requires Tallied(before, wanted, e.reg.conditions, [], o)
    modifies e.repo`runs, e.outside`dispatched
    ensures e.outside.dispatched == old(e.outside.dispatched)
    ensures k <= |Replayed(rows, o)|
    ensures e.repo.runs == old(e.repo.runs) +
      ReplayRuns(e.reg.conditions, e.reg.actions, Listed(e.repo.table, o.trigger), Replayed(rows, o)[..k], o)
    ensures ok ==> k == |Replayed(rows, o)| && Tallied(results, wanted, e.reg.conditions, Replayed(rows, o), o)
  {
    hide Tallied, Replayed, Listed, Wanted, MatchedOf, RunsOf, ReplayRuns, Considered, Fired;
    results, k := before, 0;
    ReplayStep(e.reg.conditions, e.reg.actions, Listed(e.repo.table, o.trigger), Replayed(rows, o), 0, o);
    var readable: bool := *;
    if !readable {
      return results, false, 0;
    }
    var fs := Replayed(rows, o);
    ghost var listed := Listed(e.repo.table, o.trigger);
    ListedDistinct(e.repo.table, o.trigger);
    WantedMembers(listed, o.ruleIDs);
    var sim := e.WithSimulator();
    var i := 0;
    while i < |fs|
      invariant 0 <= i <= |fs| && k == i
      invariant e.outside.dispatched == old(e.outside.dispatched)
      invariant e.repo.runs == old(e.repo.runs) + ReplayRuns(e.reg.conditions, e.reg.actions, listed, fs[..i], o)
      invariant Tallied(results, wanted, e.reg.conditions, fs[..i], o)
    {
      var scanned: bool := *;
      if !scanned {
        return results, false, i;
      }
      MatchedDistinct(e.reg.conditions, listed, EventOf(o, fs[i]));
      TallyStep(results, wanted, listed, e.reg.conditions, fs[..i], fs[i], o);
      results := Considered(results);
      var matched := ReplayOne(sim, o, fs[i], clock);
      if matched.None? {
        return results, false, i;
      }
      results := CountMatches(results, matched.value);
      ReplayStep(e.reg.conditions, e.reg.actions, listed, fs, i, o);
      assert fs[..i + 1] == fs[..i] + [fs[i]];
      i, k := i + 1, i + 1;
    }
    assert fs[..|fs|] == fs;
    ok := *;
  }

  method FreshSummaries(e: Engine, wanted: seq<Rule>, ghost o: Options) returns (results: map<string, Summary>)
    requires DistinctKeys(wanted, RuleID)
    ensures Tallied(results, wanted, e.reg.conditions, [], o)
  {
    results := map[];
    for i := 0 to |wanted|
      invariant Tallied(results, wanted[..i], e.reg.conditions, [], o)
    {
      var rl := wanted[i];
      assert wanted[..i + 1] == wanted[..i] + [rl];
      assert KeysOf(wanted[..i + 1], RuleID) == KeysOf(wanted[..i], RuleID) + {RuleID(rl)};
      results := results[rl.id := Summary(rl.id, rl.name, 0, 0)];
    }
    assert wanted[..|wanted|] == wanted;
  }

  lemma {:induction false} AppendNewKey(out: seq<Summary>, s: Summary)
    requires DistinctKeys(out, SummaryID) && s.ruleID !in KeysOf(out, SummaryID)
    ensures DistinctKeys(out + [s], SummaryID)
    ensures KeysOf(out + [s], SummaryID) == KeysOf(out, SummaryID) + {s.ruleID}
  {
    assert KeysOf(out + [s], SummaryID) == KeysOf(out, SummaryID) + {SummaryID(s)};
    forall x | x in out ensures SummaryID(x) != s.ruleID {
      assert SummaryID(x) in KeysOf(out, SummaryID);
    }
  }

  /** The values of the map, in the order Go happens to visit them. */
  method Values(results: map<string, Summary>) returns (out: seq<Summary>)
    requires forall id :: id in results ==> results[id].ruleID == id
    ensures DistinctKeys(out, SummaryID) && KeysOf(out, SummaryID) == results.Keys
    ensures forall s :: s in out ==> s.ruleID in results && results[s.ruleID] == s
  {
    out := [];
    var left := results.Keys;
    while left != {}
      invariant left <= results.Keys
      invariant DistinctKeys(out, SummaryID) && KeysOf(out, SummaryID) == results.Keys - left
      invariant forall s :: s in out ==> s.ruleID in results && results[s.ruleID] == s
      decreases |left|
    {
      hide KeysOf, DistinctKeys;
      var id :| id in left;
      AppendNewKey(out, results[id]);
      out := out + [results[id]];
      left := left - {id};
    }
  }

  /** One summary for each wanted rule, in any order. */
  ghost predicate IsReport(out: seq<Summary>, wanted: seq<Rule>, reg: Conditions, fs: seq<Row>, o: Options) {
    && |out| == |wanted|
    && DistinctKeys(out, SummaryID)
    && forall rl :: rl in wanted ==> SummaryOf(reg, rl, fs, o) in out
  }

  lemma {:induction false} ValuesReport(results: map<string, Summary>, out: seq<Summary>, wanted: seq<Rule>, reg: Conditions,
                                        fs: seq<Row>, o: Options)
    requires Tallied(results, wanted, reg, fs, o) && DistinctKeys(wanted, RuleID)
    requires DistinctKeys(out, SummaryID) && KeysOf(out, SummaryID) == results.Keys
    requires forall s :: s in out ==> s.ruleID in results && results[s.ruleID] == s
    ensures IsReport(out, wanted, reg, fs, o)
  {
    hide FireCount;
    DistinctCount(out, SummaryID);
    DistinctCount(wanted, RuleID);
    forall rl | rl in wanted ensures SummaryOf(reg, rl, fs, o) in out {
      assert RuleID(rl) in KeysOf(wanted, RuleID);
      var s :| s in out && SummaryID(s) == rl.id;
    }
  }

  lemma {:induction false} TalliedIDs(results: map<string, Summary>, wanted: seq<Rule>, reg: Conditions, fs: seq<Row>, o: Options)
    requires Tallied(results, wanted, reg, fs, o)
    ensures forall id :: id in results ==> results[id].ruleID == id
  {
    forall id | id in results ensures results[id].ruleID == id {
      var rl :| rl in wanted && RuleID(rl) == id;
    }
  }

  /** Nothing is ever dispatched. A report counts, for each wanted rule, the findings
      its condition matched; the runs recorded are those of every listed rule. */
  method Simulate(e: Engine, rows: seq<Row>, opts: Options, clock: int) returns (out: Option<seq<Summary>>)
    requires DistinctKeys(e.repo.table, RuleID)
    modifies e.repo`runs, e.outside`dispatched
    ensures e.outside.dispatched == old(e.outside.dispatched)
    ensures out.Some? ==>
      var o := Normalised(opts, clock);
      var listed, fs := Listed(e.repo.table, o.trigger), Replayed(rows, o);
      && IsReport(out.value, Wanted(listed, o.ruleIDs), e.reg.conditions, fs, o)
      && e.repo.runs == old(e.repo.runs) +
        if Wanted(listed, o.ruleIDs) == [] then [] else ReplayRuns(e.reg.conditions, e.reg.actions, listed, fs, o)
  {
    hide Tallied, Replayed, Listed, Wanted, FireCount, KeysOf, Normalised, ReplayRuns;
    var o := Normalised(opts, clock);
    var wanted := LoadSimulatedRules(e, o);
    if wanted.None? {
      return None;
    }
    if |wanted.value| == 0 {
      return Some([]);
    }
    ListedDistinct(e.repo.table, o.trigger);
    WantedMembers(Listed(e.repo.table, o.trigger), o.ruleIDs);
    var empty := FreshSummaries(e, wanted.value, o);
    var results, ok, k := ReplayFindings(e, rows, o, wanted.value, empty, clock);
    if !ok {
      return None;
    }
    ghost var fs := Replayed(rows, o);
    assert fs[..|fs|] == fs;
    TalliedIDs(results, wanted.value, e.reg.conditions, fs, o);
    var summaries := Values(results);
    ValuesReport(results, summaries, wanted.value, e.reg.conditions, fs, o);
    out := Some(summaries);
  }

  // ---- what a report says -------------------------------------------------------------------

  /** The findings of the window, in the order of the table, the first `limit` of them. */
  lemma {:induction false} ReplayedMeans(rows: seq<Row>, o: Options)
    requires o.start.Some? && o.end.Some? && o.limit > 0
    ensures var all := Where(rows, (row: Row) => o.start.value <= row.createdAt <= o.end.value);
      Replayed(rows, o) <= all && |Replayed(rows, o)| == if |all| < o.limit then |all| else o.limit
  {
    WindowMeans(rows, o.start.value, o.end.value);
  }

  lemma {:induction false} WindowMeans(rows: seq<Row>, start: int, end: int)
    ensures InWindow(rows, start, end) == Where(rows, (row: Row) => start <= row.createdAt <= end)
  {
    if rows != [] {
      WindowMeans(rows[..|rows| - 1], start, end);
    }
  }

  lemma {:induction false} FireCountMeans(reg: Conditions, rl: Rule, fs: seq<Row>, o: Options)
    ensures FireCount(reg, rl, fs, o) == |Where(fs, (row: Row) => VerdictOf(reg, rl.condition, EventOf(o, row)).holds)|
  {
    hide VerdictOf, EventOf;
    if fs != [] {
      FireCountMeans(reg, rl, fs[..|fs| - 1], o);
    }
  }

  lemma {:induction false} WantedMeans(rls: seq<Rule>, ids: seq<string>)
    ensures Wanted(rls, ids) == Where(rls, (rl: Rule) => ids == [] || rl.id in ids)
  {
    if rls != [] {
      WantedMeans(rls[..|rls| - 1], ids);
    }
  }

  ghost predicate Describes(s: Summary, rl: Rule, reg: Conditions, fs: seq<Row>, o: Options) {
    && s.ruleID == rl.id && s.ruleName == rl.name && s.findingsConsidered == |fs|
    && s.wouldFire == |Where(fs, (row: Row) => VerdictOf(reg, rl.condition, EventOf(o, row)).holds)|
  }

  /** A report has one summary for each wanted rule, with its name, the number of the
      findings replayed and of those on which the rule's condition held. */
  lemma {:induction false} ReportMeans(out: seq<Summary>, wanted: seq<Rule>, reg: Conditions, fs: seq<Row>, o: Options, rl: Rule)
    requires IsReport(out, wanted, reg, fs, o) && rl in wanted
    ensures exists s :: s in out && Describes(s, rl, reg, fs, o)
  {
    FireCountMeans(reg, rl, fs, o);
    assert SummaryOf(reg, rl, fs, o) in out;
  }

  /** A replay records finding by finding, for each what the event would. */
  lemma {:induction false} ReplayConcat(reg: Conditions, acts: Actions, listed: seq<Rule>, a: seq<Row>, b: seq<Row>, o: Options)
    ensures ReplayRuns(reg, acts, listed, a + b, o) == ReplayRuns(reg, acts, listed, a, o) + ReplayRuns(reg, acts, listed, b, o)
  {
    hide RunsOf, EventOf;
    if b == [] {
      assert a + b == a;
    } else {
      ReplayConcat(reg, acts, listed, a, b[..|b| - 1], o);
      assert (a + b)[..|a + b| - 1] == a + b[..|b| - 1];
    }
  }

  lemma {:induction false} ReplayOfOne(reg: Conditions, acts: Actions, listed: seq<Rule>, row: Row, o: Options)
    ensures ReplayRuns(reg, acts, listed, [row], o) == RunsOf(reg, acts, true, listed, EventOf(o, row))
  {
    hide RunsOf, EventOf;
    assert [row][..0] == [];
    assert ReplayRuns(reg, acts, listed, [], o) == [];
  }

  // ---- what a simulation tells about the real engine ----------------------------------------------

  lemma {:induction false} RunsCount(reg: Conditions, acts: Actions, simulate: bool, rules: seq<Rule>, ec: Facts)
    ensures |RunsOf(reg, acts, simulate, rules, ec)| == |rules|
    ensures forall r :: r in RunsOf(reg, acts, simulate, rules, ec) ==> r.simulated == simulate
  {
    hide VerdictOf, ResultsOf;
    if rules != [] {
      RunsCount(reg, acts, simulate, rules[..|rules| - 1], ec);
    }
  }

  /** Every listed rule is recorded on every finding, marked as simulated, even the
      rules that were not asked for. */
  lemma {:induction false} ReplayRunsCount(reg: Conditions, acts: Actions, listed: seq<Rule>, fs: seq<Row>, o: Options)
    ensures |ReplayRuns(reg, acts, listed, fs, o)| == |fs| * |listed|
    ensures forall r :: r in ReplayRuns(reg, acts, listed, fs, o) ==> r.simulated
  {
    hide RunsOf, EventOf;
    if fs != [] {
      ReplayRunsCount(reg, acts, listed, fs[..|fs| - 1], o);
      RunsCount(reg, acts, true, listed, EventOf(o, fs[|fs| - 1]));
      assert |fs| * |listed| == (|fs| - 1) * |listed| + |listed|;
    }
  }

  /** The event as the real engine saw it, or would have: at its own time and with
      all its facts. */
  function RealEvent(o: Options, row: Row): Facts {
    Facts(o.trigger, Some(row.createdAt), row.finding, row.scan, row.resource, row.extras, false)
  }

  /** How often the real engine matches a rule on those events. */
  function RealCount(reg: Conditions, rl: Rule, fs: seq<Row>, o: Options): nat {
    if fs == [] then 0
    else
      RealCount(reg, rl, fs[..|fs| - 1], o) +
      (if MatchedOf(reg, [rl], RealEvent(o, fs[|fs| - 1])) == [rl] then 1 else 0)
  }

  /** On every such finding of the window, no evaluator tells the replayed event from
      the real one. */
  ghost predicate Unaware(reg: Conditions, o: Options, such: Row -> bool)
    requires o.start.Some? && o.end.Some?
  {
    forall row: Row :: such(row) && o.start.value <= row.createdAt <= o.end.value ==>
      Indistinguishable(reg, EventOf(o, row), RealEvent(o, row))
  }

  /** For every rule and every history of such findings the counts agree. */
  ghost predicate ForecastIsRight(reg: Conditions, o: Options, such: Row -> bool)
    requires o.start.Some? && o.end.Some? && o.limit > 0
  {
    forall rl: Rule, rows: seq<Row> :: AllSuch(rows, such) ==>
      FireCount(reg, rl, Replayed(rows, o), o) == RealCount(reg, rl, Replayed(rows, o), o)
  }

  ghost predicate AllSuch(rows: seq<Row>, such: Row -> bool) {
    forall row :: row in rows ==> such(row)
  }

  lemma {:induction false} InWindowMembers(rows: seq<Row>, start: int, end: int)
    ensures forall row :: row in InWindow(rows, start, end) ==> row in rows && start <= row.createdAt <= end
  {
    if rows != [] {
      InWindowMembers(rows[..|rows| - 1], start, end);
    }
  }

  lemma {:induction false} OneRowReplayed(row: Row, o: Options)
    requires o.start.Some? && o.end.Some? && o.limit > 0 && o.start.value <= row.createdAt <= o.end.value
    ensures Replayed([row], o) == [row]
  {
    assert [row][..0] == [];
    assert InWindow([row], o.start.value, o.end.value) == InWindow([], o.start.value, o.end.value) + [row];
  }

  /** The forecast is right for every rule and every history exactly when, on every
      finding of the window, no evaluator tells the event at the end of the window,
      with the stored facts, from the event at its own time with its own. So it is
      for any class of findings that histories are made of. */
  lemma {:induction false} ForecastIsRightIff(reg: Conditions, o: Options, such: Row -> bool)
    requires o.start.Some? && o.end.Some? && o.limit > 0
    ensures ForecastIsRight(reg, o, such) <==> Unaware(reg, o, such)
  {
    hide VerdictOf, FireCount, RealCount, Indistinguishable, SameMatches, Replayed, RealEvent, EventOf;
    if Unaware(reg, o, such) {
      forall rl: Rule, rows: seq<Row> | AllSuch(rows, such)
        ensures FireCount(reg, rl, Replayed(rows, o), o) == RealCount(reg, rl, Replayed(rows, o), o)
      {
        ReplayedInWindow(rows, o);
        UnawareCounts(reg, rl, Replayed(rows, o), o, such);
      }
    }
    if ForecastIsRight(reg, o, such) {
      forall row: Row | such(row) && o.start.value <= row.createdAt <= o.end.value
        ensures Indistinguishable(reg, EventOf(o, row), RealEvent(o, row))
      {
        OneFindingExposes(reg, row, o, such);
      }
    }
  }

  lemma {:induction false} ReplayedInWindow(rows: seq<Row>, o: Options)
    requires o.start.Some? && o.end.Some? && o.limit > 0
    ensures forall row :: row in Replayed(rows, o) ==> row in rows && o.start.value <= row.createdAt <= o.end.value
  {
    InWindowMembers(rows, o.start.value, o.end.value);
  }

  lemma {:induction false} UnawareCounts(reg: Conditions, rl: Rule, fs: seq<Row>, o: Options, such: Row -> bool)
    requires o.start.Some? && o.end.Some? && Unaware(reg, o, such) && AllSuch(fs, such)
    requires forall row :: row in fs ==> o.start.value <= row.createdAt <= o.end.value
    ensures FireCount(reg, rl, fs, o) == RealCount(reg, rl, fs, o)
  {
    hide VerdictOf, Indistinguishable, RealEvent, EventOf;
    if fs != [] {
      var row := fs[|fs| - 1];
      UnawareCounts(reg, rl, fs[..|fs| - 1], o, such);
      SameMatchesIff(reg, EventOf(o, row), RealEvent(o, row));
      MatchesAlone(reg, rl, RealEvent(o, row));
      assert VerdictOf(reg, rl.condition, EventOf(o, row)).holds == VerdictOf(reg, rl.condition, RealEvent(o, row)).holds;
    }
  }

  lemma {:induction false} MatchesAlone(reg: Conditions, rl: Rule, ec: Facts)
    ensures MatchedOf(reg, [rl], ec) == [rl] <==> VerdictOf(reg, rl.condition, ec).holds
  {
    hide VerdictOf;
    assert [rl][..0] == [];
    assert MatchedOf(reg, [rl], ec) == MatchedOf(reg, [], ec) + (if VerdictOf(reg, rl.condition, ec).holds then [rl] else []);
  }

  lemma {:induction false} CountsOfOne(reg: Conditions, rl: Rule, row: Row, o: Options)
    ensures FireCount(reg, rl, [row], o) == 1 <==> VerdictOf(reg, rl.condition, EventOf(o, row)).holds
    ensures RealCount(reg, rl, [row], o) == 1 <==> VerdictOf(reg, rl.condition, RealEvent(o, row)).holds
  {
    hide VerdictOf, RealEvent, EventOf;
    var fs := [row];
    assert fs[..|fs| - 1] == [];
    assert FireCount(reg, rl, [], o) == RealCount(reg, rl, [], o) == 0;
    MatchesAlone(reg, rl, RealEvent(o, row));
  }

  lemma {:induction false} OneFindingExposes(reg: Conditions, row: Row, o: Options, such: Row -> bool)
    requires o.start.Some? && o.end.Some? && o.limit > 0 && ForecastIsRight(reg, o, such)
    requires such(row) && o.start.value <= row.createdAt <= o.end.value
    ensures Indistinguishable(reg, EventOf(o, row), RealEvent(o, row))
  {
    hide VerdictOf, Indistinguishable, FireCount, RealCount, Replayed, RealEvent, EventOf;
    var a, b := EventOf(o, row), RealEvent(o, row);
    OneRowReplayed(row, o);
    forall c: Condition ensures VerdictOf(reg, c, a).holds == VerdictOf(reg, c, b).holds {
      var rl := Rule("", "", true, "", c, []);
      CountsOfOne(reg, rl, row, o);
      assert AllSuch([row], such);
      assert FireCount(reg, rl, Replayed([row], o), o) == RealCount(reg, rl, Replayed([row], o), o);
    }
    SameMatchesIff(reg, a, b);
  }

  function WouldFires(results: seq<ActionResult>): nat {
    if results == [] then 0
    else WouldFires(results[..|results| - 1]) + (if results[|results| - 1].outcome == "would-fire" then 1 else 0)
  }

  /** What the simulator records of a matched rule announces exactly as many actions
      as the real engine dispatches for it. */
  lemma {:induction false} RecordedActionsForecastDispatches(acts: Actions, rl: Rule, actions: seq<Action>, ec: Facts, live: Facts)
    ensures WouldFires(ResultsOf(acts, true, rl, actions, ec)) == |DispatchesOf(acts, false, rl, actions, live)|
    ensures DispatchesOf(acts, true, rl, actions, ec) == []
  {
    if actions != [] {
      var init, a := actions[..|actions| - 1], actions[|actions| - 1];
      RecordedActionsForecastDispatches(acts, rl, init, ec, live);
      var results := ResultsOf(acts, true, rl, actions, ec);
      assert results[..|results| - 1] == ResultsOf(acts, true, rl, init, ec);
      assert results[|results| - 1] == ResultOf(acts, true, rl, a, ec);
      assert "skip"[0] != "would-fire"[0];
    }
  }
}
