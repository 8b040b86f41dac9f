/** internal/rules/engine.go and simulator.go: events handled for real and replayed
    by the simulator. Evaluators and dispatchers are functions of their arguments;
    what a dispatcher does outside is one entry of `dispatched`. */
module RuleEngine {
  import opened Seqs
  import opened Rules

  datatype Action = Action(kind: string, params: Params)

  datatype Rule = Rule(id: string, name: string, enabled: bool, trigger: string, condition: Condition, actions: seq<Action>)

  datatype ActionResult = ActionResult(outcome: string, error: string, data: map<string, string>)

  type Dispatcher = (Rule, Params, Facts) -> ActionResult

  type Actions = map<string, Dispatcher>

  datatype RunRecord = RunRecord(ruleID: string, triggerEvent: string, fingerprint: string, matched: bool,
    actions: seq<ActionResult>, simulated: bool)

  datatype Dispatch = Dispatch(rule: Rule, action: Action, facts: Facts)

  function RuleID(rl: Rule): string {
    rl.id
  }

  // ---- specification ---------------------------------------------------------------

  /** The enabled rules of a trigger, in the priority order of the table. */
  function Listed(table: seq<Rule>, trigger: string): seq<Rule> {
    if table == [] then []
    else
      var rl := table[|table| - 1];
      Listed(table[..|table| - 1], trigger) + (if rl.enabled && rl.trigger == trigger then [rl] else [])
  }

  function ResultOf(acts: Actions, simulate: bool, rl: Rule, a: Action, ec: Facts): ActionResult {
    if a.kind !in acts then ActionResult("skip", "unknown action kind: " + a.kind, map[])
    else if simulate then ActionResult("would-fire", "", map["kind" := a.kind])
    else acts[a.kind](rl, a.params, ec)
  }

  function ResultsOf(acts: Actions, simulate: bool, rl: Rule, actions: seq<Action>, ec: Facts): seq<ActionResult> {
    if actions == [] then []
    else ResultsOf(acts, simulate, rl, actions[..|actions| - 1], ec) + [ResultOf(acts, simulate, rl, actions[|actions| - 1], ec)]
  }

  /** The known actions, in order, when they are carried out at all. */
  function DispatchesOf(acts: Actions, simulate: bool, rl: Rule, actions: seq<Action>, ec: Facts): seq<Dispatch> {
    if actions == [] || simulate then []
    else
      var a := actions[|actions| - 1];
      DispatchesOf(acts, simulate, rl, actions[..|actions| - 1], ec) + (if a.kind in acts then [Dispatch(rl, a, ec)] else [])
  }

  function RunOf(reg: Conditions, acts: Actions, simulate: bool, rl: Rule, ec: Facts): RunRecord {
    var matched := VerdictOf(reg, rl.condition, ec).holds;
    RunRecord(rl.id, ec.trigger, ec.finding.fingerprint, matched,
      if matched then ResultsOf(acts, simulate, rl, rl.actions, ec) else [], simulate)
  }

  /** One record a rule, matched or not. */
  function RunsOf(reg: Conditions, acts: Actions, simulate: bool, rules: seq<Rule>, ec: Facts): seq<RunRecord> {
    if rules == [] then []
    else RunsOf(reg, acts, simulate, rules[..|rules| - 1], ec) + [RunOf(reg, acts, simulate, rules[|rules| - 1], ec)]
  }

  function MatchedOf(reg: Conditions, rules: seq<Rule>, ec: Facts): seq<Rule> {
    if rules == [] then []
    else
      var rl := rules[|rules| - 1];
      MatchedOf(reg, rules[..|rules| - 1], ec) + (if VerdictOf(reg, rl.condition, ec).holds then [rl] else [])
  }

  function EventDispatches(acts: Actions, simulate: bool, matched: seq<Rule>, ec: Facts): seq<Dispatch> {
    if matched == [] then []
    else
      var rl := matched[|matched| - 1];
      EventDispatches(acts, simulate, matched[..|matched| - 1], ec) + DispatchesOf(acts, simulate, rl, rl.actions, ec)
  }

  lemma {:induction false} NoneMatched(acts: Actions, simulate: bool, ec: Facts)
    ensures EventDispatches(acts, simulate, [], ec) == []
  {
  }

  lemma {:induction false} OneMoreMatched(acts: Actions, simulate: bool, matched: seq<Rule>, rl: Rule, ec: Facts)
    ensures EventDispatches(acts, simulate, matched + [rl], ec) ==
      EventDispatches(acts, simulate, matched, ec) + DispatchesOf(acts, simulate, rl, rl.actions, ec)
  {
    hide DispatchesOf;
    assert (matched + [rl])[..|matched|] == matched;
  }

  // ---- what an event does -----------------------------------------------------------------

  lemma {:induction false} ListedMeans(table: seq<Rule>, trigger: string)
    ensures Listed(table, trigger) == Where(table, (rl: Rule) => rl.enabled && rl.trigger == trigger)
  {
    if table != [] {
      ListedMeans(table[..|table| - 1], trigger);
    }
  }

  lemma {:induction false} MatchedMeans(reg: Conditions, rules: seq<Rule>, ec: Facts)
    ensures MatchedOf(reg, rules, ec) == Where(rules, (rl: Rule) => VerdictOf(reg, rl.condition, ec).holds)
  {
    hide VerdictOf;
    if rules != [] {
      MatchedMeans(reg, rules[..|rules| - 1], ec);
    }
  }

  /** One record for each rule, in order: what it was about, whether the rule matched,
      and the results of its actions if it did. */
  lemma {:induction false} RunsMean(reg: Conditions, acts: Actions, simulate: bool, rules: seq<Rule>, ec: Facts, i: nat)
    requires i < |rules|
    ensures |RunsOf(reg, acts, simulate, rules, ec)| == |rules|
    ensures var run, rl := RunsOf(reg, acts, simulate, rules, ec)[i], rules[i];
      && run.ruleID == rl.id && run.triggerEvent == ec.trigger && run.fingerprint == ec.finding.fingerprint && run.simulated == simulate
      && (run.matched <==> VerdictOf(reg, rl.condition, ec).holds)
      && |run.actions| == (if run.matched then |rl.actions| else 0)
      && (run.matched ==> forall j :: 0 <= j < |rl.actions| ==> IsResultOf(acts, simulate, rl, rl.actions[j], ec, run.actions[j]))
  {
    hide VerdictOf, ResultsOf;
    RunsLength(reg, acts, simulate, rules, ec);
    if i < |rules| - 1 {
      RunsMean(reg, acts, simulate, rules[..|rules| - 1], ec, i);
    } else {
      ResultsMean(acts, simulate, rules[i], rules[i].actions, ec);
    }
  }

  lemma {:induction false} RunsLength(reg: Conditions, acts: Actions, simulate: bool, rules: seq<Rule>, ec: Facts)
    ensures |RunsOf(reg, acts, simulate, rules, ec)| == |rules|
  {
    hide RunOf;
    if rules != [] {
      RunsLength(reg, acts, simulate, rules[..|rules| - 1], ec);
    }
  }

  /** An action nobody knows is skipped, a simulator announces the others, the real
      engine reports what the dispatcher answers. */
  ghost predicate IsResultOf(acts: Actions, simulate: bool, rl: Rule, a: Action, ec: Facts, result: ActionResult) {
    && (a.kind !in acts ==> result.outcome == "skip" && result.error == "unknown action kind: " + a.kind && result.data == map[])
    && (a.kind in acts && simulate ==> result.outcome == "would-fire" && result.error == "" && result.data == map["kind" := a.kind])
    && (a.kind in acts && !simulate ==> result == acts[a.kind](rl, a.params, ec))
  }

  lemma {:induction false} ResultsMean(acts: Actions, simulate: bool, rl: Rule, actions: seq<Action>, ec: Facts)
    ensures |ResultsOf(acts, simulate, rl, actions, ec)| == |actions|
    ensures forall j :: 0 <= j < |actions| ==> IsResultOf(acts, simulate, rl, actions[j], ec, ResultsOf(acts, simulate, rl, actions, ec)[j])
  {
    if actions != [] {
      ResultsMean(acts, simulate, rl, actions[..|actions| - 1], ec);
    }
  }

  /** The real engine carries out exactly the known actions of exactly the matched
      rules, in order: of a part and then of the rest, */
  lemma {:induction false} DispatchesConcat(acts: Actions, simulate: bool, a: seq<Rule>, b: seq<Rule>, ec: Facts)
    ensures EventDispatches(acts, simulate, a + b, ec) == EventDispatches(acts, simulate, a, ec) + EventDispatches(acts, simulate, b, ec)
  {
    hide DispatchesOf;
    if b == [] {
      assert a + b == a;
    } else {
      DispatchesConcat(acts, simulate, a, b[..|b| - 1], ec);
      assert (a + b)[..|a + b| - 1] == a + b[..|b| - 1];
    }
  }

  /** and of one rule its own. */
  lemma {:induction false} DispatchesMean(acts: Actions, rl: Rule, ec: Facts)
    ensures var ds, known := EventDispatches(acts, false, [rl], ec), Where(rl.actions, (a: Action) => a.kind in acts);
      |ds| == |known| && forall i :: 0 <= i < |ds| ==> ds[i] == Dispatch(rl, known[i], ec)
  {
    assert [rl][..0] == [];
    assert EventDispatches(acts, false, [rl], ec) == EventDispatches(acts, false, [], ec) + DispatchesOf(acts, false, rl, rl.actions, ec);
    KnownDispatched(acts, rl, rl.actions, ec);
  }

  lemma {:induction false} KnownDispatched(acts: Actions, rl: Rule, actions: seq<Action>, ec: Facts)
    ensures var ds, known := DispatchesOf(acts, false, rl, actions, ec), Where(actions, (a: Action) => a.kind in acts);
      |ds| == |known| && forall i :: 0 <= i < |ds| ==> ds[i] == Dispatch(rl, known[i], ec)
  {
    if actions != [] {
      KnownDispatched(acts, rl, actions[..|actions| - 1], ec);
    }
  }

  // ---- the engine ----------------------------------------------------------------------

  class Registry {
    var conditions: Conditions
    var actions: Actions

    constructor ()
      ensures conditions == map[] && actions == map[]
    {
      conditions, actions := map[], map[];
    }
  }

  class Outside {
    var dispatched: seq<Dispatch>
  }

  /** The rules and rule_runs tables. Any query may fail; `runs` lists the records
      handed to RecordRun, whose own failure the engine ignores. */
  class Repo {
    var table: seq<Rule>
    var runs: seq<RunRecord>

    method ListByTrigger(trigger: string) returns (listed: Option<seq<Rule>>)
      ensures listed.Some? ==> listed.value == Listed(table, trigger)
    {
      if * {
        return None;
      }
      var out := [];
      for i := 0 to |table|
        invariant out == Listed(table[..i], trigger)
      {
        assert table[..i + 1][..i] == table[..i];
        if table[i].enabled && table[i].trigger == trigger {
          out := out + [table[i]];
        }
      }
      assert table[..|table|] == table;
      listed := Some(out);
    }

    method RecordRun(rec: RunRecord)
      modifies this`runs
      ensures runs == old(runs) + [rec]
    {
      runs := runs + [rec];
    }
  }

  /** The event as the caller holds it; the engine fills in what is missing. */
  class EvalContext {
    const trigger: string
    const finding: FindingFacts
    const scan: ScanFacts
    const resource: ResourceFacts
    const extras: Params
    var now: Option<int>
    var simulated: bool

    constructor (trigger: string, now: Option<int>, finding: FindingFacts, scan: ScanFacts, resource: ResourceFacts, extras: Params)
      ensures Facts() == Rules.Facts(trigger, now, finding, scan, resource, extras, false)
    {
      this.trigger, this.now, this.finding, this.scan := trigger, now, finding, scan;
      this.resource, this.extras, simulated := resource, extras, false;
    }

    function Facts(): Facts
      reads this
    {
      Rules.Facts(trigger, now, finding, scan, resource, extras, simulated)
    }
  }

  class Engine {
    const repo: Repo
    const reg: Registry
    const outside: Outside
    const simulate: bool

    constructor (repo: Repo, reg: Registry, outside: Outside, simulate: bool)
      ensures this.repo == repo && this.reg == reg && this.outside == outside && this.simulate == simulate
    {
      this.repo, this.reg, this.outside, this.simulate := repo, reg, outside, simulate;
    }

    /** A sibling over the same tables and registry. */
    method WithSimulator() returns (sim: Engine)
      ensures fresh(sim) && sim.simulate
      ensures sim.repo == repo && sim.reg == reg && sim.outside == outside
    {
      sim := new Engine(repo, reg, outside, true);
    }

    method EvaluateTerm(t: Term, ec: EvalContext) returns (v: Verdict)
      ensures v == TermVerdict(reg.conditions, t, ec.Facts())
    {
      if t.kind !in reg.conditions {
        return Verdict(false, Some("rules: unknown condition kind"));
      }
      var got := reg.conditions[t.kind](t.params, ec.Facts());
      if got.error.Some? {
        return Verdict(false, got.error);
      }
      v := if t.negate then Verdict(!got.holds, None) else Verdict(got.holds, None);
    }

    method EvaluateCondition(c: Condition, ec: EvalContext) returns (v: Verdict)
      ensures v == VerdictOf(reg.conditions, c, ec.Facts())
      decreases c
    {
      if c.IsAlwaysMatch() {
        return Verdict(true, None);
      }
      if c.term.Some? {
        v := EvaluateTerm(c.term.value, ec);
        return;
      }
      if c.op == OP_AND {
        for i := 0 to |c.children|
          invariant VerdictOf(reg.conditions, c, ec.Facts()) == FirstSettled(reg.conditions, c, i, ec.Facts())
        {
          var child := EvaluateCondition(c.children[i], ec);
          if child.error.Some? {
            return Verdict(false, child.error);
          }
          if !child.holds {
            return Verdict(false, None);
          }
        }
        return Verdict(true, None);
      }
      if c.op == OP_OR {
        for i := 0 to |c.children|
          invariant VerdictOf(reg.conditions, c, ec.Facts()) == FirstSettled(reg.conditions, c, i, ec.Facts())
        {
          var child := EvaluateCondition(c.children[i], ec);
          if child.error.Some? {
            return Verdict(false, child.error);
          }
          if child.holds {
            return Verdict(true, None);
          }
        }
        return Verdict(false, None);
      }
      v := Verdict(false, Some("rules: unsupported op"));
    }

    method DispatchActions(rl: Rule, ec: EvalContext) returns (out: seq<ActionResult>)
      modifies outside`dispatched
      ensures out == ResultsOf(reg.actions, simulate, rl, rl.actions, ec.Facts())
      ensures outside.dispatched == old(outside.dispatched) + DispatchesOf(reg.actions, simulate, rl, rl.actions, ec.Facts())
    {
      out := [];
      for i := 0 to |rl.actions|
        invariant out == ResultsOf(reg.actions, simulate, rl, rl.actions[..i], ec.Facts())
        invariant outside.dispatched == old(outside.dispatched) + DispatchesOf(reg.actions, simulate, rl, rl.actions[..i], ec.Facts())
      {
        var a := rl.actions[i];
        assert rl.actions[..i + 1][..i] == rl.actions[..i];
        if a.kind !in reg.actions {
          out := out + [ActionResult("skip", "unknown action kind: " + a.kind, map[])];
        } else if simulate {
          out := out + [ActionResult("would-fire", "", map["kind" := a.kind])];
        } else {
          outside.dispatched := outside.dispatched + [Dispatch(rl, a, ec.Facts())];
          out := out + [reg.actions[a.kind](rl, a.params, ec.Facts())];
        }
      }
      assert rl.actions[..|rl.actions|] == rl.actions;
    }

    /** One rule of an event: evaluate, act, record. */
    method HandleRule(rl: Rule, ec: EvalContext) returns (matched: bool)
      modifies repo`runs, outside`dispatched
      ensures matched == VerdictOf(reg.conditions, rl.condition, ec.Facts()).holds
      ensures repo.runs == old(repo.runs) + [RunOf(reg.conditions, reg.actions, simulate, rl, ec.Facts())]
      ensures outside.dispatched == old(outside.dispatched) +
        if matched then DispatchesOf(reg.actions, simulate, rl, rl.actions, ec.Facts()) else []
    {
      hide VerdictOf, ResultsOf, DispatchesOf;
      var v := EvaluateCondition(rl.condition, ec);
      matched := v.holds;
      ErrorMeansFalse(reg.conditions, rl.condition, ec.Facts());
      var results: seq<ActionResult> := [];
      if matched && v.error.None? {
        results := DispatchActions(rl, ec);
      }
      repo.RecordRun(RunRecord(rl.id, ec.trigger, ec.finding.fingerprint, matched, results, simulate));
    }

    /** None is an error: a nil event or a failed listing. */
    method HandleEvent(ec: EvalContext?, clock: int) returns (matched: Option<seq<Rule>>)
      modifies repo`runs, outside`dispatched, ec
      ensures ec == null ==> matched.None?
      ensures ec != null ==> ec.now == (if old(ec.now).None? then Some(clock) else old(ec.now))
      ensures ec != null ==> ec.simulated == (old(ec.simulated) || simulate)
      ensures matched.None? ==> repo.runs == old(repo.runs) && outside.dispatched == old(outside.dispatched)
      ensures matched.Some? ==>
        && matched.value == MatchedOf(reg.conditions, Listed(repo.table, ec.trigger), ec.Facts())
        && repo.runs == old(repo.runs) + RunsOf(reg.conditions, reg.actions, simulate, Listed(repo.table, ec.trigger), ec.Facts())
        && outside.dispatched == old(outside.dispatched) + EventDispatches(reg.actions, simulate, matched.value, ec.Facts())
    {
      hide VerdictOf, RunOf, DispatchesOf, Listed;
      if ec == null {
        return None;
      }
      if ec.now.None? {
        ec.now := Some(clock);
      }
      if simulate {
        ec.simulated := true;
      }
      var listed := repo.ListByTrigger(ec.trigger);
      if listed.None? {
        return None;
      }
      var out := HandleRules(listed.value, ec);
      matched := Some(out);
    }

    method HandleRules(rules: seq<Rule>, ec: EvalContext) returns (out: seq<Rule>)
      modifies repo`runs, outside`dispatched
      ensures out == MatchedOf(reg.conditions, rules, ec.Facts())
      ensures repo.runs == old(repo.runs) + RunsOf(reg.conditions, reg.actions, simulate, rules, ec.Facts())
      ensures outside.dispatched == old(outside.dispatched) + EventDispatches(reg.actions, simulate, out, ec.Facts())
    {
      hide VerdictOf, RunOf, DispatchesOf, EventDispatches;
      out := [];
      NoneMatched(reg.actions, simulate, ec.Facts());
      for i := 0 to |rules|
        invariant out == MatchedOf(reg.conditions, rules[..i], ec.Facts())
        invariant repo.runs == old(repo.runs) + RunsOf(reg.conditions, reg.actions, simulate, rules[..i], ec.Facts())
        invariant outside.dispatched == old(outside.dispatched) + EventDispatches(reg.actions, simulate, out, ec.Facts())
      {
        assert rules[..i + 1][..i] == rules[..i];
        var m := HandleRule(rules[i], ec);
        if m {
          OneMoreMatched(reg.actions, simulate, out, rules[i], ec.Facts());
          out := out + [rules[i]];
        }
      }
      assert rules[..|rules|] == rules;
    }
  }
}
