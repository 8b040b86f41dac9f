/** internal/operator/schedule_reconciler.go as a protocol: any number of
    Reconcile calls, interleaved with each other, with edits, with the passing of
    time, with cached reads of old versions, and with requests that fail before
    or after taking effect. Time is in whole seconds. */
module Schedules {
  import opened Seqs

  /** The cron library: which expressions it parses, and its Next. None is its zero
      time, for an expression in which it finds no later tick, such as the 30th of
      February. */
  datatype Cron = Cron(valid: string -> bool, next: (string, int) -> Option<int>)

  /** What Next returns is later than its argument. */
  ghost predicate Forward(k: Cron) {
    forall e, t :: k.valid(e) && k.next(e, t).Some? ==> t < k.next(e, t).value
  }

  /** An expression of five fields: Next returns the least of its ticks after t. */
  ghost predicate IsTicking(k: Cron, e: string) {
    forall t :: k.next(e, t).Some? ==> t < k.next(e, t).value && LeastAfter(k, e, t)
  }

  ghost predicate LeastAfter(k: Cron, e: string, t: int) {
    k.next(e, t).Some? ==> forall s :: t <= s < k.next(e, t).value ==> k.next(e, s) == k.next(e, t)
  }

  /** `@every` so many seconds, which has no ticks of its own. */
  ghost predicate IsInterval(k: Cron, e: string, d: int) {
    0 < d && forall t :: k.next(e, t) == Some(t + d)
  }

  ghost predicate IsTick(k: Cron, e: string, x: int) {
    k.next(e, x - 1) == Some(x)
  }

  datatype Outcome = NotRun | Triggered | InvalidCronExpr | TriggerFailed

  /** The part of the ComplianceSchedule the reconciler reads and writes. A stored
      zero time is null, which is read back as no time. */
  datatype Schedule = Schedule(expr: string, disabled: bool, lastRun: Option<int>, nextRun: Option<int>, lastStatus: Outcome)

  /** A trigger request that reached the daemon: sent at `at` for the expression
      and last run the worker had read. */
  datatype Post = Post(expr: string, base: Option<int>, at: int)

  /** `versions` holds every stored version of the schedule, the newest last. */
  datatype Server = Server(now: int, versions: seq<Schedule>, gone: bool, posts: seq<Post>)

  datatype Worker =
    | Idle
    | HasSchedule(v: nat, o: Schedule)
    | MustPost(v: nat, o: Schedule, at: int)
    | MustWrite(v: nat, o: Schedule)

  /** `Lost` is an error reported after the call took effect. */
  datatype Reply = Fails | Lost | Done | Reads(v: nat) | Missing

  datatype Step =
    | Tick(seconds: nat)
    | Edit(expr: string, disabled: bool)
    | Delete
    | Restart(w: nat)
    | Call(w: nat, reply: Reply)

  datatype System = System(server: Server, workers: map<nat, Worker>) {
    function At(w: nat): Worker {
      if w in workers then workers[w] else Idle
    }
  }

  // ---- the reconciler's own computations ----------------------------------

  const FIRST_WINDOW := 5 * 60

  function Base(o: Schedule, now: int): int {
    if o.lastRun.None? then now - FIRST_WINDOW else o.lastRun.value
  }

  function TickFor(k: Cron, o: Schedule, now: int): Option<int> {
    k.next(o.expr, Base(o, now))
  }

  /** `!prev.After(now)`: the zero time is after nothing. */
  predicate Due(k: Cron, o: Schedule, now: int) {
    TickFor(k, o, now).None? || TickFor(k, o, now).value <= now
  }

  function Planned(k: Cron, o: Schedule, now: int): Schedule {
    o.(nextRun := k.next(o.expr, now))
  }

  function Stamped(k: Cron, o: Schedule, now: int): Schedule {
    Planned(k, o.(lastRun := Some(now), lastStatus := Triggered), now)
  }

  /** What the code decides between reading the schedule and its next call. */
  function Decide(k: Cron, v: nat, o: Schedule, now: int): Worker {
    if o.disabled then Idle
    else if !k.valid(o.expr) then MustWrite(v, o.(lastStatus := InvalidCronExpr))
    else if Due(k, o, now) then MustPost(v, o, now)
    else MustWrite(v, Planned(k, o, now))
  }

  predicate UpdateWorks(s: Server, v: nat, r: Reply) {
    (r.Done? || r.Lost?) && !s.gone && v + 1 == |s.versions|
  }

  function Delivered(s: Server, o: Schedule, at: int): Server {
    s.(posts := s.posts + [Post(o.expr, o.lastRun, at)])
  }

  function CallStep(k: Cron, s: Server, w: Worker, r: Reply): (Server, Worker) {
    match w
    case Idle =>
      if r.Reads? && r.v < |s.versions| then (s, HasSchedule(r.v, s.versions[r.v])) else (s, Idle)
    case HasSchedule(v, o) =>
      (s, Decide(k, v, o, s.now))
    case MustPost(v, o, at) =>
      if r.Done? then (Delivered(s, o, at), MustWrite(v, Stamped(k, o, at)))
      else (if r.Lost? then Delivered(s, o, at) else s, MustWrite(v, o.(lastStatus := TriggerFailed)))
    case MustWrite(v, o) =>
      if UpdateWorks(s, v, r) then (s.(versions := s.versions + [o]), Idle) else (s, Idle)
  }

  function Next(k: Cron, c: System, step: Step): System {
    var s := c.server;
    match step
    case Tick(seconds) => c.(server := s.(now := s.now + seconds))
    case Edit(expr, disabled) =>
      if !s.gone && |s.versions| > 0
      then c.(server := s.(versions := s.versions + [s.versions[|s.versions| - 1].(expr := expr, disabled := disabled)]))
      else c
    case Delete => c.(server := s.(gone := true))
    case Restart(w) => c.(workers := c.workers[w := Idle])
    case Call(w, r) =>
      var (s', w') := CallStep(k, s, c.At(w), r);
      System(s', c.workers[w := w'])
  }

  function Run(k: Cron, c: System, steps: seq<Step>): System {
    if steps == [] then c else Next(k, Run(k, c, steps[..|steps| - 1]), steps[|steps| - 1])
  }

  function NewSchedule(expr: string): Schedule {
    Schedule(expr, false, None, None, NotRun)
  }

  function Fresh(expr: string, now: int): System {
    System(Server(now, [NewSchedule(expr)], false, []), map[])
  }

  // ---- cron ticks -------------------------------------------------------------

  /** Next is a tick after its argument and no later than any other. */
  lemma {:induction false} NextIsLeastTick(k: Cron, e: string, t: int)
    requires IsTicking(k, e) && k.next(e, t).Some?
    ensures t < k.next(e, t).value && IsTick(k, e, k.next(e, t).value)
    ensures forall x :: t < x && IsTick(k, e, x) ==> k.next(e, t).value <= x
  {
    assert LeastAfter(k, e, t);
    forall x | t < x && IsTick(k, e, x) ensures k.next(e, t).value <= x {
      assert x < k.next(e, t).value ==> k.next(e, x - 1) == k.next(e, t);
    }
  }

  /** The schedule is due exactly when a tick lies in the window, since the last
      run or in the last five minutes when it never ran, or the library finds no
      tick after the start of the window. */
  lemma {:induction false} DueMeans(k: Cron, o: Schedule, now: int)
    requires IsTicking(k, o.expr)
    ensures Due(k, o, now) <==>
      (exists x :: Base(o, now) < x <= now && IsTick(k, o.expr, x)) || k.next(o.expr, Base(o, now)).None?
  {
    if TickFor(k, o, now).Some? {
      NextIsLeastTick(k, o.expr, Base(o, now));
    }
  }

  // ---- invariant ----------------------------------------------------------------

  /** `b` may be stored after `a`: either the last run is kept, or it is the time
      of a trigger that was due and delivered. */
  ghost predicate Follows(k: Cron, s: Server, a: Schedule, b: Schedule) {
    b.lastRun == a.lastRun || (b.lastRun.Some? && Fired(k, s, a, b.lastRun.value))
  }

  ghost predicate Fired(k: Cron, s: Server, a: Schedule, at: int) {
    && k.valid(a.expr) && Due(k, a, at)
    && (a.lastRun.Some? ==> a.lastRun.value <= at)
    && Post(a.expr, a.lastRun, at) in s.posts
  }

  /** The last run lies in the past, and the advertised next run was computed then
      or since, for this expression or an earlier one. */
  ghost predicate Sound(k: Cron, s: Server, o: Schedule) {
    o.lastRun.Some? ==>
      && o.lastRun.value <= s.now
      && exists e, t :: k.valid(e) && o.lastRun.value <= t <= s.now && o.nextRun == k.next(e, t)
  }

  ghost predicate WorkerOk(k: Cron, s: Server, w: Worker) {
    match w
    case Idle => true
    case HasSchedule(v, o) => v < |s.versions| && o == s.versions[v]
    case MustPost(v, o, at) =>
      && v < |s.versions| && o == s.versions[v] && at <= s.now
      && k.valid(o.expr) && !o.disabled && Due(k, o, at) && (o.lastRun.Some? ==> o.lastRun.value <= at)
    case MustWrite(v, o) =>
      && v < |s.versions| && Sound(k, s, o) && Follows(k, s, s.versions[v], o)
      && o.expr == s.versions[v].expr && o.disabled == s.versions[v].disabled
  }

  ghost predicate HistoryOk(k: Cron, s: Server) {
    && s.versions != []
    && (forall v :: 0 <= v < |s.versions| ==> Sound(k, s, s.versions[v]))
    && (forall v :: 0 < v < |s.versions| ==> Follows(k, s, s.versions[v - 1], s.versions[v]))
  }

  ghost predicate Inv(k: Cron, c: System) {
    HistoryOk(k, c.server) && forall w :: w in c.workers ==> WorkerOk(k, c.server, c.workers[w])
  }

  ghost predicate Later(s: Server, t: Server) {
    s.now <= t.now && s.versions <= t.versions && s.posts <= t.posts && (s.gone ==> t.gone)
  }

  lemma {:induction false} WorkerLater(k: Cron, s: Server, t: Server, w: Worker)
    requires Later(s, t) && WorkerOk(k, s, w)
    ensures WorkerOk(k, t, w)
  {
  }

  lemma {:induction false} HistoryLater(k: Cron, s: Server, t: Server)
    requires Later(s, t) && HistoryOk(k, s) && t.versions == s.versions
    ensures HistoryOk(k, t)
  {
  }

  lemma {:induction false} StoreKeepsHistory(k: Cron, s: Server, o: Schedule)
    requires HistoryOk(k, s) && Sound(k, s, o) && Follows(k, s, s.versions[|s.versions| - 1], o)
    ensures var t := s.(versions := s.versions + [o]); HistoryOk(k, t) && Later(s, t)
  {
  }

  lemma {:induction false} DecisionIsOk(k: Cron, s: Server, v: nat)
    requires HistoryOk(k, s) && v < |s.versions|
    ensures WorkerOk(k, s, Decide(k, v, s.versions[v], s.now))
  {
    assert Sound(k, s, s.versions[v]);
  }

  lemma {:induction false} StampIsOk(k: Cron, s: Server, v: nat, o: Schedule, at: int)
    requires HistoryOk(k, s) && WorkerOk(k, s, MustPost(v, o, at))
    ensures WorkerOk(k, Delivered(s, o, at), MustWrite(v, Stamped(k, o, at)))
  {
    var t := Delivered(s, o, at);
    assert t.posts[|s.posts|] == Post(o.expr, o.lastRun, at);
    assert Fired(k, t, o, at);
  }

  lemma {:induction false} CallKeepsInv(k: Cron, s: Server, w: Worker, r: Reply)
    requires HistoryOk(k, s) && WorkerOk(k, s, w)
    ensures var (t, w') := CallStep(k, s, w, r); HistoryOk(k, t) && WorkerOk(k, t, w') && Later(s, t)
  {
    match w
    case Idle =>
    case HasSchedule(v, o) =>
      DecisionIsOk(k, s, v);
    case MustPost(v, o, at) =>
      assert Sound(k, s, s.versions[v]);
      HistoryLater(k, s, Delivered(s, o, at));
      StampIsOk(k, s, v, o, at);
    case MustWrite(v, o) =>
      if UpdateWorks(s, v, r) {
        StoreKeepsHistory(k, s, o);
      }
  }

  lemma {:induction false} StepKeepsInv(k: Cron, c: System, step: Step)
    requires Inv(k, c)
    ensures Inv(k, Next(k, c, step)) && Later(c.server, Next(k, c, step).server)
  {
    var s, d := c.server, Next(k, c, step);
    match step {
      case Call(w, r) =>
        CallKeepsInv(k, s, c.At(w), r);
      case Edit(expr, disabled) =>
        assert Sound(k, s, s.versions[|s.versions| - 1]);
        StoreKeepsHistory(k, s, s.versions[|s.versions| - 1].(expr := expr, disabled := disabled));
      case _ =>
        HistoryLater(k, s, d.server);
    }
    forall w | w in d.workers ensures WorkerOk(k, d.server, d.workers[w]) {
      if w in c.workers && !(step.Call? && step.w == w) && !(step.Restart? && step.w == w) {
        WorkerLater(k, s, d.server, c.workers[w]);
      }
    }
  }

  lemma {:induction false} FreshIsOk(k: Cron, expr: string, now: int)
    ensures Inv(k, Fresh(expr, now))
  {
  }

  lemma {:induction false} RunKeepsInv(k: Cron, c: System, steps: seq<Step>)
    requires Inv(k, c)
    ensures Inv(k, Run(k, c, steps)) && Later(c.server, Run(k, c, steps).server)
  {
    if steps != [] {
      RunKeepsInv(k, c, steps[..|steps| - 1]);
      StepKeepsInv(k, Run(k, c, steps[..|steps| - 1]), steps[|steps| - 1]);
    }
  }

  // ---- safety over all runs -------------------------------------------------------

  /** A stored version that records a trigger. */
  predicate Records(s: Server, v: nat)
    requires v < |s.versions|
  {
    v > 0 && s.versions[v].lastRun != s.versions[v - 1].lastRun
  }

  /** The tick a recorded trigger answers, if there is one. */
  function TickOf(k: Cron, s: Server, v: nat): Option<int>
    requires v < |s.versions| && Records(s, v) && s.versions[v].lastRun.Some?
  {
    TickFor(k, s.versions[v - 1], s.versions[v].lastRun.value)
  }

  /** Over every run, each recorded trigger was delivered. It answers what Next finds
      after the previous run, or after the time five minutes ago when there was none:
      a time after that and not after the recorded one, and a tick if the expression
      has ticks; or else the library finds nothing there. */
  lemma {:induction false} TriggersAnswerTicks(k: Cron, expr: string, now: int, steps: seq<Step>, v: nat)
    requires Forward(k)
    requires var s := Run(k, Fresh(expr, now), steps).server; v < |s.versions| && Records(s, v)
    ensures RecordAnswers(k, Run(k, Fresh(expr, now), steps).server, v)
  {
    hide Run;
    FreshIsOk(k, expr, now);
    RunKeepsInv(k, Fresh(expr, now), steps);
    HistoryAnswers(k, Run(k, Fresh(expr, now), steps).server, v);
  }

  ghost predicate RecordAnswers(k: Cron, s: Server, v: nat)
    requires v < |s.versions| && Records(s, v)
  {
    var a, b := s.versions[v - 1], s.versions[v];
    && b.lastRun.Some?
    && Post(a.expr, a.lastRun, b.lastRun.value) in s.posts
    && TickOf(k, s, v) == k.next(a.expr, Base(a, b.lastRun.value))
    && (TickOf(k, s, v).Some? ==>
          && Base(a, b.lastRun.value) < TickOf(k, s, v).value <= b.lastRun.value
          && (IsTicking(k, a.expr) ==> IsTick(k, a.expr, TickOf(k, s, v).value)))
  }

  lemma {:induction false} HistoryAnswers(k: Cron, s: Server, v: nat)
    requires Forward(k) && HistoryOk(k, s) && v < |s.versions| && Records(s, v)
    ensures RecordAnswers(k, s, v)
  {
    var a := s.versions[v - 1];
    assert Follows(k, s, a, s.versions[v]);
    if TickOf(k, s, v).Some? && IsTicking(k, a.expr) {
      NextIsLeastTick(k, a.expr, Base(a, s.versions[v].lastRun.value));
    }
  }

  /** The last run, once set, is never unset and never moves back. */
  lemma {:induction false} LastRunGrows(k: Cron, s: Server, i: nat, j: nat)
    requires HistoryOk(k, s) && i <= j < |s.versions| && s.versions[i].lastRun.Some?
    ensures s.versions[j].lastRun.Some? && s.versions[i].lastRun.value <= s.versions[j].lastRun.value
    decreases j
  {
    if i < j {
      LastRunGrows(k, s, i, j - 1);
      assert Follows(k, s, s.versions[j - 1], s.versions[j]);
    }
  }

  lemma {:induction false} LastRunNeverMovesBack(k: Cron, expr: string, now: int, steps: seq<Step>, more: seq<Step>, i: nat, j: nat)
    requires i < |Run(k, Fresh(expr, now), steps).server.versions|
    requires i <= j < |Run(k, Run(k, Fresh(expr, now), steps), more).server.versions|
    requires Run(k, Fresh(expr, now), steps).server.versions[i].lastRun.Some?
    ensures var s, t := Run(k, Fresh(expr, now), steps).server, Run(k, Run(k, Fresh(expr, now), steps), more).server;
      t.versions[j].lastRun.Some? && s.versions[i].lastRun.value <= t.versions[j].lastRun.value <= t.now
  {
    RunKeepsInv(k, Fresh(expr, now), steps);
    RunKeepsInv(k, Run(k, Fresh(expr, now), steps), more);
    var t := Run(k, Run(k, Fresh(expr, now), steps), more).server;
    LastRunGrows(k, t, i, j);
    assert Sound(k, t, t.versions[j]);
  }

  /** Distinct recorded triggers answer distinct ticks, in order, whatever edits
      were made between them: no tick is recorded twice. */
  lemma {:induction false} RecordedTicksAreDistinct(k: Cron, expr: string, now: int, steps: seq<Step>, u: nat, v: nat)
    requires Forward(k)
    requires var s := Run(k, Fresh(expr, now), steps).server; u < v < |s.versions| && Records(s, u) && Records(s, v)
    ensures var s := Run(k, Fresh(expr, now), steps).server;
      && s.versions[u].lastRun.Some? && s.versions[v].lastRun.Some?
      && (TickOf(k, s, u).Some? && TickOf(k, s, v).Some? ==> TickOf(k, s, u).value < TickOf(k, s, v).value)
  {
    hide Run, HistoryOk, TickOf, IsTicking, Forward;
    TriggersAnswerTicks(k, expr, now, steps, u);
    TriggersAnswerTicks(k, expr, now, steps, v);
    FreshIsOk(k, expr, now);
    RunKeepsInv(k, Fresh(expr, now), steps);
    LastRunGrows(k, Run(k, Fresh(expr, now), steps).server, u, v - 1);
  }

  ghost predicate NoEdits(steps: seq<Step>) {
    forall i :: 0 <= i < |steps| ==> !steps[i].Edit?
  }

  // ---- composing runs ----------------------------------------------------------------

  lemma {:induction false} RunConcat(k: Cron, c: System, a: seq<Step>, b: seq<Step>)
    ensures Run(k, c, a + b) == Run(k, Run(k, c, a), b)
  {
    hide Next;
    if b == [] {
      assert a + b == a;
    } else {
      RunConcat(k, c, a, b[..|b| - 1]);
      assert (a + b)[..|a + b| - 1] == a + b[..|b| - 1];
    }
  }

  lemma {:induction false} RunFour(k: Cron, c: System, a: Step, b: Step, d: Step, e: Step)
    ensures Run(k, c, [a, b, d, e]) == Next(k, Next(k, Next(k, Next(k, c, a), b), d), e)
  {
    assert [a, b, d, e][..3] == [a, b, d] && [a, b, d][..2] == [a, b] && [a, b][..1] == [a] && [a][..0] == [];
    assert Run(k, c, [a]) == Next(k, c, a);
    assert Run(k, c, [a, b]) == Next(k, Next(k, c, a), b);
    assert Run(k, c, [a, b, d]) == Next(k, Next(k, Next(k, c, a), b), d);
  }

  // ---- runs without edits --------------------------------------------------------------

  /** From version `n` on, every version has this expression. */
  ghost predicate KeepsExpr(s: Server, n: nat, expr: string) {
    forall v :: n <= v < |s.versions| ==> s.versions[v].expr == expr
  }

  lemma {:induction false} StepKeepsExpr(k: Cron, c: System, step: Step, n: nat, expr: string)
    requires Inv(k, c) && KeepsExpr(c.server, n, expr) && n < |c.server.versions| && !step.Edit?
    ensures KeepsExpr(Next(k, c, step).server, n, expr)
  {
    if step.Call? {
      var w := c.At(step.w);
      assert WorkerOk(k, c.server, w);
    }
  }

  lemma {:induction false} RunKeepsExpr(k: Cron, c: System, steps: seq<Step>, n: nat, expr: string)
    requires Inv(k, c) && KeepsExpr(c.server, n, expr) && n < |c.server.versions| && NoEdits(steps)
    ensures KeepsExpr(Run(k, c, steps).server, n, expr)
  {
    if steps != [] {
      var init := steps[..|steps| - 1];
      RunKeepsExpr(k, c, init, n, expr);
      RunKeepsInv(k, c, init);
      StepKeepsExpr(k, Run(k, c, init), steps[|steps| - 1], n, expr);
    }
  }

  // ---- the advertised next run ----------------------------------------------------

  /** Call `i` of the run reads the clock, in a Reconcile that holds an enabled
      schedule with a valid expression. */
  ghost predicate ReadsClock(k: Cron, c: System, steps: seq<Step>, i: nat) {
    && i < |steps| && steps[i].Call?
    && var w := Run(k, c, steps[..i]).At(steps[i].w);
      w.HasSchedule? && !w.o.disabled && k.valid(w.o.expr)
  }

  /** What that Reconcile holds. */
  ghost function Held(k: Cron, c: System, steps: seq<Step>, i: nat): Schedule
    requires ReadsClock(k, c, steps, i)
  {
    Run(k, c, steps[..i]).At(steps[i].w).o
  }

  ghost function ClockAt(k: Cron, c: System, steps: seq<Step>, i: nat): int
    requires i < |steps|
  {
    Run(k, c, steps[..i]).server.now
  }

  /** The next run was computed from the time read in call `i`, which also is the last
      run if the schedule held was due. */
  ghost predicate PlannedBy(k: Cron, c: System, steps: seq<Step>, i: nat, lastRun: Option<int>, nextRun: Option<int>) {
    && ReadsClock(k, c, steps, i)
    && var o, t := Held(k, c, steps, i), ClockAt(k, c, steps, i);
      nextRun == k.next(o.expr, t) && lastRun == if Due(k, o, t) then Some(t) else o.lastRun
  }

  ghost predicate Explained(k: Cron, c: System, steps: seq<Step>, lastRun: Option<int>, nextRun: Option<int>) {
    (lastRun.None? && nextRun.None?) || exists i: nat :: PlannedBy(k, c, steps, i, lastRun, nextRun)
  }

  ghost predicate WorkerExplained(k: Cron, c: System, steps: seq<Step>, w: Worker) {
    && (w != Idle ==> Explained(k, c, steps, w.o.lastRun, w.o.nextRun))
    && (w.MustPost? ==> Explained(k, c, steps, Some(w.at), k.next(w.o.expr, w.at)))
  }

  ghost predicate AllExplained(k: Cron, c: System, steps: seq<Step>) {
    var d := Run(k, c, steps);
    && (forall v :: 0 <= v < |d.server.versions| ==> Explained(k, c, steps, d.server.versions[v].lastRun, d.server.versions[v].nextRun))
    && (forall w :: w in d.workers ==> WorkerExplained(k, c, steps, d.workers[w]))
  }

  lemma {:induction false} ExplainedLater(k: Cron, c: System, steps: seq<Step>, step: Step, lastRun: Option<int>, nextRun: Option<int>)
    requires Explained(k, c, steps, lastRun, nextRun)
    ensures Explained(k, c, steps + [step], lastRun, nextRun)
  {
    hide Run, Due;
    if lastRun.Some? || nextRun.Some? {
      var i: nat :| PlannedBy(k, c, steps, i, lastRun, nextRun);
      assert (steps + [step])[..i] == steps[..i];
      assert PlannedBy(k, c, steps + [step], i, lastRun, nextRun);
    }
  }

  lemma {:induction false} DecisionExplained(k: Cron, c: System, steps: seq<Step>, w: nat, r: Reply)
    requires Run(k, c, steps).At(w).HasSchedule? && WorkerExplained(k, c, steps, Run(k, c, steps).At(w))
    ensures var d := Run(k, c, steps);
      WorkerExplained(k, c, steps + [Call(w, r)], Decide(k, d.At(w).v, d.At(w).o, d.server.now))
  {
    hide Run, Due, Explained;
    var d, all := Run(k, c, steps), steps + [Call(w, r)];
    var o, t := d.At(w).o, d.server.now;
    ExplainedLater(k, c, steps, Call(w, r), o.lastRun, o.nextRun);
    if !o.disabled && k.valid(o.expr) {
      assert all[..|steps|] == steps;
      ExplainedBy(k, c, all, |steps|, if Due(k, o, t) then Some(t) else o.lastRun, k.next(o.expr, t));
    }
  }

  lemma {:induction false} ExplainedBy(k: Cron, c: System, steps: seq<Step>, i: nat, lastRun: Option<int>, nextRun: Option<int>)
    requires PlannedBy(k, c, steps, i, lastRun, nextRun)
    ensures Explained(k, c, steps, lastRun, nextRun)
  {
  }

  lemma {:induction false} CallExplained(k: Cron, c: System, steps: seq<Step>, w: nat, r: Reply)
    requires AllExplained(k, c, steps)
    ensures WorkerExplained(k, c, steps + [Call(w, r)], CallStep(k, Run(k, c, steps).server, Run(k, c, steps).At(w), r).1)
  {
    hide Run, Due, Explained, Decide;
    var d := Run(k, c, steps);
    match d.At(w)
    case Idle =>
      if r.Reads? && r.v < |d.server.versions| {
        var o := d.server.versions[r.v];
        ExplainedLater(k, c, steps, Call(w, r), o.lastRun, o.nextRun);
      }
    case HasSchedule(_, _) =>
      DecisionExplained(k, c, steps, w, r);
    case MustPost(_, o, at) =>
      ExplainedLater(k, c, steps, Call(w, r), o.lastRun, o.nextRun);
      ExplainedLater(k, c, steps, Call(w, r), Some(at), k.next(o.expr, at));
    case MustWrite(_, _) =>
  }

  lemma {:induction false} StepExplained(k: Cron, c: System, steps: seq<Step>, step: Step)
    requires AllExplained(k, c, steps)
    ensures AllExplained(k, c, steps + [step])
  {
    hide Run, Due, Explained, CallStep;
    var d, e := Run(k, c, steps), Run(k, c, steps + [step]);
    RunStep(k, c, steps, step);
    forall v | 0 <= v < |e.server.versions|
      ensures Explained(k, c, steps + [step], e.server.versions[v].lastRun, e.server.versions[v].nextRun)
    {
      StoredBefore(k, d, step, v);
      ExplainedLater(k, c, steps, step, e.server.versions[v].lastRun, e.server.versions[v].nextRun);
    }
    forall w | w in e.workers ensures WorkerExplained(k, c, steps + [step], e.workers[w]) {
      if step.Call? && step.w == w {
        CallExplained(k, c, steps, w, step.reply);
      } else if w in d.workers && e.workers[w] == d.workers[w] && d.workers[w] != Idle {
        ExplainedLater(k, c, steps, step, d.workers[w].o.lastRun, d.workers[w].o.nextRun);
        if d.workers[w].MustPost? {
          ExplainedLater(k, c, steps, step, Some(d.workers[w].at), k.next(d.workers[w].o.expr, d.workers[w].at));
        }
      }
    }
  }

  lemma {:induction false} RunStep(k: Cron, c: System, steps: seq<Step>, step: Step)
    ensures Run(k, c, steps + [step]) == Next(k, Run(k, c, steps), step)
  {
    assert (steps + [step])[..|steps|] == steps;
  }

  /** The times of a stored version were stored before, or by a Reconcile that held
      them. */
  lemma {:induction false} StoredBefore(k: Cron, c: System, step: Step, v: nat)
    requires v < |Next(k, c, step).server.versions|
    ensures var o := Next(k, c, step).server.versions[v];
      || (exists u :: 0 <= u < |c.server.versions| && o.lastRun == c.server.versions[u].lastRun && o.nextRun == c.server.versions[u].nextRun)
      || (exists w :: w in c.workers && c.workers[w] != Idle && o == c.workers[w].o)
  {
    var o, n := Next(k, c, step).server.versions[v], |c.server.versions|;
    if v < n {
      assert o.lastRun == c.server.versions[v].lastRun;
    } else if step.Edit? {
      assert o.lastRun == c.server.versions[n - 1].lastRun;
    } else {
      assert o == c.workers[step.w].o;
    }
  }

  lemma {:induction false} RunExplained(k: Cron, expr: string, now: int, steps: seq<Step>)
    ensures AllExplained(k, Fresh(expr, now), steps)
  {
    if steps != [] {
      hide AllExplained;
      RunExplained(k, expr, now, steps[..|steps| - 1]);
      StepExplained(k, Fresh(expr, now), steps[..|steps| - 1], steps[|steps| - 1]);
      assert steps == steps[..|steps| - 1] + [steps[|steps| - 1]];
    }
  }

  /** Over every run, also with edits: a stored NextRunTime was computed from the time
      that some Reconcile read, for the expression it held; and if that schedule was
      due, this time is the stored LastRunTime, otherwise that is the one it held. */
  lemma {:induction false} NextRunWasPlanned(k: Cron, expr: string, now: int, steps: seq<Step>, v: nat)
    requires v < |Run(k, Fresh(expr, now), steps).server.versions|
    ensures var o := Run(k, Fresh(expr, now), steps).server.versions[v];
      o.lastRun.Some? || o.nextRun.Some? ==> exists i: nat :: PlannedBy(k, Fresh(expr, now), steps, i, o.lastRun, o.nextRun)
  {
    RunExplained(k, expr, now, steps);
  }

  /** Computed from `t`: as it ran, or since, when it was not due. */
  ghost predicate PlannedAt(k: Cron, o: Schedule, t: int) {
    && o.nextRun == k.next(o.expr, t)
    && (o.lastRun == Some(t) || (!Due(k, o, t) && (o.lastRun.Some? ==> o.lastRun.value <= t)))
  }

  /** Without edits the expression it was computed for is the schedule's own. */
  lemma {:induction false} PlanIsOwn(k: Cron, expr: string, now: int, steps: seq<Step>, v: nat) returns (i: nat)
    requires NoEdits(steps)
    requires var s := Run(k, Fresh(expr, now), steps).server;
      v < |s.versions| && (s.versions[v].lastRun.Some? || s.versions[v].nextRun.Some?)
    ensures var o := Run(k, Fresh(expr, now), steps).server.versions[v];
      o.expr == expr && k.valid(expr) && ReadsClock(k, Fresh(expr, now), steps, i) && PlannedAt(k, o, ClockAt(k, Fresh(expr, now), steps, i))
  {
    var c := Fresh(expr, now);
    NextRunWasPlanned(k, expr, now, steps, v);
    var o := Run(k, c, steps).server.versions[v];
    i :| PlannedBy(k, c, steps, i, o.lastRun, o.nextRun);
    hide Run;
    FreshIsOk(k, expr, now);
    RunKeepsExpr(k, c, steps, 0, expr);
    var init := steps[..i];
    RunKeepsExpr(k, c, init, 0, expr);
    RunKeepsInv(k, c, init);
    var d := Run(k, c, init);
    assert WorkerOk(k, d.server, d.At(steps[i].w));
    assert Sound(k, d.server, Held(k, c, steps, i));
  }

  /** Without edits, the NextRunTime of a schedule that never ran is what Next returns
      for a time at which a Reconcile found it not due. So it lies after that time,
      and for an expression with ticks it is the least tick after it. */
  lemma {:induction false} NextRunBeforeFirst(k: Cron, expr: string, now: int, steps: seq<Step>, v: nat)
    requires NoEdits(steps)
    requires var s := Run(k, Fresh(expr, now), steps).server;
      v < |s.versions| && s.versions[v].lastRun.None? && s.versions[v].nextRun.Some?
    ensures var o := Run(k, Fresh(expr, now), steps).server.versions[v];
      o.expr == expr && exists i: nat :: ReadsClock(k, Fresh(expr, now), steps, i) && WaitsSince(k, o, ClockAt(k, Fresh(expr, now), steps, i))
  {
    var i := PlanIsOwn(k, expr, now, steps, v);
    hide Run, Due;
    if IsTicking(k, expr) {
      NextIsLeastTick(k, expr, ClockAt(k, Fresh(expr, now), steps, i));
    }
    assert WaitsSince(k, Run(k, Fresh(expr, now), steps).server.versions[v], ClockAt(k, Fresh(expr, now), steps, i));
  }

  /** At `t` the schedule was not due, and its next run is the first tick since. */
  ghost predicate WaitsSince(k: Cron, o: Schedule, t: int)
    requires o.nextRun.Some?
  {
    && !Due(k, o, t) && o.nextRun == k.next(o.expr, t)
    && (Forward(k) ==> t < o.nextRun.value)
    && (IsTicking(k, o.expr) ==>
          && t < o.nextRun.value && IsTick(k, o.expr, o.nextRun.value)
          && forall x :: t < x < o.nextRun.value ==> !IsTick(k, o.expr, x))
  }

  /** Without edits, once a schedule with ticks has run, the NextRunTime it advertises
      is exactly the moment from which it is due again, and missing when it always is:
      failures, restarts and stale reads never leave a wrong one behind. */
  lemma {:induction false} NextRunIsWhenDue(k: Cron, expr: string, now: int, steps: seq<Step>, v: nat, t: int)
    requires IsTicking(k, expr) && NoEdits(steps)
    requires var s := Run(k, Fresh(expr, now), steps).server; v < |s.versions| && s.versions[v].lastRun.Some?
    ensures var o := Run(k, Fresh(expr, now), steps).server.versions[v];
      && (Due(k, o, t) <==> o.nextRun.None? || o.nextRun.value <= t)
      && (o.nextRun.Some? ==> o.lastRun.value < o.nextRun.value)
  {
    var i := PlanIsOwn(k, expr, now, steps, v);
    assert LeastAfter(k, expr, Run(k, Fresh(expr, now), steps).server.versions[v].lastRun.value);
  }

  function Latest(s: Server): Schedule
    requires s.versions != []
  {
    s.versions[|s.versions| - 1]
  }
}
