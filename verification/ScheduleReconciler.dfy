/** The Reconcile method of internal/operator/schedule_reconciler.go, step by step,
    and its place in the protocol. */
module ScheduleReconciler {
  import opened Seqs
  import opened Schedules

  ghost predicate Spares(w: nat, steps: seq<Step>) {
    forall i :: 0 <= i < |steps| ==> !(steps[i].Call? && steps[i].w == w) && !(steps[i].Restart? && steps[i].w == w)
  }

  /** Worker `w` making its calls `r`, with other steps happening before each. */
  ghost function Script(w: nat, r: seq<Reply>, between: seq<seq<Step>>, n: nat): seq<Step>
    requires n <= |r| && n <= |between|
  {
    if n == 0 then [] else Script(w, r, between, n - 1) + between[n - 1] + [Call(w, r[n - 1])]
  }

  lemma {:induction false} ScriptStep(k: Cron, c: System, w: nat, r: seq<Reply>, between: seq<seq<Step>>, n: nat)
    requires n < |r| && n < |between|
    ensures Run(k, c, Script(w, r, between, n + 1)) ==
      Next(k, Run(k, Run(k, c, Script(w, r, between, n)), between[n]), Call(w, r[n]))
    ensures Run(k, c, Script(w, r, between, 0)) == c
  {
    var a := Script(w, r, between, n) + between[n];
    RunConcat(k, c, Script(w, r, between, n), between[n]);
    assert (a + [Call(w, r[n])])[..|a|] == a;
  }

  lemma {:induction false} StepSpares(k: Cron, s: Server, others: map<nat, Worker>, w: nat, local: Worker, step: Step)
    requires w !in others && Spares(w, [step])
    ensures var c := Next(k, System(s, others), step);
      w !in c.workers && Next(k, System(s, others[w := local]), step) == System(c.server, c.workers[w := local])
  {
    assert [step][0] == step;
    var c := Next(k, System(s, others), step);
    if step.Call? {
      assert others[w := local][step.w := c.workers[step.w]] == c.workers[w := local];
    } else if step.Restart? {
      assert others[w := local][step.w := Idle] == c.workers[w := local];
    }
  }

  /** After `n` of its calls the worker still has some to make. */
  ghost predicate Busy(k: Cron, c: System, w: nat, r: seq<Reply>, between: seq<seq<Step>>, n: nat)
    requires n <= |r| && n <= |between|
  {
    Run(k, c, Script(w, r, between, n)).At(w) != Idle
  }

  lemma {:induction false} CallEffect(k: Cron, s: Server, others: map<nat, Worker>, w: nat, local: Worker, r: Reply)
    ensures var (t, after) := CallStep(k, s, local, r);
      Next(k, System(s, others[w := local]), Call(w, r)) == System(t, others[w := after])
  {
    assert others[w := local][w := CallStep(k, s, local, r).1] == others[w := CallStep(k, s, local, r).1];
  }

  /** The state in which the worker makes call `n`. */
  ghost function Before(k: Cron, c: System, w: nat, r: seq<Reply>, between: seq<seq<Step>>, n: nat): System
    requires 0 < n <= |r| && n <= |between|
  {
    Run(k, Run(k, c, Script(w, r, between, n - 1)), between[n - 1])
  }

  /** A Reconcile whose last call is answered so returns no error: the schedule is gone or
      disabled, or its expression was valid, the request, if any, succeeded, and the
      status was stored. */
  ghost predicate IsFine(k: Cron, c: System, w: nat, requested: bool, last: Reply) {
    match c.At(w)
    case Idle => last.Missing?
    case HasSchedule(_, o) => o.disabled
    case MustPost(_, _, _) => false
    case MustWrite(v, o) => k.valid(o.expr) && requested && UpdateWorks(c.server, v, last) && last.Done?
  }

  /** Go's `t.After(u)` when t may be the zero time. */
  predicate After(t: Option<int>, u: int) {
    t.Some? && u < t.value
  }

  /** The reconciler with the cluster and the daemon behind its clients. `others`
      holds the other Reconcile calls in flight. */
  class Reconciler {
    const cron: Cron
    var server: Server
    var others: map<nat, Worker>

    constructor (cron: Cron, expr: string, now: int)
      ensures this.cron == cron && System(server, others) == Fresh(expr, now)
    {
      this.cron, server, others := cron, Fresh(expr, now).server, map[];
    }

    ghost function With(w: nat, local: Worker): System
      reads this
    {
      System(server, others[w := local])
    }

    /** Whatever else happens between two calls. */
    method Meanwhile(w: nat, steps: seq<Step>, ghost local: Worker)
      requires w !in others && Spares(w, steps)
      modifies this
      ensures w !in others
      ensures With(w, local) == Run(cron, old(With(w, local)), steps)
    {
      for i := 0 to |steps|
        invariant w !in others
        invariant With(w, local) == Run(cron, old(With(w, local)), steps[..i])
      {
        assert steps[..i + 1][..i] == steps[..i];
        assert [steps[i]][0] == steps[i];
        StepSpares(cron, server, others, w, local, steps[i]);
        var c := Next(cron, System(server, others), steps[i]);
        server, others := c.server, c.workers;
      }
      assert steps[..|steps|] == steps;
    }

    method GetSchedule(r: Reply) returns (got: Option<(nat, Schedule)>)
      ensures got == if r.Reads? && r.v < |server.versions| then Some((r.v, server.versions[r.v])) else None
    {
      got := if r.Reads? && r.v < |server.versions| then Some((r.v, server.versions[r.v])) else None;
    }

    /** triggerScan: the daemon may have received a request that is reported as
        failed. */
    method TriggerScan(o: Schedule, at: int, r: Reply) returns (ok: bool)
      modifies `server
      ensures ok <==> r.Done?
      ensures server == if r.Done? || r.Lost? then Delivered(old(server), o, at) else old(server)
    {
      ok := r.Done?;
      if r.Done? || r.Lost? {
        server := Delivered(server, o, at);
      }
    }

    method UpdateStatus(v: nat, o: Schedule, r: Reply) returns (ok: bool)
      modifies `server
      ensures ok <==> UpdateWorks(old(server), v, r) && r.Done?
      ensures server == if UpdateWorks(old(server), v, r) then old(server).(versions := old(server).versions + [o]) else old(server)
    {
      ok := UpdateWorks(server, v, r) && r.Done?;
      if UpdateWorks(server, v, r) {
        server := server.(versions := server.versions + [o]);
      }
    }

    /** Reconcile of worker `w`, its calls answered by `r` and preceded by the
        steps `between` of everybody else, is exactly the worker's calls of the
        protocol until it is idle again. The second of the four is the
        reading of the clock. So every theorem about runs is about this code. */
    method Reconcile(w: nat, r: seq<Reply>, between: seq<seq<Step>>) returns (ok: bool, ghost calls: nat)
      requires |r| == |between| == 4 && w !in others
      requires forall i :: 0 <= i < 4 ==> Spares(w, between[i])
      modifies this
      ensures w !in others && 1 <= calls <= 4
      ensures With(w, Idle) == Run(cron, old(With(w, Idle)), Script(w, r, between, calls))
      ensures forall i :: 1 <= i < calls ==> Busy(cron, old(With(w, Idle)), w, r, between, i)
      ensures ok <==> IsFine(cron, Before(cron, old(With(w, Idle)), w, r, between, calls), w, calls == 4 ==> r[2].Done?, r[calls - 1])
    {
      hide Run, Script, Next, Spares, UpdateWorks;
      ghost var start := With(w, Idle);
      Meanwhile(w, between[0], Idle);
      CallEffect(cron, server, others, w, Idle, r[0]);
      ScriptStep(cron, start, w, r, between, 0);
      var got := GetSchedule(r[0]);
      if got.None? {
        return r[0].Missing?, 1;
      }
      var (v, o) := got.value;
      ghost var read := HasSchedule(v, o);
      Meanwhile(w, between[1], read);
      CallEffect(cron, server, others, w, read, r[1]);
      ScriptStep(cron, start, w, r, between, 1);
      if o.disabled {
        return true, 2;
      }
      if !cron.valid(o.expr) {
        var _ := Record(w, r, between, start, 2, v, o.(lastStatus := InvalidCronExpr));
        return false, 3;
      }
      var now := server.now;
      var next := cron.next(o.expr, now);
      var due;
      if o.lastRun.None? {
        var prev := cron.next(o.expr, now - 5 * 60);
        due := !After(prev, now);
      } else {
        var prev := cron.next(o.expr, o.lastRun.value);
        due := !After(prev, now);
      }
      assert due <==> Due(cron, o, now);
      if !due {
        ok := Record(w, r, between, start, 2, v, o.(nextRun := next));
        return ok, 3;
      }
      ok := PostAndRecord(w, r, between, start, v, o, now, next);
      calls := 4;
    }

    /** The branch of Reconcile for a schedule that is due. */
    method PostAndRecord(w: nat, r: seq<Reply>, between: seq<seq<Step>>, ghost start: System, v: nat, held: Schedule, now: int, next: Option<int>)
      returns (ok: bool)
      requires |r| == |between| == 4 && w !in others
      requires forall i :: 0 <= i < 4 ==> Spares(w, between[i])
      requires With(w, MustPost(v, held, now)) == Run(cron, start, Script(w, r, between, 2))
      requires next == cron.next(held.expr, now) && cron.valid(held.expr)
      modifies this
      ensures w !in others
      ensures With(w, Idle) == Run(cron, start, Script(w, r, between, 4)) && Busy(cron, start, w, r, between, 3)
      ensures ok <==> IsFine(cron, Before(cron, start, w, r, between, 4), w, r[2].Done?, r[3])
    {
      hide Run, Script, Next, Spares, UpdateWorks;
      Meanwhile(w, between[2], MustPost(v, held, now));
      CallEffect(cron, server, others, w, MustPost(v, held, now), r[2]);
      ScriptStep(cron, start, w, r, between, 2);
      ok := TriggerScan(held, now, r[2]);
      if !ok {
        var _ := Record(w, r, between, start, 3, v, held.(lastStatus := TriggerFailed));
        return;
      }
      var o := held.(lastRun := Some(now), lastStatus := Triggered);
      o := o.(nextRun := next);
      ok := Record(w, r, between, start, 3, v, o);
    }

    /** The status write that ends Reconcile, its call number `n`. */
    method Record(w: nat, r: seq<Reply>, between: seq<seq<Step>>, ghost start: System, n: nat, v: nat, o: Schedule) returns (ok: bool)
      requires |r| == |between| == 4 && w !in others && n < 4
      requires forall i :: 0 <= i < 4 ==> Spares(w, between[i])
      requires With(w, MustWrite(v, o)) == Run(cron, start, Script(w, r, between, n))
      modifies this
      ensures w !in others
      ensures With(w, Idle) == Run(cron, start, Script(w, r, between, n + 1))
      ensures Before(cron, start, w, r, between, n + 1).At(w) == MustWrite(v, o)
      ensures ok <==> UpdateWorks(Before(cron, start, w, r, between, n + 1).server, v, r[n]) && r[n].Done?
    {
      hide Run, Script, Next, Spares;
      Meanwhile(w, between[n], MustWrite(v, o));
      CallEffect(cron, server, others, w, MustWrite(v, o), r[n]);
      ScriptStep(cron, start, w, r, between, n);
      ok := UpdateStatus(v, o, r[n]);
    }
  }
}
