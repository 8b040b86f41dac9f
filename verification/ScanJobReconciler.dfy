/** The Reconcile method of internal/operator/scanjob_reconciler.go, step by step, and
    its place in the protocol. */
module ScanJobReconciler {
  import opened Seqs
  import opened ScanJobs

  ghost predicate Spares(w: nat, steps: seq<Step>) {
    forall i :: 0 <= i < |steps| ==> !(steps[i].Call? && steps[i].w == w) && !(steps[i].Restart? && steps[i].w == w)
  }

  /** Worker `w` making its calls `r`, with other steps happening before each. */
  ghost function Script(w: nat, r: seq<Reply>, between: seq<seq<Step>>, k: nat): seq<Step>
    requires k <= |r| && k <= |between|
  {
    if k == 0 then [] else Script(w, r, between, k - 1) + between[k - 1] + [Call(w, r[k - 1])]
  }

  lemma {:induction false} ScriptStep(c: System, w: nat, r: seq<Reply>, between: seq<seq<Step>>, k: nat)
    requires k < |r| && k < |between|
    ensures Run(c, Script(w, r, between, k + 1)) == Next(Run(Run(c, Script(w, r, between, k)), between[k]), Call(w, r[k]))
    ensures Run(c, Script(w, r, between, 0)) == c
  {
    var a := Script(w, r, between, k) + between[k];
    RunConcat(c, Script(w, r, between, k), between[k]);
    assert (a + [Call(w, r[k])])[..|a|] == a;
  }

  lemma {:induction false} StepSpares(s: Server, others: map<nat, Worker>, w: nat, local: Worker, step: Step)
    requires w !in others && Spares(w, [step])
    ensures var c := Next(System(s, others), step);
      w !in c.workers && c.server.name == s.name && Next(System(s, others[w := local]), step) == System(c.server, c.workers[w := local])
  {
    assert [step][0] == step;
    var c := Next(System(s, others), step);
    if step.Call? {
      assert others[w := local][step.w := c.workers[step.w]] == c.workers[w := local];
    } else if step.Restart? {
      assert others[w := local][step.w := Idle] == c.workers[w := local];
    }
  }

  /** After `k` of its calls the worker still has some to make. */
  ghost predicate Busy(c: System, w: nat, r: seq<Reply>, between: seq<seq<Step>>, k: nat)
    requires k <= |r| && k <= |between|
  {
    Run(c, Script(w, r, between, k)).At(w) != Idle
  }

  lemma {:induction false} CallEffect(s: Server, others: map<nat, Worker>, w: nat, local: Worker, r: Reply)
    ensures var (t, after) := CallStep(s, local, r);
      Next(System(s, others[w := local]), Call(w, r)) == System(t, others[w := after])
  {
    assert others[w := local][w := CallStep(s, local, r).1] == others[w := CallStep(s, local, r).1];
  }

  /** The state in which the worker makes call `k`. */
  ghost function Before(c: System, w: nat, r: seq<Reply>, between: seq<seq<Step>>, k: nat): System
    requires 0 < k <= |r| && k <= |between|
  {
    Run(Run(c, Script(w, r, between, k - 1)), between[k - 1])
  }

  /** A Reconcile whose last call is answered so returns no error: the job is gone, or the
      status was stored. */
  ghost predicate IsFine(c: System, w: nat, last: Reply) {
    match c.At(w)
    case Idle => last.Missing?
    case MustWrite(v, _) => UpdateWorks(c.server, v, last) && last.Done?
    case _ => false
  }

  datatype PodReply = NotFound | Unreachable | Found(phase: Phase)

  /** The reconciler with the cluster behind its client. `others` holds the other
      Reconcile calls in flight. */
  class Reconciler {
    var server: Server
    var others: map<nat, Worker>

    constructor (name: string, now: int)
      ensures System(server, others) == Fresh(name, now)
    {
      server, others := Fresh(name, now).server, map[];
    }

    ghost function With(w: nat, local: Worker): System
      reads this
    {
      System(server, others[w := local])
    }

    /** Whatever else happens between two API calls. */
    method Meanwhile(w: nat, steps: seq<Step>, ghost local: Worker)
      requires w !in others && Spares(w, steps)
      modifies this
      ensures w !in others && server.name == old(server.name)
      ensures With(w, local) == Run(old(With(w, local)), steps)
    {
      hide Next;
      for i := 0 to |steps|
        invariant w !in others && server.name == old(server.name)
        invariant With(w, local) == Run(old(With(w, local)), steps[..i])
      {
        assert steps[..i + 1][..i] == steps[..i];
        assert [steps[i]][0] == steps[i];
        StepSpares(server, others, w, local, steps[i]);
        var c := Next(System(server, others), steps[i]);
        server, others := c.server, c.workers;
      }
      assert steps[..|steps|] == steps;
    }

    method GetJob(r: Reply) returns (got: Option<(nat, Status)>)
      ensures got == if r.Reads? && r.v < |server.versions| then Some((r.v, server.versions[r.v])) else None
    {
      got := if r.Reads? && r.v < |server.versions| then Some((r.v, server.versions[r.v])) else None;
    }

    method GetPod(pod: string, r: Reply) returns (got: PodReply)
      ensures got ==
        if r.Shows? && (pod, r.phase) in server.seen then Found(r.phase) else if r.Missing? then NotFound else Unreachable
    {
      got := if r.Shows? && (pod, r.phase) in server.seen then Found(r.phase) else if r.Missing? then NotFound else Unreachable;
    }

    method Create(pod: string, r: Reply) returns (ok: bool)
      modifies `server
      ensures ok <==> CreateWorks(old(server), pod, r) && r.Done?
      ensures server == if CreateWorks(old(server), pod, r) then CreatePod(old(server), pod) else old(server)
    {
      ok := CreateWorks(server, pod, r) && r.Done?;
      if CreateWorks(server, pod, r) {
        server := CreatePod(server, pod);
      }
    }

    method UpdateStatus(v: nat, job: Status, r: Reply) returns (ok: bool)
      modifies `server
      ensures ok <==> UpdateWorks(old(server), v, r) && r.Done?
      ensures server == if UpdateWorks(old(server), v, r) then old(server).(versions := old(server).versions + [job]) else old(server)
    {
      ok := UpdateWorks(server, v, r) && r.Done?;
      if UpdateWorks(server, v, r) {
        server := server.(versions := server.versions + [job]);
      }
    }

    /** Reconcile of worker `w`, its API calls answered by `r` and preceded by the
        steps `between` of everybody else, is exactly the first `calls` calls of
        that worker in the protocol, and leaves the worker idle. So every
        theorem about runs is about this code. */
    method Reconcile(w: nat, r: seq<Reply>, between: seq<seq<Step>>) returns (ok: bool, ghost calls: nat)
      requires |r| == |between| == 4 && w !in others
      requires forall k :: 0 <= k < 4 ==> Spares(w, between[k])
      modifies this
      ensures w !in others && 1 <= calls <= 4
      ensures With(w, Idle) == Run(old(With(w, Idle)), Script(w, r, between, calls))
      ensures forall k :: 1 <= k < calls ==> Busy(old(With(w, Idle)), w, r, between, k)
      ensures ok <==> IsFine(Before(old(With(w, Idle)), w, r, between, calls), w, r[calls - 1])
    {
      hide Run, Script, Next, Spares;
      ghost var start := With(w, Idle);
      Meanwhile(w, between[0], Idle);
      CallEffect(server, others, w, Idle, r[0]);
      ScriptStep(start, w, r, between, 0);
      var got := GetJob(r[0]);
      if got.None? {
        return r[0].Missing?, 1;
      }
      var (v, job) := got.value;
      ghost var read := HasJob(v, job);
      var podName := job.podName;
      if podName == "" {
        podName := server.name + "-scan";
      }
      Meanwhile(w, between[1], read);
      CallEffect(server, others, w, read, r[1]);
      ScriptStep(start, w, r, between, 1);
      var pod := GetPod(podName, r[1]);
      match pod
      case NotFound =>
        ok, calls := CreateAndRecord(w, r, between, start, v, job, podName);
      case Unreachable =>
        return false, 2;
      case Found(phase) =>
        job := job.(phase := phase);
        match phase {
          case Succeeded | Failed =>
            if job.completion.None? {
              job := job.(completion := Some(server.now));
            }
          case _ =>
        }
        ok := Record(w, r, between, start, 2, v, job);
        calls := 3;
    }

    /** The final status write of Reconcile, its call number `k`. */
    method Record(w: nat, r: seq<Reply>, between: seq<seq<Step>>, ghost start: System, k: nat, v: nat, job: Status) returns (ok: bool)
      requires |r| == |between| == 4 && w !in others && k < 4
      requires forall i :: 0 <= i < 4 ==> Spares(w, between[i])
      requires With(w, MustWrite(v, job)) == Run(start, Script(w, r, between, k))
      modifies this
      ensures w !in others
      ensures With(w, Idle) == Run(start, Script(w, r, between, k + 1))
      ensures ok <==> IsFine(Before(start, w, r, between, k + 1), w, r[k])
    {
      hide Run, Script, Next, Spares;
      Meanwhile(w, between[k], MustWrite(v, job));
      CallEffect(server, others, w, MustWrite(v, job), r[k]);
      ScriptStep(start, w, r, between, k);
      ok := UpdateStatus(v, job, r[k]);
    }

    /** The NotFound branch of Reconcile. */
    method CreateAndRecord(w: nat, r: seq<Reply>, between: seq<seq<Step>>, ghost start: System, v: nat, found: Status, podName: string)
      returns (ok: bool, ghost calls: nat)
      requires |r| == |between| == 4 && w !in others
      requires forall k :: 0 <= k < 4 ==> Spares(w, between[k])
      requires podName == PodNameOf(server, found)
      requires With(w, NoPod(v, found)) == Run(start, Script(w, r, between, 2))
      modifies this
      ensures w !in others && 3 <= calls <= 4
      ensures With(w, Idle) == Run(start, Script(w, r, between, calls))
      ensures calls == 4 ==> Busy(start, w, r, between, 3)
      ensures ok <==> IsFine(Before(start, w, r, between, calls), w, r[calls - 1])
    {
      hide Run, Script, Next, Spares;
      Meanwhile(w, between[2], NoPod(v, found));
      CallEffect(server, others, w, NoPod(v, found), r[2]);
      ScriptStep(start, w, r, between, 2);
      ok := Create(podName, r[2]);
      if !ok {
        return false, 3;
      }
      var job := found.(podName := podName, phase := Pending, start := Some(server.now));
      ok := Record(w, r, between, start, 3, v, job);
      calls := 4;
    }
  }
}
