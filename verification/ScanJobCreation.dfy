/** When a ScanJob's Pod is created, and what its status holds, over the runs of the
    protocol. */
module ScanJobCreation {
  import opened Seqs
  import opened ScanJobs

  // ---- one reconcile without faults ------------------------------------------

  function Latest(s: Server): Status
    requires s.versions != []
  {
    s.versions[|s.versions| - 1]
  }

  /** A Reconcile call of worker `w` that reads what is there and whose calls all
      succeed, uninterrupted. */
  function QuietReconcile(s: Server, w: nat): seq<Step>
    requires s.versions != []
  {
    var pod := PodNameOf(s, Latest(s));
    var read := Call(w, Reads(|s.versions| - 1));
    if pod in s.pods
    then [read, Call(w, Shows(s.pods[pod])), Call(w, Done)]
    else [read, Call(w, Missing), Call(w, Done), Call(w, Done)]
  }

  lemma {:induction false} QuietCreate(c: System, w: nat)
    requires c.server.versions != [] && !c.server.gone && c.At(w) == Idle
    requires PodNameOf(c.server, Latest(c.server)) !in c.server.pods
    ensures var s := c.server;
      var pod := PodNameOf(s, Latest(s));
      var t := CreatePod(s, pod);
      Run(c, QuietReconcile(s, w)) ==
        System(t.(versions := s.versions + [Started(Latest(s), pod, s.now)]), c.workers[w := Idle])
  {
    hide Run;
    var s := c.server;
    var n := |s.versions| - 1;
    RunFour(c, Call(w, Reads(n)), Call(w, Missing), Call(w, Done), Call(w, Done));
    var c1 := Next(c, Call(w, Reads(n)));
    assert c1 == System(s, c.workers[w := HasJob(n, Latest(s))]);
    var c2 := Next(c1, Call(w, Missing));
    assert c2 == System(s, c.workers[w := NoPod(n, Latest(s))]);
    var pod := PodNameOf(s, Latest(s));
    var c3 := Next(c2, Call(w, Done));
    assert c3 == System(CreatePod(s, pod), c.workers[w := MustWrite(n, Started(Latest(s), pod, s.now))]);
    assert Next(c3, Call(w, Done)).workers == c.workers[w := Idle];
  }

  lemma {:induction false} QuietMirror(c: System, w: nat)
    requires c.server.versions != [] && !c.server.gone && c.At(w) == Idle
    requires var pod := PodNameOf(c.server, Latest(c.server));
      pod in c.server.pods && (pod, c.server.pods[pod]) in c.server.seen
    ensures var s := c.server;
      var phase := s.pods[PodNameOf(s, Latest(s))];
      Run(c, QuietReconcile(s, w)) ==
        System(s.(versions := s.versions + [Mirrored(Latest(s), phase, s.now)]), c.workers[w := Idle])
  {
    var s := c.server;
    var n, phase := |s.versions| - 1, s.pods[PodNameOf(s, Latest(s))];
    RunThree(c, Call(w, Reads(n)), Call(w, Shows(phase)), Call(w, Done));
    var c1 := Next(c, Call(w, Reads(n)));
    assert c1 == System(s, c.workers[w := HasJob(n, Latest(s))]);
    var c2 := Next(c1, Call(w, Shows(phase)));
    assert c2 == System(s, c.workers[w := MustWrite(n, Mirrored(Latest(s), phase, s.now))]);
    assert Next(c2, Call(w, Done)).workers == c.workers[w := Idle];
  }

  /** Whatever failed before, one reconcile without faults repairs it. From every
      reachable state in which the job still exists, it stores one status. If the
      Pod is alive that has its phase and, when the phase is terminal and the job had
      no completion time, the present as such; everything else stays. If not, the Pod
      is created, pending, and started at present; a completion time stays. */
  lemma {:induction false} ReconcileConverges(name: string, now: int, steps: seq<Step>, w: nat)
    requires var c := Run(Fresh(name, now), steps); !c.server.gone && c.At(w) == Idle
    ensures var c := Run(Fresh(name, now), steps);
      c.server.versions != [] &&
      var s := Run(c, QuietReconcile(c.server, w)).server;
      && s.versions != [] && name + "-scan" in s.pods
      && Latest(s).phase == s.pods[name + "-scan"]
      && (Latest(s).phase.Terminal() ==> Latest(s).completion.Some?)
      && s.versions == c.server.versions + [Latest(s)] && s.now == c.server.now
      && s.deleted == c.server.deleted && !s.gone
      && var before, after := Latest(c.server), Latest(s);
        if name + "-scan" in c.server.pods then
          && s.pods == c.server.pods && s.created == c.server.created
          && after.podName == before.podName && after.start == before.start
          && after.completion == (if after.phase.Terminal() && before.completion.None? then Some(s.now) else before.completion)
        else
          && s.created == c.server.created + [name + "-scan"]
          && after == Status(name + "-scan", Pending, Some(s.now), before.completion)
  {
    hide Run, WorkerOk, QuietReconcile;
    RunKeepsPods(name, now, steps);
    FreshIsOk(name, now);
    RunKeepsInv(Fresh(name, now), steps);
    var c := Run(Fresh(name, now), steps);
    var s := c.server;
    assert PodsOk(s);
    if PodNameOf(s, Latest(s)) in s.pods {
      QuietMirror(c, w);
    } else {
      QuietCreate(c, w);
    }
  }

  // ---- what is not promised ----------------------------------------------------

  /** The file promises "One-shot semantics — the controller never re-creates a Pod
      on failure". When a Pod is created again is proved below: never while it stays,
      failed or not, and possibly whenever it was deleted. In particular after
      completion: from every reachable state in which the job completed and its Pod
      is gone, one reconcile without faults creates the Pod again and stores a status
      that is pending, keeps its completion time and starts no earlier than that. */
  lemma {:induction false} CompletedJobRunsAgain(name: string, now: int, steps: seq<Step>, w: nat)
    requires CompletedAndGone(Run(Fresh(name, now), steps), w)
    ensures var c := Run(Fresh(name, now), steps);
      var s, t := c.server, Run(c, QuietReconcile(c.server, w)).server;
      && t.created == s.created + [name + "-scan"] && |t.versions| == |s.versions| + 1
      && Latest(t) == Status(name + "-scan", Pending, Some(s.now), Latest(s).completion)
      && Latest(s).completion.value <= s.now
  {
    hide Run;
    FreshIsOk(name, now);
    RunKeepsInv(Fresh(name, now), steps);
    var c := Run(Fresh(name, now), steps);
    assert Sound(c.server, c.server.versions[|c.server.versions| - 1]);
    QuietCreate(c, w);
    RunKeepsInv(c, QuietReconcile(c.server, w));
  }

  ghost predicate CompletedAndGone(c: System, w: nat) {
    && !c.server.gone && c.At(w) == Idle && c.server.pods == map[]
    && c.server.versions != [] && Latest(c.server).completion.Some?
  }

  lemma {:induction false} Then(c: System, steps: seq<Step>, step: Step)
    ensures Run(c, steps + [step]) == Next(Run(c, steps), step)
  {
    RunConcat(c, steps, [step]);
    RunOne(Run(c, steps), step);
  }

  /** There are such states: create, succeed, mirror, delete. */
  lemma {:induction false} JobsCompleteAndLoseTheirPod(name: string, now: int)
    ensures exists steps :: CompletedAndGone(Run(Fresh(name, now), steps), 0)
  {
    hide Run;
    var c, pod := Fresh(name, now), name + "-scan";
    assert |pod| == |name| + 5;
    var create := QuietReconcile(c.server, 0);
    QuietCreate(c, 0);
    var succeed := create + [Kubelet(pod, Succeeded)];
    Then(c, create, Kubelet(pod, Succeeded));
    var d := Run(c, succeed);
    var mirror := succeed + QuietReconcile(d.server, 0);
    QuietMirror(d, 0);
    RunConcat(c, succeed, QuietReconcile(d.server, 0));
    Then(c, mirror, DeletePod(pod));
    assert CompletedAndGone(Run(c, mirror + [DeletePod(pod)]), 0);
  }

  /** The bound of CreationsAreBounded is exact: for every n there is a run with n
      deletions and n + 1 creations. */
  lemma {:induction false} CreationBoundIsTight(name: string, now: int, n: nat)
    ensures exists steps :: var s := Run(Fresh(name, now), steps).server; |s.deleted| == n && |s.created| == n + 1
  {
    hide Run;
    var steps := TightRun(name, now, n);
    var s := Run(Fresh(name, now), steps).server;
    assert |s.deleted| == n && |s.created| == n + 1;
  }

  lemma {:induction false} TightRun(name: string, now: int, n: nat) returns (steps: seq<Step>)
    ensures var c := Run(Fresh(name, now), steps);
      && c.server.versions != [] && !c.server.gone && c.At(0) == Idle
      && |c.server.deleted| == n && |c.server.created| == n + 1
  {
    hide Run, Inv;
    var before, c := [], Fresh(name, now);
    RunFirst(c, Edit, []);
    if n > 0 {
      steps := TightRun(name, now, n - 1);
      RunKeepsPods(name, now, steps);
      before := steps + [DeletePod(name + "-scan")];
      Then(Fresh(name, now), steps, DeletePod(name + "-scan"));
      c := Run(Fresh(name, now), before);
    }
    RunKeepsPods(name, now, before);
    QuietCreate(c, 0);
    steps := before + QuietReconcile(c.server, 0);
    RunConcat(Fresh(name, now), before, QuietReconcile(c.server, 0));
  }

  /** Which Pods are alive in a reachable state. */
  lemma {:induction false} RunKeepsPods(name: string, now: int, steps: seq<Step>)
    ensures var s := Run(Fresh(name, now), steps).server;
      && s.pods.Keys == (if |s.created| == |s.deleted| then {} else {name + "-scan"})
      && s.versions != [] && PodNameOf(s, Latest(s)) == name + "-scan"
  {
    hide Run;
    FreshIsOk(name, now);
    RunKeepsInv(Fresh(name, now), steps);
    var s := Run(Fresh(name, now), steps).server;
    assert Sound(s, s.versions[|s.versions| - 1]);
    if |s.created| != |s.deleted| {
      var p :| p in s.pods;
    }
  }

  /** The Pod exists, but the write that would have stored its start time is
      lost, and nobody is about to repeat it. */
  ghost predicate StartLost(c: System) {
    && c.server.deleted == [] && c.server.created != []
    && (forall v :: 0 <= v < |c.server.versions| ==> c.server.versions[v].start.None?)
    && (forall w :: w in c.workers && c.workers[w].MustWrite? ==> c.workers[w].job.start.None?)
  }

  lemma {:induction false} StartStaysLost(c: System, step: Step)
    requires Inv(c) && StartLost(c) && !step.DeletePod?
    ensures StartLost(Next(c, step))
  {
    if step.Call? {
      var s := c.server;
      AtMostOne(s.pods.Keys, DefaultPodName(s));
      var w := c.At(step.w);
      if w.NoPod? {
        assert Sound(s, s.versions[w.v]);
        assert !CreateWorks(s, PodNameOf(s, w.job), step.reply);
      }
    }
  }

  /** Once that happened the start time is never stored, in any continuation,
      unless a Pod is deleted. */
  lemma {:induction false} LostStartIsNeverStored(c: System, more: seq<Step>)
    requires Inv(c) && StartLost(c)
    requires forall i :: 0 <= i < |more| ==> !more[i].DeletePod?
    ensures Inv(Run(c, more)) && StartLost(Run(c, more))
  {
    if more != [] {
      LostStartIsNeverStored(c, more[..|more| - 1]);
      StepKeepsInv(Run(c, more[..|more| - 1]), more[|more| - 1]);
      StartStaysLost(Run(c, more[..|more| - 1]), more[|more| - 1]);
    }
  }

  /** And it does happen: the first reconcile, its last call failing. */
  lemma {:induction false} StartCanBeLost(name: string, now: int)
    ensures StartLost(Run(Fresh(name, now), [Call(0, Reads(0)), Call(0, Missing), Call(0, Done), Call(0, Fails)]))
  {
    var c := Fresh(name, now);
    RunFour(c, Call(0, Reads(0)), Call(0, Missing), Call(0, Done), Call(0, Fails));
    var c1 := Next(c, Call(0, Reads(0)));
    assert c1 == System(c.server, map[0 := HasJob(0, NEW_STATUS)]);
    var c2 := Next(c1, Call(0, Missing));
    assert c2 == System(c.server, map[0 := NoPod(0, NEW_STATUS)]);
    var c3 := Next(c2, Call(0, Done));
    assert c3.server == CreatePod(c.server, name + "-scan") && c3.At(0).MustWrite?;
    assert Next(c3, Call(0, Fails)).workers == map[0 := Idle];
  }

  // ---- when a Pod is created ---------------------------------------------------------

  // "One-shot semantics — the controller never re-creates a Pod on failure" holds of a
  // Pod that stays; a Pod that was deleted is created again.

  /** Without a cache a read returns the newest version of a job that exists, and
      misses a Pod only when it is not there. */
  ghost predicate Allowed(c: System, step: Step, cached: bool) {
    && !step.DeletePod?
    && (step.Call? && c.At(step.w).Idle? && step.reply.Reads? && !cached ==>
          !c.server.gone && step.reply.v + 1 == |c.server.versions|)
    && (step.Call? && c.At(step.w).HasJob? && step.reply.Missing? && !cached ==>
          PodNameOf(c.server, c.At(step.w).job) !in c.server.pods)
  }

  ghost predicate AllowedRun(c: System, steps: seq<Step>, cached: bool)
    decreases |steps|
  {
    steps == [] || (Allowed(c, steps[0], cached) && AllowedRun(Next(c, steps[0]), steps[1..], cached))
  }

  /** Some continuation without deletions creates a Pod. */
  ghost predicate CanCreate(c: System, cached: bool) {
    exists steps :: AllowedRun(c, steps, cached) && |Run(c, steps).server.created| > |c.server.created|
  }

  ghost predicate HasRead(w: Worker) {
    w.HasJob? || w.NoPod?
  }

  /** No Pod is alive, and the job can be read or was read by a Reconcile that has
      not decided yet. */
  ghost predicate MayCreate(c: System, cached: bool) {
    && |c.server.created| == |c.server.deleted|
    && (cached || !c.server.gone || exists w :: w in c.workers && HasRead(c.workers[w]))
  }

  // ---- a Pod that stays ------------------------------------------------------------

  lemma {:induction false} StepKeepsPod(c: System, step: Step)
    requires Inv(c) && c.server.pods != map[] && !step.DeletePod?
    ensures Next(c, step).server.pods.Keys == c.server.pods.Keys && Next(c, step).server.created == c.server.created
  {
    hide HistoryOk, Sound;
    var s := c.server;
    var pod := DefaultPodName(s);
    var p :| p in s.pods;
    assert p == pod;
    if step.Call? {
      JobNamesPod(c, step.w);
    }
  }

  lemma {:induction false} JobNamesPod(c: System, w: nat)
    requires Inv(c)
    ensures c.At(w).HasJob? || c.At(w).NoPod? ==> PodNameOf(c.server, c.At(w).job) == DefaultPodName(c.server)
  {
    if c.At(w).HasJob? || c.At(w).NoPod? {
      assert WorkerOk(c.server, c.workers[w]);
      assert Sound(c.server, c.server.versions[c.At(w).v]);
    }
  }

  lemma {:induction false} RunKeepsPod(c: System, steps: seq<Step>)
    requires Inv(c) && c.server.pods != map[] && forall i :: 0 <= i < |steps| ==> !steps[i].DeletePod?
    ensures Run(c, steps).server.pods.Keys == c.server.pods.Keys && Run(c, steps).server.created == c.server.created
  {
    if steps != [] {
      var init := steps[..|steps| - 1];
      RunKeepsPod(c, init);
      RunKeepsInv(c, init);
      StepKeepsPod(Run(c, init), steps[|steps| - 1]);
    }
  }

  /** From every reachable state: a Pod that is not deleted, failed or not, is never
      created again, by any number of reconciles with any faults and stale reads. */
  lemma {:induction false} StandingPodIsNeverRecreated(name: string, now: int, steps: seq<Step>, more: seq<Step>)
    requires name + "-scan" in Run(Fresh(name, now), steps).server.pods
    requires forall i :: 0 <= i < |more| ==> !more[i].DeletePod?
    ensures var c := Run(Fresh(name, now), steps);
      var d := Run(c, more);
      d.server.created == c.server.created && name + "-scan" in d.server.pods
  {
    FreshIsOk(name, now);
    RunKeepsInv(Fresh(name, now), steps);
    RunKeepsPod(Run(Fresh(name, now), steps), more);
  }

  // ---- only a missing Pod is created ---------------------------------------------------

  ghost predicate NobodyCreates(c: System) {
    forall w :: w in c.workers ==> !c.workers[w].NoPod?
  }

  /** A read that fails for another reason never leads to a Pod: while no Reconcile
      is told that the Pod is missing, none is created. */
  lemma {:induction false} OnlyMissingIsCreated(c: System, more: seq<Step>)
    requires NobodyCreates(c)
    requires forall i :: 0 <= i < |more| ==> !(more[i].Call? && more[i].reply.Missing?)
    ensures NobodyCreates(Run(c, more)) && Run(c, more).server.created == c.server.created
  {
    if more != [] {
      OnlyMissingIsCreated(c, more[..|more| - 1]);
      StepCreatesNothing(Run(c, more[..|more| - 1]), more[|more| - 1]);
    }
  }

  lemma {:induction false} StepCreatesNothing(c: System, step: Step)
    requires NobodyCreates(c) && !(step.Call? && step.reply.Missing?)
    ensures NobodyCreates(Next(c, step)) && Next(c, step).server.created == c.server.created
  {
  }

  // ---- the exact condition -------------------------------------------------------------

  lemma {:induction false} StepKeepsIdle(c: System, step: Step)
    requires c.server.gone && (forall w :: w in c.workers ==> !HasRead(c.workers[w])) && Allowed(c, step, false)
    ensures var d := Next(c, step);
      d.server.gone && (forall w :: w in d.workers ==> !HasRead(d.workers[w])) && d.server.created == c.server.created
  {
  }

  lemma {:induction false} RunKeepsIdle(c: System, steps: seq<Step>)
    requires c.server.gone && (forall w :: w in c.workers ==> !HasRead(c.workers[w])) && AllowedRun(c, steps, false)
    ensures var d := Run(c, steps);
      d.server.gone && (forall w :: w in d.workers ==> !HasRead(d.workers[w])) && d.server.created == c.server.created
    decreases |steps|
  {
    hide Allowed, Next, Run;
    if steps == [] {
      RunFirst(c, Edit, []);
    } else {
      StepKeepsIdle(c, steps[0]);
      RunKeepsIdle(Next(c, steps[0]), steps[1..]);
      RunFirst(c, steps[0], steps[1..]);
      assert steps == [steps[0]] + steps[1..];
    }
  }

  lemma {:induction false} FirstThen(c: System, step: Step, cached: bool)
    requires Allowed(c, step, cached) && |c.server.created| <= |Next(c, step).server.created|
    requires CanCreate(Next(c, step), cached)
    ensures CanCreate(c, cached)
  {
    hide Allowed, Next, Run;
    var d := Next(c, step);
    var steps :| AllowedRun(d, steps, cached) && |Run(d, steps).server.created| > |d.server.created|;
    var all := [step] + steps;
    RunFirst(c, step, steps);
    assert all[0] == step && all[1..] == steps;
    assert AllowedRun(c, all, cached);
  }

  lemma {:induction false} RunFirst(c: System, step: Step, steps: seq<Step>)
    ensures Run(c, [step] + steps) == Run(Next(c, step), steps)
    ensures Run(c, []) == c
  {
    RunConcat(c, [step], steps);
    RunOne(c, step);
  }

  lemma {:induction false} FromReader(c: System, w: nat, cached: bool)
    requires HasRead(c.At(w)) && c.server.pods == map[]
    ensures CanCreate(c, cached)
    decreases c.At(w).HasJob?
  {
    if c.At(w).HasJob? {
      FromReader(Next(c, Call(w, Missing)), w, cached);
      FirstThen(c, Call(w, Missing), cached);
    } else {
      var steps := [Call(w, Done)];
      RunOne(c, Call(w, Done));
      assert steps[1..] == [];
      assert AllowedRun(c, steps, cached);
      assert |Run(c, steps).server.created| > |c.server.created|;
    }
  }

  lemma {:induction false} FromRead(c: System, cached: bool)
    requires c.server.versions != [] && (cached || !c.server.gone) && c.server.pods == map[]
    ensures CanCreate(c, cached)
  {
    var read := Call(0, Reads(|c.server.versions| - 1));
    var d := Next(c, Restart(0));
    FromReader(Next(d, read), 0, cached);
    FirstThen(d, read, cached);
    FirstThen(c, Restart(0), cached);
  }

  /** In every reachable state a continuation without deletions can create a Pod
      exactly when as many were deleted as created and, unless reads are cached, the
      job still exists or a Reconcile that read it has not decided yet. */
  lemma {:induction false} CanCreateIff(name: string, now: int, steps: seq<Step>, cached: bool)
    ensures var c := Run(Fresh(name, now), steps);
      CanCreate(c, cached) <==> MayCreate(c, cached)
  {
    hide Run, Allowed, Sound;
    FreshIsOk(name, now);
    RunKeepsInv(Fresh(name, now), steps);
    var c := Run(Fresh(name, now), steps);
    assert c.server.pods == map[] <==> |c.server.created| == |c.server.deleted|;
    if MayCreate(c, cached) {
      if cached || !c.server.gone {
        FromRead(c, cached);
      } else {
        var w :| w in c.workers && HasRead(c.workers[w]);
        FromReader(c, w, cached);
      }
    } else {
      forall more | AllowedRun(c, more, cached) ensures |Run(c, more).server.created| == |c.server.created| {
        NothingCreated(c, more, cached);
      }
    }
  }

  lemma {:induction false} NoDeletions(c: System, steps: seq<Step>, cached: bool)
    requires AllowedRun(c, steps, cached)
    ensures forall i :: 0 <= i < |steps| ==> !steps[i].DeletePod?
    decreases |steps|
  {
    if steps != [] {
      NoDeletions(Next(c, steps[0]), steps[1..], cached);
      assert forall i :: 1 <= i < |steps| ==> steps[i] == steps[1..][i - 1];
    }
  }

  lemma {:induction false} NothingCreated(c: System, more: seq<Step>, cached: bool)
    requires Inv(c) && !MayCreate(c, cached) && AllowedRun(c, more, cached)
    ensures |Run(c, more).server.created| == |c.server.created|
  {
    hide Run, HistoryOk, WorkerOk;
    NoDeletions(c, more, cached);
    if c.server.pods != map[] {
      RunKeepsPod(c, more);
    } else {
      RunKeepsIdle(c, more);
    }
  }
}
