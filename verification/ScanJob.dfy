/** internal/operator/scanjob_reconciler.go as a protocol: any number of
    Reconcile calls, interleaved call by call with each other, with the kubelet,
    with deletions and edits, with cached reads of old versions, and with API
    calls that fail before or after taking effect. */
module ScanJobs {
  import opened Seqs

  datatype Phase = NoPhase | Pending | Running | Succeeded | Failed | Unknown {
    predicate Terminal() {
      Succeeded? || Failed?
    }
  }

  datatype Status = Status(podName: string, phase: Phase, start: Option<int>, completion: Option<int>)

  /** The cluster as the reconciler sees it, for one ScanJob. `versions` holds
      every stored version of the resource's status, the newest last; its index
      plays the resource version. `seen` holds each phase a Pod was ever in, for
      a cached read may return an old one, with the first time it was. `created`
      and `deleted` log the names of the Pods created by the operator and of those
      deleted. */
  datatype Server = Server(
    name: string,
    now: int,
    versions: seq<Status>,
    gone: bool,
    pods: map<string, Phase>,
    seen: map<(string, Phase), int>,
    created: seq<string>,
    deleted: seq<string>)

  /** How far one Reconcile call has come: the version and status it read, and
      the next API call it is about to make. */
  datatype Worker =
    | Idle
    | HasJob(v: nat, job: Status)
    | NoPod(v: nat, job: Status)
    | MustWrite(v: nat, job: Status)

  /** The answer to an API call. `Lost` is an error reported after the call took
      effect. */
  datatype Reply = Fails | Lost | Done | Reads(v: nat) | Missing | Shows(phase: Phase)

  datatype Step =
    | Tick(seconds: nat)
    | Kubelet(pod: string, phase: Phase)
    | DeletePod(pod: string)
    | Edit
    | DeleteJob
    | Restart(w: nat)
    | Call(w: nat, reply: Reply)

  datatype System = System(server: Server, workers: map<nat, Worker>) {
    function At(w: nat): Worker {
      if w in workers then workers[w] else Idle
    }
  }

  // ---- the reconciler's own computations --------------------------------

  function DefaultPodName(s: Server): string {
    s.name + "-scan"
  }

  function PodNameOf(s: Server, job: Status): string {
    if job.podName == "" then DefaultPodName(s) else job.podName
  }

  function Started(job: Status, podName: string, now: int): Status {
    job.(podName := podName, phase := Pending, start := Some(now))
  }

  function Mirrored(job: Status, phase: Phase, now: int): Status {
    if phase.Terminal() && job.completion.None?
    then job.(phase := phase, completion := Some(now))
    else job.(phase := phase)
  }

  // ---- API calls ----------------------------------------------------------

  /** A Pod enters a phase. */
  function Enter(s: Server, pod: string, phase: Phase): Server {
    s.(pods := s.pods[pod := phase], seen := if (pod, phase) in s.seen then s.seen else s.seen[(pod, phase) := s.now])
  }

  function CreatePod(s: Server, pod: string): Server {
    Enter(s, pod, Pending).(created := s.created + [pod])
  }

  /** Create is rejected when a Pod of that name exists. */
  predicate CreateWorks(s: Server, pod: string, r: Reply) {
    (r.Done? || r.Lost?) && pod !in s.pods
  }

  /** Update is rejected when the version is not the stored one. */
  predicate UpdateWorks(s: Server, v: nat, r: Reply) {
    (r.Done? || r.Lost?) && !s.gone && v + 1 == |s.versions|
  }

  /** The next API call of a Reconcile call, and the code up to the one after. */
  function CallStep(s: Server, w: Worker, r: Reply): (Server, Worker) {
    match w
    case Idle =>
      if r.Reads? && r.v < |s.versions| then (s, HasJob(r.v, s.versions[r.v])) else (s, Idle)
    case HasJob(v, job) =>
      if r.Shows? && (PodNameOf(s, job), r.phase) in s.seen then (s, MustWrite(v, Mirrored(job, r.phase, s.now)))
      else if r.Missing? then (s, NoPod(v, job))
      else (s, Idle)
    case NoPod(v, job) =>
      var pod := PodNameOf(s, job);
      if !CreateWorks(s, pod, r) then (s, Idle)
      else (CreatePod(s, pod), if r.Done? then MustWrite(v, Started(job, pod, s.now)) else Idle)
    case MustWrite(v, job) =>
      if UpdateWorks(s, v, r) then (s.(versions := s.versions + [job]), Idle) else (s, Idle)
  }

  function Next(c: System, step: Step): System {
    var s := c.server;
    match step
    case Tick(seconds) => c.(server := s.(now := s.now + seconds))
    case Kubelet(pod, phase) =>
      if pod in s.pods
      then c.(server := Enter(s, pod, phase))
      else c
    case DeletePod(pod) =>
      if pod in s.pods
      then c.(server := s.(pods := s.pods - {pod}, deleted := s.deleted + [pod]))
      else c
    case Edit =>
      if !s.gone && |s.versions| > 0
      then c.(server := s.(versions := s.versions + [s.versions[|s.versions| - 1]]))
      else c
    case DeleteJob => c.(server := s.(gone := true))
    case Restart(w) => c.(workers := c.workers[w := Idle])
    case Call(w, r) =>
      var (s', w') := CallStep(s, c.At(w), r);
      System(s', c.workers[w := w'])
  }

  function Run(c: System, steps: seq<Step>): System {
    if steps == [] then c else Next(Run(c, steps[..|steps| - 1]), steps[|steps| - 1])
  }

  const NEW_STATUS := Status("", NoPhase, None, None)

  /** A freshly created ScanJob. */
  function Fresh(name: string, now: int): System {
    System(Server(name, now, [NEW_STATUS], false, map[], map[], [], []), map[])
  }

  // ---- invariant ----------------------------------------------------------

  /** A Pod of the job had terminated by the time `at`. */
  ghost predicate Terminated(s: Server, at: int) {
    exists p: Phase :: p.Terminal() && (DefaultPodName(s), p) in s.seen && s.seen[(DefaultPodName(s), p)] <= at
  }

  /** What every status the operator stores satisfies. */
  ghost predicate Sound(s: Server, job: Status) {
    && (job.podName == "" || job.podName == DefaultPodName(s))
    && (job.phase.Terminal() ==> job.completion.Some?)
    && (job.start.Some? ==> job.start.value <= s.now)
    && (job.completion.Some? ==> job.completion.value <= s.now && Terminated(s, job.completion.value))
    && (job.phase != NoPhase ==> (DefaultPodName(s), job.phase) in s.seen)
    && (s.deleted == [] && job.start.Some? && job.completion.Some? ==> job.start.value <= job.completion.value)
  }

  predicate KeepsCompletion(before: Status, after: Status) {
    before.completion.Some? ==> after.completion == before.completion
  }

  ghost predicate WorkerOk(s: Server, w: Worker) {
    match w
    case Idle => true
    case HasJob(v, job) => v < |s.versions| && job == s.versions[v]
    case NoPod(v, job) => v < |s.versions| && job == s.versions[v]
    case MustWrite(v, job) => v < |s.versions| && Sound(s, job) && KeepsCompletion(s.versions[v], job)
  }

  ghost predicate PodsOk(s: Server) {
    var pod := DefaultPodName(s);
    && s.pods.Keys <= {pod}
    && (forall p :: p in s.pods ==> (p, s.pods[p]) in s.seen)
    && (forall i :: 0 <= i < |s.created| ==> s.created[i] == pod)
    && (forall i :: 0 <= i < |s.deleted| ==> s.deleted[i] == pod)
    && |s.created| == |s.deleted| + |s.pods|
    && (forall x :: x in s.seen ==> x.0 == pod && s.seen[x] <= s.now && |s.created| > 0)
  }

  ghost predicate HistoryOk(s: Server) {
    && s.versions != []
    && (forall v :: 0 <= v < |s.versions| ==> Sound(s, s.versions[v]))
    && (forall v :: 0 < v < |s.versions| ==> KeepsCompletion(s.versions[v - 1], s.versions[v]))
  }

  ghost predicate Inv(c: System) {
    && PodsOk(c.server)
    && HistoryOk(c.server)
    && (forall w :: w in c.workers ==> WorkerOk(c.server, c.workers[w]))
  }

  /** The cluster only moves forward. */
  ghost predicate Later(s: Server, t: Server) {
    && t.name == s.name && s.now <= t.now
    && s.versions <= t.versions && (forall x :: x in s.seen ==> x in t.seen && t.seen[x] == s.seen[x])
    && s.created <= t.created && s.deleted <= t.deleted
    && (s.gone ==> t.gone)
  }

  lemma {:induction false} SoundLater(s: Server, t: Server, job: Status)
    requires Later(s, t) && Sound(s, job)
    ensures Sound(t, job)
  {
  }

  lemma {:induction false} WorkerLater(s: Server, t: Server, w: Worker)
    requires Later(s, t) && WorkerOk(s, w)
    ensures WorkerOk(t, w)
  {
    if w.MustWrite? {
      SoundLater(s, t, w.job);
    }
  }

  lemma {:induction false} HistoryLater(s: Server, t: Server)
    requires Later(s, t) && HistoryOk(s) && t.versions == s.versions
    ensures HistoryOk(t)
  {
    forall v | 0 <= v < |t.versions| ensures Sound(t, t.versions[v]) {
      SoundLater(s, t, s.versions[v]);
    }
  }

  lemma {:induction false} MirrorIsSound(s: Server, v: nat, phase: Phase)
    requires PodsOk(s) && HistoryOk(s) && v < |s.versions|
    requires (PodNameOf(s, s.versions[v]), phase) in s.seen
    ensures WorkerOk(s, MustWrite(v, Mirrored(s.versions[v], phase, s.now)))
  {
    assert Sound(s, s.versions[v]);
  }

  /** A Pod can only be created when none exists; if none was deleted either, no
      Pod ever terminated, so the job has no completion time yet. */
  lemma {:induction false} StartIsSound(s: Server, v: nat)
    requires PodsOk(s) && HistoryOk(s) && v < |s.versions|
    requires PodNameOf(s, s.versions[v]) !in s.pods
    ensures var pod := PodNameOf(s, s.versions[v]);
      && PodsOk(CreatePod(s, pod)) && Later(s, CreatePod(s, pod))
      && WorkerOk(CreatePod(s, pod), MustWrite(v, Started(s.versions[v], pod, s.now)))
  {
    var job := s.versions[v];
    assert Sound(s, job);
    var pod := PodNameOf(s, job);
    assert s.pods == map[];
    if s.deleted == [] {
      assert |s.created| == 0;
      assert forall at: int :: !Terminated(s, at);
    }
    var t := CreatePod(s, pod);
    assert t.pods == map[pod := Pending];
  }

  lemma {:induction false} CallKeepsInv(s: Server, w: Worker, r: Reply)
    requires PodsOk(s) && HistoryOk(s) && WorkerOk(s, w)
    ensures var (t, w') := CallStep(s, w, r);
      PodsOk(t) && HistoryOk(t) && WorkerOk(t, w') && Later(s, t)
  {
    match w
    case Idle =>
    case HasJob(v, job) =>
      if r.Shows? && (PodNameOf(s, job), r.phase) in s.seen {
        MirrorIsSound(s, v, r.phase);
      }
    case NoPod(v, job) =>
      if CreateWorks(s, PodNameOf(s, job), r) {
        StartIsSound(s, v);
        HistoryLater(s, CreatePod(s, PodNameOf(s, job)));
      }
    case MustWrite(v, job) =>
      if UpdateWorks(s, v, r) {
        WriteKeepsHistory(s, job);
      }
  }

  lemma {:induction false} WriteKeepsHistory(s: Server, job: Status)
    requires PodsOk(s) && HistoryOk(s) && Sound(s, job) && KeepsCompletion(s.versions[|s.versions| - 1], job)
    ensures var t := s.(versions := s.versions + [job]); PodsOk(t) && HistoryOk(t) && Later(s, t)
  {
    var t := s.(versions := s.versions + [job]);
    SoundLater(s, t, job);
    forall v | 0 <= v < |s.versions| ensures Sound(t, t.versions[v]) {
      SoundLater(s, t, s.versions[v]);
    }
  }

  lemma {:induction false} EnvironmentKeepsInv(c: System, step: Step)
    requires Inv(c) && !step.Call?
    ensures Inv(Next(c, step)) && Later(c.server, Next(c, step).server)
  {
    var s, t := c.server, Next(c, step).server;
    if step.Edit? {
      if !s.gone {
        WriteKeepsHistory(s, s.versions[|s.versions| - 1]);
      }
    } else {
      PodMovesOk(s, c, step);
      HistoryLater(s, t);
    }
    forall w | w in Next(c, step).workers ensures WorkerOk(t, Next(c, step).workers[w]) {
      if w in c.workers {
        WorkerLater(s, t, c.workers[w]);
      }
    }
  }

  lemma {:induction false} PodMovesOk(s: Server, c: System, step: Step)
    requires s == c.server && PodsOk(s) && !step.Call? && !step.Edit?
    ensures var t := Next(c, step).server; PodsOk(t) && Later(s, t) && t.versions == s.versions
  {
    if step.DeletePod? && step.pod in s.pods {
      assert s.pods.Keys == {step.pod};
      assert s.pods - {step.pod} == map[];
      assert |s.pods| == 1;
    }
    if step.Kubelet? && step.pod in s.pods {
      hide PodsOk;
      EnterOk(s, step.pod, step.phase);
    }
  }

  lemma {:induction false} EnterOk(s: Server, pod: string, phase: Phase)
    requires PodsOk(s) && pod in s.pods
    ensures PodsOk(Enter(s, pod, phase)) && Later(s, Enter(s, pod, phase)) && Enter(s, pod, phase).versions == s.versions
  {
    assert s.pods[pod := phase].Keys == s.pods.Keys;
  }

  lemma {:induction false} StepKeepsInv(c: System, step: Step)
    requires Inv(c)
    ensures Inv(Next(c, step)) && Later(c.server, Next(c, step).server)
  {
    if step.Call? {
      var s := c.server;
      CallKeepsInv(s, c.At(step.w), step.reply);
      var d := Next(c, step);
      forall w | w in d.workers ensures WorkerOk(d.server, d.workers[w]) {
        if w != step.w {
          WorkerLater(s, d.server, c.workers[w]);
        }
      }
    } else {
      EnvironmentKeepsInv(c, step);
    }
  }

  lemma {:induction false} RunKeepsInv(c: System, steps: seq<Step>)
    requires Inv(c)
    ensures Inv(Run(c, steps)) && Later(c.server, Run(c, steps).server)
  {
    if steps != [] {
      RunKeepsInv(c, steps[..|steps| - 1]);
      StepKeepsInv(Run(c, steps[..|steps| - 1]), steps[|steps| - 1]);
    }
  }

  lemma {:induction false} FreshIsOk(name: string, now: int)
    ensures Inv(Fresh(name, now))
  {
  }

  // ---- safety over all runs ------------------------------------------------

  /** Over every run, Pods created, deleted and alive balance, all under the one
      name; so there is at most one creation more than there are deletions. */
  lemma {:induction false} CreationsAreBounded(name: string, now: int, steps: seq<Step>)
    ensures var s := Run(Fresh(name, now), steps).server;
      && |s.created| == |s.deleted| + |s.pods| <= |s.deleted| + 1
      && (forall i :: 0 <= i < |s.created| ==> s.created[i] == name + "-scan")
  {
    FreshIsOk(name, now);
    RunKeepsInv(Fresh(name, now), steps);
    var s := Run(Fresh(name, now), steps).server;
    AtMostOne(s.pods.Keys, DefaultPodName(s));
  }

  lemma {:induction false} AtMostOne(keys: set<string>, k: string)
    requires keys <= {k}
    ensures |keys| <= 1 && (|keys| == 1 <==> k in keys)
  {
    assert keys == {} || keys == {k};
  }

  /** Over every run and every continuation of it: a stored completion time is
      never changed or removed, a stored terminal phase comes with one, it is never
      before the first time a Pod of the job terminated, and never in the future. */
  lemma {:induction false} CompletionIsWrittenOnce(name: string, now: int, steps: seq<Step>, more: seq<Step>, i: nat, j: nat)
    requires i < |Run(Fresh(name, now), steps).server.versions|
    requires i <= j < |Run(Run(Fresh(name, now), steps), more).server.versions|
    ensures var s, t := Run(Fresh(name, now), steps).server, Run(Run(Fresh(name, now), steps), more).server;
      && t.versions[i] == s.versions[i]
      && (s.versions[i].completion.Some? ==> t.versions[j].completion == s.versions[i].completion)
      && (s.versions[i].phase.Terminal() ==> s.versions[i].completion.Some?)
      && (s.versions[i].completion.Some? ==>
            Terminated(s, s.versions[i].completion.value) && s.versions[i].completion.value <= s.now)
  {
    FreshIsOk(name, now);
    RunKeepsInv(Fresh(name, now), steps);
    var c := Run(Fresh(name, now), steps);
    RunKeepsInv(c, more);
    assert Sound(c.server, c.server.versions[i]);
    if c.server.versions[i].completion.Some? {
      CompletionKept(Run(c, more).server, i, j);
    }
  }

  lemma {:induction false} CompletionKept(s: Server, i: nat, j: nat)
    requires HistoryOk(s) && i <= j < |s.versions| && s.versions[i].completion.Some?
    ensures s.versions[j].completion == s.versions[i].completion
    decreases j
  {
    if i < j {
      CompletionKept(s, i, j - 1);
      assert KeepsCompletion(s.versions[j - 1], s.versions[j]);
    }
  }

  /** As long as no Pod was deleted, no stored status completes before it
      starts. */
  lemma {:induction false} StartBeforeCompletion(name: string, now: int, steps: seq<Step>, v: nat)
    requires var s := Run(Fresh(name, now), steps).server; v < |s.versions| && s.deleted == []
    ensures var job := Run(Fresh(name, now), steps).server.versions[v];
      job.start.Some? && job.completion.Some? ==> job.start.value <= job.completion.value
  {
    FreshIsOk(name, now);
    RunKeepsInv(Fresh(name, now), steps);
    assert Sound(Run(Fresh(name, now), steps).server, Run(Fresh(name, now), steps).server.versions[v]);
  }

  // ---- composing runs ------------------------------------------------------------

  lemma {:induction false} RunConcat(c: System, a: seq<Step>, b: seq<Step>)
    ensures Run(c, a + b) == Run(Run(c, a), b)
  {
    hide Next;
    if b == [] {
      assert a + b == a;
    } else {
      RunConcat(c, a, b[..|b| - 1]);
      assert (a + b)[..|a + b| - 1] == a + b[..|b| - 1];
    }
  }

  lemma {:induction false} RunOne(c: System, a: Step)
    ensures Run(c, [a]) == Next(c, a)
  {
    assert [a][..0] == [];
  }

  lemma {:induction false} RunThree(c: System, a: Step, b: Step, d: Step)
    ensures Run(c, [a, b, d]) == Next(Next(Next(c, a), b), d)
  {
    RunOne(c, a);
    assert [a, b][..1] == [a] && [a, b, d][..2] == [a, b];
  }

  lemma {:induction false} RunFour(c: System, a: Step, b: Step, d: Step, e: Step)
    ensures Run(c, [a, b, d, e]) == Next(Next(Next(Next(c, a), b), d), e)
  {
    RunThree(c, a, b, d);
    assert [a, b, d, e][..3] == [a, b, d];
  }
}
