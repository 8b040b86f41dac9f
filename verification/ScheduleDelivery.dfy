/** Which ticks of a schedule are answered, over the runs of the protocol: at least
    once, not at most once, one answer for several. */
module ScheduleDelivery {
  import opened Seqs
  import opened Schedules

  // ---- at least once ------------------------------------------------------------------

  /** Version `v` is the first from `n` on that records a trigger. */
  ghost predicate FirstRecord(s: Server, n: nat, v: nat) {
    && n <= v < |s.versions| && Records(s, v)
    && forall u :: n <= u < v ==> !Records(s, u)
  }

  /** What happened to the last run that was stored in version `n - 1`. */
  lemma {:induction false} KeptOrRecorded(s: Server, n: nat, m: nat)
    requires 0 < n <= m <= |s.versions|
    ensures (forall v :: n <= v < m ==> !Records(s, v) && s.versions[v].lastRun == s.versions[n - 1].lastRun)
      || (exists v: nat :: v < m && FirstRecord(s, n, v) && s.versions[v - 1].lastRun == s.versions[n - 1].lastRun)
  {
    if n < m {
      KeptOrRecorded(s, n, m - 1);
      if Records(s, m - 1) && forall v :: n <= v < m - 1 ==> !Records(s, v) && s.versions[v].lastRun == s.versions[n - 1].lastRun {
        assert FirstRecord(s, n, m - 1);
        assert s.versions[m - 2].lastRun == s.versions[n - 1].lastRun;
      }
    }
  }

  /** The schedule waits as it did at version `n - 1`. */
  ghost predicate StillWaits(k: Cron, s: Server, d: Server) {
    && s.versions != [] && d.versions != []
    && Latest(d).lastRun == Latest(s).lastRun
    && Due(k, Latest(d), d.now) && TickFor(k, Latest(d), d.now) == TickFor(k, Latest(s), s.now)
  }

  /** Version `v` is the first trigger recorded after those of `s`, it answers the
      tick that was due then, and its request reached the daemon. */
  ghost predicate AnsweredBy(k: Cron, s: Server, d: Server, v: nat) {
    && s.versions != [] && FirstRecord(d, |s.versions|, v) && d.versions[v].lastRun.Some?
    && TickOf(k, d, v) == TickFor(k, Latest(s), s.now)
    && Post(Latest(s).expr, Latest(s).lastRun, d.versions[v].lastRun.value) in d.posts
  }

  /** At least once: take any reachable state with a last run and a due tick, and
      any continuation without edits, whatever fails, is lost or is read stale in
      it. Either the tick is still due, the same one; or the first trigger recorded
      since then answers exactly it, and was delivered. */
  lemma {:induction false} DueTickIsAnswered(k: Cron, expr: string, now: int, steps: seq<Step>, more: seq<Step>)
    requires NoEdits(more)
    requires var s := Run(k, Fresh(expr, now), steps).server;
      s.versions != [] && Latest(s).lastRun.Some? && Due(k, Latest(s), s.now)
    ensures var c := Run(k, Fresh(expr, now), steps);
      var s, d := c.server, Run(k, c, more).server;
      StillWaits(k, s, d) || exists v: nat :: AnsweredBy(k, s, d, v)
  {
    hide Run, Sound, WorkerOk;
    FreshIsOk(k, expr, now);
    RunKeepsInv(k, Fresh(expr, now), steps);
    var c := Run(k, Fresh(expr, now), steps);
    RunKeepsInv(k, c, more);
    var s, d := c.server, Run(k, c, more).server;
    var n := |s.versions|;
    RunKeepsExpr(k, c, more, n - 1, Latest(s).expr);
    KeptOrRecorded(d, n, |d.versions|);
    if v: nat :| v < |d.versions| && FirstRecord(d, n, v) && d.versions[v - 1].lastRun == d.versions[n - 1].lastRun {
      assert Follows(k, d, d.versions[v - 1], d.versions[v]);
      assert AnsweredBy(k, s, d, v);
    } else {
      assert Latest(d).expr == Latest(s).expr && Latest(d).lastRun == Latest(s).lastRun;
    }
  }

  /** A schedule that never ran is due for its latest tick during the five minutes
      after it, and afterwards only if the library finds no tick any more. */
  lemma {:induction false} FirstTickIsForgotten(k: Cron, o: Schedule, x: int, now: int)
    requires IsTicking(k, o.expr) && o.lastRun.None? && IsTick(k, o.expr, x)
    requires x <= now && forall y :: x < y <= now ==> !IsTick(k, o.expr, y)
    ensures Due(k, o, now) <==> now < x + 300 || k.next(o.expr, now - 300).None?
  {
    DueMeans(k, o, now);
    assert Base(o, now) == now - FIRST_WINDOW;
    if now < x + FIRST_WINDOW {
      assert Base(o, now) < x <= now && IsTick(k, o.expr, x);
    } else if y :| Base(o, now) < y <= now && IsTick(k, o.expr, y) {
      assert y <= x;
    }
  }

  /** Version `v` is the first trigger recorded after `s`, in which the schedule had
      never run, and was delivered. If its Reconcile read the clock in `s` or later,
      it answers `x` exactly when that was before the five minutes were over. */
  ghost predicate FirstAnswer(k: Cron, s: Server, d: Server, v: nat, x: int) {
    && s.versions != [] && FirstRecord(d, |s.versions|, v) && d.versions[v].lastRun.Some?
    && var at := d.versions[v].lastRun.value;
      && Post(Latest(s).expr, None, at) in d.posts
      && TickOf(k, d, v) == k.next(Latest(s).expr, at - 300)
      && (s.now <= at ==> (TickOf(k, d, v) == Some(x) <==> at < x + 300))
  }

  /** At least once for the first tick, but only for five minutes: take any reachable
      state of a schedule that never ran in which tick `x` is due, and any
      continuation without edits. Either the schedule still has not run, and `x` is
      the tick it waits for exactly until the five minutes are over; or the first
      trigger recorded since then was delivered, and answers `x` exactly if it was
      decided by then. */
  lemma {:induction false} FirstTickIsAnswered(k: Cron, expr: string, now: int, steps: seq<Step>, more: seq<Step>, x: int)
    requires NoEdits(more)
    requires var s := Run(k, Fresh(expr, now), steps).server;
      && s.versions != [] && Latest(s).lastRun.None? && IsTicking(k, Latest(s).expr)
      && TickFor(k, Latest(s), s.now) == Some(x) && x <= s.now
    ensures var c := Run(k, Fresh(expr, now), steps);
      var s, d := c.server, Run(k, c, more).server;
      || (d.versions != [] && Latest(d).lastRun.None? && (TickFor(k, Latest(d), d.now) == Some(x) <==> d.now < x + 300))
      || exists v: nat :: FirstAnswer(k, s, d, v, x)
  {
    hide Run, Sound, WorkerOk, IsTicking;
    FreshIsOk(k, expr, now);
    RunKeepsInv(k, Fresh(expr, now), steps);
    var c := Run(k, Fresh(expr, now), steps);
    RunKeepsInv(k, c, more);
    var s, d := c.server, Run(k, c, more).server;
    var n := |s.versions|;
    RunKeepsExpr(k, c, more, n - 1, Latest(s).expr);
    KeptOrRecorded(d, n, |d.versions|);
    if v: nat :| v < |d.versions| && FirstRecord(d, n, v) && d.versions[v - 1].lastRun == d.versions[n - 1].lastRun {
      assert Follows(k, d, d.versions[v - 1], d.versions[v]);
      WindowMoves(k, Latest(s).expr, s.now, d.versions[v].lastRun.value, x);
      assert FirstAnswer(k, s, d, v, x);
    } else {
      WindowMoves(k, Latest(s).expr, s.now, d.now, x);
    }
  }

  /** The tick that is due stays the first of the last five minutes until it leaves them. */
  lemma {:induction false} WindowMoves(k: Cron, expr: string, now: int, later: int, x: int)
    requires IsTicking(k, expr) && k.next(expr, now - FIRST_WINDOW) == Some(x)
    ensures now <= later ==> (k.next(expr, later - FIRST_WINDOW) == Some(x) <==> later < x + FIRST_WINDOW)
  {
    assert LeastAfter(k, expr, now - FIRST_WINDOW);
  }

  // ---- intervals ------------------------------------------------------------------------------

  /** With `@every` so many seconds a schedule that ran is due that long after its
      last run. The next run it advertises is computed anew by every reconcile, and
      so is late, but by less than the interval. */
  lemma {:induction false} IntervalNextRun(k: Cron, expr: string, now: int, steps: seq<Step>, v: nat, t: int, d: int)
    requires IsInterval(k, expr, d) && NoEdits(steps)
    requires var s := Run(k, Fresh(expr, now), steps).server; v < |s.versions| && s.versions[v].lastRun.Some?
    ensures var o := Run(k, Fresh(expr, now), steps).server.versions[v];
      && (Due(k, o, t) <==> o.lastRun.value + d <= t)
      && o.nextRun.Some? && o.lastRun.value + d <= o.nextRun.value < o.lastRun.value + 2 * d
  {
    var i := PlanIsOwn(k, expr, now, steps, v);
    var u := ClockAt(k, Fresh(expr, now), steps, i);
    assert k.next(expr, u) == Some(u + d);
  }

  /** Nothing has run, and no request is on its way. */
  ghost predicate Unstarted(expr: string, c: System) {
    && c.server.posts == []
    && (forall v :: 0 <= v < |c.server.versions| ==> c.server.versions[v].expr == expr && c.server.versions[v].lastRun.None?)
    && (forall w :: w in c.workers && c.workers[w] != Idle ==>
          !c.workers[w].MustPost? && c.workers[w].o.expr == expr && c.workers[w].o.lastRun.None?)
  }

  lemma {:induction false} StepStartsNothing(k: Cron, expr: string, c: System, step: Step, d: int)
    requires IsInterval(k, expr, d) && FIRST_WINDOW < d && !step.Edit? && Unstarted(expr, c)
    ensures Unstarted(expr, Next(k, c, step))
  {
    hide IsInterval;
    NotDueYet(k, expr, c.server.now, d);
  }

  lemma {:induction false} NotDueYet(k: Cron, expr: string, now: int, d: int)
    requires IsInterval(k, expr, d) && FIRST_WINDOW < d
    ensures k.next(expr, now - FIRST_WINDOW).Some? && now < k.next(expr, now - FIRST_WINDOW).value
  {
  }

  lemma {:induction false} NeverStarts(k: Cron, expr: string, now: int, steps: seq<Step>, d: int)
    requires IsInterval(k, expr, d) && FIRST_WINDOW < d && NoEdits(steps)
    ensures Unstarted(expr, Run(k, Fresh(expr, now), steps))
  {
    if steps != [] {
      hide Next;
      NeverStarts(k, expr, now, steps[..|steps| - 1], d);
      StepStartsNothing(k, expr, Run(k, Fresh(expr, now), steps[..|steps| - 1]), steps[|steps| - 1], d);
    }
  }

  /** A new schedule with such an expression ever triggers exactly if the interval is
      at most five minutes: before its first run there is no tick to look back for. */
  lemma {:induction false} IntervalStartsIff(k: Cron, expr: string, now: int, d: int)
    requires k.valid(expr) && IsInterval(k, expr, d)
    ensures (exists steps :: NoEdits(steps) && Run(k, Fresh(expr, now), steps).server.posts != []) <==> d <= 300
  {
    if d <= FIRST_WINDOW {
      var c := Fresh(expr, now);
      assert k.next(expr, now - FIRST_WINDOW) == Some(now - FIRST_WINDOW + d);
      TriggerEffect(k, c, 0, Done);
      assert NoEdits(Trigger(c.server, 0, Done));
      assert Run(k, c, Trigger(c.server, 0, Done)).server.posts[0] == Post(expr, None, now);
    } else {
      forall steps | NoEdits(steps) ensures Run(k, Fresh(expr, now), steps).server.posts == [] {
        NeverStarts(k, expr, now, steps, d);
      }
    }
  }

  // ---- every request was due ----------------------------------------------------------------

  ghost predicate AllAsked(k: Cron, s: Server) {
    forall p :: p in s.posts ==> Asked(k, s, p)
  }

  /** Some stored version asked for this request. */
  ghost predicate Asked(k: Cron, s: Server, p: Post) {
    && k.valid(p.expr) && p.at <= s.now
    && exists v :: 0 <= v < |s.versions| && AskedBy(k, s.versions[v], p)
  }

  ghost predicate AskedBy(k: Cron, o: Schedule, p: Post) {
    o.expr == p.expr && o.lastRun == p.base && !o.disabled && Due(k, o, p.at)
  }

  /** Over every run, also a request whose record was never stored: it was sent for an
      enabled schedule with a valid expression, at a time when a stored version of it
      was due. */
  lemma {:induction false} EveryPostWasDue(k: Cron, expr: string, now: int, steps: seq<Step>)
    ensures AllAsked(k, Run(k, Fresh(expr, now), steps).server)
  {
    if steps != [] {
      hide Next;
      var init := steps[..|steps| - 1];
      var c := Run(k, Fresh(expr, now), init);
      EveryPostWasDue(k, expr, now, init);
      FreshIsOk(k, expr, now);
      RunKeepsInv(k, Fresh(expr, now), init);
      StepKeepsAsked(k, c, steps[|steps| - 1]);
    }
  }

  lemma {:induction false} StepKeepsAsked(k: Cron, c: System, step: Step)
    requires Inv(k, c) && AllAsked(k, c.server)
    ensures AllAsked(k, Next(k, c, step).server)
  {
    hide AskedBy;
    StepKeepsInv(k, c, step);
    var s, t := c.server, Next(k, c, step).server;
    forall p | p in t.posts ensures Asked(k, t, p) {
      if p in s.posts {
        AskedLater(k, s, t, p);
      } else {
        var w := c.At(step.w);
        assert w.MustPost? && WorkerOk(k, s, w);
        NowAsked(k, s, w.v, w.o, w.at);
        AskedLater(k, s, t, p);
      }
    }
  }

  lemma {:induction false} AskedLater(k: Cron, s: Server, t: Server, p: Post)
    requires Later(s, t) && Asked(k, s, p)
    ensures Asked(k, t, p)
  {
    var v :| 0 <= v < |s.versions| && AskedBy(k, s.versions[v], p);
    assert AskedBy(k, t.versions[v], p);
  }

  lemma {:induction false} NowAsked(k: Cron, s: Server, v: nat, o: Schedule, at: int)
    requires WorkerOk(k, s, MustPost(v, o, at))
    ensures Asked(k, s, Post(o.expr, o.lastRun, at))
  {
    assert AskedBy(k, s.versions[v], Post(o.expr, o.lastRun, at));
  }

  // ---- one answer for several ticks ---------------------------------------------------------

  /** Of the ticks in the window of a recorded trigger only the first is ever
      answered by a record; the later ones are passed over, whatever is edited. */
  lemma {:induction false} OneAnswerPerWindow(k: Cron, expr: string, now: int, steps: seq<Step>, v: nat, y: int)
    requires Forward(k)
    requires var s := Run(k, Fresh(expr, now), steps).server;
      && v < |s.versions| && Records(s, v) && s.versions[v].lastRun.Some?
      && Base(s.versions[v - 1], s.versions[v].lastRun.value) < y <= s.versions[v].lastRun.value
    ensures var s := Run(k, Fresh(expr, now), steps).server;
      (exists u :: 0 <= u < |s.versions| && Records(s, u) && s.versions[u].lastRun.Some? && TickOf(k, s, u) == Some(y))
      <==> TickOf(k, s, v) == Some(y)
  {
    hide Run, HistoryOk, TickOf, IsTicking, Forward;
    var s := Run(k, Fresh(expr, now), steps).server;
    FreshIsOk(k, expr, now);
    RunKeepsInv(k, Fresh(expr, now), steps);
    forall u | 0 <= u < |s.versions| && Records(s, u) && s.versions[u].lastRun.Some? && TickOf(k, s, u) == Some(y) ensures u == v {
      TriggersAnswerTicks(k, expr, now, steps, u);
      if u < v {
        LastRunGrows(k, s, u, v - 1);
      } else if v < u {
        LastRunGrows(k, s, v, u - 1);
      }
    }
  }

  // ---- not at most once -----------------------------------------------------------------------

  /** What may happen from here on: reads of old versions, and edits. */
  datatype Freedom = Freedom(cached: bool, edits: bool)

  /** With this last run a Reconcile, now or later, is due for `x`. If there is none
      that depends on when it reads the clock. */
  ghost predicate Waits(k: Cron, lastRun: Option<int>, expr: string, x: int, now: int) {
    if lastRun.Some? then k.next(expr, lastRun.value) == Some(x)
    else exists from :: now - FIRST_WINDOW <= from && k.next(expr, from) == Some(x)
  }

  /** Reconciling `o`, now or later, posts for `x`. */
  ghost predicate Answers(k: Cron, o: Schedule, expr: string, x: int, now: int) {
    o.expr == expr && !o.disabled && Waits(k, o.lastRun, expr, x, now)
  }

  /** So does reconciling `o` or what an edit makes of it. */
  ghost predicate CanAnswer(k: Cron, o: Schedule, expr: string, x: int, now: int, f: Freedom) {
    Answers(k, o, expr, x, now) || (f.edits && Waits(k, o.lastRun, expr, x, now))
  }

  /** The request was made for tick `x`. */
  ghost predicate IsPostFor(k: Cron, p: Post, expr: string, x: int) {
    p.expr == expr && k.next(expr, if p.base.None? then p.at - FIRST_WINDOW else p.base.value) == Some(x)
  }

  /** What a read can return: with a cache any version, without it the newest one
      of a schedule that still exists. */
  predicate Readable(s: Server, v: nat, f: Freedom) {
    v < |s.versions| && (f.cached || Writable(s, v))
  }

  predicate Writable(s: Server, v: nat) {
    !s.gone && v + 1 == |s.versions|
  }

  /** A Reconcile in flight is about to post for `x`, or to store a status from
      which the next one would. */
  ghost predicate Holds(k: Cron, s: Server, w: Worker, expr: string, x: int, f: Freedom) {
    match w
    case Idle => false
    case HasSchedule(v, o) => Answers(k, o, expr, x, s.now)
    case MustPost(v, o, at) =>
      || IsPostFor(k, Post(o.expr, o.lastRun, at), expr, x)
      || (Writable(s, v) && CanAnswer(k, Stamped(k, o, at), expr, x, s.now, f))
    case MustWrite(v, o) => Writable(s, v) && CanAnswer(k, o, expr, x, s.now, f)
  }

  /** A stored version can be read, or edited and then read, that waits for `x`. */
  ghost predicate Offers(k: Cron, s: Server, v: nat, expr: string, x: int, f: Freedom) {
    && v < |s.versions|
    && ((Readable(s, v, f) && Answers(k, s.versions[v], expr, x, s.now))
        || (Writable(s, v) && CanAnswer(k, s.versions[v], expr, x, s.now, f)))
  }

  ghost predicate NoneStored(k: Cron, s: Server, expr: string, x: int, f: Freedom) {
    forall v: nat :: v < |s.versions| ==> !Offers(k, s, v, expr, x, f)
  }

  ghost predicate Armed(k: Cron, c: System, expr: string, x: int, f: Freedom) {
    !NoneStored(k, c.server, expr, x, f) || exists w :: w in c.workers && Holds(k, c.server, c.workers[w], expr, x, f)
  }

  ghost predicate Allowed(c: System, step: Step, f: Freedom) {
    && (step.Edit? ==> f.edits)
    && (step.Call? && c.At(step.w).Idle? && step.reply.Reads? ==> Readable(c.server, step.reply.v, f))
  }

  ghost predicate AllowedRun(k: Cron, c: System, steps: seq<Step>, f: Freedom)
    decreases |steps|
  {
    steps == [] || (Allowed(c, steps[0], f) && AllowedRun(k, Next(k, c, steps[0]), steps[1..], f))
  }

  ghost predicate PostsFor(k: Cron, before: Server, after: Server, expr: string, x: int) {
    exists i :: |before.posts| <= i < |after.posts| && IsPostFor(k, after.posts[i], expr, x)
  }

  /** Some continuation sends a further request for `x`. */
  ghost predicate CanBePosted(k: Cron, c: System, expr: string, x: int, f: Freedom) {
    exists steps :: AllowedRun(k, c, steps, f) && PostsFor(k, c.server, Run(k, c, steps).server, expr, x)
  }

  ghost predicate Past(k: Cron, expr: string, x: int, now: int) {
    k.valid(expr) && x <= now
  }

  // A state that is not armed stays so, and no request for `x` is sent.

  lemma {:induction false} NoLaterNext(k: Cron, expr: string, x: int, t: int)
    requires Forward(k) && k.valid(expr) && x <= t
    ensures k.next(expr, t) != Some(x)
  {
  }

  lemma {:induction false} WaitsLess(k: Cron, lastRun: Option<int>, expr: string, x: int, now: int, later: int)
    requires now <= later && Waits(k, lastRun, expr, x, later)
    ensures Waits(k, lastRun, expr, x, now)
  {
  }

  /** A reconcile that stamps the time of its decision waits for nothing past. */
  lemma {:induction false} DecisionDisarmed(k: Cron, s: Server, v: nat, o: Schedule, expr: string, x: int, f: Freedom)
    requires Forward(k) && Past(k, expr, x, s.now) && !Answers(k, o, expr, x, s.now)
    requires Writable(s, v) ==> !CanAnswer(k, o, expr, x, s.now, f)
    ensures !Holds(k, s, Decide(k, v, o, s.now), expr, x, f)
  {
    NoLaterNext(k, expr, x, s.now);
    assert o.lastRun.None? && k.next(expr, s.now - FIRST_WINDOW) == Some(x) ==> Waits(k, None, expr, x, s.now);
  }

  lemma {:induction false} CallDisarmed(k: Cron, s: Server, w: Worker, r: Reply, expr: string, x: int, f: Freedom)
    requires Forward(k) && Past(k, expr, x, s.now) && WorkerOk(k, s, w)
    requires NoneStored(k, s, expr, x, f) && !Holds(k, s, w, expr, x, f)
    requires w.Idle? && r.Reads? ==> Readable(s, r.v, f)
    ensures var (t, w') := CallStep(k, s, w, r);
      NoneStored(k, t, expr, x, f) && !Holds(k, t, w', expr, x, f) && !PostsFor(k, s, t, expr, x)
  {
    hide Forward, Past, Sound, Follows, Waits;
    var (t, w') := CallStep(k, s, w, r);
    match w
    case Idle =>
      assert r.Reads? && r.v < |s.versions| ==> !Offers(k, s, r.v, expr, x, f);
    case HasSchedule(v, o) =>
      assert !Offers(k, s, v, expr, x, f);
      DecisionDisarmed(k, s, v, o, expr, x, f);
    case MustPost(v, o, at) =>
      assert !Offers(k, s, v, expr, x, f);
      forall u: nat | u < |t.versions| ensures !Offers(k, t, u, expr, x, f) {
        assert !Offers(k, s, u, expr, x, f);
      }
    case MustWrite(v, o) =>
      StoreDisarmed(k, s, v, o, expr, x, f);
  }

  /** Also what an edit stores. */
  lemma {:induction false} StoreDisarmed(k: Cron, s: Server, v: nat, o: Schedule, expr: string, x: int, f: Freedom)
    requires NoneStored(k, s, expr, x, f) && (Writable(s, v) ==> !CanAnswer(k, o, expr, x, s.now, f))
    ensures Writable(s, v) ==> NoneStored(k, s.(versions := s.versions + [o]), expr, x, f)
  {
    hide Waits;
    if Writable(s, v) {
      var t := s.(versions := s.versions + [o]);
      forall u: nat | u < |t.versions| ensures !Offers(k, t, u, expr, x, f) {
        if u < |s.versions| {
          assert !Offers(k, s, u, expr, x, f);
        }
      }
    }
  }

  lemma {:induction false} OthersDisarmed(k: Cron, s: Server, t: Server, w: Worker, expr: string, x: int, f: Freedom)
    requires Later(s, t) && WorkerOk(k, s, w) && !Holds(k, s, w, expr, x, f)
    ensures !Holds(k, t, w, expr, x, f)
  {
    hide Sound, Follows, Due, Waits;
    forall lastRun | Waits(k, lastRun, expr, x, t.now) ensures Waits(k, lastRun, expr, x, s.now) {
      WaitsLess(k, lastRun, expr, x, s.now, t.now);
    }
  }

  lemma {:induction false} ServerDisarmed(k: Cron, s: Server, t: Server, expr: string, x: int, f: Freedom)
    requires Later(s, t) && t.versions == s.versions && t.posts == s.posts && NoneStored(k, s, expr, x, f)
    ensures NoneStored(k, t, expr, x, f) && !PostsFor(k, s, t, expr, x)
  {
    hide Waits;
    forall v: nat | v < |t.versions| ensures !Offers(k, t, v, expr, x, f) {
      assert !Offers(k, s, v, expr, x, f);
      if Waits(k, t.versions[v].lastRun, expr, x, t.now) {
        WaitsLess(k, t.versions[v].lastRun, expr, x, s.now, t.now);
      }
    }
  }

  lemma {:induction false} EditDisarmed(k: Cron, s: Server, expr: string, disabled: bool, e: string, x: int, f: Freedom)
    requires NoneStored(k, s, e, x, f) && f.edits && !s.gone && s.versions != []
    ensures NoneStored(k, s.(versions := s.versions + [Latest(s).(expr := expr, disabled := disabled)]), e, x, f)
  {
    hide Waits, NoneStored;
    var v := |s.versions| - 1;
    NotOffered(k, s, v, e, x, f);
    StoreDisarmed(k, s, v, Latest(s).(expr := expr, disabled := disabled), e, x, f);
  }

  lemma {:induction false} NotOffered(k: Cron, s: Server, v: nat, e: string, x: int, f: Freedom)
    requires NoneStored(k, s, e, x, f) && v < |s.versions|
    ensures !Offers(k, s, v, e, x, f)
  {
  }

  lemma {:induction false} StepDisarmed(k: Cron, c: System, step: Step, expr: string, x: int, f: Freedom)
    requires Forward(k) && Inv(k, c) && Past(k, expr, x, c.server.now)
    requires !Armed(k, c, expr, x, f) && Allowed(c, step, f)
    ensures !Armed(k, Next(k, c, step), expr, x, f) && !PostsFor(k, c.server, Next(k, c, step).server, expr, x)
    ensures Past(k, expr, x, Next(k, c, step).server.now)
  {
    hide Forward, HistoryOk, CallStep, NoneStored, Answers, CanAnswer, Waits, Due, Sound, Follows, IsPostFor, Stamped;
    StepKeepsInv(k, c, step);
    var d := Next(k, c, step);
    if step.Call? {
      assert WorkerOk(k, c.server, Idle) && !Holds(k, c.server, Idle, expr, x, f);
      CallDisarmed(k, c.server, c.At(step.w), step.reply, expr, x, f);
    } else if step.Edit? && !c.server.gone && c.server.versions != [] {
      EditDisarmed(k, c.server, step.expr, step.disabled, expr, x, f);
    } else {
      ServerDisarmed(k, c.server, d.server, expr, x, f);
    }
    assert !Holds(k, d.server, Idle, expr, x, f);
    forall w | w in d.workers ensures !Holds(k, d.server, d.workers[w], expr, x, f) {
      if w in c.workers && d.workers[w] == c.workers[w] {
        OthersDisarmed(k, c.server, d.server, c.workers[w], expr, x, f);
      }
    }
  }

  lemma {:induction false} RunDisarmed(k: Cron, c: System, steps: seq<Step>, expr: string, x: int, f: Freedom)
    requires Forward(k) && Inv(k, c) && Past(k, expr, x, c.server.now)
    requires !Armed(k, c, expr, x, f) && AllowedRun(k, c, steps, f)
    ensures var d := Run(k, c, steps);
      && Inv(k, d) && Later(c.server, d.server) && Past(k, expr, x, d.server.now)
      && !Armed(k, d, expr, x, f) && !PostsFor(k, c.server, d.server, expr, x)
    decreases |steps|
  {
    hide Forward, Inv, Past, Armed, Allowed, Next, Run;
    if steps == [] {
      RunFirst(k, c, Restart(0), []);
    } else {
      var d := Next(k, c, steps[0]);
      StepKeepsInv(k, c, steps[0]);
      StepDisarmed(k, c, steps[0], expr, x, f);
      RunDisarmed(k, d, steps[1..], expr, x, f);
      RunFirst(k, c, steps[0], steps[1..]);
      assert steps == [steps[0]] + steps[1..];
    }
  }

  // An armed state has a continuation that sends one.

  lemma {:induction false} FirstThen(k: Cron, c: System, step: Step, expr: string, x: int, f: Freedom)
    requires Allowed(c, step, f) && |c.server.posts| <= |Next(k, c, step).server.posts|
    requires CanBePosted(k, Next(k, c, step), expr, x, f)
    ensures CanBePosted(k, c, expr, x, f)
  {
    hide Allowed, Next, Run;
    var d := Next(k, c, step);
    var steps :| AllowedRun(k, d, steps, f) && PostsFor(k, d.server, Run(k, d, steps).server, expr, x);
    var all := [step] + steps;
    RunFirst(k, c, step, steps);
    assert all[0] == step && all[1..] == steps;
    assert AllowedRun(k, c, all, f);
  }

  lemma {:induction false} RunFirst(k: Cron, c: System, step: Step, steps: seq<Step>)
    ensures Run(k, c, [step] + steps) == Run(k, Next(k, c, step), steps)
    ensures Run(k, c, []) == c
  {
    RunConcat(k, c, [step], steps);
    assert [step][..0] == [];
    assert Run(k, c, [step]) == Next(k, c, step);
  }

  lemma {:induction false} FromPost(k: Cron, c: System, w: nat, expr: string, x: int, f: Freedom)
    requires c.At(w).MustPost? && IsPostFor(k, Post(c.At(w).o.expr, c.At(w).o.lastRun, c.At(w).at), expr, x)
    ensures CanBePosted(k, c, expr, x, f)
  {
    var step := Call(w, Done);
    var d := Next(k, c, step);
    assert d.server.posts[|c.server.posts|] == Post(c.At(w).o.expr, c.At(w).o.lastRun, c.At(w).at);
    assert [step][..0] == [];
    RunFirst(k, c, step, []);
    assert [step] + [] == [step];
    assert [step][1..] == [];
    assert AllowedRun(k, c, [step], f);
    assert PostsFor(k, c.server, Run(k, c, [step]).server, expr, x);
  }

  lemma {:induction false} FromDecision(k: Cron, c: System, w: nat, expr: string, x: int, f: Freedom)
    requires Past(k, expr, x, c.server.now)
    requires c.At(w).HasSchedule? && Answers(k, c.At(w).o, expr, x, c.server.now)
    ensures CanBePosted(k, c, expr, x, f)
  {
    var o := c.At(w).o;
    var t := c.server.now;
    if o.lastRun.None? {
      var from :| t - FIRST_WINDOW <= from && k.next(expr, from) == Some(x);
      t := from + FIRST_WINDOW;
    }
    var wait: nat := t - c.server.now;
    var d := Next(k, c, Tick(wait));
    assert TickFor(k, o, t) == Some(x);
    var e := Next(k, d, Call(w, Done));
    assert e.At(w) == MustPost(c.At(w).v, o, t);
    FromPost(k, e, w, expr, x, f);
    FirstThen(k, d, Call(w, Done), expr, x, f);
    FirstThen(k, c, Tick(wait), expr, x, f);
  }

  lemma {:induction false} FromReadable(k: Cron, c: System, v: nat, expr: string, x: int, f: Freedom)
    requires Past(k, expr, x, c.server.now)
    requires Readable(c.server, v, f) && Answers(k, c.server.versions[v], expr, x, c.server.now)
    ensures CanBePosted(k, c, expr, x, f)
  {
    hide Past, Answers;
    var d := Next(k, c, Restart(0));
    var e := Next(k, d, Call(0, Reads(v)));
    assert d.At(0) == Idle && e.At(0) == HasSchedule(v, c.server.versions[v]);
    FromDecision(k, e, 0, expr, x, f);
    FirstThen(k, d, Call(0, Reads(v)), expr, x, f);
    FirstThen(k, c, Restart(0), expr, x, f);
  }

  lemma {:induction false} FromStored(k: Cron, c: System, v: nat, expr: string, x: int, f: Freedom)
    requires Past(k, expr, x, c.server.now) && Offers(k, c.server, v, expr, x, f)
    ensures CanBePosted(k, c, expr, x, f)
  {
    hide Past, Waits;
    if Readable(c.server, v, f) && Answers(k, c.server.versions[v], expr, x, c.server.now) {
      FromReadable(k, c, v, expr, x, f);
    } else {
      var d := Next(k, c, Edit(expr, false));
      FromReadable(k, d, v + 1, expr, x, f);
      FirstThen(k, c, Edit(expr, false), expr, x, f);
    }
  }

  lemma {:induction false} FromWrite(k: Cron, c: System, w: nat, expr: string, x: int, f: Freedom)
    requires Past(k, expr, x, c.server.now)
    requires c.At(w).MustWrite? && Writable(c.server, c.At(w).v) && CanAnswer(k, c.At(w).o, expr, x, c.server.now, f)
    ensures CanBePosted(k, c, expr, x, f)
  {
    hide Past, Answers, CanAnswer;
    var d := Next(k, c, Call(w, Done));
    assert d.server.versions == c.server.versions + [c.At(w).o];
    FromStored(k, d, |c.server.versions|, expr, x, f);
    FirstThen(k, c, Call(w, Done), expr, x, f);
  }

  lemma {:induction false} FromHeld(k: Cron, c: System, w: nat, expr: string, x: int, f: Freedom)
    requires Past(k, expr, x, c.server.now)
    requires w in c.workers && Holds(k, c.server, c.workers[w], expr, x, f)
    ensures CanBePosted(k, c, expr, x, f)
  {
    hide Past, Answers, CanAnswer, Stamped, IsPostFor;
    match c.workers[w]
    case Idle =>
    case HasSchedule(v, o) =>
      FromDecision(k, c, w, expr, x, f);
    case MustPost(v, o, at) =>
      if IsPostFor(k, Post(o.expr, o.lastRun, at), expr, x) {
        FromPost(k, c, w, expr, x, f);
      } else {
        var d := Next(k, c, Call(w, Done));
        assert d.At(w) == MustWrite(v, Stamped(k, o, at)) && d.server.versions == c.server.versions;
        FromWrite(k, d, w, expr, x, f);
        FirstThen(k, c, Call(w, Done), expr, x, f);
      }
    case MustWrite(v, o) =>
      FromWrite(k, c, w, expr, x, f);
  }

  /** In every reachable state a time that has passed can be posted for, first or
      again, exactly when a version that can be read still waits for it, or a
      Reconcile in flight is about to post for it or to store such a version. So
      with current reads a tick is posted again only until its record is stored and
      the calls that began before have ended; with a cache, as long as the old
      version can be read. Where edits are allowed it is enough that the newest
      version, or one about to be stored, has a last run that waits for the tick of
      this expression, whatever its own expression is and though it be disabled. */
  lemma {:induction false} CanBePostedIff(k: Cron, expr: string, now: int, steps: seq<Step>, e: string, x: int, f: Freedom)
    requires Forward(k) && Past(k, e, x, Run(k, Fresh(expr, now), steps).server.now)
    ensures var c := Run(k, Fresh(expr, now), steps);
      CanBePosted(k, c, e, x, f) <==> Armed(k, c, e, x, f)
  {
    hide Forward, Past, Offers, Holds, Inv, Run;
    var c := Run(k, Fresh(expr, now), steps);
    FreshIsOk(k, expr, now);
    RunKeepsInv(k, Fresh(expr, now), steps);
    if !NoneStored(k, c.server, e, x, f) {
      var v: nat :| v < |c.server.versions| && Offers(k, c.server, v, e, x, f);
      FromStored(k, c, v, e, x, f);
    } else if w :| w in c.workers && Holds(k, c.server, c.workers[w], e, x, f) {
      FromHeld(k, c, w, e, x, f);
    } else {
      forall more | AllowedRun(k, c, more, f) ensures !PostsFor(k, c.server, Run(k, c, more).server, e, x) {
        RunDisarmed(k, c, more, e, x, f);
      }
    }
  }

  /** A schedule that never ran waits for a tick until its five minutes are over. */
  lemma {:induction false} FirstTickWaits(k: Cron, expr: string, x: int, now: int)
    requires IsTicking(k, expr) && IsTick(k, expr, x)
    ensures Waits(k, None, expr, x, now) <==> now < x + 300
  {
    assert k.next(expr, x - 1) == Some(x);
  }

  /** In particular: once a run at or after the tick is stored and no Reconcile is in
      flight, current reads never post for it again, whatever is edited. */
  lemma {:induction false} SettledTickIsDone(k: Cron, expr: string, now: int, steps: seq<Step>, e: string, x: int)
    requires Forward(k)
    requires var c := Run(k, Fresh(expr, now), steps);
      && Past(k, e, x, c.server.now) && c.server.versions != []
      && Latest(c.server).lastRun.Some? && x <= Latest(c.server).lastRun.value
      && forall w :: w in c.workers ==> c.workers[w] == Idle
    ensures !CanBePosted(k, Run(k, Fresh(expr, now), steps), e, x, Freedom(false, true))
  {
    hide Forward, Run;
    var c := Run(k, Fresh(expr, now), steps);
    CanBePostedIff(k, expr, now, steps, e, x, Freedom(false, true));
    NoLaterNext(k, e, x, Latest(c.server).lastRun.value);
  }

  // ---- reconciles without faults, and with lost status writes ---------------------------------------

  /** A reconcile of worker `w` over the newest version whose request succeeds and
      whose status write is answered by `write`. */
  function Trigger(s: Server, w: nat, write: Reply): seq<Step>
    requires s.versions != []
  {
    [Call(w, Reads(|s.versions| - 1)), Call(w, Done), Call(w, Done), Call(w, write)]
  }

  lemma {:induction false} TriggerEffect(k: Cron, c: System, w: nat, write: Reply)
    requires c.server.versions != [] && c.At(w) == Idle
    requires !Latest(c.server).disabled && k.valid(Latest(c.server).expr) && Due(k, Latest(c.server), c.server.now)
    ensures var s := c.server;
      var t := Delivered(s, Latest(s), s.now);
      var stored := Stamped(k, Latest(s), s.now);
      Run(k, c, Trigger(s, w, write)) ==
        System(if UpdateWorks(s, |s.versions| - 1, write) then t.(versions := s.versions + [stored]) else t, c.workers[w := Idle])
  {
    var s := c.server;
    var n := |s.versions| - 1;
    RunFour(k, c, Call(w, Reads(n)), Call(w, Done), Call(w, Done), Call(w, write));
    var c1 := Next(k, c, Call(w, Reads(n)));
    assert c1 == System(s, c.workers[w := HasSchedule(n, Latest(s))]);
    var c2 := Next(k, c1, Call(w, Done));
    assert c2 == System(s, c.workers[w := MustPost(n, Latest(s), s.now)]);
    var c3 := Next(k, c2, Call(w, Done));
    assert c3 == System(Delivered(s, Latest(s), s.now), c.workers[w := MustWrite(n, Stamped(k, Latest(s), s.now))]);
    assert Next(k, c3, Call(w, write)).workers == c.workers[w := Idle];
  }

  /** Whatever failed before, one reconcile without faults of an enabled schedule
      that is due posts for exactly the tick that was due, and records it. */
  lemma {:induction false} OneReconcileAnswers(k: Cron, expr: string, now: int, steps: seq<Step>, w: nat)
    requires var c := Run(k, Fresh(expr, now), steps);
      && c.server.versions != [] && !c.server.gone && c.At(w) == Idle
      && !Latest(c.server).disabled && k.valid(Latest(c.server).expr) && Due(k, Latest(c.server), c.server.now)
    ensures var c := Run(k, Fresh(expr, now), steps);
      var s, d := c.server, Run(k, c, Trigger(c.server, w, Done)).server;
      && d.posts == s.posts + [Post(Latest(s).expr, Latest(s).lastRun, s.now)]
      && |d.versions| == |s.versions| + 1 && d.versions[|s.versions|].lastRun == Some(s.now)
      && (Latest(s).lastRun != Some(s.now) ==> AnsweredBy(k, s, d, |s.versions|))
  {
    hide Run;
    var c := Run(k, Fresh(expr, now), steps);
    TriggerEffect(k, c, w, Done);
  }

  /** What one undisturbed Reconcile over the newest version leaves, its request
      answered by `post`. A disabled schedule is left alone; an invalid expression is
      noted; a schedule that is not due gets the next run after the present and nothing
      else; one that is due is posted for, once, and stores the present as its last
      run; and a request reported as failed, delivered or not, is noted and leaves both
      times as they were, so the schedule stays due. */
  lemma {:induction false} OneReconcileStores(k: Cron, c: System, w: nat, post: Reply)
    requires c.server.versions != [] && !c.server.gone && c.At(w) == Idle
    requires post.Done? || (IsDueNow(k, c) && (post.Fails? || post.Lost?))
    ensures var s, o := c.server, Latest(c.server);
      var d := Run(k, c, [Call(w, Reads(|s.versions| - 1)), Call(w, Done), Call(w, post), Call(w, Done)]);
      var request := Post(o.expr, o.lastRun, s.now);
      && d.workers == c.workers[w := Idle] && d.server.now == s.now && d.server.gone == s.gone
      && d.server.posts == s.posts + (if IsDueNow(k, c) && (post.Done? || post.Lost?) then [request] else [])
      && d.server.versions == s.versions + Stored(k, o, s.now, post)
  {
    hide Run;
    var s, n := c.server, |c.server.versions| - 1;
    RunFour(k, c, Call(w, Reads(n)), Call(w, Done), Call(w, post), Call(w, Done));
    var c1 := Next(k, c, Call(w, Reads(n)));
    assert c1 == System(s, c.workers[w := HasSchedule(n, Latest(s))]);
    var c2 := Next(k, c1, Call(w, Done));
    assert c2 == System(s, c.workers[w := Decide(k, n, Latest(s), s.now)]);
    DecisionEnds(k, s, c.workers, w, post);
  }

  /** The two calls after the reading of the clock. */
  lemma {:induction false} DecisionEnds(k: Cron, s: Server, workers: map<nat, Worker>, w: nat, post: Reply)
    requires s.versions != [] && !s.gone
    requires post.Done? || (IsDueNow(k, System(s, workers)) && (post.Fails? || post.Lost?))
    ensures var n, o := |s.versions| - 1, Latest(s);
      var c := System(s, workers[w := Decide(k, n, o, s.now)]);
      var d := Next(k, Next(k, c, Call(w, post)), Call(w, Done));
      && d.workers == workers[w := Idle] && d.server.now == s.now && d.server.gone == s.gone
      && d.server.posts == s.posts + (if IsDueNow(k, System(s, workers)) && (post.Done? || post.Lost?) then [Post(o.expr, o.lastRun, s.now)] else [])
      && d.server.versions == s.versions + Stored(k, o, s.now, post)
  {
    hide Due;
    var n, o := |s.versions| - 1, Latest(s);
    var c := System(s, workers[w := Decide(k, n, o, s.now)]);
    var c3 := Next(k, c, Call(w, post));
    assert Next(k, c3, Call(w, Done)).workers == workers[w := Idle];
  }

  ghost predicate IsDueNow(k: Cron, c: System)
    requires c.server.versions != []
  {
    var o := Latest(c.server);
    !o.disabled && k.valid(o.expr) && Due(k, o, c.server.now)
  }

  /** The version it stores, if any. */
  ghost function Stored(k: Cron, o: Schedule, now: int, post: Reply): seq<Schedule> {
    if o.disabled then []
    else if !k.valid(o.expr) then [Schedule(o.expr, false, o.lastRun, o.nextRun, InvalidCronExpr)]
    else if !Due(k, o, now) then [Schedule(o.expr, false, o.lastRun, k.next(o.expr, now), o.lastStatus)]
    else if post.Done? then [Schedule(o.expr, false, Some(now), k.next(o.expr, now), Triggered)]
    else [Schedule(o.expr, false, o.lastRun, o.nextRun, TriggerFailed)]
  }

  function LostWrites(s: Server, n: nat): seq<Step>
    requires s.versions != []
  {
    if n == 0 then [] else LostWrites(s, n - 1) + Trigger(s, 0, Fails)
  }

  lemma {:induction false} LostWritesEffect(k: Cron, expr: string, now: int, n: nat)
    requires k.valid(expr) && Due(k, NewSchedule(expr), now)
    ensures var c := Fresh(expr, now);
      var d := Run(k, c, LostWrites(c.server, n));
      && d.At(0) == Idle && d.server.now == now && !d.server.gone && d.server.versions == [NewSchedule(expr)]
      && |d.server.posts| == n && forall p :: p in d.server.posts ==> p == Post(expr, None, now)
  {
    if n > 0 {
      var c := Fresh(expr, now);
      LostWritesEffect(k, expr, now, n - 1);
      RunConcat(k, c, LostWrites(c.server, n - 1), Trigger(c.server, 0, Fails));
      TriggerEffect(k, Run(k, c, LostWrites(c.server, n - 1)), 0, Fails);
    }
  }

  /** Lost status writes: for every n there is a run that posts one tick n + 1 times
      and records it once. */
  lemma {:induction false} LostWritesRepeatDelivery(k: Cron, expr: string, now: int, n: nat)
    requires k.valid(expr) && Due(k, NewSchedule(expr), now)
    ensures exists steps :: var s := Run(k, Fresh(expr, now), steps).server;
      && |s.posts| == n + 1 && (forall p :: p in s.posts ==> p == Post(expr, None, now))
      && |s.versions| == 2 && Records(s, 1)
  {
    var c := Fresh(expr, now);
    LostWritesEffect(k, expr, now, n);
    var d := Run(k, c, LostWrites(c.server, n));
    TriggerEffect(k, d, 0, Done);
    RunConcat(k, c, LostWrites(c.server, n), Trigger(c.server, 0, Done));
    var s := Run(k, c, LostWrites(c.server, n) + Trigger(c.server, 0, Done)).server;
    assert s.versions == [NewSchedule(expr), Stamped(k, NewSchedule(expr), now)];
    assert |s.posts| == n + 1 && Records(s, 1);
  }

  // ---- expressions that never fire --------------------------------------------------------------------

  /** A library that parses one expression, the 30th of February. */
  const FEBRUARY_30 := "0 0 30 2 *"

  const NEVER := Cron(e => e == FEBRUARY_30, (e, t) => None)

  function Reconciles(n: nat): seq<Step> {
    if n == 0 then [] else Reconciles(n - 1) + [Call(0, Reads(n - 1)), Call(0, Done), Call(0, Done), Call(0, Done)]
  }

  lemma {:induction false} ReconcilesEffect(now: int, n: nat)
    ensures var c := Run(NEVER, Fresh(FEBRUARY_30, now), Reconciles(n));
      && c.At(0) == Idle && c.server.now == now && !c.server.gone
      && |c.server.versions| == n + 1 && |c.server.posts| == n
      && c.server.versions[n].expr == FEBRUARY_30 && !c.server.versions[n].disabled
  {
    hide Run;
    if n == 0 {
      RunFirst(NEVER, Fresh(FEBRUARY_30, now), Restart(0), []);
    } else {
      ReconcilesEffect(now, n - 1);
      var c := Run(NEVER, Fresh(FEBRUARY_30, now), Reconciles(n - 1));
      RunConcat(NEVER, Fresh(FEBRUARY_30, now), Reconciles(n - 1), Trigger(c.server, 0, Done));
      assert Due(NEVER, Latest(c.server), now);
      TriggerEffect(NEVER, c, 0, Done);
    }
  }

  /** Such an expression has no tick, and every reconcile triggers a scan. */
  lemma {:induction false} NeverFiringAlwaysTriggers(now: int, n: nat)
    ensures Forward(NEVER) && IsTicking(NEVER, FEBRUARY_30) && forall x: int :: !IsTick(NEVER, FEBRUARY_30, x)
    ensures |Run(NEVER, Fresh(FEBRUARY_30, now), Reconciles(n)).server.posts| == n
  {
    ReconcilesEffect(now, n);
  }
}
