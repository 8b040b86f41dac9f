/** The two other implementations of the baseline comparison: computeDiff in
    internal/tui/diff.go and applyBaselineHistory in internal/report/html.go. */
module DriftViews {
  import opened Seqs
  import opened Findings
  import opened Baselines
  import Diffs

  datatype Kind = Stable | New | Changed

  ghost function Occurrences(s: seq<Finding>, k: string): nat {
    if s == [] then 0
    else Occurrences(s[..|s| - 1], k) + (if Fingerprint(s[|s| - 1]) == k then 1 else 0)
  }

  predicate Differs(prev: Finding, f: Finding) {
    prev.status != f.status || prev.severity != f.severity
  }

  /** The mark the loop leaves on fingerprint `k`: the last finding with that
      fingerprint decides, and finds the baseline entry crossed off when an
      earlier one had it. */
  ghost function MarkOf(current: seq<Finding>, base: map<string, Finding>, k: string): Kind {
    if current == [] then Stable
    else
      var init, f := current[..|current| - 1], current[|current| - 1];
      if Fingerprint(f) != k then MarkOf(init, base, k)
      else if k !in base || k in KeysOf(init, Fingerprint) then New
      else if Differs(base[k], f) then Changed
      else Stable
  }

  ghost function Gutter(current: seq<Finding>, base: map<string, Finding>): map<string, Kind> {
    map k | k in KeysOf(current, Fingerprint) :: MarkOf(current, base, k)
  }

  ghost predicate IsResolved(current: seq<Finding>, base: map<string, Finding>, resolved: seq<Finding>) {
    && DistinctKeys(resolved, Fingerprint)
    && forall f :: f in resolved <==>
         Fingerprint(f) in base && base[Fingerprint(f)] == f && Fingerprint(f) !in KeysOf(current, Fingerprint)
  }

  method ComputeDiff(current: seq<Finding>, baseline: seq<Finding>) returns (per: map<string, Kind>, resolved: seq<Finding>)
    ensures per == Gutter(current, LastByKey(baseline, Fingerprint))
    ensures IsResolved(current, LastByKey(baseline, Fingerprint), resolved)
  {
    hide Gutter, MarkOf, KeysOf, LastByKey, Differs, Occurrences;
    var base := IndexBaseline(baseline);
    var left := base;
    per := map[];
    LeftAfter(base, {}, "");
    for i := 0 to |current|
      invariant left == base - KeysOf(current[..i], Fingerprint)
      invariant per == Gutter(current[..i], base)
    {
      var f := current[i];
      var fp := Fingerprint(f);
      GutterStep(current, i, base);
      LeftAfter(base, KeysOf(current[..i], Fingerprint), fp);
      if fp !in left {
        per := per[fp := New];
      } else {
        if Differs(left[fp], f) {
          per := per[fp := Changed];
        } else {
          per := per[fp := Stable];
        }
      }
      left := left - {fp};
    }
    assert current[..|current|] == current;
    resolved := Remaining(left);
  }

  lemma {:induction false} LeftAfter(base: map<string, Finding>, seen: set<string>, fp: string)
    ensures fp in base - seen ==> fp in base && fp !in seen && (base - seen)[fp] == base[fp]
    ensures base - seen - {fp} == base - (seen + {fp})
    ensures Gutter([], base) == map[] && base - KeysOf<Finding>([], Fingerprint) == base
  {
  }

  lemma {:induction false} GutterStep(current: seq<Finding>, i: nat, base: map<string, Finding>)
    requires i < |current|
    ensures var fp := Fingerprint(current[i]);
      var seen := fp in KeysOf(current[..i], Fingerprint);
      && KeysOf(current[..i + 1], Fingerprint) == KeysOf(current[..i], Fingerprint) + {fp}
      && Gutter(current[..i + 1], base) == Gutter(current[..i], base)[fp :=
           if fp !in base || seen then New else if Differs(base[fp], current[i]) then Changed else Stable]
  {
    assert current[..i + 1][..i] == current[..i];
    assert current[..i + 1] == current[..i] + [current[i]];
  }

  /** A fingerprint is marked new exactly when the baseline lacks it or the scan
      repeats it; otherwise the mark compares status and severity. */
  lemma {:induction false} MarkMeans(current: seq<Finding>, base: map<string, Finding>, f: Finding)
    requires f in current
    ensures var k := Fingerprint(f);
      && (MarkOf(current, base, k) == New <==> k !in base || Occurrences(current, k) >= 2)
      && (k in base && Occurrences(current, k) == 1 ==>
            MarkOf(current, base, k) == if base[k].status == f.status && base[k].severity == f.severity then Stable else Changed)
  {
    var k, init, last := Fingerprint(f), current[..|current| - 1], current[|current| - 1];
    OccursIffPresent(init, k);
    if Fingerprint(last) == k {
      if f != last {
        assert f in init;
      }
    } else {
      assert f in init;
      MarkMeans(init, base, f);
    }
  }

  method IndexBaseline(baseline: seq<Finding>) returns (base: map<string, Finding>)
    ensures base == LastByKey(baseline, Fingerprint)
  {
    base := map[];
    for i := 0 to |baseline|
      invariant base == LastByKey(baseline[..i], Fingerprint)
    {
      assert baseline[..i + 1][..i] == baseline[..i];
      base := base[Fingerprint(baseline[i]) := baseline[i]];
    }
    assert baseline[..|baseline|] == baseline;
  }

  /** The values of the map, in any order. */
  method Remaining(left: map<string, Finding>) returns (out: seq<Finding>)
    requires forall k :: k in left ==> Fingerprint(left[k]) == k
    ensures DistinctKeys(out, Fingerprint)
    ensures forall f :: f in out <==> Fingerprint(f) in left && left[Fingerprint(f)] == f
  {
    out := [];
    var todo := left.Keys;
    while todo != {}
      invariant todo <= left.Keys
      invariant DistinctKeys(out, Fingerprint)
      invariant forall f :: f in out <==> Fingerprint(f) in left.Keys - todo && left[Fingerprint(f)] == f
    {
      var k :| k in todo;
      out := out + [left[k]];
      todo := todo - {k};
    }
  }

  lemma {:induction false} OccursIffPresent(s: seq<Finding>, k: string)
    ensures Occurrences(s, k) > 0 <==> k in KeysOf(s, Fingerprint)
  {
    if s != [] {
      var init := s[..|s| - 1];
      OccursIffPresent(init, k);
      assert s == init + [s[|s| - 1]];
      assert KeysOf(s, Fingerprint) == KeysOf(init, Fingerprint) + {Fingerprint(s[|s| - 1])};
    }
  }

  /** The drift numbers of the report: DriftNew, DriftExisting, DriftResolved
      and the fingerprints to flag. */
  datatype Drift = Drift(newIDs: set<string>, added: int, existing: int, resolved: int)

  /** The sparklines: one point per baseline, oldest first, the current scan
      last, and the change from the first point to the last. */
  datatype Trend = Trend(scores: seq<int>, actionable: seq<int>, scoreDelta: int, actionableDelta: int)

  /** The drift numbers are the sizes of current∖base, current∩base and
      base∖current. */
  ghost predicate IsDrift(current: seq<Finding>, latest: Baseline, d: Drift) {
    var now, before := KeysOf(current, Fingerprint), KeysOf(latest.entries, EntryKey);
    d == Drift(now - before, |now - before|, |now * before|, |before - now|)
  }

  ghost predicate IsTrend(baselines: seq<Baseline>, score: int, actionable: int, t: Trend)
    requires baselines != []
  {
    && |t.scores| == |t.actionable| == |baselines| + 1
    && (forall i :: 0 <= i < |baselines| ==>
          t.scores[i] == baselines[i].score && t.actionable[i] == Actionable(baselines[i].entries))
    && t.scores[|baselines|] == score && t.actionable[|baselines|] == actionable
    && t.scoreDelta == score - baselines[0].score
    && t.actionableDelta == actionable - Actionable(baselines[0].entries)
  }

  /** The report's view record, as far as the baseline history reads and fills
      it. */
  class HtmlView {
    const score: int
    const actionableCount: int
    var hasBaseline: bool
    var drift: Drift
    var trend: Trend

    constructor (score: int, actionableCount: int)
      ensures this.score == score && this.actionableCount == actionableCount && !hasBaseline
    {
      this.score, this.actionableCount, hasBaseline := score, actionableCount, false;
      drift, trend := Drift({}, 0, 0, 0), Trend([], [], 0, 0);
    }

    method ApplyBaselineHistory(current: seq<Finding>, baselines: seq<Baseline>)
      modifies this
      ensures baselines == [] ==> hasBaseline == old(hasBaseline) && drift == old(drift) && trend == old(trend)
      ensures baselines != [] ==> hasBaseline
      ensures baselines != [] ==> IsDrift(current, baselines[|baselines| - 1], drift)
      ensures baselines != [] ==> IsTrend(baselines, score, actionableCount, trend)
    {
      if |baselines| == 0 {
        return;
      }
      hide *;
      hasBaseline := true;
      drift := CountDrift(current, baselines[|baselines| - 1]);
      trend := Series(baselines, score, actionableCount);
    }
  }

  method CountDrift(current: seq<Finding>, latest: Baseline) returns (d: Drift)
    ensures IsDrift(current, latest, d)
  {
    var latestFP := FingerprintSet(latest);
    var currentFP, newIDs := NewAgainst(current, latestFP.Keys);
    var resolved := CountMissing(latestFP.Keys, currentFP);
    d := Drift(newIDs, |newIDs|, |latestFP| - resolved, resolved);
    Diffs.SizesAddUp(latestFP.Keys, currentFP);
    assert currentFP * latestFP.Keys == latestFP.Keys * currentFP;
  }

  method NewAgainst(current: seq<Finding>, base: set<string>) returns (currentFP: set<string>, added: set<string>)
    ensures currentFP == KeysOf(current, Fingerprint) && added == currentFP - base
  {
    currentFP, added := {}, {};
    for i := 0 to |current|
      invariant currentFP == KeysOf(current[..i], Fingerprint)
      invariant added == currentFP - base
    {
      assert current[..i + 1] == current[..i] + [current[i]];
      var fp := Fingerprint(current[i]);
      currentFP := currentFP + {fp};
      if fp !in base {
        added := added + {fp};
      }
    }
    assert current[..|current|] == current;
  }

  ghost function Actionable(entries: seq<Entry>): nat {
    if entries == [] then 0
    else Actionable(entries[..|entries| - 1]) + (if entries[|entries| - 1].status.IsActionable() then 1 else 0)
  }

  /** The entries that failed or could not be evaluated. */
  lemma {:induction false} ActionableMeans(entries: seq<Entry>)
    ensures Actionable(entries) == |Where(entries, (e: Entry) => e.status == Fail || e.status == Error)|
  {
    if entries != [] {
      ActionableMeans(entries[..|entries| - 1]);
    }
  }

  method CountMissing(base: set<string>, present: set<string>) returns (missing: int)
    ensures missing == |base - present|
  {
    missing := 0;
    var todo := base;
    while todo != {}
      invariant todo <= base && missing + |todo - present| == |base - present|
    {
      var fp :| fp in todo;
      assert todo - {fp} - present == todo - present - {fp};
      if fp !in present {
        missing := missing + 1;
      }
      todo := todo - {fp};
    }
    assert todo - present == {};
  }

  method Series(baselines: seq<Baseline>, score: int, actionableNow: int) returns (t: Trend)
    requires baselines != []
    ensures IsTrend(baselines, score, actionableNow, t)
  {
    var scores, actionable := [], [];
    for i := 0 to |baselines|
      invariant |scores| == |actionable| == i
      invariant forall j :: 0 <= j < i ==>
        scores[j] == baselines[j].score && actionable[j] == Actionable(baselines[j].entries)
    {
      var n := CountActionable(baselines[i].entries);
      scores, actionable := scores + [baselines[i].score], actionable + [n];
    }
    scores, actionable := scores + [score], actionable + [actionableNow];
    t := Trend(scores, actionable, 0, 0);
    if |scores| >= 2 {
      t := t.(scoreDelta := scores[|scores| - 1] - scores[0],
              actionableDelta := actionable[|actionable| - 1] - actionable[0]);
    }
  }

  method CountActionable(entries: seq<Entry>) returns (n: nat)
    ensures n == Actionable(entries)
  {
    n := 0;
    for j := 0 to |entries|
      invariant n == Actionable(entries[..j])
    {
      assert entries[..j + 1][..j] == entries[..j];
      if entries[j].status.IsActionable() {
        n := n + 1;
      }
    }
    assert entries[..|entries|] == entries;
  }

  /** The keys of a gutter map with, and without, the mark New. */
  function NewKeys(per: map<string, Kind>): set<string> {
    set k | k in per && per[k] == New
  }

  function KeptKeys(per: map<string, Kind>): set<string> {
    set k | k in per && per[k] != New
  }

  /** Baseline fingerprints that the scan repeats. */
  ghost function Repeated(current: seq<Finding>, before: set<string>): set<string> {
    set k | k in before && Occurrences(current, k) >= 2
  }

  lemma {:induction false} GutterCounts(current: seq<Finding>, base: map<string, Finding>)
    ensures var now, again := KeysOf(current, Fingerprint), Repeated(current, base.Keys);
      var per := Gutter(current, base);
      && |NewKeys(per)| == |now - base.Keys| + |again|
      && |KeptKeys(per)| == |now * base.Keys| - |again|
  {
    var now, again := KeysOf(current, Fingerprint), Repeated(current, base.Keys);
    var per := Gutter(current, base);
    forall k | k in now ensures per[k] == New <==> k in now - base.Keys || k in again {
      var f :| f in current && Fingerprint(f) == k;
      MarkMeans(current, base, f);
    }
    forall k | k in again ensures k in now {
      OccursIffPresent(current, k);
    }
    assert NewKeys(per) == (now - base.Keys) + again;
    assert KeptKeys(per) == now * base.Keys - again;
    assert again <= now * base.Keys;
    Diffs.SizesAddUp(now * base.Keys, again);
    assert (now * base.Keys) * again == again;
  }

  /** On one baseline and one scan, diff.Compute, computeDiff and the report
      count the same resolved findings, and the report always counts what
      diff.Compute does. computeDiff counts the same new and kept findings
      exactly when no fingerprint of the baseline occurs twice in the scan. */
  lemma {:induction false} DriftCountsAgree(b: Baseline, current: seq<Finding>, baseline: seq<Finding>, r: Diffs.DiffResult,
      resolved: seq<Finding>, d: Drift)
    requires KeysOf(b.entries, EntryKey) == KeysOf(baseline, Fingerprint)
    requires Diffs.IsDiff(b, current, r)
    requires IsResolved(current, LastByKey(baseline, Fingerprint), resolved)
    requires IsDrift(current, b, d)
    ensures d == Drift(KeysOf(r.added, Fingerprint), |r.added|, |r.existing|, |r.resolved|)
    ensures |resolved| == |r.resolved|
    ensures var per := Gutter(current, LastByKey(baseline, Fingerprint));
      && |NewKeys(per)| + |KeptKeys(per)| == |r.added| + |r.existing|
      && (|NewKeys(per)| == |r.added| && |KeptKeys(per)| == |r.existing| <==>
            forall k :: k in KeysOf(b.entries, EntryKey) ==> Occurrences(current, k) <= 1)
  {
    hide Diffs.IsDiff, IsResolved, Gutter, NewKeys, KeptKeys, Repeated, KeysOf, Occurrences;
    var base := LastByKey(baseline, Fingerprint);
    Diffs.DiffPartitions(b, current, r);
    ResolvedKeys(current, baseline, resolved);
    GutterCounts(current, base);
    RepeatedNone(current, base.Keys);
  }

  lemma {:induction false} RepeatedNone(current: seq<Finding>, before: set<string>)
    ensures |Repeated(current, before)| == 0 <==> forall k :: k in before ==> Occurrences(current, k) <= 1
  {
    if exists k :: k in before && Occurrences(current, k) > 1 {
      var k :| k in before && Occurrences(current, k) > 1;
      assert k in Repeated(current, before);
    } else {
      assert Repeated(current, before) == {};
    }
  }

  lemma {:induction false} ResolvedKeys(current: seq<Finding>, baseline: seq<Finding>, resolved: seq<Finding>)
    requires IsResolved(current, LastByKey(baseline, Fingerprint), resolved)
    ensures KeysOf(resolved, Fingerprint) == KeysOf(baseline, Fingerprint) - KeysOf(current, Fingerprint)
    ensures |resolved| == |KeysOf(resolved, Fingerprint)|
  {
    DistinctCount(resolved, Fingerprint);
    var base := LastByKey(baseline, Fingerprint);
    forall k | k in base && k !in KeysOf(current, Fingerprint) ensures k in KeysOf(resolved, Fingerprint) {
      assert Fingerprint(base[k]) == k;
      assert base[k] in resolved;
    }
  }
}
