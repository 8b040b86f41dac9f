/** internal/diff/diff.go: current findings against a baseline. */
module Diffs {
  import opened Seqs
  import opened Findings
  import opened Baselines
  import Score

  datatype DiffResult = DiffResult(added: seq<Finding>, existing: seq<Finding>, resolved: seq<Entry>, previousScore: int, currentScore: int) {

    /** The `--fail-on=new-<severity>` gate. */
    method HasNewAtOrAbove(level: Severity) returns (found: bool)
      ensures found <==> exists f :: f in added && (f.status == Fail || f.status == Error) && f.severity >= level
    {
      found := AnyTrips(added, level);
    }

    /** The `--fail-on=<severity>` gate. */
    method HasActionableAtOrAbove(level: Severity) returns (found: bool)
      ensures found <==> exists f :: f in added + existing && (f.status == Fail || f.status == Error) && f.severity >= level
    {
      found := AnyTrips(added, level);
      if !found {
        found := AnyTrips(existing, level);
      }
    }
  }

  predicate Trips(f: Finding, level: Severity) {
    f.status.IsActionable() && f.severity >= level
  }

  method AnyTrips(findings: seq<Finding>, level: Severity) returns (found: bool)
    ensures found <==> exists f :: f in findings && Trips(f, level)
  {
    for i := 0 to |findings|
      invariant forall j :: 0 <= j < i ==> !Trips(findings[j], level)
    {
      if Trips(findings[i], level) {
        return true;
      }
    }
    return false;
  }

  /** What the package promises: the three-way partition by fingerprint, each
      part strictly in fingerprint order, scored over the distinct findings. */
  ghost predicate IsDiff(b: Baseline, current: seq<Finding>, r: DiffResult) {
    var distinct, base := FirstByKey(current, Fingerprint), LastByKey(b.entries, EntryKey);
    && StrictlySorted(r.added, Fingerprint)
    && (forall f :: f in r.added <==> f in distinct && Fingerprint(f) !in base)
    && StrictlySorted(r.existing, Fingerprint)
    && (forall f :: f in r.existing <==> f in distinct && Fingerprint(f) in base)
    && StrictlySorted(r.resolved, EntryKey)
    && (forall e :: e in r.resolved <==>
          EntryKey(e) in base && base[EntryKey(e)] == e && EntryKey(e) !in KeysOf(current, Fingerprint))
    && r.previousScore == b.score
    && r.currentScore == Score.ScoreOf(distinct).score
  }

  /** Every loop over a map below picks its keys in any order. */
  method Compute(b: Baseline, current: seq<Finding>) returns (r: DiffResult)
    ensures IsDiff(b, current, r)
  {
    var base := FingerprintSet(b);
    var cur := IndexCurrent(current);
    var added, existing := Split(base.Keys, current, cur);
    var resolved := Missing(base, b, cur.Keys);
    added := SortFindings(added);
    existing := SortFindings(existing);
    resolved := SortEntries(resolved);
    var distinct := Values(current, cur);
    var s := Score.Compute(distinct);
    SameElementsSameBag(distinct, FirstByKey(current, Fingerprint), Fingerprint);
    Score.ScoreIgnoresOrder(distinct, FirstByKey(current, Fingerprint));
    r := DiffResult(added, existing, resolved, b.score, s.score);
  }

  /** First finding of each fingerprint wins. */
  method IndexCurrent(current: seq<Finding>) returns (cur: map<string, Finding>)
    ensures Indexes(cur, FirstByKey(current, Fingerprint), Fingerprint)
  {
    cur := map[];
    for i := 0 to |current|
      invariant Indexes(cur, FirstByKey(current[..i], Fingerprint), Fingerprint)
    {
      FirstByKeyStep(current, i, Fingerprint);
      var fp := Fingerprint(current[i]);
      if fp in cur {
        continue;
      }
      IndexesGrows(cur, FirstByKey(current[..i], Fingerprint), Fingerprint, current[i]);
      cur := cur[fp := current[i]];
    }
    assert current[..|current|] == current;
  }

  /** Before the first element. */
  lemma {:induction false} AtTheStart(s: seq<Finding>, w: Finding -> int)
    ensures FirstByKey([], Fingerprint) == [] && KeysOf<Finding>([], Fingerprint) == {}
    ensures Sum(FirstByKey([], Fingerprint), w) == 0
    ensures Collected([], s, Fingerprint, {})
  {
  }

  method Split(base: set<string>, ghost current: seq<Finding>, cur: map<string, Finding>)
    returns (added: seq<Finding>, existing: seq<Finding>)
    requires Indexes(cur, FirstByKey(current, Fingerprint), Fingerprint)
    ensures Collected(added, FirstByKey(current, Fingerprint), Fingerprint, cur.Keys - base)
    ensures Collected(existing, FirstByKey(current, Fingerprint), Fingerprint, cur.Keys * base)
  {
    hide Collected, Indexes, KeysOf;
    added, existing := [], [];
    ghost var distinct := FirstByKey(current, Fingerprint);
    var todo := cur.Keys;
    ghost var done: set<string> := {};
    AtTheStart(distinct, Score.PassWeight);
    assert done - base == {} && done * base == {};
    while todo != {}
      invariant todo <= cur.Keys && done == cur.Keys - todo
      invariant Collected(added, distinct, Fingerprint, done - base)
      invariant Collected(existing, distinct, Fingerprint, done * base)
    {
      var fp :| fp in todo;
      IndexedElement(cur, distinct, Fingerprint, fp);
      if fp in base {
        CollectOne(existing, distinct, Fingerprint, done * base, cur[fp]);
        existing := existing + [cur[fp]];
        assert (done + {fp}) * base == done * base + {fp} && (done + {fp}) - base == done - base;
      } else {
        CollectOne(added, distinct, Fingerprint, done - base, cur[fp]);
        added := added + [cur[fp]];
        assert (done + {fp}) - base == done - base + {fp} && (done + {fp}) * base == done * base;
      }
      todo, done := todo - {fp}, done + {fp};
    }
    assert done == cur.Keys;
  }

  method Missing(base: map<string, Entry>, ghost b: Baseline, present: set<string>) returns (resolved: seq<Entry>)
    requires base == LastByKey(b.entries, EntryKey)
    ensures DistinctKeys(resolved, EntryKey)
    ensures forall e :: e in resolved <==> EntryKey(e) in base && base[EntryKey(e)] == e && EntryKey(e) !in present
  {
    resolved := [];
    var todo := base.Keys;
    while todo != {}
      invariant todo <= base.Keys
      invariant DistinctKeys(resolved, EntryKey)
      invariant forall e :: e in resolved <==>
        EntryKey(e) in base.Keys - todo && base[EntryKey(e)] == e && EntryKey(e) !in present
    {
      var fp :| fp in todo;
      if fp !in present {
        resolved := resolved + [base[fp]];
      }
      todo := todo - {fp};
    }
  }

  method Values(ghost current: seq<Finding>, cur: map<string, Finding>) returns (out: seq<Finding>)
    requires Indexes(cur, FirstByKey(current, Fingerprint), Fingerprint)
    ensures DistinctKeys(out, Fingerprint)
    ensures forall f :: f in out <==> f in FirstByKey(current, Fingerprint)
  {
    out := [];
    ghost var distinct := FirstByKey(current, Fingerprint);
    var todo := cur.Keys;
    while todo != {}
      invariant todo <= cur.Keys
      invariant Collected(out, distinct, Fingerprint, cur.Keys - todo)
    {
      var fp :| fp in todo;
      IndexedElement(cur, distinct, Fingerprint, fp);
      CollectOne(out, distinct, Fingerprint, cur.Keys - todo, cur[fp]);
      assert cur.Keys - (todo - {fp}) == cur.Keys - todo + {fp};
      out := out + [cur[fp]];
      todo := todo - {fp};
    }
  }

  method SortFindings(findings: seq<Finding>) returns (sorted: seq<Finding>)
    requires DistinctKeys(findings, Fingerprint)
    ensures StrictlySorted(sorted, Fingerprint)
    ensures forall f :: f in sorted <==> f in findings
  {
    var slice := new Finding[|findings|](i requires 0 <= i < |findings| => findings[i]);
    assert slice[..] == findings;
    InsertionSort(slice, Fingerprint);
    sorted := slice[..];
    SortedPermutation(findings, sorted, Fingerprint);
  }

  /** The promise leaves no freedom: two diffs of the same input, made with any
      map iteration orders, are equal. */
  lemma {:induction false} DiffIsDeterministic(b: Baseline, current: seq<Finding>, r: DiffResult, r': DiffResult)
    requires IsDiff(b, current, r) && IsDiff(b, current, r')
    ensures r == r'
  {
    SortedIsUnique(r.added, r'.added, Fingerprint);
    SortedIsUnique(r.existing, r'.existing, Fingerprint);
    SortedIsUnique(r.resolved, r'.resolved, EntryKey);
  }

  /** New, existing and resolved are current∖base, current∩base and
      base∖current, and their sizes add up. */
  lemma {:induction false} DiffPartitions(b: Baseline, current: seq<Finding>, r: DiffResult)
    requires IsDiff(b, current, r)
    ensures var now, before := KeysOf(current, Fingerprint), KeysOf(b.entries, EntryKey);
      && KeysOf(r.added, Fingerprint) == now - before
      && KeysOf(r.existing, Fingerprint) == now * before
      && KeysOf(r.resolved, EntryKey) == before - now
      && |r.added| == |now - before| && |r.existing| == |now * before| && |r.resolved| == |before - now|
      && |r.added| + |r.existing| == |now|
      && |r.existing| + |r.resolved| == |before|
  {
    var now, before := KeysOf(current, Fingerprint), KeysOf(b.entries, EntryKey);
    DiffKeys(b, current, r);
    CountSorted(r.added, Fingerprint);
    CountSorted(r.existing, Fingerprint);
    CountSorted(r.resolved, EntryKey);
    SizesAddUp(now, before);
    SizesAddUp(before, now);
    assert before * now == now * before;
  }

  lemma {:induction false} SizesAddUp(a: set<string>, b: set<string>)
    ensures |a - b| + |a * b| == |a|
  {
    assert a == (a - b) + (a * b);
  }

  lemma {:induction false} DiffKeys(b: Baseline, current: seq<Finding>, r: DiffResult)
    requires IsDiff(b, current, r)
    ensures var now, before := KeysOf(current, Fingerprint), KeysOf(b.entries, EntryKey);
      && KeysOf(r.added, Fingerprint) == now - before
      && KeysOf(r.existing, Fingerprint) == now * before
      && KeysOf(r.resolved, EntryKey) == before - now
  {
    var now, before := KeysOf(current, Fingerprint), KeysOf(b.entries, EntryKey);
    var base := LastByKey(b.entries, EntryKey);
    ChosenKeys(r.added, FirstByKey(current, Fingerprint), now - before);
    ChosenKeys(r.existing, FirstByKey(current, Fingerprint), now * before);
    forall k | k in before - now ensures k in KeysOf(r.resolved, EntryKey) {
      assert EntryKey(base[k]) == k;
      assert base[k] in r.resolved;
    }
  }

  lemma {:induction false} ChosenKeys(out: seq<Finding>, from: seq<Finding>, keys: set<string>)
    requires keys <= KeysOf(from, Fingerprint)
    requires forall f :: f in out <==> f in from && Fingerprint(f) in keys
    ensures KeysOf(out, Fingerprint) == keys
  {
    forall k | k in keys ensures k in KeysOf(out, Fingerprint) {
      var f :| f in from && Fingerprint(f) == k;
      assert f in out;
    }
  }

  lemma {:induction false} CountSorted<T>(s: seq<T>, key: T -> string)
    requires StrictlySorted(s, key)
    ensures |s| == |KeysOf(s, key)|
  {
    StrictlySortedIsDistinct(s, key);
    DistinctCount(s, key);
  }

  /** Findings compared with the baseline captured from them. */
  lemma {:induction false} DiffAgainstOwnCapture(findings: seq<Finding>, at: int, b: Baseline, r: DiffResult)
    requires IsCapture(findings, at, b) && IsDiff(b, findings, r)
    ensures r.added == [] && r.resolved == []
    ensures |r.existing| == |KeysOf(findings, Fingerprint)|
    ensures DistinctKeys(findings, Fingerprint) ==> r.previousScore == r.currentScore
  {
    hide KeysOf, FirstByKey, LastByKey, StrictlySorted;
    CaptureHoldsEachFingerprint(findings, at, b);
    DiffPartitions(b, findings, r);
    var keys := KeysOf(findings, Fingerprint);
    assert keys - keys == {} && keys * keys == keys;
    if DistinctKeys(findings, Fingerprint) {
      FirstByKeyOfDistinct(findings, Fingerprint);
    }
  }

  /** The premise is needed: a repeated fingerprint is scored twice by Capture
      and once by the diff. */
  lemma {:induction false} RepeatedFindingMovesScore(f: Finding, at: int, b: Baseline, r: DiffResult)
    requires f.fingerprint == "a"
    requires var bad := f.(status := Fail, severity := LOW); var good := f.(status := Pass, severity := LOW, fingerprint := "b");
      IsCapture([bad, bad, good], at, b) && IsDiff(b, [bad, bad, good], r)
    ensures r.previousScore == 33 && r.currentScore == 50
  {
    var bad, good := f.(status := Fail, severity := LOW), f.(status := Pass, severity := LOW, fingerprint := "b");
    assert "b"[0] != "a"[0];
    FirstOfRepeated(bad, good);
    ScoreOfRepeated(bad, good);
  }

  lemma {:induction false} FirstOfRepeated(bad: Finding, good: Finding)
    requires Fingerprint(bad) != Fingerprint(good)
    ensures FirstByKey([bad, bad, good], Fingerprint) == [bad, good]
  {
    hide FirstByKey, KeysOf, Fingerprint;
    FirstOfTwice(bad);
    FirstOfAppend([bad, bad], good);
    assert [bad, bad] + [good] == [bad, bad, good];
  }

  lemma {:induction false} FirstOfTwice(bad: Finding)
    ensures FirstByKey([bad, bad], Fingerprint) == [bad] && KeysOf([bad, bad], Fingerprint) == {Fingerprint(bad)}
  {
    hide FirstByKey, KeysOf, Fingerprint;
    AtTheStart([], Score.PassWeight);
    FirstOfAppend([], bad);
    FirstOfAppend([bad], bad);
    assert [] + [bad] == [bad] && [bad] + [bad] == [bad, bad];
  }

  lemma {:induction false} FirstOfAppend(s: seq<Finding>, f: Finding)
    ensures FirstByKey(s + [f], Fingerprint) ==
      if Fingerprint(f) in KeysOf(s, Fingerprint) then FirstByKey(s, Fingerprint) else FirstByKey(s, Fingerprint) + [f]
    ensures KeysOf(s + [f], Fingerprint) == KeysOf(s, Fingerprint) + {Fingerprint(f)}
  {
    hide FirstByKey, KeysOf, Fingerprint;
    FirstByKeyStep(s + [f], |s|, Fingerprint);
    assert (s + [f])[..|s|] == s && (s + [f])[..|s| + 1] == s + [f];
  }

  lemma {:induction false} ScoreOfRepeated(bad: Finding, good: Finding)
    requires bad.status == Fail && good.status == Pass && bad.severity == LOW && good.severity == LOW
    ensures Score.ScoreOf([bad, good]).score == 50
    ensures Score.ScoreOf([bad, bad, good]).score == 33
  {
    WeightOfRepeated(bad, good, Score.PassWeight);
    WeightOfRepeated(bad, good, Score.TotalWeight);
    Score.IntegerRounding(3, 6);
    Score.IntegerRounding(3, 9);
  }

  lemma {:induction false} WeightOfRepeated(bad: Finding, good: Finding, w: Finding -> int)
    ensures Sum([bad, good], w) == w(bad) + w(good)
    ensures Sum([bad, bad, good], w) == 2 * w(bad) + w(good)
  {
    SumAppend([], bad, w);
    SumAppend([bad], good, w);
    SumAppend([bad], bad, w);
    SumAppend([bad, bad], good, w);
    assert [] + [bad] == [bad] && [bad] + [good] == [bad, good];
    assert [bad] + [bad] == [bad, bad] && [bad, bad] + [good] == [bad, bad, good];
  }

  /** The gate looks at the distinct findings of the scan: with repeated
      fingerprints only the first of each can trip it. */
  lemma {:induction false} GateSeesFirstOfEach(b: Baseline, current: seq<Finding>, r: DiffResult, level: Severity)
    requires IsDiff(b, current, r)
    ensures (exists f :: f in r.added + r.existing && Trips(f, level)) <==>
            (exists f :: f in FirstByKey(current, Fingerprint) && Trips(f, level))
    ensures (exists f :: f in r.added && Trips(f, level)) ==> (exists f :: f in current && Trips(f, level))
  {
    forall f ensures f in r.added + r.existing <==> f in FirstByKey(current, Fingerprint) {
      assert f in r.added + r.existing <==> f in r.added || f in r.existing;
    }
  }

  // ---- the score of distinct findings ------------------------------------------------

  // Compute scores the distinct findings of a scan, Capture all of them: when do the
  // two scores agree?

  predicate Evaluable(f: Finding) {
    f.status == Pass || f.status == Fail || f.status == Error
  }

  ghost predicate RepeatsAt(s: seq<Finding>, j: nat) {
    j < |s| && Fingerprint(s[j]) in KeysOf(s[..j], Fingerprint)
  }

  /** The same findings with other severities. */
  ghost predicate Reweighted(s: seq<Finding>, t: seq<Finding>) {
    |t| == |s| && forall i :: 0 <= i < |s| ==> t[i] == s[i].(severity := t[i].severity)
  }

  ghost predicate ScoresAgree(s: seq<Finding>) {
    Score.ScoreOf(s).score == Score.ScoreOf(FirstByKey(s, Fingerprint)).score
  }

  ghost predicate RepeatsAreHarmless(s: seq<Finding>) {
    || (forall j :: 0 <= j < |s| && RepeatsAt(s, j) ==> !Evaluable(s[j]))
    || (forall i :: 0 <= i < |s| && Evaluable(s[i]) ==> s[i].status == Pass)
  }

  // ---- sums over the first findings ---------------------------------------------------

  /** What the finding at `i` adds to a sum over first findings. */
  ghost function FirstWeight(s: seq<Finding>, i: nat, w: Finding -> int): int
    requires i < |s|
  {
    if RepeatsAt(s, i) then 0 else w(s[i])
  }

  lemma {:induction false} RepeatsInPrefix(s: seq<Finding>, n: nat, i: nat)
    requires i < n <= |s|
    ensures RepeatsAt(s[..n], i) == RepeatsAt(s, i)
  {
    assert s[..n][..i] == s[..i];
  }

  lemma {:induction false} FirstSumStep(s: seq<Finding>, w: Finding -> int)
    requires s != []
    ensures var n := |s| - 1;
      Sum(FirstByKey(s, Fingerprint), w) == Sum(FirstByKey(s[..n], Fingerprint), w) + FirstWeight(s, n, w)
  {
    hide FirstByKey, Sum;
    var n := |s| - 1;
    FirstByKeyStep(s, n, Fingerprint);
    assert s[..n + 1] == s;
    SumAppend(FirstByKey(s[..n], Fingerprint), s[n], w);
  }

  /** If repeats weigh nothing, the two sums are equal. */
  lemma {:induction false} SumsAgree(s: seq<Finding>, w: Finding -> int)
    requires forall j :: 0 <= j < |s| && RepeatsAt(s, j) ==> w(s[j]) == 0
    ensures Sum(FirstByKey(s, Fingerprint), w) == Sum(s, w)
  {
    if s != [] {
      var n := |s| - 1;
      forall j | 0 <= j < n && RepeatsAt(s[..n], j) ensures w(s[..n][j]) == 0 {
        RepeatsInPrefix(s, n, j);
      }
      SumsAgree(s[..n], w);
      FirstSumStep(s, w);
    }
  }

  /** If only the finding at `q` weighs anything, or none for q = |s|. */
  lemma {:induction false} SumOfOne(s: seq<Finding>, q: nat, w: Finding -> int)
    requires forall i :: 0 <= i < |s| && i != q ==> w(s[i]) == 0
    ensures Sum(s, w) == if q < |s| then w(s[q]) else 0
  {
    if s != [] {
      SumOfOne(s[..|s| - 1], q, w);
    }
  }

  lemma {:induction false} FirstSumOfOne(s: seq<Finding>, q: nat, w: Finding -> int)
    requires forall i :: 0 <= i < |s| && i != q && !RepeatsAt(s, i) ==> w(s[i]) == 0
    ensures Sum(FirstByKey(s, Fingerprint), w) == if q < |s| then FirstWeight(s, q, w) else 0
  {
    hide FirstByKey;
    if s == [] {
      AtTheStart(s, w);
    } else {
      var n := |s| - 1;
      forall i | 0 <= i < n && i != q && !RepeatsAt(s[..n], i) ensures w(s[..n][i]) == 0 {
        RepeatsInPrefix(s, n, i);
      }
      FirstSumOfOne(s[..n], q, w);
      FirstSumStep(s, w);
      if q < n {
        RepeatsInPrefix(s, n, q);
      }
    }
  }

  // ---- the condition suffices ------------------------------------------------------------

  lemma {:induction false} RepeatsKeep(s: seq<Finding>, t: seq<Finding>, j: nat)
    requires Reweighted(s, t) && j < |s|
    ensures RepeatsAt(t, j) == RepeatsAt(s, j)
  {
    forall k ensures k in KeysOf(t[..j], Fingerprint) <==> k in KeysOf(s[..j], Fingerprint) {
      if k in KeysOf(t[..j], Fingerprint) {
        var i :| 0 <= i < j && Fingerprint(t[..j][i]) == k;
        assert s[..j][i] in s[..j] && Fingerprint(s[..j][i]) == k;
      }
      if k in KeysOf(s[..j], Fingerprint) {
        var i :| 0 <= i < j && Fingerprint(s[..j][i]) == k;
        assert t[..j][i] in t[..j] && Fingerprint(t[..j][i]) == k;
      }
    }
  }

  /** When all that was evaluated passed, the score is 100 either way. */
  lemma {:induction false} AllPassed(s: seq<Finding>)
    requires forall f :: f in s && Evaluable(f) ==> f.status == Pass
    ensures Score.ScoreOf(s).score == 100
  {
    SameSums(s, Score.PassWeight, Score.TotalWeight);
    Score.WeightsAreConsistent(s);
    FullPercentOfItself(Score.ScoreOf(s).total);
  }

  lemma {:induction false} FullPercentOfItself(t: int)
    requires 0 <= t
    ensures Score.Percent(t, t) == 100
  {
    if t > 0 {
      Score.FullPercent(t, t);
    }
  }

  lemma {:induction false} SameSums(s: seq<Finding>, v: Finding -> int, w: Finding -> int)
    requires forall f :: f in s ==> v(f) == w(f)
    ensures Sum(s, v) == Sum(s, w)
  {
    if s != [] {
      SameSums(s[..|s| - 1], v, w);
    }
  }

  lemma {:induction false} HarmlessRepeatsAgree(s: seq<Finding>, t: seq<Finding>)
    requires RepeatsAreHarmless(s) && Reweighted(s, t)
    ensures ScoresAgree(t)
  {
    if forall i :: 0 <= i < |s| && Evaluable(s[i]) ==> s[i].status == Pass {
      AllPassed(t);
      AllPassed(FirstByKey(t, Fingerprint));
    } else {
      forall j | 0 <= j < |t| && RepeatsAt(t, j) ensures !Evaluable(t[j]) {
        RepeatsKeep(s, t, j);
      }
      SumsAgree(t, Score.PassWeight);
      SumsAgree(t, Score.TotalWeight);
    }
  }

  // ---- and is needed ---------------------------------------------------------------------

  /** Only the findings at `j` and `q` keep a weight. */
  function Only(s: seq<Finding>, j: nat, q: nat): seq<Finding> {
    seq(|s|, i requires 0 <= i < |s| => s[i].(severity := if i == j || i == q then LOW else UNKNOWN))
  }

  lemma {:induction false} ScoreFromSums(s: seq<Finding>)
    ensures Score.ScoreOf(s).score == Score.Percent(Sum(s, Score.PassWeight), Sum(s, Score.TotalWeight))
    ensures Score.Percent(0, 0) == 100 && Score.Percent(0, 3) == 0 && Score.Percent(3, 6) == 50
  {
    hide Sum;
  }

  /** A repeated failure alone: 0 with it, 100 without. */
  lemma {:induction false} RepeatedFailureMatters(s: seq<Finding>, j: nat)
    requires RepeatsAt(s, j) && Evaluable(s[j]) && s[j].status != Pass
    ensures !ScoresAgree(Only(s, j, j))
  {
    hide Sum, FirstByKey, Score.ScoreOf, Score.Percent;
    var t := Only(s, j, j);
    RepeatsKeep(s, t, j);
    SumOfOne(t, j, Score.PassWeight);
    SumOfOne(t, j, Score.TotalWeight);
    FirstSumOfOne(t, j, Score.TotalWeight);
    FirstSumOfOne(t, j, Score.PassWeight);
    ScoreFromSums(t);
    ScoreFromSums(FirstByKey(t, Fingerprint));
  }

  /** A repeated pass beside a failure: 50 with it, 0 without. */
  lemma {:induction false} RepeatedPassMatters(s: seq<Finding>, j: nat, q: nat)
    requires RepeatsAt(s, j) && s[j].status == Pass
    requires q < |s| && !RepeatsAt(s, q) && Evaluable(s[q]) && s[q].status != Pass
    ensures !ScoresAgree(Only(s, j, q))
  {
    hide Sum, FirstByKey, Score.ScoreOf, Score.Percent;
    var t := Only(s, j, q);
    RepeatsKeep(s, t, j);
    RepeatsKeep(s, t, q);
    SumOfOne(t, j, Score.PassWeight);
    TwoWeights(s, j, q);
    FirstSumOfOne(t, q, Score.TotalWeight);
    FirstSumOfOne(t, q, Score.PassWeight);
    ScoreFromSums(t);
    ScoreFromSums(FirstByKey(t, Fingerprint));
  }

  lemma {:induction false} TwoWeights(s: seq<Finding>, j: nat, q: nat)
    requires j < |s| && q < |s| && j != q && Evaluable(s[j]) && Evaluable(s[q])
    ensures Sum(Only(s, j, q), Score.TotalWeight) == 2 * Score.Weight(LOW)
  {
    var t := Only(s, j, q);
    var rest := t[q := t[q].(severity := UNKNOWN)];
    SumOfOne(rest, j, Score.TotalWeight);
    Score.ReplaceOne(t, q, t[q].(severity := UNKNOWN), Score.TotalWeight);
  }

  /** Capturing and diffing one list of findings gives the same score whatever the
      severities, exactly when every repeated fingerprint is one that was not
      evaluated, or everything evaluated passed. */
  lemma {:induction false} ScoresAgreeIff(s: seq<Finding>)
    ensures (forall t :: Reweighted(s, t) ==> ScoresAgree(t)) <==> RepeatsAreHarmless(s)
  {
    hide ScoresAgree, RepeatsAt;
    if RepeatsAreHarmless(s) {
      forall t | Reweighted(s, t) ensures ScoresAgree(t) {
        HarmlessRepeatsAgree(s, t);
      }
    } else {
      var j :| 0 <= j < |s| && RepeatsAt(s, j) && Evaluable(s[j]);
      var q :| 0 <= q < |s| && Evaluable(s[q]) && s[q].status != Pass;
      var a, b := if s[j].status != Pass then j else if RepeatsAt(s, q) then q else j,
        if s[j].status != Pass then j else q;
      if s[a].status != Pass {
        RepeatedFailureMatters(s, a);
        assert Reweighted(s, Only(s, a, a));
      } else {
        RepeatedPassMatters(s, j, q);
        assert Reweighted(s, Only(s, j, q));
      }
    }
  }

  /** The two scores of a diff against the scan's own capture are these. */
  lemma {:induction false} OwnCaptureScores(s: seq<Finding>, at: int, b: Baseline, r: DiffResult)
    requires IsCapture(s, at, b) && IsDiff(b, s, r)
    ensures r.previousScore == r.currentScore <==> ScoresAgree(s)
  {
    hide Score.ScoreOf, FirstByKey;
  }
}
