/** internal/baseline/baseline.go: capturing the expected findings. */
module Baselines {
  import opened Seqs
  import opened Findings
  import Score

  datatype Entry = Entry(fingerprint: string, checkID: string, severity: Severity, status: Status, resourceID: string, resourceName: string, resourceType: string)

  /** The schema string is a constant and is not modelled; time is in seconds. */
  datatype Baseline = Baseline(capturedAt: int, score: int, coverage: int, entries: seq<Entry>)

  function EntryKey(e: Entry): string {
    e.fingerprint
  }

  function EntryOf(f: Finding): Entry {
    Entry(f.fingerprint, f.checkID, f.severity, f.status, f.resource.id, f.resource.name, f.resource.typ)
  }

  function EntriesOf(findings: seq<Finding>): (r: seq<Entry>)
    ensures |r| == |findings|
  {
    if findings == [] then []
    else EntriesOf(findings[..|findings| - 1]) + [EntryOf(findings[|findings| - 1])]
  }

  lemma {:induction false} EntriesAt(findings: seq<Finding>, i: nat)
    requires i < |findings|
    ensures EntriesOf(findings)[i] == EntryOf(findings[i])
  {
    if i < |findings| - 1 {
      EntriesAt(findings[..|findings| - 1], i);
    }
  }

  /** One entry per fingerprint, taken from its first finding, strictly in
      fingerprint order; the score is that of the findings as given. */
  ghost predicate IsCapture(findings: seq<Finding>, at: int, b: Baseline) {
    && StrictlySorted(b.entries, EntryKey)
    && (forall e :: e in b.entries <==> e in EntriesOf(FirstByKey(findings, Fingerprint)))
    && b.capturedAt == at
    && b.score == Score.ScoreOf(findings).score
    && b.coverage == Score.ScoreOf(findings).coverage
  }

  lemma {:induction false} CaptureStep(findings: seq<Finding>, i: nat)
    requires i < |findings|
    ensures var seen, fp := KeysOf(findings[..i], Fingerprint), Fingerprint(findings[i]);
      var entries := EntriesOf(FirstByKey(findings[..i], Fingerprint));
      && KeysOf(findings[..i + 1], Fingerprint) == seen + {fp}
      && EntriesOf(FirstByKey(findings[..i + 1], Fingerprint)) ==
           if fp in seen then entries else entries + [EntryOf(findings[i])]
  {
    FirstByKeyStep(findings, i, Fingerprint);
    var distinct := FirstByKey(findings[..i], Fingerprint);
    assert (distinct + [findings[i]])[..|distinct|] == distinct;
  }

  lemma {:induction false} CaptureOfNone(findings: seq<Finding>)
    ensures KeysOf(findings[..0], Fingerprint) == {}
    ensures EntriesOf(FirstByKey(findings[..0], Fingerprint)) == []
  {
  }

  method Capture(findings: seq<Finding>, at: int) returns (b: Baseline)
    ensures IsCapture(findings, at, b)
  {
    hide FirstByKey, KeysOf, EntriesOf;
    CaptureOfNone(findings);
    var seen: set<string> := {};
    var entries: seq<Entry> := [];
    for i := 0 to |findings|
      invariant seen == KeysOf(findings[..i], Fingerprint)
      invariant entries == EntriesOf(FirstByKey(findings[..i], Fingerprint))
    {
      CaptureStep(findings, i);
      var fp := Fingerprint(findings[i]);
      if fp !in seen {
        seen := seen + {fp};
        entries := entries + [EntryOf(findings[i])];
      }
    }
    assert findings[..|findings|] == findings;
    EntriesKeepKeys(FirstByKey(findings, Fingerprint));
    var sorted := SortEntries(entries);
    var s := Score.Compute(findings);
    b := Baseline(at, s.score, s.coverage, sorted);
  }

  method SortEntries(entries: seq<Entry>) returns (sorted: seq<Entry>)
    requires DistinctKeys(entries, EntryKey)
    ensures StrictlySorted(sorted, EntryKey)
    ensures forall e :: e in sorted <==> e in entries
  {
    var slice := new Entry[|entries|](i requires 0 <= i < |entries| => entries[i]);
    assert slice[..] == entries;
    InsertionSort(slice, EntryKey);
    sorted := slice[..];
    SortedPermutation(entries, sorted, EntryKey);
  }

  /** Later entries replace earlier ones with the same fingerprint. */
  method FingerprintSet(b: Baseline) returns (out: map<string, Entry>)
    ensures out == LastByKey(b.entries, EntryKey)
  {
    out := map[];
    for i := 0 to |b.entries|
      invariant out == LastByKey(b.entries[..i], EntryKey)
    {
      assert b.entries[..i + 1][..i] == b.entries[..i];
      out := out[b.entries[i].fingerprint := b.entries[i]];
    }
    assert b.entries[..|b.entries|] == b.entries;
  }

  lemma {:induction false} EntriesKeepKeys(findings: seq<Finding>)
    ensures KeysOf(EntriesOf(findings), EntryKey) == KeysOf(findings, Fingerprint)
    ensures DistinctKeys(findings, Fingerprint) ==> DistinctKeys(EntriesOf(findings), EntryKey)
  {
    var es := EntriesOf(findings);
    forall i | 0 <= i < |findings| ensures EntryKey(es[i]) == Fingerprint(findings[i]) {
      EntriesAt(findings, i);
    }
    forall k | k in KeysOf(findings, Fingerprint) ensures k in KeysOf(es, EntryKey) {
      var i :| 0 <= i < |findings| && Fingerprint(findings[i]) == k;
      assert es[i] in es;
    }
    forall k | k in KeysOf(es, EntryKey) ensures k in KeysOf(findings, Fingerprint) {
      var i :| 0 <= i < |es| && EntryKey(es[i]) == k;
      assert findings[i] in findings;
    }
  }

  /** The entry records the finding. */
  ghost predicate Describes(e: Entry, f: Finding) {
    && e.fingerprint == f.fingerprint && e.checkID == f.checkID && e.severity == f.severity && e.status == f.status
    && e.resourceID == f.resource.id && e.resourceName == f.resource.name && e.resourceType == f.resource.typ
  }

  /** The entries describe exactly those findings whose fingerprint no earlier finding
      has. */
  lemma {:induction false} CaptureDescribesFirsts(findings: seq<Finding>, at: int, b: Baseline, e: Entry)
    requires IsCapture(findings, at, b)
    ensures e in b.entries <==> exists i: nat :: i < |findings| && IsFirst(findings, i, Fingerprint) && Describes(e, findings[i])
  {
    var distinct := FirstByKey(findings, Fingerprint);
    FirstByKeyMembers(findings, Fingerprint);
    if e in b.entries {
      var k :| 0 <= k < |distinct| && EntriesOf(distinct)[k] == e;
      EntriesAt(distinct, k);
      assert distinct[k] in distinct;
      var i: nat :| i < |findings| && findings[i] == distinct[k] && IsFirst(findings, i, Fingerprint);
      assert Describes(e, findings[i]);
    }
    if i: nat :| i < |findings| && IsFirst(findings, i, Fingerprint) && Describes(e, findings[i]) {
      assert findings[i] in distinct;
      var k :| 0 <= k < |distinct| && distinct[k] == findings[i];
      EntriesAt(distinct, k);
      assert EntriesOf(distinct)[k] == e;
    }
  }

  /** A baseline holds every fingerprint of the findings, once. */
  lemma {:induction false} CaptureHoldsEachFingerprint(findings: seq<Finding>, at: int, b: Baseline)
    requires IsCapture(findings, at, b)
    ensures KeysOf(b.entries, EntryKey) == KeysOf(findings, Fingerprint)
    ensures |b.entries| == |KeysOf(findings, Fingerprint)|
  {
    var es := EntriesOf(FirstByKey(findings, Fingerprint));
    EntriesKeepKeys(FirstByKey(findings, Fingerprint));
    assert KeysOf(b.entries, EntryKey) == KeysOf(es, EntryKey);
    StrictlySortedIsDistinct(b.entries, EntryKey);
    DistinctCount(b.entries, EntryKey);
  }

  /** Two captures of findings without repeated fingerprints are the same
      baseline, whatever the order of the findings. */
  lemma {:induction false} CaptureIgnoresOrder(f: seq<Finding>, g: seq<Finding>, at: int, b: Baseline, c: Baseline)
    requires DistinctKeys(f, Fingerprint) && multiset(f) == multiset(g)
    requires IsCapture(f, at, b) && IsCapture(g, at, c)
    ensures b == c
  {
    DistinctUnderPermutation(f, g, Fingerprint);
    FirstByKeyOfDistinct(f, Fingerprint);
    FirstByKeyOfDistinct(g, Fingerprint);
    Score.ScoreIgnoresOrder(f, g);
    forall e ensures e in EntriesOf(f) <==> e in EntriesOf(g) {
      EntryComesFrom(f, g, e);
      EntryComesFrom(g, f, e);
    }
    SortedIsUnique(b.entries, c.entries, EntryKey);
  }

  lemma {:induction false} EntryComesFrom(f: seq<Finding>, g: seq<Finding>, e: Entry)
    requires forall x :: x in f <==> x in g
    ensures e in EntriesOf(f) ==> e in EntriesOf(g)
  {
    if e in EntriesOf(f) {
      var i :| 0 <= i < |f| && EntriesOf(f)[i] == e;
      assert f[i] in g;
      var j :| 0 <= j < |g| && g[j] == f[i];
      EntriesAt(f, i);
      EntriesAt(g, j);
      assert EntriesOf(g)[j] == e;
    }
  }
}
