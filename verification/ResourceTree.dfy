/** internal/tui/graph.go: the provider, resource type, resource tree with its
    rolled-up counts, and the provider buckets of internal/tui/model.go. */
module ResourceTree {
  import opened Text
  import opened Seqs
  import opened Findings

  const UNKNOWN_LABEL := "(unknown)"

  /** The part of a type before its first dot, empty when it has none. */
  function ProviderFromType(t: string): string {
    if '.' in t then UpToDot(t) else ""
  }

  function UpToDot(t: string): string {
    if t == [] || t[0] == '.' then [] else [t[0]] + UpToDot(t[1..])
  }

  /** The provider a filter compares with; empty when unknown. */
  function RawProvider(f: Finding): string {
    if f.resource.provider == "" then ProviderFromType(f.resource.typ) else f.resource.provider
  }

  function ProviderKey(f: Finding): string {
    if RawProvider(f) == "" then UNKNOWN_LABEL else RawProvider(f)
  }

  function TypeKey(f: Finding): string {
    if f.resource.typ == "" then UNKNOWN_LABEL else f.resource.typ
  }

  function ResourceKey(f: Finding): string {
    if f.resource.name != "" then f.resource.name
    else if f.resource.id != "" then f.resource.id
    else "(unnamed)"
  }

  /** Where a finding hangs in the tree. A node is named by its path, a prefix of
      the paths of its findings. */
  function PathOf(f: Finding): seq<string> {
    [ProviderKey(f), TypeKey(f), ResourceKey(f)]
  }

  /** A type names its provider before the first dot. */
  lemma {:induction false} TypeNamesProvider(provider: string, rest: string)
    requires '.' !in provider
    ensures ProviderFromType(provider + "." + rest) == provider && ProviderFromType(provider) == ""
  {
    var t := provider + "." + rest;
    assert t[|provider|] == '.';
    UpToFirstDot(provider, rest);
  }

  lemma {:induction false} UpToFirstDot(provider: string, rest: string)
    requires '.' !in provider
    ensures UpToDot(provider + "." + rest) == provider
  {
    var t := provider + "." + rest;
    if provider != "" {
      UpToFirstDot(provider[1..], rest);
      assert t[0] == provider[0] && t[1..] == provider[1..] + "." + rest;
    } else {
      assert t[0] == '.';
    }
  }

  /** The labels of a finding: its provider, recorded or named by its type, its type, and
      its resource's name or else id; a fixed label stands for what is missing. */
  lemma {:induction false} LabelsMean(f: Finding)
    ensures f.resource.provider != "" ==> PathOf(f)[0] == f.resource.provider
    ensures f.resource.provider == "" && '.' !in f.resource.typ ==> PathOf(f)[0] == "(unknown)"
    ensures f.resource.typ != "" ==> PathOf(f)[1] == f.resource.typ
    ensures f.resource.typ == "" ==> PathOf(f)[1] == "(unknown)"
    ensures f.resource.name != "" ==> PathOf(f)[2] == f.resource.name
    ensures f.resource.name == "" && f.resource.id != "" ==> PathOf(f)[2] == f.resource.id
    ensures f.resource.name == f.resource.id == "" ==> PathOf(f)[2] == "(unnamed)"
  {
  }

  function Count(fs: seq<Finding>, path: seq<string>): nat {
    if fs == [] then 0
    else Count(fs[..|fs| - 1], path) + (if path <= PathOf(fs[|fs| - 1]) then 1 else 0)
  }

  /** The highest severity below a node; the source starts from 0. */
  function Worst(fs: seq<Finding>, path: seq<string>): Severity {
    if fs == [] then UNKNOWN
    else
      var w, f := Worst(fs[..|fs| - 1], path), fs[|fs| - 1];
      if path <= PathOf(f) && f.severity > w then f.severity else w
  }

  ghost function Children(fs: seq<Finding>, path: seq<string>): set<string> {
    set f | f in fs && path < PathOf(f) :: PathOf(f)[|path|]
  }

  datatype Node = Node(name: string, depth: nat, count: int, worst: Severity, providerKey: string, resourceKey: string)

  function Row(fs: seq<Finding>, path: seq<string>): Node
    requires 1 <= |path| <= 3
  {
    var n := |path| - 1;
    Node(path[n], n, Count(fs, path), Worst(fs, path), path[0], if n == 2 then path[2] else "")
  }

  /** The rows below a node, in preorder, siblings in alphabetical order. */
  ghost function RowsUnder(fs: seq<Finding>, path: seq<string>): seq<Node>
    requires |path| <= 3
    decreases 3 - |path|, 1, 0
  {
    if |path| == 3 then [] else RowsOf(fs, path, SortedKeys(Children(fs, path)))
  }

  ghost function RowsOf(fs: seq<Finding>, path: seq<string>, ks: seq<string>): seq<Node>
    requires |path| < 3
    decreases 3 - |path|, 0, |ks|
  {
    if ks == [] then []
    else
      var child := path + [ks[|ks| - 1]];
      RowsOf(fs, path, ks[..|ks| - 1]) + [Row(fs, child)] + RowsUnder(fs, child)
  }

  // ---- buckets ---------------------------------------------------------------

  datatype ResBucket = ResBucket(count: int, worst: Severity)

  datatype TypeBucket = TypeBucket(resources: map<string, ResBucket>, count: int, worst: Severity)

  datatype ProvBucket = ProvBucket(types: map<string, TypeBucket>, count: int, worst: Severity)

  function Raise(worst: Severity, s: Severity): Severity {
    if s > worst then s else worst
  }

  ghost predicate ResTallied(rs: map<string, ResBucket>, fs: seq<Finding>, path: seq<string>) {
    && rs.Keys == Children(fs, path)
    && forall r :: r in rs ==> rs[r] == ResBucket(Count(fs, path + [r]), Worst(fs, path + [r]))
  }

  ghost predicate TypesTallied(ts: map<string, TypeBucket>, fs: seq<Finding>, path: seq<string>) {
    && ts.Keys == Children(fs, path)
    && forall t :: t in ts ==>
         && ts[t].count == Count(fs, path + [t]) && ts[t].worst == Worst(fs, path + [t])
         && ResTallied(ts[t].resources, fs, path + [t])
  }

  ghost predicate Tallied(ps: map<string, ProvBucket>, fs: seq<Finding>) {
    && ps.Keys == Children(fs, [])
    && forall p :: p in ps ==>
         && ps[p].count == Count(fs, [p]) && ps[p].worst == Worst(fs, [p])
         && TypesTallied(ps[p].types, fs, [p])
  }

  lemma {:induction false} AddFinding(fs: seq<Finding>, f: Finding, path: seq<string>)
    ensures Count(fs + [f], path) == Count(fs, path) + (if path <= PathOf(f) then 1 else 0)
    ensures Worst(fs + [f], path) == if path <= PathOf(f) then Raise(Worst(fs, path), f.severity) else Worst(fs, path)
    ensures Children(fs + [f], path) == Children(fs, path) + (if path < PathOf(f) then {PathOf(f)[|path|]} else {})
  {
    assert (fs + [f])[..|fs|] == fs;
    var all := Children(fs, path) + (if path < PathOf(f) then {PathOf(f)[|path|]} else {});
    forall k | k in all ensures k in Children(fs + [f], path) {
      if k in Children(fs, path) {
        var g :| g in fs && path < PathOf(g) && PathOf(g)[|path|] == k;
        assert g in fs + [f];
      } else {
        assert f in fs + [f];
      }
    }
  }

  lemma {:induction false} ExtendsPrefix(path: seq<string>, k: string, q: seq<string>)
    ensures path + [k] <= q <==> path < q && q[|path|] == k
  {
    if path < q && q[|path|] == k {
      assert q[..|path| + 1] == path + [k];
    }
    if path + [k] <= q {
      assert q[|path|] == (path + [k])[|path|];
      assert q[..|path|] == (path + [k])[..|path|] == path;
    }
  }

  /** No finding passes below a node that has no bucket yet. */
  lemma {:induction false} AbsentIsEmpty(fs: seq<Finding>, path: seq<string>, k: string)
    requires |path| < 3 && k !in Children(fs, path)
    ensures Count(fs, path + [k]) == 0 && Worst(fs, path + [k]) == UNKNOWN && Children(fs, path + [k]) == {}
  {
    if fs != [] {
      var init, f := fs[..|fs| - 1], fs[|fs| - 1];
      assert fs == init + [f];
      AddFinding(init, f, path);
      AddFinding(init, f, path + [k]);
      AbsentIsEmpty(init, path, k);
      ExtendsPrefix(path, k, PathOf(f));
    }
  }

  /** upsertFindingIntoBuckets, one level at a time. */
  method UpsertResource(rs: map<string, ResBucket>, f: Finding, ghost fs: seq<Finding>) returns (out: map<string, ResBucket>)
    requires ResTallied(rs, fs, PathOf(f)[..2])
    ensures ResTallied(out, fs + [f], PathOf(f)[..2])
  {
    var r := ResourceKey(f);
    var rb := if r in rs then rs[r] else ResBucket(0, UNKNOWN);
    out := rs[r := ResBucket(rb.count + 1, Raise(rb.worst, f.severity))];
    ghost var path := PathOf(f)[..2];
    assert PathOf(f) == path + [r];
    AddFinding(fs, f, path);
    if r !in rs {
      AbsentIsEmpty(fs, path, r);
    }
    forall k | k in out ensures out[k] == ResBucket(Count(fs + [f], path + [k]), Worst(fs + [f], path + [k])) {
      AddFinding(fs, f, path + [k]);
      assert (path + [k])[2] == k;
    }
  }

  method UpsertType(ts: map<string, TypeBucket>, f: Finding, ghost fs: seq<Finding>) returns (out: map<string, TypeBucket>)
    requires TypesTallied(ts, fs, PathOf(f)[..1])
    ensures TypesTallied(out, fs + [f], PathOf(f)[..1])
  {
    var t := TypeKey(f);
    ghost var path := PathOf(f)[..1];
    assert PathOf(f)[..2] == path + [t];
    if t !in ts {
      AbsentIsEmpty(fs, path, t);
    }
    var tb := if t in ts then ts[t] else TypeBucket(map[], 0, UNKNOWN);
    var rs := UpsertResource(tb.resources, f, fs);
    var tb' := TypeBucket(rs, tb.count + 1, Raise(tb.worst, f.severity));
    out := ts[t := tb'];
    TypesUpserted(ts, fs, f, path, t, tb');
  }

  lemma {:induction false} TypesUpserted(ts: map<string, TypeBucket>, fs: seq<Finding>, f: Finding, path: seq<string>, t: string, tb: TypeBucket)
    requires TypesTallied(ts, fs, path) && path + [t] <= PathOf(f)
    requires tb.count == Count(fs, path + [t]) + 1 && tb.worst == Raise(Worst(fs, path + [t]), f.severity)
    requires ResTallied(tb.resources, fs + [f], path + [t])
    ensures TypesTallied(ts[t := tb], fs + [f], path)
  {
    hide Count, Worst, Children, PathOf;
    ExtendsPrefix(path, t, PathOf(f));
    AddFinding(fs, f, path);
    AddFinding(fs, f, path + [t]);
    forall k | k in ts && k != t
      ensures ts[k].count == Count(fs + [f], path + [k]) && ts[k].worst == Worst(fs + [f], path + [k])
      ensures ResTallied(ts[k].resources, fs + [f], path + [k])
    {
      ExtendsPrefix(path, k, PathOf(f));
      ElsewhereUnchanged(fs, f, path + [k]);
      KeepResTallied(ts[k].resources, fs, f, path + [k]);
    }
  }

  lemma {:induction false} ElsewhereUnchanged(fs: seq<Finding>, f: Finding, path: seq<string>)
    requires !(path <= PathOf(f))
    ensures Count(fs + [f], path) == Count(fs, path) && Worst(fs + [f], path) == Worst(fs, path)
    ensures Children(fs + [f], path) == Children(fs, path)
    ensures forall k :: !(path + [k] <= PathOf(f))
  {
    AddFinding(fs, f, path);
    forall k ensures !(path + [k] <= PathOf(f)) {
      ExtendsPrefix(path, k, PathOf(f));
    }
  }

  lemma {:induction false} KeepResTallied(rs: map<string, ResBucket>, fs: seq<Finding>, f: Finding, path: seq<string>)
    requires ResTallied(rs, fs, path) && !(path <= PathOf(f))
    ensures ResTallied(rs, fs + [f], path)
  {
    ElsewhereUnchanged(fs, f, path);
    forall r | r in rs ensures rs[r] == ResBucket(Count(fs + [f], path + [r]), Worst(fs + [f], path + [r])) {
      ElsewhereUnchanged(fs, f, path + [r]);
    }
  }

  lemma {:induction false} KeepTypesTallied(ts: map<string, TypeBucket>, fs: seq<Finding>, f: Finding, path: seq<string>)
    requires TypesTallied(ts, fs, path) && !(path <= PathOf(f))
    ensures TypesTallied(ts, fs + [f], path)
  {
    ElsewhereUnchanged(fs, f, path);
    forall t | t in ts
      ensures ts[t].count == Count(fs + [f], path + [t]) && ts[t].worst == Worst(fs + [f], path + [t])
      ensures ResTallied(ts[t].resources, fs + [f], path + [t])
    {
      ElsewhereUnchanged(fs, f, path + [t]);
      KeepResTallied(ts[t].resources, fs, f, path + [t]);
    }
  }

  method Upsert(ps: map<string, ProvBucket>, f: Finding, ghost fs: seq<Finding>) returns (out: map<string, ProvBucket>)
    requires Tallied(ps, fs)
    ensures Tallied(out, fs + [f])
  {
    var p := ProviderKey(f);
    assert PathOf(f)[..1] == [p] && [] + [p] == [p];
    if p !in ps {
      AbsentIsEmpty(fs, [], p);
    }
    var pb := if p in ps then ps[p] else ProvBucket(map[], 0, UNKNOWN);
    var ts := UpsertType(pb.types, f, fs);
    var pb' := ProvBucket(ts, pb.count + 1, Raise(pb.worst, f.severity));
    out := ps[p := pb'];
    ProvidersUpserted(ps, fs, f, p, pb');
  }

  lemma {:induction false} ProvidersUpserted(ps: map<string, ProvBucket>, fs: seq<Finding>, f: Finding, p: string, pb: ProvBucket)
    requires Tallied(ps, fs) && [p] <= PathOf(f)
    requires pb.count == Count(fs, [p]) + 1 && pb.worst == Raise(Worst(fs, [p]), f.severity)
    requires TypesTallied(pb.types, fs + [f], [p])
    ensures Tallied(ps[p := pb], fs + [f])
  {
    hide Count, Worst, Children, PathOf, TypesTallied;
    assert [] + [p] == [p];
    ExtendsPrefix([], p, PathOf(f));
    AddFinding(fs, f, []);
    AddFinding(fs, f, [p]);
    forall k | k in ps && k != p
      ensures ps[k].count == Count(fs + [f], [k]) && ps[k].worst == Worst(fs + [f], [k])
      ensures TypesTallied(ps[k].types, fs + [f], [k])
    {
      assert [] + [k] == [k];
      ExtendsPrefix([], k, PathOf(f));
      ElsewhereUnchanged(fs, f, [k]);
      KeepTypesTallied(ps[k].types, fs, f, [k]);
    }
  }

  // ---- flattening --------------------------------------------------------------

  lemma {:induction false} RowsStep(fs: seq<Finding>, path: seq<string>, ks: seq<string>, i: nat)
    requires |path| < 3 && i < |ks|
    ensures RowsOf(fs, path, ks[..i + 1]) ==
      RowsOf(fs, path, ks[..i]) + [Row(fs, path + [ks[i]])] + RowsUnder(fs, path + [ks[i]])
  {
    assert ks[..i + 1][..i] == ks[..i];
  }

  method ResourceRows(p: string, t: string, rs: map<string, ResBucket>, ghost fs: seq<Finding>) returns (out: seq<Node>)
    requires ResTallied(rs, fs, [p, t])
    ensures out == RowsUnder(fs, [p, t])
  {
    hide Count, Worst, Children, PathOf;
    out := [];
    var ks := SortKeys(rs.Keys);
    for i := 0 to |ks|
      invariant out == RowsOf(fs, [p, t], ks[..i])
    {
      RowsStep(fs, [p, t], ks, i);
      assert [p, t] + [ks[i]] == [p, t, ks[i]];
      assert ks[i] in ks;
      var rb := rs[ks[i]];
      out := out + [Node(ks[i], 2, rb.count, rb.worst, p, ks[i])];
    }
    assert ks[..|ks|] == ks;
  }

  method TypeRows(p: string, ts: map<string, TypeBucket>, ghost fs: seq<Finding>) returns (out: seq<Node>)
    requires TypesTallied(ts, fs, [p])
    ensures out == RowsUnder(fs, [p])
  {
    hide Count, Worst, Children, PathOf, ResTallied;
    out := [];
    var ks := SortKeys(ts.Keys);
    for i := 0 to |ks|
      invariant out == RowsOf(fs, [p], ks[..i])
    {
      RowsStep(fs, [p], ks, i);
      assert [p] + [ks[i]] == [p, ks[i]];
      assert ks[i] in ks;
      var tb := ts[ks[i]];
      var below := ResourceRows(p, ks[i], tb.resources, fs);
      out := out + [Node(ks[i], 1, tb.count, tb.worst, p, "")] + below;
    }
    assert ks[..|ks|] == ks;
  }

  /** flattenBuckets */
  method Flatten(ps: map<string, ProvBucket>, ghost fs: seq<Finding>) returns (out: seq<Node>)
    requires Tallied(ps, fs)
    ensures out == RowsUnder(fs, [])
  {
    hide Count, Worst, Children, PathOf, TypesTallied;
    out := [];
    var ks := SortKeys(ps.Keys);
    for i := 0 to |ks|
      invariant out == RowsOf(fs, [], ks[..i])
    {
      RowsStep(fs, [], ks, i);
      assert [] + [ks[i]] == [ks[i]];
      assert ks[i] in ks;
      var pb := ps[ks[i]];
      var below := TypeRows(ks[i], pb.types, fs);
      out := out + [Node(ks[i], 0, pb.count, pb.worst, ks[i], "")] + below;
    }
    assert ks[..|ks|] == ks;
  }

  method BuildGraphRows(fs: seq<Finding>) returns (rows: seq<Node>)
    ensures rows == RowsUnder(fs, [])
  {
    var ps: map<string, ProvBucket> := map[];
    for i := 0 to |fs|
      invariant Tallied(ps, fs[..i])
    {
      assert fs[..i + 1] == fs[..i] + [fs[i]];
      ps := Upsert(ps, fs[i], fs[..i]);
    }
    assert fs[..|fs|] == fs;
    rows := Flatten(ps, fs);
  }

  // ---- conservation ---------------------------------------------------------------

  /** The counts of the children of a node. */
  ghost function ChildCounts(fs: seq<Finding>, path: seq<string>, ks: seq<string>): nat {
    if ks == [] then 0
    else ChildCounts(fs, path, ks[..|ks| - 1]) + Count(fs, path + [ks[|ks| - 1]])
  }

  lemma {:induction false} ChildCountsAdd(fs: seq<Finding>, f: Finding, path: seq<string>, ks: seq<string>)
    requires StrictlySorted(ks, Id)
    ensures ChildCounts(fs + [f], path, ks) ==
      ChildCounts(fs, path, ks) + (if path < PathOf(f) && PathOf(f)[|path|] in ks then 1 else 0)
  {
    if ks != [] {
      var init, k := ks[..|ks| - 1], ks[|ks| - 1];
      ChildCountsAdd(fs, f, path, init);
      AddFinding(fs, f, path + [k]);
      ExtendsPrefix(path, k, PathOf(f));
      assert ks == init + [k];
      forall j | j in init ensures j != k {
        LessIrreflexive(k);
      }
    }
  }

  /** Every node counts what its children count together. */
  lemma {:induction false} CountsRollUp(fs: seq<Finding>, path: seq<string>, ks: seq<string>)
    requires |path| < 3 && StrictlySorted(ks, Id) && forall k :: k in Children(fs, path) ==> k in ks
    ensures ChildCounts(fs, path, ks) == Count(fs, path)
  {
    if fs == [] {
      NoCounts(path, ks);
    } else {
      var init, f := fs[..|fs| - 1], fs[|fs| - 1];
      assert fs == init + [f];
      AddFinding(init, f, path);
      CountsRollUp(init, path, ks);
      ChildCountsAdd(init, f, path, ks);
      if path <= PathOf(f) {
        assert PathOf(f)[|path|] in Children(fs, path);
      }
    }
  }

  lemma {:induction false} NoCounts(path: seq<string>, ks: seq<string>)
    ensures ChildCounts([], path, ks) == 0
  {
    if ks != [] {
      NoCounts(path, ks[..|ks| - 1]);
    }
  }

  /** No child is worse than its parent. */
  lemma {:induction false} WorstBounds(fs: seq<Finding>, path: seq<string>, k: string)
    ensures Worst(fs, path + [k]) <= Worst(fs, path)
  {
    if fs != [] {
      WorstBounds(fs[..|fs| - 1], path, k);
      ExtendsPrefix(path, k, PathOf(fs[|fs| - 1]));
    }
  }

  /** A row counts exactly the findings below it, and its severity bounds theirs and is
      one of theirs, unless none is above unknown. */
  lemma {:induction false} RowDescribesFindings(fs: seq<Finding>, path: seq<string>)
    ensures Count(fs, path) == |Where(fs, (f: Finding) => path <= PathOf(f))|
    ensures forall f :: f in fs && path <= PathOf(f) ==> f.severity <= Worst(fs, path)
    ensures Worst(fs, path) >= UNKNOWN
    ensures Worst(fs, path) > UNKNOWN ==> exists f :: f in fs && path <= PathOf(f) && f.severity == Worst(fs, path)
  {
    hide PathOf;
    if fs != [] {
      var init, last := fs[..|fs| - 1], fs[|fs| - 1];
      RowDescribesFindings(init, path);
      assert fs == init + [last];
      if Worst(fs, path) > UNKNOWN && Worst(fs, path) == Worst(init, path) {
        var f :| f in init && path <= PathOf(f) && f.severity == Worst(init, path);
        assert f in fs;
      }
    }
  }

  /** A node's worst severity is the worst of its children: none exceeds it and,
      unless it is the starting value, one attains it. */
  lemma {:induction false} WorstRollsUp(fs: seq<Finding>, path: seq<string>)
    requires |path| < 3
    ensures forall k :: k in Children(fs, path) ==> Worst(fs, path + [k]) <= Worst(fs, path)
    ensures Worst(fs, path) != UNKNOWN ==> exists k :: k in Children(fs, path) && Worst(fs, path + [k]) == Worst(fs, path)
  {
    forall k | k in Children(fs, path) ensures Worst(fs, path + [k]) <= Worst(fs, path) {
      WorstBounds(fs, path, k);
    }
    WorstAttained(fs, path);
  }

  lemma {:induction false} WorstAttained(fs: seq<Finding>, path: seq<string>)
    requires |path| < 3
    ensures Worst(fs, path) != UNKNOWN ==> exists k :: k in Children(fs, path) && Worst(fs, path + [k]) == Worst(fs, path)
  {
    if fs != [] {
      var init, f := fs[..|fs| - 1], fs[|fs| - 1];
      assert fs == init + [f];
      WorstAttained(init, path);
      AddFinding(init, f, path);
      if path <= PathOf(f) && f.severity > Worst(init, path) {
        var k := PathOf(f)[|path|];
        ExtendsPrefix(path, k, PathOf(f));
        WorstBounds(init, path, k);
        AddFinding(init, f, path + [k]);
        assert k in Children(fs, path);
      } else if Worst(fs, path) != UNKNOWN {
        var k :| k in Children(init, path) && Worst(init, path + [k]) == Worst(init, path);
        AddFinding(init, f, path + [k]);
        WorstBounds(fs, path, k);
        assert k in Children(fs, path);
      }
    }
  }

  function DepthTotal(rows: seq<Node>, depth: nat): int {
    if rows == [] then 0
    else DepthTotal(rows[..|rows| - 1], depth) + (if rows[|rows| - 1].depth == depth then rows[|rows| - 1].count else 0)
  }

  lemma {:induction false} DepthTotalConcat(a: seq<Node>, b: seq<Node>, depth: nat)
    ensures DepthTotal(a + b, depth) == DepthTotal(a, depth) + DepthTotal(b, depth)
  {
    if b == [] {
      assert a + b == a;
    } else {
      DepthTotalConcat(a, b[..|b| - 1], depth);
      assert (a + b)[..|a + b| - 1] == a + b[..|b| - 1];
    }
  }

  /** Below any node, the rows of each deeper level together count exactly the
      node's findings; for the whole tree, every level counts all findings. */
  lemma {:induction false} LevelsConserve(fs: seq<Finding>, path: seq<string>, depth: nat)
    requires |path| <= depth < 3
    ensures DepthTotal(RowsUnder(fs, path), depth) == Count(fs, path)
    decreases 3 - |path|, 1, 0
  {
    var ks := SortedKeys(Children(fs, path));
    LevelsOf(fs, path, ks, depth);
    CountsRollUp(fs, path, ks);
  }

  lemma {:induction false} LevelsOf(fs: seq<Finding>, path: seq<string>, ks: seq<string>, depth: nat)
    requires |path| <= depth < 3
    ensures DepthTotal(RowsOf(fs, path, ks), depth) == ChildCounts(fs, path, ks)
    decreases 3 - |path|, 0, |ks|
  {
    if ks != [] {
      var child := path + [ks[|ks| - 1]];
      var front := RowsOf(fs, path, ks[..|ks| - 1]);
      LevelsOf(fs, path, ks[..|ks| - 1], depth);
      DepthTotalConcat(front + [Row(fs, child)], RowsUnder(fs, child), depth);
      DepthTotalConcat(front, [Row(fs, child)], depth);
      assert [Row(fs, child)][..0] == [];
      if depth == |path| {
        ShallowRows(fs, child, depth);
      } else {
        LevelsConserve(fs, child, depth);
      }
    }
  }

  /** Rows below a node are deeper than it. */
  lemma {:induction false} ShallowRows(fs: seq<Finding>, path: seq<string>, depth: nat)
    requires depth < |path| <= 3
    ensures DepthTotal(RowsUnder(fs, path), depth) == 0
    decreases 3 - |path|, 1, 0
  {
    if |path| < 3 {
      ShallowRowsOf(fs, path, SortedKeys(Children(fs, path)), depth);
    }
  }

  lemma {:induction false} ShallowRowsOf(fs: seq<Finding>, path: seq<string>, ks: seq<string>, depth: nat)
    requires depth < |path| < 3
    ensures DepthTotal(RowsOf(fs, path, ks), depth) == 0
    decreases 3 - |path|, 0, |ks|
  {
    if ks != [] {
      var child := path + [ks[|ks| - 1]];
      var front := RowsOf(fs, path, ks[..|ks| - 1]);
      ShallowRowsOf(fs, path, ks[..|ks| - 1], depth);
      ShallowRows(fs, child, depth);
      DepthTotalConcat(front + [Row(fs, child)], RowsUnder(fs, child), depth);
      DepthTotalConcat(front, [Row(fs, child)], depth);
      assert [Row(fs, child)][..0] == [];
    }
  }

  lemma {:induction false} CountAll(fs: seq<Finding>)
    ensures Count(fs, []) == |fs|
  {
    if fs != [] {
      CountAll(fs[..|fs| - 1]);
    }
  }

  /** Every level of the tree counts every finding once. */
  lemma {:induction false} TreeConserves(fs: seq<Finding>, depth: nat)
    requires depth < 3
    ensures DepthTotal(RowsUnder(fs, []), depth) == |fs|
  {
    LevelsConserve(fs, [], depth);
    CountAll(fs);
  }

  // ---- the order of the rows ------------------------------------------------------

  /** Rows at depth `d` or below, each below the nearest shallower row before it, whose
      provider it has. */
  ghost predicate IsNested(rows: seq<Node>, d: nat) {
    && (rows != [] ==> rows[0].depth == d)
    && (forall i :: 0 <= i < |rows| ==> rows[i].depth >= d)
    && (forall i :: 0 < i < |rows| ==>
          rows[i].depth <= rows[i - 1].depth + 1 && (rows[i].depth > 0 ==> rows[i].providerKey == rows[i - 1].providerKey))
  }

  /** Siblings: rows of the same depth with only deeper ones between. */
  ghost predicate AreSiblings(rows: seq<Node>, i: nat, j: nat) {
    i < j < |rows| && rows[i].depth == rows[j].depth && forall k :: i < k < j ==> rows[k].depth > rows[i].depth
  }

  ghost predicate SiblingsAscend(rows: seq<Node>) {
    forall i: nat, j: nat :: i < j < |rows| && AreSiblings(rows, i, j) ==> Less(rows[i].name, rows[j].name)
  }

  ghost predicate SameProvider(rows: seq<Node>, p: string) {
    forall i :: 0 <= i < |rows| ==> rows[i].providerKey == p
  }

  /** Of a node and its subtree put behind its earlier siblings. */
  lemma {:induction false} JoinedAt(front: seq<Node>, row: Node, below: seq<Node>, i: nat)
    requires i < |front + [row] + below|
    ensures (front + [row] + below)[i] == if i < |front| then front[i] else if i == |front| then row else below[i - |front| - 1]
  {
  }

  lemma {:induction false} NestSubtree(front: seq<Node>, row: Node, below: seq<Node>)
    requires IsNested(front, row.depth) && IsNested(below, row.depth + 1) && SameProvider(below, row.providerKey)
    requires row.depth > 0 ==> SameProvider(front, row.providerKey)
    ensures IsNested(front + [row] + below, row.depth)
  {
    var all := front + [row] + below;
    forall i | 0 <= i < |all| ensures all[i].depth >= row.depth {
      JoinedAt(front, row, below, i);
    }
    forall i | 0 < i < |all|
      ensures all[i].depth <= all[i - 1].depth + 1 && (all[i].depth > 0 ==> all[i].providerKey == all[i - 1].providerKey)
    {
      JoinedAt(front, row, below, i);
      JoinedAt(front, row, below, i - 1);
    }
  }

  lemma {:induction false} OrderSubtree(front: seq<Node>, row: Node, below: seq<Node>)
    requires SiblingsAscend(front) && SiblingsAscend(below) && IsNested(below, row.depth + 1)
    requires forall i :: 0 <= i < |front| && front[i].depth == row.depth ==> Less(front[i].name, row.name)
    requires forall i :: 0 <= i < |front| ==> front[i].depth >= row.depth
    ensures SiblingsAscend(front + [row] + below)
  {
    hide Less, AreSiblings;
    var all := front + [row] + below;
    forall i: nat, j: nat | i < j < |all| && AreSiblings(all, i, j) ensures Less(all[i].name, all[j].name) {
      JoinedSiblings(front, row, below, i, j);
    }
  }

  lemma {:induction false} JoinedSiblings(front: seq<Node>, row: Node, below: seq<Node>, i: nat, j: nat)
    requires AreSiblings(front + [row] + below, i, j) && IsNested(below, row.depth + 1)
    requires forall i :: 0 <= i < |front| ==> front[i].depth >= row.depth
    ensures var all, n := front + [row] + below, |front|;
      || (j < n && AreSiblings(front, i, j) && all[i] == front[i] && all[j] == front[j])
      || (i < n && j == n && all[i] == front[i] && all[j] == row && front[i].depth == row.depth)
      || (i > n && AreSiblings(below, i - n - 1, j - n - 1) && all[i] == below[i - n - 1] && all[j] == below[j - n - 1])
  {
    var all, n := front + [row] + below, |front|;
    JoinedAt(front, row, below, i);
    JoinedAt(front, row, below, j);
    if j < n {
      assert forall k :: i < k < j ==> all[k] == front[k];
    } else if i > n {
      assert forall k :: i - n - 1 < k < j - n - 1 ==> below[k] == all[k + n + 1];
    } else {
      JoinedAt(front, row, below, n);
    }
  }

  /** The rows of the graph are the tree in preorder: providers, their types, their
      resources, siblings in alphabetical order. */
  lemma {:induction false} RowsAreNested(fs: seq<Finding>, path: seq<string>)
    requires |path| <= 3
    ensures IsNested(RowsUnder(fs, path), |path|) && SiblingsAscend(RowsUnder(fs, path))
    ensures path != [] ==> SameProvider(RowsUnder(fs, path), path[0])
    decreases 3 - |path|, 1, 0
  {
    if |path| < 3 {
      RowsOfAreNested(fs, path, SortedKeys(Children(fs, path)));
    }
  }

  lemma {:induction false} RowsOfAreNested(fs: seq<Finding>, path: seq<string>, ks: seq<string>)
    requires |path| < 3 && StrictlySorted(ks, Id)
    ensures IsNested(RowsOf(fs, path, ks), |path|) && SiblingsAscend(RowsOf(fs, path, ks))
    ensures path != [] ==> SameProvider(RowsOf(fs, path, ks), path[0])
    ensures NamedAmong(RowsOf(fs, path, ks), |path|, ks)
    decreases 3 - |path|, 0, |ks|
  {
    hide Count, Worst, Children, PathOf, Less, SortedKeys, RowsUnder;
    if ks != [] {
      hide IsNested, SiblingsAscend, SameProvider, NamedAmong;
      var init, k := ks[..|ks| - 1], ks[|ks| - 1];
      var child := path + [k];
      var front, row, below := RowsOf(fs, path, init), Row(fs, child), RowsUnder(fs, child);
      RowsOfAreNested(fs, path, init);
      RowsAreNested(fs, child);
      LastIsLargest(front, row, ks);
      NestSubtree(front, row, below);
      DepthsBounded(front, row.depth);
      OrderSubtree(front, row, below);
      JoinProviders(front, row, below);
      JoinNames(front, row, below, ks);
    } else {
      assert RowsOf(fs, path, ks) == [];
    }
  }

  ghost predicate NamedAmong(rows: seq<Node>, d: nat, ks: seq<string>) {
    forall i :: 0 <= i < |rows| && rows[i].depth == d ==> rows[i].name in ks
  }

  lemma {:induction false} DepthsBounded(rows: seq<Node>, d: nat)
    requires IsNested(rows, d)
    ensures forall i :: 0 <= i < |rows| ==> rows[i].depth >= d
  {
  }

  lemma {:induction false} LastIsLargest(front: seq<Node>, row: Node, ks: seq<string>)
    requires ks != [] && StrictlySorted(ks, Id) && row.name == ks[|ks| - 1] && NamedAmong(front, row.depth, ks[..|ks| - 1])
    ensures forall i :: 0 <= i < |front| && front[i].depth == row.depth ==> Less(front[i].name, row.name)
  {
    hide Less;
    forall i | 0 <= i < |front| && front[i].depth == row.depth ensures Less(front[i].name, row.name) {
      var j :| 0 <= j < |ks| - 1 && ks[j] == front[i].name;
      assert Less(Id(ks[j]), Id(ks[|ks| - 1]));
    }
  }

  lemma {:induction false} JoinProviders(front: seq<Node>, row: Node, below: seq<Node>)
    requires SameProvider(below, row.providerKey)
    ensures SameProvider(front, row.providerKey) ==> SameProvider(front + [row] + below, row.providerKey)
  {
  }

  lemma {:induction false} JoinNames(front: seq<Node>, row: Node, below: seq<Node>, ks: seq<string>)
    requires ks != [] && row.name == ks[|ks| - 1] && NamedAmong(front, row.depth, ks[..|ks| - 1]) && IsNested(below, row.depth + 1)
    ensures NamedAmong(front + [row] + below, row.depth, ks)
  {
    var all := front + [row] + below;
    forall i | 0 <= i < |all| && all[i].depth == row.depth ensures all[i].name in ks {
      JoinedAt(front, row, below, i);
    }
  }

  // ---- provider buckets --------------------------------------------------------

  /** One row of the provider pane. */
  datatype Bucket = Bucket(name: string, total: int)

  ghost function BucketsOf(fs: seq<Finding>, ks: seq<string>): seq<Bucket> {
    if ks == [] then []
    else BucketsOf(fs, ks[..|ks| - 1]) + [Bucket(ks[|ks| - 1], Count(fs, [ks[|ks| - 1]]))]
  }

  /** Each provider with its number of findings, alphabetically. */
  ghost function Buckets(fs: seq<Finding>): seq<Bucket> {
    BucketsOf(fs, SortedKeys(Children(fs, [])))
  }

  ghost predicate Counted(counts: map<string, int>, fs: seq<Finding>) {
    && counts.Keys == Children(fs, [])
    && forall p :: p in counts ==> counts[p] == Count(fs, [p])
  }

  lemma {:induction false} CountOneMore(counts: map<string, int>, fs: seq<Finding>, f: Finding)
    requires Counted(counts, fs)
    ensures var p := ProviderKey(f);
      Counted(counts[p := (if p in counts then counts[p] else 0) + 1], fs + [f])
  {
    hide Count, Worst, Children;
    var p := ProviderKey(f);
    AddFinding(fs, f, []);
    assert [] + [p] == [p];
    if p !in counts {
      AbsentIsEmpty(fs, [], p);
    }
    forall q | q in counts || q == p
      ensures Count(fs + [f], [q]) == Count(fs, [q]) + (if q == p then 1 else 0)
    {
      AddFinding(fs, f, [q]);
      assert [q][0] == q;
    }
  }

  lemma {:induction false} NoneCounted(fs: seq<Finding>)
    ensures Counted(map[], fs[..0])
  {
  }

  method BuildProviderBuckets(fs: seq<Finding>) returns (out: seq<Bucket>)
    ensures out == Buckets(fs)
  {
    hide Counted, Buckets, ProviderKey;
    var counts: map<string, int> := map[];
    NoneCounted(fs);
    for i := 0 to |fs|
      invariant Counted(counts, fs[..i])
    {
      var p := ProviderKey(fs[i]);
      assert fs[..i + 1] == fs[..i] + [fs[i]];
      CountOneMore(counts, fs[..i], fs[i]);
      counts := counts[p := (if p in counts then counts[p] else 0) + 1];
    }
    assert fs[..|fs|] == fs;
    out := SortBuckets(counts, fs);
  }

  lemma {:induction false} BucketsStep(fs: seq<Finding>, ks: seq<string>, i: nat)
    requires i < |ks|
    ensures BucketsOf(fs, ks[..i + 1]) == BucketsOf(fs, ks[..i]) + [Bucket(ks[i], Count(fs, [ks[i]]))]
  {
    hide Count;
    assert ks[..i + 1][..i] == ks[..i];
  }

  method SortBuckets(counts: map<string, int>, ghost fs: seq<Finding>) returns (out: seq<Bucket>)
    requires Counted(counts, fs)
    ensures out == Buckets(fs)
  {
    hide Count, Children, SortedKeys;
    var ks := SortKeys(counts.Keys);
    out := [];
    assert BucketsOf(fs, []) == [];
    hide BucketsOf;
    for i := 0 to |ks|
      invariant out == BucketsOf(fs, ks[..i])
    {
      BucketsStep(fs, ks, i);
      assert ks[i] in ks;
      out := out + [Bucket(ks[i], counts[ks[i]])];
    }
    assert ks[..|ks|] == ks;
  }

  lemma {:induction false} BucketsLength(fs: seq<Finding>, ks: seq<string>)
    ensures |BucketsOf(fs, ks)| == |ks|
  {
    if ks != [] {
      BucketsLength(fs, ks[..|ks| - 1]);
    }
  }

  lemma {:induction false} BucketCount(fs: seq<Finding>)
    ensures |Buckets(fs)| == |Children(fs, [])|
  {
    var ks := SortedKeys(Children(fs, []));
    BucketsLength(fs, ks);
    StrictlySortedIsDistinct(ks, Id);
    DistinctCount(ks, Id);
    assert KeysOf(ks, Id) == Children(fs, []) by {
      forall k | k in Children(fs, []) ensures k in KeysOf(ks, Id) {
        assert Id(k) == k && k in ks;
      }
    }
  }

  /** A new finding never shortens the provider list. */
  lemma {:induction false} BucketsNeverShrink(fs: seq<Finding>, f: Finding)
    ensures |Buckets(fs)| <= |Buckets(fs + [f])|
    ensures fs != [] ==> Buckets(fs) != []
  {
    hide Count, Worst, Buckets;
    BucketCount(fs);
    BucketCount(fs + [f]);
    AddFinding(fs, f, []);
    SubsetCount(Children(fs, []), Children(fs + [f], []));
    if fs != [] {
      assert PathOf(fs[0])[0] in Children(fs, []);
    }
  }

  lemma {:induction false} SubsetCount(a: set<string>, b: set<string>)
    requires a <= b
    ensures |a| <= |b|
  {
    assert b == a + (b - a);
  }

  function TopRows(rows: seq<Node>): seq<Bucket> {
    if rows == [] then []
    else
      var n := rows[|rows| - 1];
      TopRows(rows[..|rows| - 1]) + (if n.depth == 0 then [Bucket(n.name, n.count)] else [])
  }

  lemma {:induction false} TopRowsConcat(a: seq<Node>, b: seq<Node>)
    ensures TopRows(a + b) == TopRows(a) + TopRows(b)
  {
    if b == [] {
      assert a + b == a;
    } else {
      TopRowsConcat(a, b[..|b| - 1]);
      assert (a + b)[..|a + b| - 1] == a + b[..|b| - 1];
    }
  }

  lemma {:induction false} DeepRowsAreNotTop(fs: seq<Finding>, path: seq<string>)
    requires 1 <= |path| <= 3
    ensures TopRows(RowsUnder(fs, path)) == []
    decreases 3 - |path|, 1, 0
  {
    if |path| < 3 {
      DeepRowsOfAreNotTop(fs, path, SortedKeys(Children(fs, path)));
    }
  }

  lemma {:induction false} DeepRowsOfAreNotTop(fs: seq<Finding>, path: seq<string>, ks: seq<string>)
    requires 1 <= |path| < 3
    ensures TopRows(RowsOf(fs, path, ks)) == []
    decreases 3 - |path|, 0, |ks|
  {
    if ks != [] {
      var child := path + [ks[|ks| - 1]];
      var front := RowsOf(fs, path, ks[..|ks| - 1]);
      DeepRowsOfAreNotTop(fs, path, ks[..|ks| - 1]);
      DeepRowsAreNotTop(fs, child);
      TopRowsConcat(front + [Row(fs, child)], RowsUnder(fs, child));
      TopRowsConcat(front, [Row(fs, child)]);
      assert [Row(fs, child)][..0] == [];
    }
  }

  /** The provider pane and the top level of the resource tree, built by two
      different aggregations, always agree. */
  lemma {:induction false} PaneAgreesWithTree(fs: seq<Finding>)
    ensures TopRows(RowsUnder(fs, [])) == Buckets(fs)
  {
    TopRowsOf(fs, SortedKeys(Children(fs, [])));
  }

  lemma {:induction false} TopRowsOf(fs: seq<Finding>, ks: seq<string>)
    ensures TopRows(RowsOf(fs, [], ks)) == BucketsOf(fs, ks)
  {
    if ks != [] {
      var child := [] + [ks[|ks| - 1]];
      assert child == [ks[|ks| - 1]];
      var front := RowsOf(fs, [], ks[..|ks| - 1]);
      TopRowsOf(fs, ks[..|ks| - 1]);
      DeepRowsAreNotTop(fs, child);
      TopRowsConcat(front + [Row(fs, child)], RowsUnder(fs, child));
      TopRowsConcat(front, [Row(fs, child)]);
      assert [Row(fs, child)][..0] == [];
    }
  }

  // ---- windows -----------------------------------------------------------------

  /** Go's division by two, which rounds towards zero. */
  function Half(n: int): int {
    if n < 0 then -(-n / 2) else n / 2
  }

  /** Where a window of `size` rows starts that has the cursor in the middle, or as near
      to it as the ends allow. */
  function Middle(cursor: int, size: int, n: nat): int
    requires 1 <= size
  {
    if n <= size || cursor < size / 2 then 0
    else if cursor - size / 2 > n - size then n - size
    else cursor - size / 2
  }

  /** The rows a pane with room for `maxRows` of `n` rows shows around its
      cursor: the loop runs from `start` to `end`. */
  method Window(cursor: int, maxRows: int, n: nat) returns (start: int, end: int)
    requires 0 <= cursor < n
    ensures 1 <= maxRows ==>
      0 <= start <= cursor < end <= n && end - start == if maxRows < n then maxRows else n
    ensures 1 <= maxRows ==> start == Middle(cursor, maxRows, n)
    ensures maxRows <= 0 ==> end <= start
  {
    start := cursor - Half(maxRows);
    if start < 0 {
      start := 0;
    }
    end := start + maxRows;
    if end > n {
      end := n;
    }
    if end - start < maxRows {
      start := end - maxRows;
      if start < 0 {
        start := 0;
      }
    }
  }

  const MIN_GRAPH_ROWS := 5

  function Clamp(cursor: int, n: nat): int {
    if cursor >= n && n > 0 then n - 1 else if cursor < 0 then 0 else cursor
  }

  /** The window of the resource tree, which clamps its cursor and always has room
      for five rows: for any cursor and height, the marked row is on screen. */
  method GraphWindow(cursor: int, height: int, n: nat) returns (start: int, end: int)
    ensures n == 0 ==> start == end
    ensures n > 0 ==> 0 <= start <= Clamp(cursor, n) < end <= n
    ensures n > 0 ==> start == Middle(Clamp(cursor, n), if height - 5 < 5 then 5 else height - 5, n)
    ensures end - start == if height - 5 < MIN_GRAPH_ROWS
      then (if n < MIN_GRAPH_ROWS then n else MIN_GRAPH_ROWS)
      else (if n < height - 5 then n else height - 5)
  {
    if n == 0 {
      return 0, 0;
    }
    var at := cursor;
    if at < 0 {
      at := 0;
    }
    if at >= n {
      at := n - 1;
    }
    var maxRows := height - 5;
    if maxRows < MIN_GRAPH_ROWS {
      maxRows := MIN_GRAPH_ROWS;
    }
    start, end := Window(at, maxRows, n);
  }
}
