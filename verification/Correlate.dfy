/** internal/ingest/correlate.go: findings about a container image, repeated for
    each resource that runs the image. */
module Correlate {
  import opened Text
  import opened Seqs
  import opened Findings

  /** A graph resource with the four attributes the join reads, empty when absent
      or not a string. */
  datatype Resource = Resource(id: string, typ: string, name: string, provider: string, region: string,
    imageSHA: string, imageID: string, image: string, imageName: string)

  function ResourceID(r: Resource): string {
    r.id
  }

  /** Finding.Fingerprint as a function of what it hashes. */
  type Hash = (string, string, Status) -> string

  // ---- keys ------------------------------------------------------------------------

  const SHA_PREFIX := "sha256:"
  const IMAGE_PREFIX := "container-image://"

  function NormalizeSHA(s: string): string {
    Lower(TrimPrefix(s, SHA_PREFIX))
  }

  /** strings.LastIndex for a non-empty `sub`; −1 when there is none. */
  function LastIndex(s: string, sub: string): (i: int)
    ensures -1 <= i <= |s|
    ensures i >= 0 ==> HasPrefix(s[i..], sub)
    ensures forall j :: i < j <= |s| && 0 <= j ==> !HasPrefix(s[j..], sub) || sub == ""
  {
    LastIndexFrom(s, sub, |s|)
  }

  function LastIndexFrom(s: string, sub: string, k: nat): (i: int)
    requires k <= |s|
    ensures -1 <= i <= k
    ensures i >= 0 ==> HasPrefix(s[i..], sub)
    ensures forall j :: i < j <= k && 0 <= j ==> !HasPrefix(s[j..], sub)
  {
    if HasPrefix(s[k..], sub) then k else if k == 0 then -1 else LastIndexFrom(s, sub, k - 1)
  }

  function ExtractSHAFromImageID(id: string): string {
    var i := LastIndex(id, "@sha256:");
    if i >= 0 then Lower(id[i + |"@sha256:"|..])
    else
      var j := LastIndex(id, SHA_PREFIX);
      if j >= 0 then Lower(id[j + |SHA_PREFIX|..]) else ""
  }

  function FindingSHA(f: Finding): string {
    if HasPrefix(f.resource.id, IMAGE_PREFIX) then TrimPrefix(f.resource.id, IMAGE_PREFIX) else ""
  }

  function FindingImageName(f: Finding): string {
    if f.vulnerability.Some? && f.vulnerability.value.image != "" then f.vulnerability.value.image else ""
  }

  // ---- the join, without an index ---------------------------------------------------

  datatype Index = BySHA | ByName

  /** How often a resource is filed under a key. */
  function Copies(ix: Index, r: Resource, key: string): nat {
    match ix
    case BySHA =>
      (if r.imageSHA != "" && NormalizeSHA(r.imageSHA) == key then 1 else 0) +
      (if r.imageID != "" && ExtractSHAFromImageID(r.imageID) != "" && ExtractSHAFromImageID(r.imageID) == key then 1 else 0)
    case ByName =>
      (if r.image != "" && r.image == key then 1 else 0) + (if r.imageName != "" && r.imageName == key then 1 else 0)
  }

  function KeyOf(ix: Index, f: Finding): string {
    match ix case BySHA => FindingSHA(f) case ByName => FindingImageName(f)
  }

  predicate Joins(ix: Index, f: Finding, r: Resource) {
    KeyOf(ix, f) != "" && Copies(ix, r, KeyOf(ix, f)) > 0
  }

  /** The nested-loop join: the other resources with the finding's SHA, in the order
      of the graph, then those that have only its image name. */
  function Targets(f: Finding, graph: seq<Resource>): seq<Resource> {
    Where(graph, (r: Resource) => r.id != f.resource.id && Joins(BySHA, f, r)) +
    Where(graph, (r: Resource) => r.id != f.resource.id && !Joins(BySHA, f, r) && Joins(ByName, f, r))
  }

  function CloneOf(hash: Hash, f: Finding, target: Resource): Finding {
    f.(resource := ResourceRef(target.id, target.typ, target.name, target.provider, target.region, ""),
       tags := f.tags + ["running-on:" + target.typ + "/" + target.name, "image-sha-correlation"],
       fingerprint := hash(f.checkID, target.id, f.status))
  }

  function ClonesOf(hash: Hash, f: Finding, targets: seq<Resource>): seq<Finding> {
    if targets == [] then []
    else ClonesOf(hash, f, targets[..|targets| - 1]) + [CloneOf(hash, f, targets[|targets| - 1])]
  }

  function Correlations(hash: Hash, fs: seq<Finding>, graph: seq<Resource>): seq<Finding> {
    if fs == [] then []
    else Correlations(hash, fs[..|fs| - 1], graph) + ClonesOf(hash, fs[|fs| - 1], Targets(fs[|fs| - 1], graph))
  }

  // ---- what is appended --------------------------------------------------------------------

  /** The finding, said of the resource that runs the image. */
  ghost predicate IsClone(hash: Hash, f: Finding, r: Resource, clone: Finding) {
    && clone.resource == ResourceRef(r.id, r.typ, r.name, r.provider, r.region, "")
    && clone.tags == f.tags + ["running-on:" + r.typ + "/" + r.name, "image-sha-correlation"]
    && clone.checkID == f.checkID && clone.status == f.status && clone.severity == f.severity
    && clone.message == f.message && clone.vulnerability == f.vulnerability
    && clone.fingerprint == hash(f.checkID, r.id, f.status)
  }

  /** The resource was filed under the digest: by its SHA, with or without the prefix,
      or by the part of its image id after the last prefix, in any case. */
  ghost predicate CarriesSHA(r: Resource, sha: string) {
    || (r.imageSHA != "" && (if "sha256:" <= r.imageSHA then Lower(r.imageSHA[7..]) else Lower(r.imageSHA)) == sha)
    || (exists i: nat :: IsDigestAt(r.imageID, i) && Lower(r.imageID[i + 7..]) == sha)
  }

  /** The digest that counts begins here: the last one after an `@`, or else the last. */
  predicate IsDigestAt(id: string, i: nat) {
    && i + 7 <= |id| && "sha256:" <= id[i..]
    && if i > 0 && id[i - 1] == '@' then forall j :: i < j <= |id| ==> !("@sha256:" <= id[j..])
       else (forall j :: 0 <= j <= |id| ==> !("@sha256:" <= id[j..])) && forall j :: i < j <= |id| ==> !("sha256:" <= id[j..])
  }

  /** It runs the image of the finding: it carries its digest, or is recorded under the
      image's name. */
  ghost predicate RunsSHA(f: Finding, r: Resource) {
    "container-image://" < f.resource.id && CarriesSHA(r, f.resource.id[18..])
  }

  ghost predicate RunsName(f: Finding, r: Resource) {
    f.vulnerability.Some? && f.vulnerability.value.image != "" && f.vulnerability.value.image in {r.image, r.imageName}
  }

  ghost predicate Runs(f: Finding, r: Resource) {
    r.id != f.resource.id && (RunsSHA(f, r) || RunsName(f, r))
  }

  /** Those that carry the digest come before those that only have the name, each in
      the order of the graph. */
  ghost predicate Before(f: Finding, graph: seq<Resource>, r: Resource, x: Resource) {
    exists i, j :: 0 <= i < |graph| && 0 <= j < |graph| && graph[i] == r && graph[j] == x
      && ((RunsSHA(f, r) && !RunsSHA(f, x)) || ((RunsSHA(f, r) <==> RunsSHA(f, x)) && i < j))
  }

  /** All the other resources that run the image, each once, in that order. */
  ghost predicate IsJoin(f: Finding, graph: seq<Resource>, targets: seq<Resource>) {
    && (forall r :: r in targets <==> r in graph && Runs(f, r))
    && (forall i, j :: 0 <= i < j < |targets| ==> targets[i].id != targets[j].id && Before(f, graph, targets[i], targets[j]))
  }

  ghost predicate IsRepeated(hash: Hash, f: Finding, graph: seq<Resource>, clones: seq<Finding>) {
    exists targets :: IsJoin(f, graph, targets) && |targets| == |clones|
      && forall i :: 0 <= i < |clones| ==> IsClone(hash, f, targets[i], clones[i])
  }

  /** What is appended for the findings, one after the other. */
  ghost predicate IsExpansion(hash: Hash, fs: seq<Finding>, graph: seq<Resource>, extra: seq<Finding>) {
    if fs == [] then extra == []
    else
      exists k: nat :: k <= |extra| && IsExpansion(hash, fs[..|fs| - 1], graph, extra[..k])
        && IsRepeated(hash, fs[|fs| - 1], graph, extra[k..])
  }

  // ---- indexes ---------------------------------------------------------------------------

  function Copied(r: Resource, n: nat): seq<Resource> {
    seq(n, _ => r)
  }

  /** What is filed under a key, in the order of filing. */
  function Bucket(ix: Index, graph: seq<Resource>, key: string): seq<Resource> {
    if graph == [] then []
    else Bucket(ix, graph[..|graph| - 1], key) + Copied(graph[|graph| - 1], Copies(ix, graph[|graph| - 1], key))
  }

  function At(index: map<string, seq<Resource>>, key: string): seq<Resource> {
    if key in index then index[key] else []
  }

  function Filed(index: map<string, seq<Resource>>, key: string, r: Resource): map<string, seq<Resource>> {
    index[key := At(index, key) + [r]]
  }

  ghost predicate IsIndex(index: map<string, seq<Resource>>, ix: Index, graph: seq<Resource>) {
    forall key: string :: At(index, key) == Bucket(ix, graph, key)
  }

  method IndexSHAs(index: map<string, seq<Resource>>, r: Resource, ghost before: seq<Resource>) returns (out: map<string, seq<Resource>>)
    requires IsIndex(index, BySHA, before)
    ensures IsIndex(out, BySHA, before + [r])
  {
    hide NormalizeSHA, ExtractSHAFromImageID, Bucket;
    out := index;
    if r.imageSHA != "" {
      out := Filed(out, NormalizeSHA(r.imageSHA), r);
    }
    if r.imageID != "" {
      var sha := ExtractSHAFromImageID(r.imageID);
      if sha != "" {
        out := Filed(out, sha, r);
      }
    }
    forall key: string ensures At(out, key) == Bucket(BySHA, before + [r], key) {
      BucketStep(BySHA, before, r, key);
      assert At(index, key) == Bucket(BySHA, before, key);
    }
  }

  method IndexNames(index: map<string, seq<Resource>>, r: Resource, ghost before: seq<Resource>) returns (out: map<string, seq<Resource>>)
    requires IsIndex(index, ByName, before)
    ensures IsIndex(out, ByName, before + [r])
  {
    hide Bucket;
    out := index;
    if r.image != "" {
      out := Filed(out, r.image, r);
    }
    if r.imageName != "" {
      out := Filed(out, r.imageName, r);
    }
    forall key: string ensures At(out, key) == Bucket(ByName, before + [r], key) {
      BucketStep(ByName, before, r, key);
      assert At(index, key) == Bucket(ByName, before, key);
    }
  }

  lemma {:induction false} BucketStep(ix: Index, graph: seq<Resource>, r: Resource, key: string)
    ensures Bucket(ix, graph + [r], key) == Bucket(ix, graph, key) + Copied(r, Copies(ix, r, key))
    ensures Copied(r, 0) == [] && Copied(r, 1) == [r] && Copied(r, 2) == [r] + [r]
  {
    hide Copies;
    assert (graph + [r])[..|graph|] == graph;
  }

  // ---- targets, without repetition -----------------------------------------------------------

  /** What `add` keeps of a bucket: ids neither seen before nor earlier in it. */
  ghost function Unseen(seen: set<string>, s: seq<Resource>): seq<Resource> {
    if s == [] then []
    else
      var n := |s| - 1;
      Unseen(seen, s[..n]) + (if s[n].id in seen + KeysOf(s[..n], ResourceID) then [] else [s[n]])
  }

  lemma {:induction false} UnseenStep(seen: set<string>, s: seq<Resource>, r: Resource)
    ensures Unseen(seen, s + [r]) == Unseen(seen, s) + (if r.id in seen + KeysOf(s, ResourceID) then [] else [r])
    ensures KeysOf(s + [r], ResourceID) == KeysOf(s, ResourceID) + {r.id}
  {
    assert ResourceID(r) == r.id;
    assert (s + [r])[..|s|] == s;
  }

  /** The ids of a bucket are those of the resources filed there. */
  lemma {:induction false} BucketIDs(ix: Index, graph: seq<Resource>, key: string)
    ensures KeysOf(Bucket(ix, graph, key), ResourceID) == set r | r in graph && Copies(ix, r, key) > 0 :: r.id
  {
    hide Copies;
    if graph != [] {
      var init, r := graph[..|graph| - 1], graph[|graph| - 1];
      BucketIDs(ix, init, key);
      assert graph == init + [r];
      CopiedIDs(Bucket(ix, init, key), r, Copies(ix, r, key));
    }
  }

  lemma {:induction false} CopiedIDs(s: seq<Resource>, r: Resource, n: nat)
    ensures KeysOf(s + Copied(r, n), ResourceID) == KeysOf(s, ResourceID) + if n > 0 then {r.id} else {}
  {
    if n > 0 {
      assert Copied(r, n)[0] == r;
      assert (s + Copied(r, n))[|s|] == r;
      assert ResourceID(r) in KeysOf(s + Copied(r, n), ResourceID);
      forall k | k in KeysOf(s, ResourceID) ensures k in KeysOf(s + Copied(r, n), ResourceID) {
        var x :| x in s && ResourceID(x) == k;
        assert x in s + Copied(r, n);
      }
    } else {
      assert s + Copied(r, n) == s;
    }
  }

  /** However often a resource is filed, it is taken once. */
  lemma {:induction false} CopiesAddOnce(seen: set<string>, s: seq<Resource>, r: Resource, n: nat)
    requires r.id !in KeysOf(s, ResourceID)
    ensures Unseen(seen, s + Copied(r, n)) == Unseen(seen, s) + if n > 0 && r.id !in seen then [r] else []
  {
    if n == 0 {
      assert s + Copied(r, n) == s;
    } else {
      CopiesAddOnce(seen, s, r, n - 1);
      assert s + Copied(r, n) == (s + Copied(r, n - 1)) + [r];
      UnseenStep(seen, s + Copied(r, n - 1), r);
      CopiedIDs(s, r, n - 1);
    }
  }

  /** The index finds what a scan of the graph finds, in the same order. */
  lemma {:induction false} BucketIsScan(ix: Index, graph: seq<Resource>, key: string, seen: set<string>)
    requires DistinctKeys(graph, ResourceID)
    ensures Unseen(seen, Bucket(ix, graph, key)) == Where(graph, (r: Resource) => r.id !in seen && Copies(ix, r, key) > 0)
  {
    hide Copies;
    if graph != [] {
      var init, r := graph[..|graph| - 1], graph[|graph| - 1];
      BucketIsScan(ix, init, key, seen);
      BucketIDs(ix, init, key);
      forall x | x in init ensures x.id != r.id {
        var i :| 0 <= i < |init| && init[i] == x;
        assert ResourceID(graph[i]) != ResourceID(graph[|graph| - 1]);
      }
      CopiesAddOnce(seen, Bucket(ix, init, key), r, Copies(ix, r, key));
    }
  }

  /** The bucket for a key, which nobody looks up when it is empty. */
  ghost function Looked(ix: Index, f: Finding, graph: seq<Resource>): seq<Resource> {
    if KeyOf(ix, f) == "" then [] else Bucket(ix, graph, KeyOf(ix, f))
  }

  lemma {:induction false} LookedIsScan(ix: Index, f: Finding, graph: seq<Resource>, seen: set<string>)
    requires DistinctKeys(graph, ResourceID)
    ensures Unseen(seen, Looked(ix, f, graph)) == Where(graph, (r: Resource) => r.id !in seen && Joins(ix, f, r))
    ensures KeysOf(Looked(ix, f, graph), ResourceID) == set r | r in graph && Joins(ix, f, r) :: r.id
  {
    hide Copies, KeyOf;
    if KeyOf(ix, f) != "" {
      BucketIsScan(ix, graph, KeyOf(ix, f), seen);
      BucketIDs(ix, graph, KeyOf(ix, f));
      SameWhere(graph, (r: Resource) => r.id !in seen && Copies(ix, r, KeyOf(ix, f)) > 0, (r: Resource) => r.id !in seen && Joins(ix, f, r));
    } else {
      Nowhere(graph, (r: Resource) => r.id !in seen && Joins(ix, f, r));
    }
  }

  lemma {:induction false} Nowhere(s: seq<Resource>, p: Resource -> bool)
    requires forall r :: r in s ==> !p(r)
    ensures Where(s, p) == []
  {
    if s != [] {
      Nowhere(s[..|s| - 1], p);
    }
  }

  lemma {:induction false} LookupsAreJoin(f: Finding, graph: seq<Resource>)
    requires DistinctKeys(graph, ResourceID)
    ensures var own, found := {f.resource.id}, Looked(BySHA, f, graph);
      Unseen(own, found) + Unseen(own + KeysOf(found, ResourceID), Looked(ByName, f, graph)) == Targets(f, graph)
  {
    hide Joins, Unseen, Looked;
    var own, found := {f.resource.id}, Looked(BySHA, f, graph);
    var seen := own + KeysOf(found, ResourceID);
    LookedIsScan(BySHA, f, graph, own);
    LookedIsScan(ByName, f, graph, seen);
    SameWhere(graph, (r: Resource) => r.id !in own && Joins(BySHA, f, r), (r: Resource) => r.id != f.resource.id && Joins(BySHA, f, r));
    forall r | r in graph ensures r.id in seen <==> r.id == f.resource.id || Joins(BySHA, f, r) {
      JoinedID(f, graph, r);
    }
    SameWhere(graph, (r: Resource) => r.id !in seen && Joins(ByName, f, r),
      (r: Resource) => r.id != f.resource.id && !Joins(BySHA, f, r) && Joins(ByName, f, r));
  }

  lemma {:induction false} JoinedID(f: Finding, graph: seq<Resource>, r: Resource)
    requires DistinctKeys(graph, ResourceID) && r in graph
    ensures r.id in (set x | x in graph && Joins(BySHA, f, x) :: x.id) <==> Joins(BySHA, f, r)
  {
    hide Joins;
    if r.id in (set x | x in graph && Joins(BySHA, f, x) :: x.id) {
      var x :| x in graph && Joins(BySHA, f, x) && x.id == r.id;
      assert ResourceID(x) == ResourceID(r);
    }
  }

  // ---- the method ---------------------------------------------------------------------------------

  lemma {:induction false} ClonesStep(hash: Hash, f: Finding, targets: seq<Resource>, r: Resource)
    ensures ClonesOf(hash, f, targets + [r]) == ClonesOf(hash, f, targets) + [CloneOf(hash, f, r)]
  {
    assert (targets + [r])[..|targets|] == targets;
  }

  /** `add` for a whole bucket. */
  method AddAll(hash: Hash, f: Finding, bucket: seq<Resource>, seen: set<string>, out: seq<Finding>, added: int,
                ghost before: seq<Finding>, ghost targets: seq<Resource>)
    returns (out': seq<Finding>, seen': set<string>, added': int)
    requires out == before + ClonesOf(hash, f, targets)
    ensures out' == before + ClonesOf(hash, f, targets + Unseen(seen, bucket))
    ensures seen' == seen + KeysOf(bucket, ResourceID)
    ensures added' - |out'| == added - |out|
  {
    hide CloneOf, ClonesOf, Unseen, KeysOf;
    out', seen', added' := out, seen, added;
    NothingSeen(seen, targets);
    for i := 0 to |bucket|
      invariant out' == before + ClonesOf(hash, f, targets + Unseen(seen, bucket[..i]))
      invariant seen' == seen + KeysOf(bucket[..i], ResourceID)
      invariant added' - |out'| == added - |out|
    {
      var target := bucket[i];
      assert bucket[..i + 1] == bucket[..i] + [target];
      UnseenStep(seen, bucket[..i], target);
      ghost var chosen := targets + Unseen(seen, bucket[..i]);
      if target.id !in seen' {
        assert targets + Unseen(seen, bucket[..i + 1]) == chosen + [target];
        ClonesStep(hash, f, chosen, target);
        seen' := seen' + {target.id};
        out' := out' + [CloneOf(hash, f, target)];
        added' := added' + 1;
      } else {
        assert targets + Unseen(seen, bucket[..i + 1]) == chosen;
      }
    }
    assert bucket[..|bucket|] == bucket;
  }

  lemma {:induction false} NothingSeen(seen: set<string>, targets: seq<Resource>)
    ensures forall s: seq<Resource> :: |s| == 0 ==> targets + Unseen(seen, s) == targets && KeysOf(s, ResourceID) == {}
  {
  }

  method CorrelateOne(hash: Hash, f: Finding, bySHA: map<string, seq<Resource>>, byImageName: map<string, seq<Resource>>,
                      out: seq<Finding>, added: int, ghost graph: seq<Resource>)
    returns (out': seq<Finding>, added': int)
    requires DistinctKeys(graph, ResourceID)
    requires IsIndex(bySHA, BySHA, graph) && IsIndex(byImageName, ByName, graph)
    ensures out' == out + ClonesOf(hash, f, Targets(f, graph))
    ensures added' - |out'| == added - |out|
  {
    hide CloneOf, FindingSHA, FindingImageName, Bucket, Targets, Unseen;
    var sha := FindingSHA(f);
    var imageName := FindingImageName(f);
    var seen := {f.resource.id};
    LookupsAreJoin(f, graph);
    assert At(bySHA, sha) == Bucket(BySHA, graph, sha) && At(byImageName, imageName) == Bucket(ByName, graph, imageName);
    var found := if sha != "" then At(bySHA, sha) else [];
    var named := if imageName != "" then At(byImageName, imageName) else [];
    assert found == Looked(BySHA, f, graph) && named == Looked(ByName, f, graph);
    out', added' := out, added;
    out', seen, added' := AddAll(hash, f, found, seen, out', added', out, []);
    assert [] + Unseen({f.resource.id}, found) == Unseen({f.resource.id}, found);
    out', seen, added' := AddAll(hash, f, named, seen, out', added', out, Unseen({f.resource.id}, found));
  }

  /** The graph lists each id once. None is a nil graph. */
  method CorrelateImageSHA(hash: Hash, findings: seq<Finding>, graph: Option<seq<Resource>>) returns (out: seq<Finding>, added: int)
    requires graph.Some? ==> DistinctKeys(graph.value, ResourceID)
    ensures out == findings + if graph.None? then [] else Correlations(hash, findings, graph.value)
    ensures graph.Some? ==> findings <= out && IsExpansion(hash, findings, graph.value, out[|findings|..])
    ensures added == |out| - |findings|
  {
    hide IsIndex, Targets, ClonesOf, IsRepeated;
    out := findings;
    added := 0;
    if graph.Some? {
      CorrelationsExpand(hash, findings, graph.value);
    }
    if graph.None? || |findings| == 0 {
      return;
    }
    var resources := graph.value;
    var bySHA, byImageName := BuildIndexes(resources);
    for i := 0 to |findings|
      invariant out == findings + Correlations(hash, findings[..i], resources)
      invariant added == |out| - |findings|
    {
      assert findings[..i + 1][..i] == findings[..i];
      out, added := CorrelateOne(hash, findings[i], bySHA, byImageName, out, added, resources);
    }
    assert findings[..|findings|] == findings;
  }

  method BuildIndexes(graph: seq<Resource>) returns (bySHA: map<string, seq<Resource>>, byImageName: map<string, seq<Resource>>)
    ensures IsIndex(bySHA, BySHA, graph) && IsIndex(byImageName, ByName, graph)
  {
    bySHA, byImageName := map[], map[];
    for i := 0 to |graph|
      invariant IsIndex(bySHA, BySHA, graph[..i]) && IsIndex(byImageName, ByName, graph[..i])
    {
      hide IsIndex;
      assert graph[..i + 1] == graph[..i] + [graph[i]];
      bySHA := IndexSHAs(bySHA, graph[i], graph[..i]);
      byImageName := IndexNames(byImageName, graph[i], graph[..i]);
    }
    assert graph[..|graph|] == graph;
  }

  // ---- what the join promises ------------------------------------------------------------------

  lemma {:induction false} WhereDistinct(s: seq<Resource>, p: Resource -> bool)
    requires DistinctKeys(s, ResourceID)
    ensures DistinctKeys(Where(s, p), ResourceID)
  {
    if s != [] {
      var init, last := s[..|s| - 1], s[|s| - 1];
      WhereDistinct(init, p);
      WhereMembers(init, p);
      forall r | r in Where(init, p) ensures ResourceID(r) != ResourceID(last) {
        assert r in init;
        var k :| 0 <= k < |init| && init[k] == r;
        assert ResourceID(s[k]) != ResourceID(s[|s| - 1]);
      }
    }
  }

  /** Each finding is repeated once for every other resource that matches by SHA or
      by name, however many attributes match. */
  lemma {:induction false} OneCloneEach(f: Finding, graph: seq<Resource>)
    requires DistinctKeys(graph, ResourceID)
    ensures DistinctKeys(Targets(f, graph), ResourceID)
    ensures forall r :: r in Targets(f, graph) <==>
      r in graph && r.id != f.resource.id && (Joins(BySHA, f, r) || Joins(ByName, f, r))
  {
    hide Joins;
    var bySHA := (r: Resource) => r.id != f.resource.id && Joins(BySHA, f, r);
    var byName := (r: Resource) => r.id != f.resource.id && !Joins(BySHA, f, r) && Joins(ByName, f, r);
    WhereMembers(graph, bySHA);
    WhereMembers(graph, byName);
    WhereDistinct(graph, bySHA);
    WhereDistinct(graph, byName);
    var a, b := Where(graph, bySHA), Where(graph, byName);
    forall i, j | 0 <= i < |a| && 0 <= j < |b| ensures ResourceID(a[i]) != ResourceID(b[j]) {
      assert a[i] in a && b[j] in b;
      if ResourceID(a[i]) == ResourceID(b[j]) {
        SameResource(graph, a[i], b[j]);
      }
    }
  }

  lemma {:induction false} SameResource(graph: seq<Resource>, r: Resource, x: Resource)
    requires DistinctKeys(graph, ResourceID) && r in graph && x in graph && r.id == x.id
    ensures r == x
  {
    assert ResourceID(r) == ResourceID(x);
  }

  /** A finding can join by SHA at all exactly when its SHA has no upper-case
      letter: the index lowers its keys, the lookup does not. A SHA that still has
      its prefix is found only under a resource whose SHA has it twice. */
  lemma {:induction false} JoinsBySHAIff(f: Finding)
    ensures (exists r: Resource :: Joins(BySHA, f, r)) <==> FindingSHA(f) != "" && Lower(FindingSHA(f)) == FindingSHA(f)
  {
    hide HasPrefix, TrimPrefix, FindingSHA, Lower;
    var sha := FindingSHA(f);
    if r: Resource :| Joins(BySHA, f, r) {
      KeysAreLower(r, sha);
    }
    if sha != "" && Lower(sha) == sha {
      var r := Prefixed(sha);
      PrefixedKey(sha);
      assert Joins(BySHA, f, r);
    }
  }

  function Prefixed(sha: string): Resource {
    Resource("", "", "", "", "", SHA_PREFIX + sha, "", "", "")
  }

  lemma {:induction false} PrefixedKey(sha: string)
    ensures NormalizeSHA(SHA_PREFIX + sha) == Lower(sha)
  {
    var s := SHA_PREFIX + sha;
    assert s[..|SHA_PREFIX|] == SHA_PREFIX && s[|SHA_PREFIX|..] == sha;
  }

  lemma {:induction false} KeysAreLower(r: Resource, key: string)
    requires Copies(BySHA, r, key) > 0
    ensures Lower(key) == key
  {
    hide Lower, HasPrefix, TrimPrefix, ExtractSHAFromImageID;
    LowerIdempotent(TrimPrefix(r.imageSHA, SHA_PREFIX));
    ExtractedIsLower(r.imageID);
  }

  lemma {:induction false} ExtractedIsLower(imageID: string)
    ensures Lower(ExtractSHAFromImageID(imageID)) == ExtractSHAFromImageID(imageID)
  {
    hide Lower;
    var i, j := LastIndex(imageID, "@sha256:"), LastIndex(imageID, SHA_PREFIX);
    if i >= 0 {
      LowerIdempotent(imageID[i + |"@sha256:"|..]);
    } else if j >= 0 {
      LowerIdempotent(imageID[j + |SHA_PREFIX|..]);
    }
  }

  /** The lookup finds what a lookup of the normalised SHA would find, on every
      graph, exactly when the finding's SHA already is normalised. */
  lemma {:induction false} NormalizingChangesNothingIff(f: Finding)
    requires FindingSHA(f) != ""
    ensures (forall r: Resource :: Copies(BySHA, r, FindingSHA(f)) > 0 <==> Copies(BySHA, r, NormalizeSHA(FindingSHA(f))) > 0)
      <==> NormalizeSHA(FindingSHA(f)) == FindingSHA(f)
  {
    hide HasPrefix, TrimPrefix, FindingSHA, Lower;
    var sha := FindingSHA(f);
    var normal := NormalizeSHA(sha);
    LowerIdempotent(TrimPrefix(sha, SHA_PREFIX));
    PrefixedKey(normal);
    assert Copies(BySHA, Prefixed(normal), normal) > 0;
    assert Copies(BySHA, Prefixed(normal), sha) > 0 ==> normal == sha;
  }

  // ---- the output --------------------------------------------------------------------------------

  lemma {:induction false} SHAFound(f: Finding, r: Resource)
    ensures Joins(BySHA, f, r) <==> RunsSHA(f, r)
  {
    hide Lower;
    var sha := FindingSHA(f);
    if sha != "" {
      hide LastIndex, IsDigestAt;
      DigestFound(r.imageID, sha);
      assert sha == f.resource.id[18..];
    }
  }

  lemma {:induction false} PrefixAfterAt(id: string, i: nat)
    requires 0 < i <= |id|
    ensures "@sha256:" <= id[i - 1..] <==> id[i - 1] == '@' && "sha256:" <= id[i..]
  {
    var rest := id[i - 1..];
    assert rest[1..] == id[i..] && "@sha256:"[1..] == "sha256:";
    assert rest == [rest[0]] + rest[1..] && "@sha256:" == ['@'] + "sha256:";
    if "@sha256:" <= rest {
      assert rest[..8][1..] == rest[1..][..7];
    }
  }

  /** There is at most one place, and the code finds it. */
  lemma {:induction false} DigestIsFound(id: string, i: nat)
    requires IsDigestAt(id, i)
    ensures ExtractSHAFromImageID(id) == Lower(id[i + 7..])
  {
    hide Lower;
    var p, q := LastIndex(id, "@sha256:"), LastIndex(id, "sha256:");
    assert id[i] == 's' by {
      assert id[i] == id[i..][0] == "sha256:"[0];
    }
    if i > 0 && id[i - 1] == '@' {
      PrefixAfterAt(id, i);
      assert p == i - 1;
    } else {
      assert p == -1;
      assert q == i;
    }
  }

  lemma {:induction false} DigestExists(id: string)
    ensures (exists i: nat :: IsDigestAt(id, i)) || ExtractSHAFromImageID(id) == ""
  {
    hide Lower, HasPrefix;
    var p, q := LastIndex(id, "@sha256:"), LastIndex(id, "sha256:");
    if p >= 0 {
      AtSignFound(id, p);
    } else if q >= 0 {
      PlainFound(id, q);
    }
  }

  lemma {:induction false} DigestFound(id: string, sha: string)
    requires sha != ""
    ensures ExtractSHAFromImageID(id) == sha <==> exists i: nat :: IsDigestAt(id, i) && Lower(id[i + 7..]) == sha
  {
    hide Lower, LastIndex, ExtractSHAFromImageID;
    DigestExists(id);
    if i: nat :| IsDigestAt(id, i) {
      forall j: nat | IsDigestAt(id, j) ensures j + 7 <= |id| && ExtractSHAFromImageID(id) == Lower(id[j + 7..]) {
        DigestIsFound(id, j);
      }
      assert IsDigestAt(id, i);
    }
  }

  lemma {:induction false} AtSignFound(id: string, p: nat)
    requires p == LastIndex(id, "@sha256:")
    ensures IsDigestAt(id, p + 1)
  {
    PrefixAfterAt(id, p + 1);
  }

  lemma {:induction false} PlainFound(id: string, q: nat)
    requires q == LastIndex(id, "sha256:") && LastIndex(id, "@sha256:") == -1
    ensures IsDigestAt(id, q)
  {
    if q > 0 {
      PrefixAfterAt(id, q);
    }
  }

  lemma {:induction false} JoinsMeans(f: Finding, r: Resource)
    ensures Joins(BySHA, f, r) <==> RunsSHA(f, r)
    ensures Joins(ByName, f, r) <==> RunsName(f, r)
  {
    SHAFound(f, r);
  }

  lemma {:induction false} TargetsInOrder(f: Finding, graph: seq<Resource>, i: nat, j: nat)
    requires DistinctKeys(graph, ResourceID) && i < j < |Targets(f, graph)|
    ensures Targets(f, graph)[i].id != Targets(f, graph)[j].id && Before(f, graph, Targets(f, graph)[i], Targets(f, graph)[j])
  {
    hide Joins, RunsSHA, RunsName;
    var bySHA := (r: Resource) => r.id != f.resource.id && Joins(BySHA, f, r);
    var byName := (r: Resource) => r.id != f.resource.id && !Joins(BySHA, f, r) && Joins(ByName, f, r);
    var a, b, all := Where(graph, bySHA), Where(graph, byName), Targets(f, graph);
    OneCloneEach(f, graph);
    assert ResourceID(all[i]) != ResourceID(all[j]);
    WhereMembers(graph, bySHA);
    WhereMembers(graph, byName);
    SHAFound(f, all[i]);
    SHAFound(f, all[j]);
    if j < |a| {
      WhereInOrder(graph, bySHA, i, j);
      assert all[i] == a[i] && all[j] == a[j] && a[i] in a && a[j] in a;
    } else if i >= |a| {
      WhereInOrder(graph, byName, i - |a|, j - |a|);
      assert all[i] == b[i - |a|] && all[j] == b[j - |a|] && b[i - |a|] in b && b[j - |a|] in b;
    } else {
      assert all[i] == a[i] && all[j] == b[j - |a|] && a[i] in a && b[j - |a|] in b;
      assert all[i] in graph && all[j] in graph;
    }
  }

  lemma {:induction false} TargetsAreJoin(f: Finding, graph: seq<Resource>)
    requires DistinctKeys(graph, ResourceID)
    ensures IsJoin(f, graph, Targets(f, graph))
  {
    hide Joins, RunsSHA, RunsName, Targets, Before;
    OneCloneEach(f, graph);
    forall r ensures Joins(BySHA, f, r) || Joins(ByName, f, r) <==> RunsSHA(f, r) || RunsName(f, r) {
      JoinsMeans(f, r);
    }
    forall i, j | 0 <= i < j < |Targets(f, graph)|
      ensures Targets(f, graph)[i].id != Targets(f, graph)[j].id && Before(f, graph, Targets(f, graph)[i], Targets(f, graph)[j])
    {
      TargetsInOrder(f, graph, i, j);
    }
  }

  lemma {:induction false} ClonesAt(hash: Hash, f: Finding, targets: seq<Resource>)
    ensures |ClonesOf(hash, f, targets)| == |targets|
    ensures forall i :: 0 <= i < |targets| ==> IsClone(hash, f, targets[i], ClonesOf(hash, f, targets)[i])
  {
    if targets != [] {
      ClonesAt(hash, f, targets[..|targets| - 1]);
    }
  }

  /** Of each finding the output repeats exactly the other resources that run its image,
      each once, those with its digest first, and every repetition keeps what was found
      and names the resource. */
  lemma {:induction false} CorrelationsExpand(hash: Hash, fs: seq<Finding>, graph: seq<Resource>)
    requires DistinctKeys(graph, ResourceID)
    ensures IsExpansion(hash, fs, graph, Correlations(hash, fs, graph))
  {
    if fs != [] {
      hide Targets, ClonesOf, IsJoin, IsClone;
      var init, f := fs[..|fs| - 1], fs[|fs| - 1];
      var before, targets, extra := Correlations(hash, init, graph), Targets(f, graph), Correlations(hash, fs, graph);
      CorrelationsExpand(hash, init, graph);
      TargetsAreJoin(f, graph);
      ClonesAt(hash, f, targets);
      assert extra[..|before|] == before && extra[|before|..] == ClonesOf(hash, f, targets);
      assert IsRepeated(hash, f, graph, extra[|before|..]);
    }
  }
}
