/** Sequences with keyed elements: first occurrences, sorting by key, sums. */
module Seqs {
  import opened Text

  datatype Option<+T> = None | Some(value: T)

  ghost function KeysOf<T>(s: seq<T>, key: T -> string): set<string> {
    set x | x in s :: key(x)
  }

  ghost predicate DistinctKeys<T>(s: seq<T>, key: T -> string) {
    forall i, j :: 0 <= i < j < |s| ==> key(s[i]) != key(s[j])
  }

  ghost predicate StrictlySorted<T>(s: seq<T>, key: T -> string) {
    forall i, j :: 0 <= i < j < |s| ==> Less(key(s[i]), key(s[j]))
  }

  ghost predicate Sorted<T>(s: seq<T>, key: T -> string) {
    forall i, j :: 0 <= i < j < |s| ==> !Less(key(s[j]), key(s[i]))
  }

  /** The first element of each key, in order of appearance. */
  ghost function FirstByKey<T>(s: seq<T>, key: T -> string): (r: seq<T>)
    ensures DistinctKeys(r, key)
    ensures KeysOf(r, key) == KeysOf(s, key)
    ensures forall x :: x in r ==> x in s
    ensures |r| <= |s|
  {
    if s == [] then []
    else
      var n := |s| - 1;
      var init := FirstByKey(s[..n], key);
      assert s == s[..n] + [s[n]];
      assert KeysOf(s, key) == KeysOf(s[..n], key) + {key(s[n])};
      if key(s[n]) in KeysOf(s[..n], key) then init else
      assert KeysOf(init + [s[n]], key) == KeysOf(init, key) + {key(s[n])};
      init + [s[n]]
  }

  lemma {:induction false} FirstByKeyStep<T>(s: seq<T>, i: nat, key: T -> string)
    requires i < |s|
    ensures FirstByKey(s[..i + 1], key) ==
      if key(s[i]) in KeysOf(s[..i], key) then FirstByKey(s[..i], key) else FirstByKey(s[..i], key) + [s[i]]
    ensures KeysOf(s[..i + 1], key) == KeysOf(s[..i], key) + {key(s[i])}
  {
    assert s[..i + 1][..i] == s[..i];
    assert s[..i + 1] == s[..i] + [s[i]];
  }

  /** No earlier element has its key. */
  ghost predicate IsFirst<T>(s: seq<T>, i: nat, key: T -> string)
    requires i < |s|
  {
    forall j :: 0 <= j < i ==> key(s[j]) != key(s[i])
  }

  lemma {:induction false} FirstByKeyMembers<T(!new)>(s: seq<T>, key: T -> string)
    ensures forall x :: x in FirstByKey(s, key) <==> exists i: nat :: i < |s| && s[i] == x && IsFirst(s, i, key)
  {
    if s != [] {
      var n := |s| - 1;
      var init := s[..n];
      FirstByKeyMembers(init, key);
      forall i: nat | i < n ensures IsFirst(init, i, key) <==> IsFirst(s, i, key) {
        assert forall j :: 0 <= j < i ==> init[j] == s[j];
      }
      assert key(s[n]) in KeysOf(init, key) <==> !IsFirst(s, n, key);
      forall x ensures x in FirstByKey(s, key) <==> exists i: nat :: i < |s| && s[i] == x && IsFirst(s, i, key) {
        if i: nat :| i < |s| && s[i] == x && IsFirst(s, i, key) {
          assert i < n ==> init[i] == x && IsFirst(init, i, key);
        }
        if x in FirstByKey(init, key) {
          var i: nat :| i < |init| && init[i] == x && IsFirst(init, i, key);
          assert s[i] == x && IsFirst(s, i, key);
        }
      }
    }
  }

  lemma {:induction false} FirstByKeyOfDistinct<T>(s: seq<T>, key: T -> string)
    requires DistinctKeys(s, key)
    ensures FirstByKey(s, key) == s
  {
    if s != [] {
      var n := |s| - 1;
      FirstByKeyOfDistinct(s[..n], key);
      assert s == s[..n] + [s[n]];
    }
  }

  /** As many elements as keys, when no key repeats. */
  lemma {:induction false} DistinctCount<T>(s: seq<T>, key: T -> string)
    requires DistinctKeys(s, key)
    ensures |s| == |KeysOf(s, key)|
  {
    if s != [] {
      var n := |s| - 1;
      DistinctCount(s[..n], key);
      assert s == s[..n] + [s[n]];
      assert KeysOf(s, key) == KeysOf(s[..n], key) + {key(s[n])};
    }
  }

  /** In a sorted list, what is not before the last is before none. */
  lemma {:induction false} LastIsGreatest<T>(s: seq<T>, k: string, key: T -> string)
    requires Sorted(s, key) && s != [] && !Less(k, key(s[|s| - 1]))
    ensures forall i :: 0 <= i < |s| ==> !Less(k, key(s[i]))
  {
    var last := key(s[|s| - 1]);
    forall i | 0 <= i < |s| ensures !Less(k, key(s[i])) {
      if Less(k, key(s[i])) && i < |s| - 1 {
        LessTotal(key(s[i]), last);
        if Less(key(s[i]), last) {
          LessTransitive(k, key(s[i]), last);
        }
      }
    }
  }

  /** The map `m` looks up, by key, exactly the elements of `s`. */
  ghost predicate Indexes<T(!new)>(m: map<string, T>, s: seq<T>, key: T -> string) {
    && DistinctKeys(s, key)
    && m.Keys == KeysOf(s, key)
    && forall x :: x in s ==> key(x) in m && m[key(x)] == x
  }

  lemma {:induction false} IndexedElement<T(!new)>(m: map<string, T>, s: seq<T>, key: T -> string, k: string)
    requires Indexes(m, s, key) && k in m
    ensures m[k] in s && key(m[k]) == k
  {
    var x :| x in s && key(x) == k;
  }

  lemma {:induction false} IndexesGrows<T(!new)>(m: map<string, T>, s: seq<T>, key: T -> string, x: T)
    requires Indexes(m, s, key) && key(x) !in m
    ensures Indexes(m[key(x) := x], s + [x], key)
  {
    assert KeysOf(s + [x], key) == KeysOf(s, key) + {key(x)};
  }

  /** The map a loop `m[key(x)] = x` leaves behind: later elements win. */
  ghost function LastByKey<T(!new)>(s: seq<T>, key: T -> string): (m: map<string, T>)
    ensures m.Keys == KeysOf(s, key)
    ensures forall k :: k in m ==> m[k] in s && key(m[k]) == k
  {
    if s == [] then map[]
    else
      var last := s[|s| - 1];
      assert s == s[..|s| - 1] + [last];
      assert KeysOf(s, key) == KeysOf(s[..|s| - 1], key) + {key(last)};
      LastByKey(s[..|s| - 1], key)[key(last) := last]
  }

  /** Under a key stands the element that no later one has. */
  lemma {:induction false} LastByKeyMeans<T(!new)>(s: seq<T>, key: T -> string, k: string)
    ensures k in LastByKey(s, key) ==>
      exists i :: 0 <= i < |s| && s[i] == LastByKey(s, key)[k] && key(s[i]) == k && forall j :: i < j < |s| ==> key(s[j]) != k
  {
    var n := |s| - 1;
    if k in LastByKey(s, key) && key(s[n]) != k {
      LastByKeyMeans(s[..n], key, k);
      var i :| 0 <= i < n && s[..n][i] == LastByKey(s[..n], key)[k] && key(s[..n][i]) == k && forall j :: i < j < n ==> key(s[..n][j]) != k;
      forall j | i < j < |s| ensures key(s[j]) != k {
        assert j < n ==> s[..n][j] == s[j];
      }
      assert s[i] == LastByKey(s, key)[k];
    }
  }

  /** Adding an element with a new key keeps a collected list in step with the
      keys visited so far. */
  ghost predicate Collected<T(!new)>(out: seq<T>, s: seq<T>, key: T -> string, ks: set<string>) {
    && DistinctKeys(out, key)
    && forall x :: x in out <==> x in s && key(x) in ks
  }

  lemma {:induction false} CollectOne<T(!new)>(out: seq<T>, s: seq<T>, key: T -> string, ks: set<string>, x: T)
    requires DistinctKeys(s, key) && Collected(out, s, key, ks)
    requires x in s && key(x) !in ks
    ensures Collected(out + [x], s, key, ks + {key(x)})
  {
    forall y | y in s && key(y) == key(x) ensures y == x {
    }
  }

  lemma {:induction false} DistinctUnderPermutation<T>(s: seq<T>, r: seq<T>, key: T -> string)
    requires DistinctKeys(s, key) && multiset(r) == multiset(s)
    ensures DistinctKeys(r, key)
    ensures forall x :: x in r <==> x in s
  {
    forall x ensures x in r <==> x in s {
      assert x in r <==> x in multiset(r);
      assert x in s <==> x in multiset(s);
    }
    assert KeysOf(r, key) == KeysOf(s, key);
    assert |r| == |multiset(r)| == |multiset(s)| == |s|;
    DistinctCount(s, key);
    DistinctByCount(r, key);
  }

  lemma {:induction false} DistinctByCount<T>(s: seq<T>, key: T -> string)
    ensures |KeysOf(s, key)| <= |s|
    ensures |KeysOf(s, key)| == |s| ==> DistinctKeys(s, key)
  {
    if s != [] {
      var n := |s| - 1;
      DistinctByCount(s[..n], key);
      assert s == s[..n] + [s[n]];
      assert KeysOf(s, key) == KeysOf(s[..n], key) + {key(s[n])};
      if |KeysOf(s, key)| == |s| {
        assert key(s[n]) !in KeysOf(s[..n], key);
      }
    }
  }

  lemma {:induction false} StrictlySortedIsDistinct<T>(s: seq<T>, key: T -> string)
    requires StrictlySorted(s, key)
    ensures DistinctKeys(s, key)
  {
    forall i, j | 0 <= i < j < |s| ensures key(s[i]) != key(s[j]) {
      LessIrreflexive(key(s[i]));
    }
  }

  lemma {:induction false} DistinctSortedIsStrict<T>(s: seq<T>, key: T -> string)
    requires Sorted(s, key) && DistinctKeys(s, key)
    ensures StrictlySorted(s, key)
  {
    forall i, j | 0 <= i < j < |s| ensures Less(key(s[i]), key(s[j])) {
      LessTotal(key(s[i]), key(s[j]));
    }
  }

  lemma {:induction false} SameElementsBothEmpty<T>(a: seq<T>, b: seq<T>)
    requires forall x :: x in b ==> x in a
    ensures b != [] ==> a != []
  {
    if b != [] {
      assert b[0] in a;
    }
  }

  /** A set of keyed elements has only one strictly sorted arrangement. */
  lemma {:induction false} SortedIsUnique<T>(a: seq<T>, b: seq<T>, key: T -> string)
    requires StrictlySorted(a, key) && StrictlySorted(b, key)
    requires forall x :: x in a <==> x in b
    ensures a == b
  {
    SameElementsBothEmpty(a, b);
    SameElementsBothEmpty(b, a);
    if a != [] {
      assert a[0] in b;
      assert b[0] in a;
      var j :| 0 <= j < |b| && b[j] == a[0];
      var k :| 0 <= k < |a| && a[k] == b[0];
      if j > 0 && k > 0 {
        LessAsymmetric(key(b[0]), key(b[j]));
      }
      LessIrreflexive(key(a[0]));
      assert a[0] == b[0];
      forall x ensures x in a[1..] <==> x in b[1..] {
        if x in a[1..] {
          var m :| 1 <= m < |a| && a[m] == x;
          assert x in b && x != b[0];
        }
        if x in b[1..] {
          var m :| 1 <= m < |b| && b[m] == x;
          assert x in a && x != a[0];
        }
      }
      SortedIsUnique(a[1..], b[1..], key);
      assert a == [a[0]] + a[1..] && b == [b[0]] + b[1..];
    }
  }

  /** Sorting a list of distinct keys arranges its elements strictly. */
  lemma {:induction false} SortedPermutation<T(!new)>(s: seq<T>, r: seq<T>, key: T -> string)
    requires DistinctKeys(s, key)
    requires multiset(r) == multiset(s) && Sorted(r, key)
    ensures StrictlySorted(r, key)
    ensures forall x :: x in r <==> x in s
    ensures |r| == |s|
  {
    DistinctUnderPermutation(s, r, key);
    DistinctSortedIsStrict(r, key);
    assert |r| == |multiset(r)| == |multiset(s)| == |s|;
  }

  lemma {:induction false} SameElementsSameBag<T(!new)>(a: seq<T>, b: seq<T>, key: T -> string)
    requires DistinctKeys(a, key) && DistinctKeys(b, key)
    requires forall x :: x in a <==> x in b
    ensures multiset(a) == multiset(b)
  {
    forall x ensures multiset(a)[x] == multiset(b)[x] {
      OnceEach(a, x, key);
      OnceEach(b, x, key);
      assert x in multiset(a) <==> x in a;
      assert x in multiset(b) <==> x in b;
    }
  }

  lemma {:induction false} OnceEach<T>(s: seq<T>, x: T, key: T -> string)
    requires DistinctKeys(s, key)
    ensures multiset(s)[x] <= 1
  {
    if s != [] {
      var n := |s| - 1;
      OnceEach(s[..n], x, key);
      assert s == s[..n] + [s[n]];
      if s[n] == x {
        assert x !in s[..n];
      }
    }
  }

  function Id(k: string): string {
    k
  }

  /** The keys of a map in the order of sort.Strings. */
  ghost function SortedKeys(ks: set<string>): (s: seq<string>)
    ensures StrictlySorted(s, Id)
    ensures forall k :: k in s <==> k in ks
  {
    if ks == {} then []
    else
      LeastKeyExists(ks);
      var m :| IsLeast(m, ks);
      [m] + SortedKeys(ks - {m})
  }

  ghost predicate IsLeast(m: string, ks: set<string>) {
    m in ks && forall k :: k in ks && k != m ==> Less(m, k)
  }

  lemma {:induction false} LeastKeyExists(ks: set<string>)
    requires ks != {}
    ensures exists m :: IsLeast(m, ks)
  {
    var x :| x in ks;
    assert IsLeast(x, {x});
    hide Less, IsLeast;
    if ks != {x} {
      LeastKeyExists(ks - {x});
      var m :| IsLeast(m, ks - {x});
      LeastWith(x, m, ks);
    }
  }

  /** Of `x` and the least other key, the smaller one is the least. */
  lemma {:induction false} LeastWith(x: string, m: string, ks: set<string>)
    requires x in ks && IsLeast(m, ks - {x})
    ensures IsLeast(m, ks) || IsLeast(x, ks)
  {
    hide Less;
    LessTotal(m, x);
    if Less(x, m) {
      forall k | k in ks && k != x ensures Less(x, k) {
        if k != m {
          LessTransitive(x, m, k);
        }
      }
    } else {
      forall k | k in ks && k != m ensures Less(m, k) {
        assert k == x || k in ks - {x};
      }
    }
  }

  /** Collects the keys of a map, in whatever order iteration yields them, and
      sorts them. */
  method SortKeys(ks: set<string>) returns (s: seq<string>)
    ensures s == SortedKeys(ks)
  {
    s := [];
    var todo := ks;
    while todo != {}
      invariant todo <= ks
      invariant DistinctKeys(s, Id)
      invariant forall k :: k in s <==> k in ks - todo
    {
      var k :| k in todo;
      assert forall i :: 0 <= i < |s| ==> Id(s[i]) in s;
      s := s + [k];
      todo := todo - {k};
    }
    var slice := new string[|s|](i requires 0 <= i < |s| => s[i]);
    assert slice[..] == s;
    InsertionSort(slice, Id);
    SortedPermutation(s, slice[..], Id);
    s := slice[..];
    SortedIsUnique(s, SortedKeys(ks), Id);
  }

  // ---- filters ------------------------------------------------------------------------

  /** The elements that satisfy `p`, in order. */
  function Where<T>(s: seq<T>, p: T -> bool): seq<T> {
    if s == [] then [] else Where(s[..|s| - 1], p) + (if p(s[|s| - 1]) then [s[|s| - 1]] else [])
  }

  lemma {:induction false} SameWhere<T>(s: seq<T>, p: T -> bool, q: T -> bool)
    requires forall r :: r in s ==> p(r) == q(r)
    ensures Where(s, p) == Where(s, q)
  {
    if s != [] {
      SameWhere(s[..|s| - 1], p, q);
    }
  }

  lemma {:induction false} WhereMembers<T(!new)>(s: seq<T>, p: T -> bool)
    ensures forall r :: r in Where(s, p) <==> r in s && p(r)
  {
    if s != [] {
      var init, last := s[..|s| - 1], s[|s| - 1];
      WhereMembers(init, p);
      assert s == init + [last];
      forall r ensures r in Where(s, p) <==> r in s && p(r) {
        assert r in Where(s, p) <==> r in Where(init, p) || (r == last && p(last));
      }
    }
  }

  lemma {:induction false} WhereInOrder<T>(s: seq<T>, p: T -> bool, i: nat, j: nat)
    requires i < j < |Where(s, p)|
    ensures exists a, b :: 0 <= a < b < |s| && s[a] == Where(s, p)[i] && s[b] == Where(s, p)[j]
  {
    var n := |s| - 1;
    if j < |Where(s[..n], p)| {
      WhereInOrder(s[..n], p, i, j);
    } else {
      var a := WhereAt(s[..n], p, i);
      assert s[a] == Where(s, p)[i] && s[n] == Where(s, p)[j];
    }
  }

  lemma {:induction false} WhereAt<T>(s: seq<T>, p: T -> bool, i: nat) returns (a: nat)
    requires i < |Where(s, p)|
    ensures a < |s| && s[a] == Where(s, p)[i]
  {
    var n := |s| - 1;
    if i < |Where(s[..n], p)| {
      a := WhereAt(s[..n], p, i);
    } else {
      a := n;
    }
  }

  // ---- sums ---------------------------------------------------------------------------

  function Sum<T>(s: seq<T>, f: T -> int): int {
    if s == [] then 0 else Sum(s[..|s| - 1], f) + f(s[|s| - 1])
  }

  lemma {:induction false} SumConcat<T>(a: seq<T>, b: seq<T>, f: T -> int)
    ensures Sum(a + b, f) == Sum(a, f) + Sum(b, f)
  {
    if b == [] {
      assert a + b == a;
    } else {
      var n := |b| - 1;
      SumConcat(a, b[..n], f);
      assert (a + b)[..|a + b| - 1] == a + b[..n];
    }
  }

  lemma {:induction false} SumAround<T>(s: seq<T>, front: seq<T>, x: T, back: seq<T>, f: T -> int)
    requires s == front + [x] + back
    ensures Sum(s, f) == Sum(front + back, f) + f(x)
  {
    SumConcat(front + [x], back, f);
    SumConcat(front, back, f);
    SumAppend(front, x, f);
  }

  lemma {:induction false} SumAppend<T>(s: seq<T>, x: T, f: T -> int)
    ensures Sum(s + [x], f) == Sum(s, f) + f(x)
  {
    assert (s + [x])[..|s|] == s;
  }

  lemma {:induction false} SumPermutation<T>(a: seq<T>, b: seq<T>, f: T -> int)
    requires multiset(a) == multiset(b)
    ensures Sum(a, f) == Sum(b, f)
  {
    if a == [] {
      assert |multiset(b)| == 0;
      assert b == [];
    } else {
      var n := |a| - 1;
      assert a == a[..n] + [a[n]];
      assert a[n] in multiset(b);
      var i :| 0 <= i < |b| && b[i] == a[n];
      assert b == b[..i] + [b[i]] + b[i + 1..];
      assert multiset(a) == multiset(a[..n]) + multiset{a[n]};
      assert multiset(b) == multiset(b[..i] + b[i + 1..]) + multiset{b[i]};
      assert multiset(a) - multiset{a[n]} == multiset(a[..n]);
      assert multiset(b) - multiset{b[i]} == multiset(b[..i] + b[i + 1..]);
      SumPermutation(a[..n], b[..i] + b[i + 1..], f);
      SumAround(b, b[..i], b[i], b[i + 1..], f);
    }
  }

  /** The first `i + 1` elements are sorted but for the one at `j`, which
      belongs at or before `j`. */
  ghost predicate Sifting<T>(s: seq<T>, i: nat, j: nat, key: T -> string) {
    && j <= i < |s|
    && (forall p, q :: 0 <= p < q <= i && p != j && q != j ==> !Less(key(s[q]), key(s[p])))
    && (forall q :: j < q <= i ==> Less(key(s[j]), key(s[q])))
  }

  function SwapDown<T>(s: seq<T>, j: nat): seq<T>
    requires 0 < j < |s|
  {
    s[j - 1 := s[j]][j := s[j - 1]]
  }

  lemma {:induction false} SiftStep<T>(s: seq<T>, i: nat, j: nat, key: T -> string)
    requires Sifting(s, i, j, key) && 0 < j && Less(key(s[j]), key(s[j - 1]))
    ensures Sifting(SwapDown(s, j), i, j - 1, key)
    ensures multiset(SwapDown(s, j)) == multiset(s)
  {
  }

  lemma {:induction false} SiftDone<T>(s: seq<T>, i: nat, j: nat, key: T -> string)
    requires Sifting(s, i, j, key)
    requires j == 0 || !Less(key(s[j]), key(s[j - 1]))
    ensures Sorted(s[..i + 1], key)
  {
    if j > 0 {
      LastIsGreatest(s[..j], key(s[j]), key);
    }
    forall q | j < q <= i ensures !Less(key(s[q]), key(s[j])) {
      LessAsymmetric(key(s[j]), key(s[q]));
    }
  }

  /** The insertion sort of the source, written for a slice of any element. */
  method InsertionSort<T>(a: array<T>, key: T -> string)
    modifies a
    ensures multiset(a[..]) == multiset(old(a[..])) && Sorted(a[..], key)
  {
    if a.Length == 0 {
      return;
    }
    for i := 1 to a.Length
      invariant multiset(a[..]) == multiset(old(a[..]))
      invariant Sorted(a[..i], key)
    {
      InsertInPlace(a, i, key);
    }
    assert a[..a.Length] == a[..];
  }

  method InsertInPlace<T>(a: array<T>, i: nat, key: T -> string)
    requires i < a.Length && Sorted(a[..i], key)
    modifies a
    ensures multiset(a[..]) == multiset(old(a[..])) && Sorted(a[..i + 1], key)
  {
    var j: nat := i;
    assert Sifting(a[..], i, i, key);
    while j > 0 && Less(key(a[j]), key(a[j - 1]))
      invariant Sifting(a[..], i, j, key)
      invariant multiset(a[..]) == multiset(old(a[..]))
    {
      SiftStep(a[..], i, j, key);
      ghost var next := SwapDown(a[..], j);
      a[j - 1], a[j] := a[j], a[j - 1];
      assert a[..] == next;
      j := j - 1;
    }
    SiftDone(a[..], i, j, key);
    assert a[..][..i + 1] == a[..i + 1];
  }

}
