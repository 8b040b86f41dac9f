/** internal/score/score.go: the 0-100 hardening score. */
module Score {
  import opened Seqs
  import opened Findings

  function Weight(s: Severity): nat {
    if s == CRITICAL then 50
    else if s == HIGH then 20
    else if s == MEDIUM then 8
    else if s == LOW then 3
    else if s == INFO then 1
    else 0
  }

  function PassWeight(f: Finding): int { if f.status == Pass then Weight(f.severity) else 0 }

  function FailWeight(f: Finding): int { if f.status == Fail then Weight(f.severity) else 0 }

  function ErrorWeight(f: Finding): int { if f.status == Error then Weight(f.severity) else 0 }

  function SkipWeight(f: Finding): int { if f.status == Skip then Weight(f.severity) else 0 }

  function TotalWeight(f: Finding): int { PassWeight(f) + FailWeight(f) + ErrorWeight(f) }

  datatype Result = Result(score: int, coverage: int, total: int, passing: int, failing: int, errored: int, skipped: int)

  /** The documented value: 100·part/whole rounded half up, and 100 when there
      is nothing to evaluate. */
  function Percent(part: int, whole: int): int {
    if whole == 0 then 100 else (100.0 * part as real / whole as real + 0.5).Floor
  }

  ghost function ScoreOf(findings: seq<Finding>): Result {
    var p, t, s := Sum(findings, PassWeight), Sum(findings, TotalWeight), Sum(findings, SkipWeight);
    Result(Percent(p, t), Percent(t, t + s), t, p, Sum(findings, FailWeight), Sum(findings, ErrorWeight), s)
  }

  method Compute(findings: seq<Finding>) returns (r: Result)
    ensures r == ScoreOf(findings)
  {
    hide Percent, Sum;
    r := Result(0, 0, 0, 0, 0, 0, 0);
    NothingSummed();
    for i := 0 to |findings|
      invariant r == Result(0, 0, Sum(findings[..i], TotalWeight), Sum(findings[..i], PassWeight),
                            Sum(findings[..i], FailWeight), Sum(findings[..i], ErrorWeight), Sum(findings[..i], SkipWeight))
    {
      SumsNext(findings, i);
      var w := Weight(findings[i].severity);
      match findings[i].status
      case Pass => r := r.(passing := r.passing + w, total := r.total + w);
      case Fail => r := r.(failing := r.failing + w, total := r.total + w);
      case Error => r := r.(errored := r.errored + w, total := r.total + w);
      case Skip => r := r.(skipped := r.skipped + w);
      case Other(_) =>
    }
    assert findings[..|findings|] == findings;
    WeightsAreConsistent(findings);
    NothingIsAll();

    if r.total == 0 {
      r := r.(score := 100);
    } else {
      IntegerRounding(r.passing, r.total);
      r := r.(score := (100 * r.passing + r.total / 2) / r.total);
    }
    var total := r.total + r.skipped;
    if total == 0 {
      r := r.(coverage := 100);
    } else {
      IntegerRounding(r.total, total);
      r := r.(coverage := (100 * r.total + total / 2) / total);
    }
  }

  lemma {:induction false} NothingSummed()
    ensures forall w: Finding -> int, s: seq<Finding> :: |s| == 0 ==> Sum(s, w) == 0
  {
  }

  lemma {:induction false} SumsNext(findings: seq<Finding>, i: nat)
    requires i < |findings|
    ensures forall w: Finding -> int :: Sum(findings[..i + 1], w) == Sum(findings[..i], w) + w(findings[i])
  {
    assert findings[..i + 1][..i] == findings[..i];
  }

  lemma {:induction false} NothingIsAll()
    ensures forall part :: Percent(part, 0) == 100
  {
  }

  lemma {:induction false} WeightsAreConsistent(findings: seq<Finding>)
    ensures var r := ScoreOf(findings);
      0 <= r.passing && 0 <= r.failing && 0 <= r.errored && 0 <= r.skipped &&
      r.total == r.passing + r.failing + r.errored
  {
    if findings != [] {
      WeightsAreConsistent(findings[..|findings| - 1]);
    }
  }

  /** Percent without division: the one integer whose multiple of the whole is
      within half a whole of the exact value, from above when it is a tie. */
  lemma {:induction false} PercentBounds(part: int, whole: int)
    requires 0 < whole
    ensures var q := Percent(part, whole); 2 * (q * whole) <= 200 * part + whole < 2 * (q * whole) + 2 * whole
  {
    var q := Percent(part, whole);
    var x, w := 100.0 * part as real, whole as real;
    RoundedQuotient(x, w, q);
    IntegerBounds(part, whole, q);
  }

  lemma {:induction false} RoundedQuotient(x: real, w: real, q: int)
    requires 0.0 < w && q == (x / w + 0.5).Floor
    ensures 2.0 * (q as real * w) <= 2.0 * x + w < 2.0 * (q as real * w) + 2.0 * w
  {
    var y := x / w;
    assert y * w == x;
    ScaleBounds(q as real, y, w, x);
  }

  lemma {:induction false} IntegerBounds(part: int, whole: int, q: int)
    requires var w := whole as real;
      2.0 * (q as real * w) <= 2.0 * (100.0 * part as real) + w < 2.0 * (q as real * w) + 2.0 * w
    ensures 2 * (q * whole) <= 200 * part + whole < 2 * (q * whole) + 2 * whole
  {
    assert (q * whole) as real == q as real * whole as real;
  }

  lemma {:induction false} ScaleBounds(q: real, y: real, w: real, x: real)
    requires 0.0 < w && q <= y + 0.5 < q + 1.0 && y * w == x
    ensures 2.0 * (q * w) <= 2.0 * x + w < 2.0 * (q * w) + 2.0 * w
  {
    var gap := y + 0.5 - q;
    assert 0.0 <= gap * w && 0.0 < (1.0 - gap) * w;
    assert gap * w == x + 0.5 * w - q * w;
    assert (1.0 - gap) * w == w - gap * w;
  }

  lemma {:induction false} BoundsDetermine(q: int, r: int, whole: int, n: int)
    requires 0 < whole
    requires 2 * (q * whole) <= n < 2 * (q * whole) + 2 * whole
    requires 2 * (r * whole) <= n < 2 * (r * whole) + 2 * whole
    ensures q == r
  {
    var d := q - r;
    assert -whole < d * whole < whole;
    assert d >= 1 ==> d * whole >= whole;
    assert d <= -1 ==> d * whole <= -whole;
  }

  lemma {:induction false} DivisionBounds(n: int, d: int)
    requires 0 < d
    ensures (n / d) * d <= n < (n / d) * d + d
  {
    assert n == (n / d) * d + n % d;
  }

  /** The all-integer formula is the documented rounding, for odd and even
      totals. */
  lemma {:induction false} IntegerRounding(part: int, whole: int)
    requires 0 <= part && 0 < whole
    ensures (100 * part + whole / 2) / whole == Percent(part, whole)
  {
    DivisionBounds(100 * part + whole / 2, whole);
    PercentBounds(part, whole);
    BoundsDetermine((100 * part + whole / 2) / whole, Percent(part, whole), whole, 200 * part + whole);
  }

  lemma {:induction false} PercentMonotone(p: int, t: int, p': int, t': int)
    requires 0 < t && 0 < t' && p * t' <= p' * t
    ensures Percent(p, t) <= Percent(p', t')
  {
    RatioMonotone(p as real, t as real, p' as real, t' as real);
  }

  lemma {:induction false} RatioMonotone(p: real, t: real, p': real, t': real)
    requires 0.0 < t && 0.0 < t' && p * t' <= p' * t
    ensures 100.0 * p / t <= 100.0 * p' / t'
  {
    var a, b := 100.0 * p / t, 100.0 * p' / t';
    assert a * t == 100.0 * p && b * t' == 100.0 * p';
    assert (a * t) * t' <= (b * t') * t;
    assert (a - b) * (t * t') <= 0.0;
  }

  lemma {:induction false} PercentMonotoneInPart(p: int, p': int, t: int)
    requires 0 < t && p <= p'
    ensures Percent(p, t) <= Percent(p', t)
  {
    assert p * t <= p' * t;
    PercentMonotone(p, t, p', t);
  }

  /** Mediants lie between the ratios. */
  lemma {:induction false} PercentOfMediant(p: int, t: int, q: int, u: int)
    requires 0 < t && 0 < u && p * u <= q * t
    ensures Percent(p, t) <= Percent(p + q, t + u) <= Percent(q, u)
  {
    assert p * (t + u) == p * t + p * u && (p + q) * t == p * t + q * t;
    assert (p + q) * u == p * u + q * u && q * (t + u) == q * t + q * u;
    PercentMonotone(p, t, p + q, t + u);
    PercentMonotone(p + q, t + u, q, u);
  }

  /** How many findings have this status and severity. */
  ghost function Tally(findings: seq<Finding>, status: Status, severity: Severity): nat {
    |Where(findings, (f: Finding) => f.status == status && f.severity == severity)|
  }

  /** 50 for a critical finding, 20 for a high one, 8, 3 and 1 for the others. */
  ghost function Weighed(findings: seq<Finding>, status: Status): int {
    50 * Tally(findings, status, CRITICAL) + 20 * Tally(findings, status, HIGH) + 8 * Tally(findings, status, MEDIUM)
      + 3 * Tally(findings, status, LOW) + Tally(findings, status, INFO)
  }

  /** The documented formula: errors count with failures and skips with neither. */
  lemma {:induction false} DocumentedFormula(findings: seq<Finding>)
    ensures var r := ScoreOf(findings);
      && r.passing == Weighed(findings, Pass) && r.failing == Weighed(findings, Fail)
      && r.errored == Weighed(findings, Error) && r.skipped == Weighed(findings, Skip)
      && r.total == r.passing + r.failing + r.errored
  {
    hide Percent, Weighed;
    WeightsAreConsistent(findings);
    SumIsWeighed(findings, Pass, PassWeight);
    SumIsWeighed(findings, Fail, FailWeight);
    SumIsWeighed(findings, Error, ErrorWeight);
    SumIsWeighed(findings, Skip, SkipWeight);
  }

  lemma {:induction false} SumIsWeighed(findings: seq<Finding>, status: Status, w: Finding -> int)
    requires forall f :: w(f) == if f.status == status then Weight(f.severity) else 0
    ensures Sum(findings, w) == Weighed(findings, status)
  {
    if findings != [] {
      SumIsWeighed(findings[..|findings| - 1], status, w);
      OneMoreWeighed(findings[..|findings| - 1], findings[|findings| - 1], status);
      assert findings == findings[..|findings| - 1] + [findings[|findings| - 1]];
    }
  }

  lemma {:induction false} OneMoreWeighed(findings: seq<Finding>, f: Finding, status: Status)
    ensures Weighed(findings + [f], status) == Weighed(findings, status) + if f.status == status then Weight(f.severity) else 0
  {
    assert (findings + [f])[..|findings|] == findings;
  }

  lemma {:induction false} ScoreInRange(findings: seq<Finding>)
    ensures 0 <= ScoreOf(findings).score <= 100
    ensures 0 <= ScoreOf(findings).coverage <= 100
  {
    WeightsAreConsistent(findings);
    var r := ScoreOf(findings);
    PercentInRange(r.passing, r.total);
    PercentInRange(r.total, r.total + r.skipped);
  }

  lemma {:induction false} PercentInRange(p: int, t: int)
    requires 0 <= p <= t
    ensures 0 <= Percent(p, t) <= 100
  {
    if t > 0 {
      hide Percent;
      PercentEnds(t);
      PercentMonotoneInPart(0, p, t);
      PercentMonotoneInPart(p, t, t);
    }
  }

  lemma {:induction false} PercentEnds(t: int)
    requires t > 0
    ensures Percent(0, t) == 0 && Percent(t, t) == 100
  {
    assert 100.0 * t as real / t as real == 100.0;
  }

  lemma {:induction false} ScoreIgnoresOrder(a: seq<Finding>, b: seq<Finding>)
    requires multiset(a) == multiset(b)
    ensures ScoreOf(a) == ScoreOf(b)
  {
    SumPermutation(a, b, PassWeight);
    SumPermutation(a, b, FailWeight);
    SumPermutation(a, b, ErrorWeight);
    SumPermutation(a, b, SkipWeight);
    SumPermutation(a, b, TotalWeight);
  }

  /** Turning a failed or errored finding into a pass never lowers the score. */
  lemma {:induction false} FixingNeverLowersScore(findings: seq<Finding>, i: nat)
    requires i < |findings| && findings[i].status.IsActionable()
    ensures ScoreOf(findings).score <= ScoreOf(findings[i := findings[i].(status := Pass)]).score
    ensures ScoreOf(findings).coverage == ScoreOf(findings[i := findings[i].(status := Pass)]).coverage
  {
    var f := findings[i];
    var fixed := findings[i := f.(status := Pass)];
    ReplaceOne(findings, i, f.(status := Pass), PassWeight);
    ReplaceOne(findings, i, f.(status := Pass), TotalWeight);
    ReplaceOne(findings, i, f.(status := Pass), SkipWeight);
    WeightsAreConsistent(findings);
    var r, r' := ScoreOf(findings), ScoreOf(fixed);
    if r.total > 0 {
      PercentMonotoneInPart(r.passing, r'.passing, r.total);
    }
  }

  lemma {:induction false} ReplaceOne(s: seq<Finding>, i: nat, g: Finding, w: Finding -> int)
    requires i < |s|
    ensures Sum(s[i := g], w) == Sum(s, w) - w(s[i]) + w(g)
  {
    SumAround(s, s[..i], s[i], s[i + 1..], w);
    SumAround(s[i := g], s[..i], g, s[i + 1..], w);
  }

  /** The score of two scans put together lies between their scores. */
  lemma {:induction false} ScoreOfUnionIsBetween(a: seq<Finding>, b: seq<Finding>)
    ensures var x, y, z := ScoreOf(a).score, ScoreOf(b).score, ScoreOf(a + b).score;
      x <= z <= y || y <= z <= x
  {
    SumConcat(a, b, PassWeight);
    SumConcat(a, b, TotalWeight);
    WeightsAreConsistent(a);
    WeightsAreConsistent(b);
    var p, t, q, u := Sum(a, PassWeight), Sum(a, TotalWeight), Sum(b, PassWeight), Sum(b, TotalWeight);
    if t == 0 {
      ScoreInRange(b);
    } else if u == 0 {
      ScoreInRange(a);
    } else if p * u <= q * t {
      PercentOfMediant(p, t, q, u);
    } else {
      PercentOfMediant(q, u, p, t);
    }
  }

  lemma {:induction false} ScaleAtMost(a: int, b: int, t: int)
    requires a <= b && 0 <= t
    ensures a * t <= b * t
  {
  }

  lemma {:induction false} ExtremeQuotient(q: int, p: int, t: int)
    requires 0 < t && 0 <= q <= 100
    requires 2 * (q * t) <= 200 * p + t < 2 * (q * t) + 2 * t
    ensures q == 100 <==> 200 * (t - p) <= t
    ensures q == 0 <==> 200 * p < t
  {
    if q == 0 {
    } else if q == 100 {
    } else {
      ScaleAtMost(q, 99, t);
      ScaleAtMost(1, q, t);
    }
  }

  lemma {:induction false} FullPercent(p: int, t: int)
    requires 0 <= p <= t && 0 < t
    ensures Percent(p, t) == 100 <==> 200 * (t - p) <= t
    ensures Percent(p, t) == 0 <==> 200 * p < t
  {
    PercentBounds(p, t);
    PercentInRange(p, t);
    ExtremeQuotient(Percent(p, t), p, t);
  }

  /** A score of 100 does not mean that everything evaluated passed: it means
      that what did not pass is at most half a percent of the weight. */
  lemma {:induction false} PerfectScoreMeans(findings: seq<Finding>)
    ensures var r := ScoreOf(findings);
      r.score == 100 <==> 200 * (r.failing + r.errored) <= r.total
  {
    WeightsAreConsistent(findings);
    ScoreInRange(findings);
    var r := ScoreOf(findings);
    if r.total > 0 {
      FullPercent(r.passing, r.total);
    }
  }

  /** The same at the other end: 0 means that less than half a percent passed. */
  lemma {:induction false} ZeroScoreMeans(findings: seq<Finding>)
    ensures var r := ScoreOf(findings);
      r.score == 0 <==> 200 * r.passing < r.total
  {
    WeightsAreConsistent(findings);
    ScoreInRange(findings);
    var r := ScoreOf(findings);
    if r.total > 0 {
      FullPercent(r.passing, r.total);
    }
  }

  /** A scan with a failure whose score is 100 all the same: four critical
      passes and one failed informational check. */
  lemma {:induction false} PerfectScoreWithFailure(f: Finding)
    ensures var good := f.(status := Pass, severity := CRITICAL);
      var bad := f.(status := Fail, severity := INFO);
      ScoreOf([good, good, good, good, bad]).score == 100
  {
    var good := f.(status := Pass, severity := CRITICAL);
    var bad := f.(status := Fail, severity := INFO);
    var s := [good, good, good, good, bad];
    SumOfFive(good, bad, PassWeight);
    SumOfFive(good, bad, TotalWeight);
    SumOfFive(good, bad, FailWeight);
    SumOfFive(good, bad, ErrorWeight);
    PerfectScoreMeans(s);
  }

  lemma {:induction false} SumOfFive(a: Finding, b: Finding, w: Finding -> int)
    ensures Sum([a, a, a, a, b], w) == 4 * w(a) + w(b)
  {
    SumConcat([a, a, a, a], [b], w);
    SumConcat([a, a], [a, a], w);
    SumConcat([a], [a], w);
    assert [a, a, a, a, b] == [a, a, a, a] + [b];
    assert [a, a, a, a] == [a, a] + [a, a];
    assert [a, a] == [a] + [a];
    assert Sum([a], w) == w(a) && Sum([b], w) == w(b);
  }
}
