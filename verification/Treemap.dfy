/** internal/report/chart.go: the treemap layout, with float64 taken as the real
    numbers. */
module Treemaps {

  datatype Slice = Slice(name: string, value: int)

  datatype Rect = Rect(x: real, y: real, w: real, h: real) {
    function Area(): real { w * h }
  }

  datatype Point = Point(x: real, y: real)

  datatype Cell = Cell(slice: Slice, rect: Rect)

  /** An aspect ratio; the source's +Inf is `Inf`. */
  datatype Aspect = Inf | Ratio(r: real) {
    predicate Exceeds(other: Aspect) {
      other.Ratio? && (Inf? || r > other.r)
    }
  }

  // ---- slices ----------------------------------------------------------

  function Total(s: seq<Slice>): int {
    if s == [] then 0 else Total(s[..|s| - 1]) + s[|s| - 1].value
  }

  ghost predicate Descending(s: seq<Slice>) {
    forall i, j :: 0 <= i < j < |s| ==> s[i].value >= s[j].value
  }

  ghost predicate NonNegative(s: seq<Slice>) {
    forall i :: 0 <= i < |s| ==> s[i].value >= 0
  }

  ghost predicate AllEqual(s: seq<Slice>) {
    forall i, j :: 0 <= i < |s| && 0 <= j < |s| ==> s[i].value == s[j].value
  }

  lemma {:induction false} TotalConcat(a: seq<Slice>, b: seq<Slice>)
    ensures Total(a + b) == Total(a) + Total(b)
  {
    if b == [] {
      assert a + b == a;
    } else {
      TotalConcat(a, b[..|b| - 1]);
      assert (a + b)[..|a + b| - 1] == a + b[..|b| - 1];
    }
  }

  lemma {:induction false} TotalSplit(s: seq<Slice>, k: nat)
    requires k <= |s|
    ensures Total(s) == Total(s[..k]) + Total(s[k..])
  {
    TotalConcat(s[..k], s[k..]);
    assert s == s[..k] + s[k..];
  }

  lemma {:induction false} TotalNext(s: seq<Slice>, i: nat)
    requires i < |s|
    ensures Total(s[..i + 1]) == Total(s[..i]) + s[i].value
  {
    assert s[..i + 1][..i] == s[..i];
  }

  /** Parts of a non-negative list are at most the whole. */
  lemma {:induction false} TotalOfPart(s: seq<Slice>, k: nat)
    requires k <= |s| && NonNegative(s)
    ensures 0 <= Total(s[..k]) <= Total(s) && 0 <= Total(s[k..]) <= Total(s)
  {
    TotalSplit(s, k);
    TotalNonNegative(s[..k]);
    TotalNonNegative(s[k..]);
  }

  lemma {:induction false} TotalNonNegative(s: seq<Slice>)
    requires NonNegative(s)
    ensures 0 <= Total(s)
    ensures forall i :: 0 <= i < |s| ==> s[i].value <= Total(s)
  {
    if s != [] {
      TotalNonNegative(s[..|s| - 1]);
    }
  }

  method SumValues(s: seq<Slice>) returns (n: int)
    ensures n == Total(s)
  {
    n := 0;
    for i := 0 to |s|
      invariant n == Total(s[..i])
    {
      assert s[..i + 1][..i] == s[..i];
      n := n + s[i].value;
    }
    assert s[..|s|] == s;
  }

  /** remainingSum: never zero, so that it can divide. */
  method RemainingSum(s: seq<Slice>) returns (n: int)
    ensures n == if Total(s) == 0 then 1 else Total(s)
  {
    n := SumValues(s);
    if n == 0 {
      n := 1;
    }
  }

  // ---- rows ------------------------------------------------------------

  function Least(row: seq<Slice>): int
    requires row != []
  {
    if |row| == 1 then row[0].value
    else
      var m := Least(row[..|row| - 1]);
      if row[|row| - 1].value < m then row[|row| - 1].value else m
  }

  /** The source starts this search from 0. */
  function Greatest(row: seq<Slice>): int {
    if row == [] then 0
    else
      var m := Greatest(row[..|row| - 1]);
      if row[|row| - 1].value > m then row[|row| - 1].value else m
  }

  function WorstOf(row: seq<Slice>): Aspect {
    if row == [] || Total(row) == 0 || Least(row) == 0 then Inf
    else Ratio(Greatest(row) as real / Least(row) as real)
  }

  /** The width and height the source passes along do not enter the result. */
  method WorstAspect(row: seq<Slice>) returns (a: Aspect)
    ensures a == WorstOf(row)
  {
    if row == [] {
      return Inf;
    }
    var sum := SumValues(row);
    if sum == 0 {
      return Inf;
    }
    var minV, maxV := row[0].value, if row[0].value > 0 then row[0].value else 0;
    assert row[..1][..0] == [];
    for i := 1 to |row|
      invariant minV == Least(row[..i]) && maxV == Greatest(row[..i])
    {
      assert row[..i + 1][..i] == row[..i];
      var v := row[i].value;
      if v < minV {
        minV := v;
      }
      if v > maxV {
        maxV := v;
      }
    }
    assert row[..|row|] == row;
    if minV == 0 {
      return Inf;
    }
    return Ratio(maxV as real / minV as real);
  }

  lemma {:induction false} ExtremesOfDescending(row: seq<Slice>)
    requires row != [] && Descending(row) && NonNegative(row)
    ensures Least(row) == row[|row| - 1].value && Greatest(row) == row[0].value
  {
    if |row| > 1 {
      ExtremesOfDescending(row[..|row| - 1]);
    } else {
      assert row[..0] == [];
    }
  }

  /** The aspect of a descending row is the ratio of its ends. */
  lemma {:induction false} WorstOfDescending(row: seq<Slice>)
    requires row != [] && Descending(row) && NonNegative(row)
    ensures WorstOf(row) ==
      if row[|row| - 1].value == 0 then Inf else Ratio(row[0].value as real / row[|row| - 1].value as real)
  {
    ExtremesOfDescending(row);
    TotalNonNegative(row);
    assert row[|row| - 1].value <= Total(row);
  }

  /** What the greedy packing amounts to on a descending list: since the row's
      aspect is the ratio of its largest to its smallest value, a positive row
      only ever takes slices equal to its first, and it takes all of them; a row
      that starts with a zero takes everything. */
  ghost predicate IsRow(slices: seq<Slice>, row: seq<Slice>, rest: seq<Slice>) {
    && row + rest == slices && row != []
    && AllEqual(row)
    && (rest != [] ==> 0 < row[0].value && rest[0].value < row[0].value)
  }

  method NextSquarifiedRow(slices: seq<Slice>) returns (row: seq<Slice>, rest: seq<Slice>)
    ensures slices == [] ==> row == rest == []
    ensures slices != [] ==> row + rest == slices && row != []
    ensures slices != [] && Descending(slices) && NonNegative(slices) ==> IsRow(slices, row, rest)
  {
    if slices == [] {
      return [], [];
    }
    row, rest := [slices[0]], slices[1..];
    var worst := WorstAspect(row);
    while rest != []
      invariant row + rest == slices && row != []
      invariant worst == WorstOf(row)
      invariant Descending(slices) && NonNegative(slices) ==> AllEqual(row)
      decreases |rest|
    {
      var trial := row + [rest[0]];
      var ta := WorstAspect(trial);
      if Descending(slices) && NonNegative(slices) {
        TrialRow(slices, row, rest);
      }
      if ta.Exceeds(worst) {
        break;
      }
      row, worst, rest := trial, ta, rest[1..];
    }
  }

  lemma {:induction false} TrialRow(slices: seq<Slice>, row: seq<Slice>, rest: seq<Slice>)
    requires Descending(slices) && NonNegative(slices) && row + rest == slices && row != [] && rest != []
    requires AllEqual(row)
    ensures WorstOf(row + [rest[0]]).Exceeds(WorstOf(row)) <==> 0 < row[0].value && rest[0].value < row[0].value
    ensures !WorstOf(row + [rest[0]]).Exceeds(WorstOf(row)) ==> AllEqual(row + [rest[0]])
  {
    var trial := row + [rest[0]];
    assert trial == slices[..|row| + 1] && row == slices[..|row|];
    assert row[0].value >= rest[0].value >= 0 by {
      assert slices[0] == row[0] && slices[|row|] == rest[0];
    }
    WorstOfDescending(row);
    WorstOfDescending(trial);
    var a, b := row[0].value, rest[0].value;
    if a > 0 && b > 0 {
      RatioAboveOne(a as real, b as real);
    }
  }

  lemma {:induction false} RatioAboveOne(a: real, b: real)
    requires 0.0 < b <= a
    ensures a / a == 1.0
    ensures a / b > 1.0 <==> b < a
  {
    assert a / b * b == a;
  }

  // ---- tilings ---------------------------------------------------------

  /** Rectangles are half open, so that cells sharing an edge share no point. */
  predicate In(p: Point, r: Rect) {
    r.x <= p.x < r.x + r.w && r.y <= p.y < r.y + r.h
  }

  predicate Inside(r: Rect, c: Rect) {
    && 0.0 <= r.w && 0.0 <= r.h
    && c.x <= r.x && r.x + r.w <= c.x + c.w
    && c.y <= r.y && r.y + r.h <= c.y + c.h
  }

  predicate Degenerate(r: Rect) {
    r.w == 0.0 || r.h == 0.0
  }

  /** `first` and `second` are the two sides of a straight cut through `r`. */
  predicate Cuts(r: Rect, first: Rect, second: Rect) {
    && Inside(first, r) && Inside(second, r)
    && first.x == r.x && first.y == r.y
    && ((first.h == r.h && second == Rect(r.x + first.w, r.y, r.w - first.w, r.h)) ||
        (first.w == r.w && second == Rect(r.x, r.y + first.h, r.w, r.h - first.h)))
  }

  ghost predicate Covered(p: Point, cells: seq<Cell>, rest: Rect) {
    In(p, rest) || exists i :: 0 <= i < |cells| && In(p, cells[i].rect)
  }

  ghost predicate Disjoint(r: Rect, q: Rect) {
    forall p :: !(In(p, r) && In(p, q))
  }

  /** The cells and the still empty rectangle `rest` lie inside the canvas, share
      no point, and leave no point of it out. */
  ghost predicate Tiles(cells: seq<Cell>, rest: Rect, canvas: Rect) {
    && Inside(rest, canvas)
    && (forall i :: 0 <= i < |cells| ==> Inside(cells[i].rect, canvas) && Disjoint(cells[i].rect, rest))
    && (forall i, j :: 0 <= i < j < |cells| ==> Disjoint(cells[i].rect, cells[j].rect))
    && (forall p :: In(p, canvas) ==> Covered(p, cells, rest))
  }

  lemma {:induction false} CutCovers(r: Rect, first: Rect, second: Rect)
    requires Cuts(r, first, second)
    ensures Disjoint(first, second)
    ensures forall p :: In(p, r) <==> In(p, first) || In(p, second)
  {
  }

  lemma {:induction false} PlaceCell(cells: seq<Cell>, rest: Rect, canvas: Rect, cell: Cell, rest': Rect)
    requires Tiles(cells, rest, canvas) && Cuts(rest, cell.rect, rest')
    ensures Tiles(cells + [cell], rest', canvas)
  {
    CutCovers(rest, cell.rect, rest');
    var all := cells + [cell];
    forall p | In(p, canvas) ensures Covered(p, all, rest') {
      if In(p, rest) {
        assert all[|cells|] == cell;
      } else {
        var i :| 0 <= i < |cells| && In(p, cells[i].rect);
        assert all[i] == cells[i];
      }
    }
  }

  /** A slab cut off the empty rectangle, itself tiled by a row of cells. */
  lemma {:induction false} PlaceRow(cells: seq<Cell>, rest: Rect, canvas: Rect, slab: Rect, rest': Rect, row: seq<Cell>, gap: Rect)
    requires Tiles(cells, rest, canvas) && Cuts(rest, slab, rest')
    requires Tiles(row, gap, slab) && Degenerate(gap)
    ensures Tiles(cells + row, rest', canvas)
  {
    CutCovers(rest, slab, rest');
    var all := cells + row;
    forall i | 0 <= i < |row| ensures Inside(row[i].rect, canvas) && Disjoint(row[i].rect, rest') {
      assert forall p :: In(p, row[i].rect) ==> In(p, slab);
    }
    forall i, j | 0 <= i < |cells| && 0 <= j < |row| ensures Disjoint(cells[i].rect, row[j].rect) {
      assert forall p :: In(p, row[j].rect) ==> In(p, slab);
    }
    forall p | In(p, canvas) ensures Covered(p, all, rest') {
      if In(p, slab) {
        assert Covered(p, row, gap);
        var i :| 0 <= i < |row| && In(p, row[i].rect);
        assert all[|cells| + i] == row[i];
      } else if !In(p, rest') {
        assert Covered(p, cells, rest);
        var i :| 0 <= i < |cells| && In(p, cells[i].rect);
        assert all[i] == cells[i];
      }
    }
  }

  // ---- layout ----------------------------------------------------------

  lemma {:induction false} Cancel(a: real, b: real, k: real)
    requires k != 0.0 && a * k == b * k
    ensures a == b
  {
  }

  /** The part of `size` that falls to `value` when `sum` shares it. */
  function Portion(size: real, value: int, sum: int): real
    requires sum != 0
  {
    size * value as real / sum as real
  }

  lemma {:induction false} PortionSum(size: real, a: int, b: int, sum: int)
    requires sum != 0
    ensures Portion(size, a, sum) + Portion(size, b, sum) == Portion(size, a + b, sum)
  {
    var s := sum as real;
    assert size * (a + b) as real == size * a as real + size * b as real;
    QuotientSum(size * a as real, size * b as real, s);
  }

  lemma {:induction false} QuotientSum(x: real, y: real, s: real)
    requires s != 0.0
    ensures x / s + y / s == (x + y) / s
  {
    Cancel(x / s + y / s, (x + y) / s, s);
  }

  lemma {:induction false} PortionBounds(size: real, value: int, sum: int)
    requires 0.0 <= size && 0 <= value <= sum && 0 < sum
    ensures 0.0 <= Portion(size, value, sum) <= size
    ensures Portion(size, sum, sum) == size && Portion(size, 0, sum) == 0.0
  {
    var part, v, s := Portion(size, value, sum), value as real, sum as real;
    assert part * s == size * v;
    assert 0.0 <= size * v <= size * s;
    Cancel(Portion(size, sum, sum), size, s);
  }

  /** Cutting a side cuts the area alike. */
  lemma {:induction false} PortionOfArea(w: real, h: real, value: int, sum: int)
    requires sum != 0
    ensures Portion(w, value, sum) * h == Portion(w * h, value, sum)
    ensures w * Portion(h, value, sum) == Portion(w * h, value, sum)
  {
    var v, s := value as real, sum as real;
    assert (Portion(w, value, sum) * h) * s == (w * v) * h;
    assert (w * Portion(h, value, sum)) * s == w * (h * v);
    assert Portion(w * h, value, sum) * s == (w * h) * v;
    Cancel(Portion(w, value, sum) * h, Portion(w * h, value, sum), s);
    Cancel(w * Portion(h, value, sum), Portion(w * h, value, sum), s);
  }

  /** Sharing a share: the slab's cells get their share of the whole canvas. */
  lemma {:induction false} PortionOfPortion(all: real, value: int, sum: int, total: int)
    requires sum != 0 && total != 0
    ensures Portion(Portion(all, sum, total), value, sum) == Portion(all, value, total)
  {
    var v, s, t := value as real, sum as real, total as real;
    var slab := Portion(all, sum, total);
    var cell := Portion(slab, value, sum);
    assert slab * t == all * s;
    assert cell * s == slab * v;
    assert (cell * t) * s == (slab * t) * v == (all * v) * s;
    Cancel(cell * t, all * v, s);
    assert Portion(all, value, total) * t == all * v;
    Cancel(cell, Portion(all, value, total), t);
  }

  lemma {:induction false} PrefixTotals(row: seq<Slice>, i: nat)
    requires i < |row| && NonNegative(row)
    ensures Total(row[..i + 1]) == Total(row[..i]) + row[i].value
    ensures 0 <= Total(row[..i]) && Total(row[..i + 1]) <= Total(row)
  {
    TotalNext(row, i);
    TotalOfPart(row, i);
    TotalOfPart(row, i + 1);
  }

  /** The cell of slice `i` begins where the cells before it end. */
  lemma {:induction false} NextShare(row: seq<Slice>, i: nat, size: real)
    requires i < |row| && NonNegative(row) && 0.0 <= size && 0 < Total(row)
    ensures var sum := Total(row);
      var start, part := Portion(size, Total(row[..i]), sum), Portion(size, row[i].value, sum);
      && 0.0 <= part && 0.0 <= start && start + part <= size
      && start + part == Portion(size, Total(row[..i + 1]), sum)
  {
    hide Portion;
    var sum := Total(row);
    PrefixTotals(row, i);
    PortionSum(size, Total(row[..i]), row[i].value, sum);
    PortionBounds(size, row[i].value, sum);
    PortionBounds(size, Total(row[..i]), sum);
    PortionBounds(size, Total(row[..i + 1]), sum);
  }

  /** Every cell of the row so far has its share of the slab's area. */
  ghost predicate SharesSlab(row: seq<Slice>, cells: seq<Cell>, slab: Rect)
    requires Total(row) != 0
  {
    && |cells| <= |row|
    && forall i :: 0 <= i < |cells| ==>
         cells[i].slice == row[i] && cells[i].rect.Area() == Portion(slab.Area(), row[i].value, Total(row))
  }

  /** A slab filled by a row of cells. */
  ghost predicate IsLaidRow(row: seq<Slice>, cells: seq<Cell>, slab: Rect, gap: Rect)
    requires Total(row) != 0
  {
    |cells| == |row| && SharesSlab(row, cells, slab) && Tiles(cells, gap, slab) && Degenerate(gap)
  }

  lemma {:induction false} AddShare(row: seq<Slice>, cells: seq<Cell>, slab: Rect, cell: Cell)
    requires Total(row) != 0 && SharesSlab(row, cells, slab) && |cells| < |row|
    requires cell.slice == row[|cells|]
    requires cell.rect.Area() == Portion(slab.Area(), cell.slice.value, Total(row))
    ensures SharesSlab(row, cells + [cell], slab)
  {
    hide Portion, Total;
  }

  /** A strip across, or down, the slab has its share of the slab's area. */
  lemma {:induction false} StripArea(slab: Rect, x: real, y: real, value: int, sum: int)
    requires sum != 0
    ensures Rect(x, y, Portion(slab.w, value, sum), slab.h).Area() == Portion(slab.Area(), value, sum)
    ensures Rect(x, y, slab.w, Portion(slab.h, value, sum)).Area() == Portion(slab.Area(), value, sum)
  {
    hide Portion;
    PortionOfArea(slab.w, slab.h, value, sum);
    assert slab.Area() == slab.w * slab.h;
  }

  ghost predicate AcrossState(row: seq<Slice>, cells: seq<Cell>, gap: Rect, slab: Rect, cellX: real)
    requires Total(row) != 0
  {
    && SharesSlab(row, cells, slab) && Tiles(cells, gap, slab)
    && cellX == slab.x + Portion(slab.w, Total(row[..|cells|]), Total(row))
    && gap == Rect(cellX, slab.y, slab.x + slab.w - cellX, slab.h)
  }

  lemma {:induction false} AcrossStep(row: seq<Slice>, cells: seq<Cell>, gap: Rect, slab: Rect, cellX: real)
    requires NonNegative(row) && 0.0 <= slab.w && 0.0 <= slab.h && 0 < Total(row) && |cells| < |row|
    requires AcrossState(row, cells, gap, slab, cellX)
    ensures var s := row[|cells|];
      var part := Portion(slab.w, s.value, Total(row));
      AcrossState(row, cells + [Cell(s, Rect(cellX, slab.y, part, slab.h))],
        Rect(cellX + part, slab.y, slab.x + slab.w - (cellX + part), slab.h), slab, cellX + part)
  {
    hide Portion, Total, Tiles, SharesSlab;
    var s := row[|cells|];
    NextShare(row, |cells|, slab.w);
    var part := Portion(slab.w, s.value, Total(row));
    StripArea(slab, cellX, slab.y, s.value, Total(row));
    var cell := Cell(s, Rect(cellX, slab.y, part, slab.h));
    var all := cells + [cell];
    PlaceCell(cells, gap, slab, cell, Rect(cellX + part, slab.y, slab.x + slab.w - (cellX + part), slab.h));
    assert row[..|all|] == row[..|cells| + 1];
    AddShare(row, cells, slab, cell);
  }

  lemma {:induction false} AcrossStart(row: seq<Slice>, slab: Rect)
    requires NonNegative(row) && 0.0 <= slab.w && 0.0 <= slab.h && Total(row) != 0
    ensures AcrossState(row, [], slab, slab, slab.x) && 0 < Total(row)
  {
    hide Portion;
    TotalNonNegative(row);
    assert row[..0] == [];
    PortionBounds(slab.w, 0, Total(row));
  }

  lemma {:induction false} DownStart(row: seq<Slice>, slab: Rect)
    requires NonNegative(row) && 0.0 <= slab.w && 0.0 <= slab.h && Total(row) != 0
    ensures DownState(row, [], slab, slab, slab.y) && 0 < Total(row)
  {
    hide Portion;
    TotalNonNegative(row);
    assert row[..0] == [];
    PortionBounds(slab.h, 0, Total(row));
  }

  lemma {:induction false} AcrossDone(row: seq<Slice>, cells: seq<Cell>, gap: Rect, slab: Rect, cellX: real)
    requires 0.0 <= slab.w && 0.0 <= slab.h && 0 < Total(row) && |cells| == |row| && AcrossState(row, cells, gap, slab, cellX)
    ensures Degenerate(gap) && IsLaidRow(row, cells, slab, gap)
  {
    hide Portion;
    assert row[..|row|] == row;
    PortionBounds(slab.w, Total(row), Total(row));
  }

  /** Slice `i` has a cell as high as the slab, right of the cell before, whose width is
      the slice's share of the slab's. */
  ghost predicate IsAcross(row: seq<Slice>, cells: seq<Cell>, slab: Rect, i: nat)
    requires i < |cells| && i < |row|
  {
    var r := cells[i].rect;
    && cells[i].slice == row[i] && r.y == slab.y && r.h == slab.h
    && r.x == (if i == 0 then slab.x else cells[i - 1].rect.x + cells[i - 1].rect.w)
    && r.w * Total(row) as real == slab.w * row[i].value as real
  }

  /** The same down the slab. */
  ghost predicate IsDown(row: seq<Slice>, cells: seq<Cell>, slab: Rect, i: nat)
    requires i < |cells| && i < |row|
  {
    var r := cells[i].rect;
    && cells[i].slice == row[i] && r.x == slab.x && r.w == slab.w
    && r.y == (if i == 0 then slab.y else cells[i - 1].rect.y + cells[i - 1].rect.h)
    && r.h * Total(row) as real == slab.h * row[i].value as real
  }

  lemma {:induction false} PortionTimesSum(size: real, value: int, sum: int)
    requires sum != 0
    ensures Portion(size, value, sum) * sum as real == size * value as real
  {
  }

  ghost predicate AcrossSoFar(row: seq<Slice>, cells: seq<Cell>, slab: Rect, cellX: real) {
    && |cells| <= |row| && (forall k :: 0 <= k < |cells| ==> IsAcross(row, cells, slab, k))
    && cellX == if cells == [] then slab.x else cells[|cells| - 1].rect.x + cells[|cells| - 1].rect.w
  }

  lemma {:induction false} AcrossNone(row: seq<Slice>, slab: Rect)
    ensures AcrossSoFar(row, [], slab, slab.x)
    ensures forall cells: seq<Cell>, cellX :: |cells| == |row| && AcrossSoFar(row, cells, slab, cellX) ==>
      forall k :: 0 <= k < |row| ==> IsAcross(row, cells, slab, k)
  {
  }

  lemma {:induction false} AcrossNext(row: seq<Slice>, cells: seq<Cell>, slab: Rect, cellX: real)
    requires AcrossSoFar(row, cells, slab, cellX) && |cells| < |row| && Total(row) != 0
    ensures var part := Portion(slab.w, row[|cells|].value, Total(row));
      AcrossSoFar(row, cells + [Cell(row[|cells|], Rect(cellX, slab.y, part, slab.h))], slab, cellX + part)
  {
    hide Portion, Total;
    var part := Portion(slab.w, row[|cells|].value, Total(row));
    PortionTimesSum(slab.w, row[|cells|].value, Total(row));
    var all := cells + [Cell(row[|cells|], Rect(cellX, slab.y, part, slab.h))];
    forall k | 0 <= k < |all| ensures IsAcross(row, all, slab, k) {
      assert k < |cells| ==> IsAcross(row, cells, slab, k);
    }
  }

  /** Cells side by side across the slab. */
  method LayAcross(row: seq<Slice>, sum: int, slab: Rect) returns (cells: seq<Cell>, ghost gap: Rect)
    requires sum == Total(row) != 0
    ensures |cells| == |row|
    ensures forall i :: 0 <= i < |row| ==> IsAcross(row, cells, slab, i)
    ensures NonNegative(row) && 0.0 <= slab.w && 0.0 <= slab.h ==> IsLaidRow(row, cells, slab, gap)
  {
    hide Portion, Total, AcrossState, AcrossSoFar, IsAcross, IsLaidRow;
    cells, gap := [], slab;
    AcrossNone(row, slab);
    var cellX := slab.x;
    ghost var fine := NonNegative(row) && 0.0 <= slab.w && 0.0 <= slab.h;
    if fine {
      AcrossStart(row, slab);
    }
    for i := 0 to |row|
      invariant |cells| == i
      invariant AcrossSoFar(row, cells, slab, cellX)
      invariant fine ==> AcrossState(row, cells, gap, slab, cellX)
    {
      var part := Portion(slab.w, row[i].value, sum);
      if fine {
        AcrossStep(row, cells, gap, slab, cellX);
        gap := Rect(cellX + part, slab.y, slab.x + slab.w - (cellX + part), slab.h);
      }
      AcrossNext(row, cells, slab, cellX);
      cells := cells + [Cell(row[i], Rect(cellX, slab.y, part, slab.h))];
      cellX := cellX + part;
    }
    if fine {
      AcrossDone(row, cells, gap, slab, cellX);
    }
  }

  ghost predicate DownState(row: seq<Slice>, cells: seq<Cell>, gap: Rect, slab: Rect, cellY: real)
    requires Total(row) != 0
  {
    && SharesSlab(row, cells, slab) && Tiles(cells, gap, slab)
    && cellY == slab.y + Portion(slab.h, Total(row[..|cells|]), Total(row))
    && gap == Rect(slab.x, cellY, slab.w, slab.y + slab.h - cellY)
  }

  lemma {:induction false} DownStep(row: seq<Slice>, cells: seq<Cell>, gap: Rect, slab: Rect, cellY: real)
    requires NonNegative(row) && 0.0 <= slab.w && 0.0 <= slab.h && 0 < Total(row) && |cells| < |row|
    requires DownState(row, cells, gap, slab, cellY)
    ensures var s := row[|cells|];
      var part := Portion(slab.h, s.value, Total(row));
      DownState(row, cells + [Cell(s, Rect(slab.x, cellY, slab.w, part))],
        Rect(slab.x, cellY + part, slab.w, slab.y + slab.h - (cellY + part)), slab, cellY + part)
  {
    hide Portion, Total, Tiles, SharesSlab;
    var s := row[|cells|];
    NextShare(row, |cells|, slab.h);
    var part := Portion(slab.h, s.value, Total(row));
    StripArea(slab, slab.x, cellY, s.value, Total(row));
    var cell := Cell(s, Rect(slab.x, cellY, slab.w, part));
    var all := cells + [cell];
    PlaceCell(cells, gap, slab, cell, Rect(slab.x, cellY + part, slab.w, slab.y + slab.h - (cellY + part)));
    assert row[..|all|] == row[..|cells| + 1];
    AddShare(row, cells, slab, cell);
  }

  lemma {:induction false} DownDone(row: seq<Slice>, cells: seq<Cell>, gap: Rect, slab: Rect, cellY: real)
    requires 0.0 <= slab.w && 0.0 <= slab.h && 0 < Total(row) && |cells| == |row| && DownState(row, cells, gap, slab, cellY)
    ensures Degenerate(gap) && IsLaidRow(row, cells, slab, gap)
  {
    hide Portion;
    assert row[..|row|] == row;
    PortionBounds(slab.h, Total(row), Total(row));
  }

  ghost predicate DownSoFar(row: seq<Slice>, cells: seq<Cell>, slab: Rect, cellY: real) {
    && |cells| <= |row| && (forall k :: 0 <= k < |cells| ==> IsDown(row, cells, slab, k))
    && cellY == if cells == [] then slab.y else cells[|cells| - 1].rect.y + cells[|cells| - 1].rect.h
  }

  lemma {:induction false} DownNone(row: seq<Slice>, slab: Rect)
    ensures DownSoFar(row, [], slab, slab.y)
    ensures forall cells: seq<Cell>, cellY :: |cells| == |row| && DownSoFar(row, cells, slab, cellY) ==>
      forall k :: 0 <= k < |row| ==> IsDown(row, cells, slab, k)
  {
  }

  lemma {:induction false} DownNext(row: seq<Slice>, cells: seq<Cell>, slab: Rect, cellY: real)
    requires DownSoFar(row, cells, slab, cellY) && |cells| < |row| && Total(row) != 0
    ensures var part := Portion(slab.h, row[|cells|].value, Total(row));
      DownSoFar(row, cells + [Cell(row[|cells|], Rect(slab.x, cellY, slab.w, part))], slab, cellY + part)
  {
    hide Portion, Total;
    var part := Portion(slab.h, row[|cells|].value, Total(row));
    PortionTimesSum(slab.h, row[|cells|].value, Total(row));
    var all := cells + [Cell(row[|cells|], Rect(slab.x, cellY, slab.w, part))];
    forall k | 0 <= k < |all| ensures IsDown(row, all, slab, k) {
      assert k < |cells| ==> IsDown(row, cells, slab, k);
    }
  }

  /** Cells one below the other down the slab. */
  method LayDown(row: seq<Slice>, sum: int, slab: Rect) returns (cells: seq<Cell>, ghost gap: Rect)
    requires sum == Total(row) != 0
    ensures |cells| == |row|
    ensures forall i :: 0 <= i < |row| ==> IsDown(row, cells, slab, i)
    ensures NonNegative(row) && 0.0 <= slab.w && 0.0 <= slab.h ==> IsLaidRow(row, cells, slab, gap)
  {
    hide Portion, Total, DownState, DownSoFar, IsDown, IsLaidRow;
    cells, gap := [], slab;
    DownNone(row, slab);
    var cellY := slab.y;
    ghost var fine := NonNegative(row) && 0.0 <= slab.w && 0.0 <= slab.h;
    if fine {
      DownStart(row, slab);
    }
    for i := 0 to |row|
      invariant |cells| == i
      invariant DownSoFar(row, cells, slab, cellY)
      invariant fine ==> DownState(row, cells, gap, slab, cellY)
    {
      var part := Portion(slab.h, row[i].value, sum);
      if fine {
        DownStep(row, cells, gap, slab, cellY);
        gap := Rect(slab.x, cellY + part, slab.w, slab.y + slab.h - (cellY + part));
      }
      DownNext(row, cells, slab, cellY);
      cells := cells + [Cell(row[i], Rect(slab.x, cellY, slab.w, part))];
      cellY := cellY + part;
    }
    if fine {
      DownDone(row, cells, gap, slab, cellY);
    }
  }

  // ---- the rows of a drawing ---------------------------------------------------------

  /** The strip that a row of this sum takes: along the top of what is left if that is
      higher than wide, along its left side otherwise. */
  ghost function StripOf(rest: Rect, sum: int, whole: int): Rect
    requires whole != 0
  {
    if rest.w < rest.h then rest.(h := rest.h * sum as real / whole as real) else rest.(w := rest.w * sum as real / whole as real)
  }

  ghost function BesideStrip(rest: Rect, sum: int, whole: int): Rect
    requires whole != 0
  {
    var strip := StripOf(rest, sum, whole);
    if rest.w < rest.h then rest.(y := rest.y + strip.h, h := rest.h - strip.h) else rest.(x := rest.x + strip.w, w := rest.w - strip.w)
  }

  lemma {:induction false} Strips(rest: Rect, sum: int, whole: int)
    requires whole != 0
    ensures var rowH, rowW := Portion(rest.h, sum, whole), Portion(rest.w, sum, whole);
      if rest.w < rest.h then
        && StripOf(rest, sum, whole) == Rect(rest.x, rest.y, rest.w, rowH)
        && BesideStrip(rest, sum, whole) == Rect(rest.x, rest.y + rowH, rest.w, rest.h - rowH)
      else
        && StripOf(rest, sum, whole) == Rect(rest.x, rest.y, rowW, rest.h)
        && BesideStrip(rest, sum, whole) == Rect(rest.x + rowW, rest.y, rest.w - rowW, rest.h)
  {
  }

  ghost predicate IsStrip(row: seq<Slice>, rest: Rect, whole: int, laid: seq<Cell>)
    requires whole != 0
  {
    && |laid| == |row|
    && forall i :: 0 <= i < |row| ==>
         if rest.w < rest.h then IsAcross(row, laid, StripOf(rest, Total(row), whole), i)
         else IsDown(row, laid, StripOf(rest, Total(row), whole), i)
  }

  /** The whole drawing, row by row: the equal leading values take a strip along the
      shorter side of what is left, in proportion to their sum, and so on with the
      others beside it, until only zeros remain. */
  ghost predicate IsCarved(slices: seq<Slice>, rest: Rect, cells: seq<Cell>)
    decreases |slices|
  {
    if Total(slices) == 0 then cells == []
    else
      exists n: nat :: 0 < n <= |slices| && n <= |cells| && StartsWithRow(slices, n, rest, cells)
        && IsCarved(slices[n..], BesideStrip(rest, Total(slices[..n]), Total(slices)), cells[n..])
  }

  ghost predicate StartsWithRow(slices: seq<Slice>, n: nat, rest: Rect, cells: seq<Cell>)
    requires n <= |slices| && n <= |cells| && Total(slices) != 0
  {
    IsRow(slices, slices[..n], slices[n..]) && IsStrip(slices[..n], rest, Total(slices), cells[..n])
  }

  /** However the rest is carved, it completes the drawing. */
  ghost predicate Completes(order: seq<Slice>, canvas: Rect, cells: seq<Cell>, rest: Rect, remaining: seq<Slice>) {
    forall more: seq<Cell> :: IsCarved(remaining, rest, more) ==> IsCarved(order, canvas, cells + more)
  }

  lemma {:induction false} CarveStart(order: seq<Slice>, canvas: Rect)
    ensures Completes(order, canvas, [], canvas, order)
  {
    forall more: seq<Cell> | IsCarved(order, canvas, more) ensures IsCarved(order, canvas, [] + more) {
      assert [] + more == more;
    }
  }

  lemma {:induction false} CarveRow(slices: seq<Slice>, rest: Rect, row: seq<Slice>, tail: seq<Slice>, laid: seq<Cell>, more: seq<Cell>)
    requires Total(slices) != 0 && IsRow(slices, row, tail) && IsStrip(row, rest, Total(slices), laid)
    requires IsCarved(tail, BesideStrip(rest, Total(row), Total(slices)), more)
    ensures IsCarved(slices, rest, laid + more)
  {
    hide Total, IsRow, IsStrip, BesideStrip;
    var n := |row|;
    RowLength(slices, row, tail, laid, rest);
    assert slices[..n] == row && slices[n..] == tail && (laid + more)[..n] == laid && (laid + more)[n..] == more;
    assert StartsWithRow(slices, n, rest, laid + more);
  }

  lemma {:induction false} RowLength(slices: seq<Slice>, row: seq<Slice>, tail: seq<Slice>, laid: seq<Cell>, rest: Rect)
    requires Total(slices) != 0 && IsRow(slices, row, tail) && IsStrip(row, rest, Total(slices), laid)
    ensures slices == row + tail && 0 < |row| == |laid|
  {
  }

  lemma {:induction false} CarveStep(order: seq<Slice>, canvas: Rect, cells: seq<Cell>, rest: Rect, remaining: seq<Slice>,
      row: seq<Slice>, tail: seq<Slice>, laid: seq<Cell>)
    requires Completes(order, canvas, cells, rest, remaining)
    requires Total(remaining) != 0 && IsRow(remaining, row, tail) && IsStrip(row, rest, Total(remaining), laid)
    ensures Completes(order, canvas, cells + laid, BesideStrip(rest, Total(row), Total(remaining)), tail)
  {
    hide Total, IsRow, IsStrip, BesideStrip, IsCarved;
    var rest' := BesideStrip(rest, Total(row), Total(remaining));
    forall more: seq<Cell> | IsCarved(tail, rest', more) ensures IsCarved(order, canvas, cells + laid + more) {
      CarveRow(remaining, rest, row, tail, laid, more);
      assert cells + laid + more == cells + (laid + more);
    }
  }

  lemma {:induction false} CarveEnd(order: seq<Slice>, canvas: Rect, cells: seq<Cell>, rest: Rect, remaining: seq<Slice>)
    requires Completes(order, canvas, cells, rest, remaining) && Total(remaining) == 0
    ensures IsCarved(order, canvas, cells)
  {
    assert IsCarved(remaining, rest, []);
    assert cells + [] == cells;
  }

  // ---- the drawing -------------------------------------------------------------------

  /** The drawing: exactly the positive slices, in order, each with its share of
      the area, together covering every point of the canvas exactly once. */
  ghost predicate IsTreemap(order: seq<Slice>, canvas: Rect, cells: seq<Cell>)
    requires Total(order) != 0
  {
    && SharesCanvas(order, 0, cells, canvas)
    && (forall i :: |cells| <= i < |order| ==> order[i].value == 0)
    && (forall i :: 0 <= i < |cells| ==> Inside(cells[i].rect, canvas))
    && (forall i, j :: 0 <= i < j < |cells| ==> Disjoint(cells[i].rect, cells[j].rect))
    && (forall p :: In(p, canvas) ==> exists i :: 0 <= i < |cells| && In(p, cells[i].rect))
  }

  /** Every cell shows a positive slice and has its share of the canvas. */
  ghost predicate SharesCanvas(order: seq<Slice>, from: nat, cells: seq<Cell>, canvas: Rect)
    requires Total(order) != 0
  {
    && from + |cells| <= |order|
    && forall i :: 0 <= i < |cells| ==>
         && cells[i].slice == order[from + i] && 0 < cells[i].slice.value
         && cells[i].rect.Area() == Portion(canvas.Area(), cells[i].slice.value, Total(order))
  }

  /** State of the layout loop: what is left of the canvas is in proportion to
      what is left of the values. */
  ghost predicate IsPartial(order: seq<Slice>, canvas: Rect, cells: seq<Cell>, rest: Rect, remaining: seq<Slice>)
    requires Total(order) != 0
  {
    && |cells| + |remaining| == |order| && remaining == order[|cells|..]
    && Tiles(cells, rest, canvas)
    && rest.Area() == Portion(canvas.Area(), Total(remaining), Total(order))
    && SharesCanvas(order, 0, cells, canvas)
  }

  /** A round of the loop: `slab` is cut off `rest` in proportion to the row's
      values and filled with its cells. */
  lemma {:induction false} Round(order: seq<Slice>, canvas: Rect, cells: seq<Cell>, rest: Rect, remaining: seq<Slice>,
      row: seq<Slice>, tail: seq<Slice>, slab: Rect, rest': Rect, laid: seq<Cell>, gap: Rect)
    requires NonNegative(order) && Total(order) > 0 && IsPartial(order, canvas, cells, rest, remaining)
    requires IsRow(remaining, row, tail) && Total(row) != 0 && Total(remaining) != 0
    requires Cuts(rest, slab, rest') && IsLaidRow(row, laid, slab, gap)
    requires slab.Area() == Portion(rest.Area(), Total(row), Total(remaining))
    requires rest'.Area() == rest.Area() - slab.Area()
    ensures IsPartial(order, canvas, cells + laid, rest', tail)
  {
    hide Portion, Total, Tiles, SharesCanvas, SharesSlab, Cuts, AllEqual;
    RoundTotals(order, |cells|, remaining, row, tail);
    PlaceRow(cells, rest, canvas, slab, rest', laid, gap);
    PortionOfPortion(canvas.Area(), Total(row), Total(remaining), Total(order));
    PortionSum(canvas.Area(), Total(row), Total(tail), Total(order));
    RowShares(order, canvas, row, laid, slab, |cells|);
    JoinShares(order, canvas, cells, laid);
  }

  lemma {:induction false} RowShares(order: seq<Slice>, canvas: Rect, row: seq<Slice>, laid: seq<Cell>, slab: Rect, k: nat)
    requires Total(row) != 0 && Total(order) != 0 && |laid| == |row| && SharesSlab(row, laid, slab)
    requires slab.Area() == Portion(canvas.Area(), Total(row), Total(order))
    requires k + |row| <= |order| && forall i :: 0 <= i < |row| ==> row[i] == order[k + i] && 0 < row[i].value
    ensures SharesCanvas(order, k, laid, canvas)
  {
    hide Portion;
    forall i | 0 <= i < |laid|
      ensures laid[i].rect.Area() == Portion(canvas.Area(), laid[i].slice.value, Total(order))
    {
      PortionOfPortion(canvas.Area(), row[i].value, Total(row), Total(order));
    }
  }

  lemma {:induction false} JoinShares(order: seq<Slice>, canvas: Rect, cells: seq<Cell>, laid: seq<Cell>)
    requires Total(order) != 0
    requires SharesCanvas(order, 0, cells, canvas) && SharesCanvas(order, |cells|, laid, canvas)
    ensures SharesCanvas(order, 0, cells + laid, canvas)
  {
    hide Portion;
  }

  lemma {:induction false} RoundTotals(order: seq<Slice>, k: nat, remaining: seq<Slice>, row: seq<Slice>, tail: seq<Slice>)
    requires NonNegative(order) && k <= |order| && remaining == order[k..]
    requires IsRow(remaining, row, tail) && Total(row) != 0
    ensures 0 < Total(row) <= Total(remaining) <= Total(order)
    ensures Total(tail) == Total(remaining) - Total(row)
    ensures tail == order[k + |row|..]
    ensures forall i :: 0 <= i < |row| ==> row[i] == order[k + i] && 0 < row[i].value
  {
    hide Total;
    var n := |row|;
    assert remaining[..n] == row && remaining[n..] == tail;
    TotalOfPart(order, k);
    TotalOfPart(remaining, n);
    TotalSplit(remaining, n);
    forall i | 0 <= i < n ensures row[i] == order[k + i] {
      assert remaining[i] == row[i];
    }
    AllZero(row);
  }

  lemma {:induction false} AllZero(s: seq<Slice>)
    requires NonNegative(s)
    ensures Total(s) == 0 <==> forall i :: 0 <= i < |s| ==> s[i].value == 0
  {
    if s != [] {
      TotalNonNegative(s[..|s| - 1]);
      AllZero(s[..|s| - 1]);
    }
  }

  /** The loop stops when nothing, or nothing but zeros, remains. */
  lemma {:induction false} Finished(order: seq<Slice>, canvas: Rect, cells: seq<Cell>, rest: Rect, remaining: seq<Slice>)
    requires NonNegative(order) && Total(order) > 0 && IsPartial(order, canvas, cells, rest, remaining)
    requires Total(remaining) == 0
    ensures IsTreemap(order, canvas, cells)
  {
    AllZero(remaining);
    assert forall i :: |cells| <= i < |order| ==> order[i] == remaining[i - |cells|];
    Cancel(Portion(canvas.Area(), 0, Total(order)), 0.0, Total(order) as real);
    NothingUncovered(cells, rest, canvas);
  }

  lemma {:induction false} NothingUncovered(cells: seq<Cell>, rest: Rect, canvas: Rect)
    requires Tiles(cells, rest, canvas) && Degenerate(rest)
    ensures forall p :: In(p, canvas) ==> exists i :: 0 <= i < |cells| && In(p, cells[i].rect)
  {
    forall p | In(p, canvas) ensures exists i :: 0 <= i < |cells| && In(p, cells[i].rect) {
      assert Covered(p, cells, rest);
    }
  }

  /** All that the loop keeps. */
  ghost predicate IsUnderway(order: seq<Slice>, canvas: Rect, cells: seq<Cell>, rest: Rect, remaining: seq<Slice>) {
    && NonNegative(order) && Total(order) > 0 && Descending(remaining) && NonNegative(remaining)
    && IsPartial(order, canvas, cells, rest, remaining) && Completes(order, canvas, cells, rest, remaining)
  }

  lemma {:induction false} Begins(order: seq<Slice>, canvas: Rect)
    requires NonNegative(order) && Total(order) > 0 && Descending(order) && 0.0 <= canvas.w && 0.0 <= canvas.h
    ensures IsUnderway(order, canvas, [], canvas, order)
  {
    hide Portion, Total;
    AreaNonNegative(canvas);
    PortionBounds(canvas.Area(), Total(order), Total(order));
    CarveStart(order, canvas);
  }

  lemma {:induction false} AreaNonNegative(r: Rect)
    requires 0.0 <= r.w && 0.0 <= r.h
    ensures 0.0 <= r.Area()
  {
  }

  /** What the loop body needs to know of its row. */
  lemma {:induction false} RowReady(order: seq<Slice>, canvas: Rect, cells: seq<Cell>, rest: Rect, remaining: seq<Slice>, row: seq<Slice>, tail: seq<Slice>)
    requires IsUnderway(order, canvas, cells, rest, remaining) && remaining != []
    requires Descending(remaining) && NonNegative(remaining) ==> IsRow(remaining, row, tail)
    ensures NonNegative(row) && 0.0 <= rest.w && 0.0 <= rest.h
    ensures Total(row) == 0 ==> Total(remaining) == 0
    ensures Total(row) != 0 ==> 0 < Total(row) <= Total(remaining)
  {
    hide Portion, Total, Completes, IsRow, IsPartial;
    RoundReady(order, canvas, cells, rest, remaining, row, tail);
  }

  lemma {:induction false} GoesOn(order: seq<Slice>, canvas: Rect, cells: seq<Cell>, rest: Rect, remaining: seq<Slice>,
      row: seq<Slice>, tail: seq<Slice>, slab: Rect, rest': Rect, laid: seq<Cell>, gap: Rect)
    requires IsUnderway(order, canvas, cells, rest, remaining) && remaining != []
    requires Descending(remaining) && NonNegative(remaining) ==> IsRow(remaining, row, tail)
    requires Total(row) != 0 && Total(remaining) != 0
    requires IsStrip(row, rest, Total(remaining), laid) && rest' == BesideStrip(rest, Total(row), Total(remaining))
    requires Cuts(rest, slab, rest') && IsLaidRow(row, laid, slab, gap)
    requires slab.Area() == Portion(rest.Area(), Total(row), Total(remaining)) && rest'.Area() == rest.Area() - slab.Area()
    ensures IsUnderway(order, canvas, cells + laid, rest', tail)
  {
    hide Portion, Total, Completes, IsPartial, IsStrip, BesideStrip, Cuts, IsLaidRow, IsRow;
    RoundReady(order, canvas, cells, rest, remaining, row, tail);
    Round(order, canvas, cells, rest, remaining, row, tail, slab, rest', laid, gap);
    CarveStep(order, canvas, cells, rest, remaining, row, tail, laid);
  }

  lemma {:induction false} Ends(order: seq<Slice>, canvas: Rect, cells: seq<Cell>, rest: Rect, remaining: seq<Slice>)
    requires IsUnderway(order, canvas, cells, rest, remaining) && Total(remaining) == 0
    ensures IsTreemap(order, canvas, cells) && IsCarved(order, canvas, cells)
  {
    hide Portion, Total, Completes, IsPartial, IsTreemap, IsCarved;
    Finished(order, canvas, cells, rest, remaining);
    CarveEnd(order, canvas, cells, rest, remaining);
  }

  /** `order` is the input as sort.Slice leaves it: some descending permutation,
      for that sort is not stable. The result is the drawn canvas and cells; an
      empty drawing stands for the "no data" picture. */
  method Treemap(ghost slices: seq<Slice>, order: seq<Slice>, width: int, height: int) returns (canvas: Rect, cells: seq<Cell>)
    requires multiset(order) == multiset(slices) && Descending(order)
    ensures canvas == Rect(0.0, 0.0, (if width <= 0 then 400 else width) as real, (if height <= 0 then 200 else height) as real)
    ensures Total(order) == 0 ==> cells == []
    ensures NonNegative(order) && Total(order) > 0 ==> IsTreemap(order, canvas, cells) && IsCarved(order, canvas, cells)
  {
    hide *;
    var pixelsW := if width <= 0 then 400 else width;
    var pixelsH := if height <= 0 then 200 else height;
    canvas, cells := Rect(0.0, 0.0, pixelsW as real, pixelsH as real), [];
    NothingTotal();
    if order == [] {
      return;
    }
    var total := SumValues(order);
    if total == 0 {
      return;
    }
    var rest := canvas;
    var remaining := order;
    ghost var fine := NonNegative(order) && total > 0;
    if fine {
      Begins(order, canvas);
    }
    while remaining != []
      invariant fine ==> IsUnderway(order, canvas, cells, rest, remaining)
      decreases |remaining|
    {
      var row, tail := NextSquarifiedRow(remaining);
      var sum := SumValues(row);
      if fine {
        RowReady(order, canvas, cells, rest, remaining, row, tail);
      }
      if sum == 0 {
        break;
      }
      var whole := RemainingSum(remaining);
      var rest', laid;
      ghost var slab, gap;
      slab, rest', laid, gap := LayRow(rest, row, sum, whole);
      if fine {
        GoesOn(order, canvas, cells, rest, remaining, row, tail, slab, rest', laid, gap);
      }
      cells, rest, remaining := cells + laid, rest', tail;
    }
    if fine {
      Ends(order, canvas, cells, rest, remaining);
    }
  }

  lemma {:induction false} NothingTotal()
    ensures Total([]) == 0
  {
  }

  ghost function AreaSum(cells: seq<Cell>): real {
    if cells == [] then 0.0 else AreaSum(cells[..|cells| - 1]) + cells[|cells| - 1].rect.Area()
  }

  /** The cells' areas add up to the canvas. */
  lemma {:induction false} TreemapFillsCanvas(order: seq<Slice>, canvas: Rect, cells: seq<Cell>)
    requires NonNegative(order) && Total(order) > 0 && IsTreemap(order, canvas, cells)
    ensures AreaSum(cells) == canvas.Area()
  {
    hide Portion;
    AreaOfPrefix(order, canvas, cells, |cells|);
    assert cells[..|cells|] == cells;
    TotalSplit(order, |cells|);
    AllZero(order[|cells|..]);
    PortionOfAll(canvas.Area(), Total(order));
  }

  lemma {:induction false} PortionOfAll(all: real, total: int)
    requires total != 0
    ensures Portion(all, total, total) == all && Portion(all, 0, total) == 0.0
  {
    Cancel(Portion(all, total, total), all, total as real);
    Cancel(Portion(all, 0, total), 0.0, total as real);
  }

  lemma {:induction false} AreaOfPrefix(order: seq<Slice>, canvas: Rect, cells: seq<Cell>, k: nat)
    requires Total(order) != 0 && SharesCanvas(order, 0, cells, canvas) && k <= |cells|
    ensures AreaSum(cells[..k]) == Portion(canvas.Area(), Total(order[..k]), Total(order))
  {
    hide Portion;
    if k == 0 {
      assert order[..0] == [];
      PortionOfAll(canvas.Area(), Total(order));
    } else {
      AreaOfPrefix(order, canvas, cells, k - 1);
      assert cells[..k][..k - 1] == cells[..k - 1];
      TotalNext(order, k - 1);
      PortionSum(canvas.Area(), Total(order[..k - 1]), order[k - 1].value, Total(order));
    }
  }

  /** The row goes along the shorter side of what is left of the canvas. */
  method LayRow(rest: Rect, row: seq<Slice>, sum: int, whole: int)
    returns (ghost slab: Rect, rest': Rect, laid: seq<Cell>, ghost gap: Rect)
    requires sum == Total(row) != 0 && whole != 0
    ensures IsStrip(row, rest, whole, laid) && rest' == BesideStrip(rest, sum, whole)
    ensures NonNegative(row) && 0.0 <= rest.w && 0.0 <= rest.h && 0 < sum <= whole ==>
      && Cuts(rest, slab, rest') && IsLaidRow(row, laid, slab, gap)
      && slab.Area() == Portion(rest.Area(), sum, whole)
      && rest'.Area() == rest.Area() - slab.Area()
  {
    hide Portion, Total, IsAcross, IsDown, StripOf, BesideStrip;
    Strips(rest, sum, whole);
    if 0.0 <= rest.w && 0.0 <= rest.h && 0 < sum <= whole {
      SlabShare(rest, sum, whole);
    }
    if rest.w < rest.h {
      var rowH := Portion(rest.h, sum, whole);
      var strip := Rect(rest.x, rest.y, rest.w, rowH);
      rest' := Rect(rest.x, rest.y + rowH, rest.w, rest.h - rowH);
      laid, gap := LayAcross(row, sum, strip);
      slab := strip;
    } else {
      var rowW := Portion(rest.w, sum, whole);
      var strip := Rect(rest.x, rest.y, rowW, rest.h);
      rest' := Rect(rest.x + rowW, rest.y, rest.w - rowW, rest.h);
      laid, gap := LayDown(row, sum, strip);
      slab := strip;
    }
  }

  /** What the loop body needs to know of its row and of what is left. */
  lemma {:induction false} RoundReady(order: seq<Slice>, canvas: Rect, cells: seq<Cell>, rest: Rect, remaining: seq<Slice>, row: seq<Slice>, tail: seq<Slice>)
    requires NonNegative(order) && Total(order) > 0 && IsPartial(order, canvas, cells, rest, remaining)
    requires Descending(remaining) && NonNegative(remaining) && IsRow(remaining, row, tail)
    ensures NonNegative(row) && Descending(tail) && NonNegative(tail)
    ensures 0.0 <= rest.w && 0.0 <= rest.h
    ensures Total(row) == 0 ==> Total(remaining) == 0
    ensures Total(row) != 0 ==> 0 < Total(row) <= Total(remaining)
  {
    hide Portion, Total;
    assert forall i :: 0 <= i < |row| ==> row[i] == remaining[i];
    assert forall i :: 0 <= i < |tail| ==> tail[i] == remaining[|row| + i];
    if Total(row) == 0 {
      AllZero(row);
      assert tail == [];
      assert remaining == row;
    } else {
      RoundTotals(order, |cells|, remaining, row, tail);
    }
  }

  /** Both ways of cutting the slab off take the same share of the area. */
  lemma {:induction false} SlabShare(rest: Rect, sum: int, whole: int)
    requires 0.0 <= rest.w && 0.0 <= rest.h && 0 < sum <= whole
    ensures var rowH, rowW := Portion(rest.h, sum, whole), Portion(rest.w, sum, whole);
      && 0.0 <= rowH <= rest.h && 0.0 <= rowW <= rest.w
      && rest.w * rowH == rowW * rest.h == Portion(rest.Area(), sum, whole)
      && rest.w * (rest.h - rowH) == rest.Area() - rest.w * rowH
      && (rest.w - rowW) * rest.h == rest.Area() - rowW * rest.h
  {
    hide Portion;
    assert rest.Area() == rest.w * rest.h;
    PortionBounds(rest.h, sum, whole);
    PortionBounds(rest.w, sum, whole);
    PortionOfArea(rest.w, rest.h, sum, whole);
    Distribute(rest.w, rest.h, Portion(rest.h, sum, whole));
    Distribute(rest.h, rest.w, Portion(rest.w, sum, whole));
  }

  lemma {:induction false} Distribute(a: real, b: real, c: real)
    ensures a * (b - c) == a * b - a * c
    ensures (b - c) * a == b * a - c * a
  {
  }
}
