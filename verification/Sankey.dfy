/** internal/report/chart.go: the layout of the two-column sankey diagram, with
    float64 taken as the real numbers. */
module Sankeys {
  import opened Seqs

  datatype Link = Link(source: string, target: string, value: int)

  datatype Side = Left | Right

  datatype Box = Box(name: string, x: int, y: real, w: int, h: real)

  /** A band from (x0, y0) to (x1, y1), its upper corners. */
  datatype Ribbon = Ribbon(link: Link, x0: int, y0: real, x1: int, y1: real, thickness: real)

  datatype Diagram = NoData(width: int, height: int)
    | Drawn(width: int, height: int, left: seq<Box>, right: seq<Box>, ribbons: seq<Ribbon>)

  const DEFAULT_WIDTH := 500
  const DEFAULT_HEIGHT := 240
  const NODE_W := 12
  const PAD := 4

  function EndOf(l: Link, side: Side): string {
    if side == Left then l.source else l.target
  }

  // ---- totals --------------------------------------------------------------------

  function LinkSum(links: seq<Link>): int {
    if links == [] then 0 else LinkSum(links[..|links| - 1]) + links[|links| - 1].value
  }

  /** What flows through a node. */
  function Through(links: seq<Link>, side: Side, name: string): int {
    if links == [] then 0
    else
      var l := links[|links| - 1];
      Through(links[..|links| - 1], side, name) + (if EndOf(l, side) == name then l.value else 0)
  }

  /** The nodes of a side, in order of first appearance. */
  function Names(links: seq<Link>, side: Side): (names: seq<string>)
    ensures forall name :: name in names ==> exists l :: l in links && EndOf(l, side) == name
  {
    if links == [] then []
    else
      var init, l := links[..|links| - 1], links[|links| - 1];
      assert links == init + [l];
      Names(init, side) + (if EndOf(l, side) in Names(init, side) then [] else [EndOf(l, side)])
  }

  function Flow(links: seq<Link>, side: Side): string -> int {
    name => Through(links, side, name)
  }

  function NodeSum(names: seq<string>, links: seq<Link>, side: Side): int {
    Sum(names, Flow(links, side))
  }

  lemma {:induction false} NamesAreDistinct(links: seq<Link>, side: Side)
    ensures DistinctKeys(Names(links, side), Id)
    ensures forall l :: l in links ==> EndOf(l, side) in Names(links, side)
  {
    if links != [] {
      var init, l := links[..|links| - 1], links[|links| - 1];
      NamesAreDistinct(init, side);
      assert links == init + [l];
    }
  }

  lemma {:induction false} OneMoreLink(links: seq<Link>, l: Link, side: Side)
    ensures forall name: string :: Through(links + [l], side, name) == Through(links, side, name) + if EndOf(l, side) == name then l.value else 0
  {
    assert (links + [l])[..|links|] == links;
  }

  lemma {:induction false} AddedLink(names: seq<string>, links: seq<Link>, l: Link, side: Side)
    requires DistinctKeys(names, Id)
    ensures NodeSum(names, links + [l], side) == NodeSum(names, links, side) + if EndOf(l, side) in names then l.value else 0
  {
    hide Through;
    OneMoreLink(links, l, side);
    if names != [] {
      var init, last := names[..|names| - 1], names[|names| - 1];
      AddedLink(init, links, l, side);
      assert names == init + [last];
      forall i | 0 <= i < |init| ensures init[i] != last {
        assert Id(names[i]) != Id(names[|names| - 1]);
      }
    }
  }

  lemma {:induction false} NoFlow(links: seq<Link>, side: Side, name: string)
    requires name !in Names(links, side)
    ensures Through(links, side, name) == 0
  {
    if links != [] {
      NoFlow(links[..|links| - 1], side, name);
    }
  }

  /** Either column carries the sum of the links. */
  lemma {:induction false} FlowIsConserved(links: seq<Link>, side: Side)
    ensures NodeSum(Names(links, side), links, side) == LinkSum(links)
  {
    hide Through, NodeSum, DistinctKeys;
    if links != [] {
      var init, l := links[..|links| - 1], links[|links| - 1];
      var names := Names(init, side);
      FlowIsConserved(init, side);
      NamesAreDistinct(init, side);
      assert links == init + [l];
      AddedLink(names, init, l, side);
      if EndOf(l, side) !in names {
        NoFlow(init, side, EndOf(l, side));
        NewNode(names, init, l, side);
      } else {
        assert Names(links, side) == names;
      }
    } else {
      NoNodes(side);
    }
  }

  lemma {:induction false} NoNodes(side: Side)
    ensures NodeSum([], [], side) == 0
  {
  }

  lemma {:induction false} NewNode(names: seq<string>, links: seq<Link>, l: Link, side: Side)
    requires Through(links, side, EndOf(l, side)) == 0
    ensures NodeSum(names + [EndOf(l, side)], links + [l], side) == NodeSum(names, links + [l], side) + l.value
  {
    hide Through;
    OneMoreLink(links, l, side);
    SumAppend(names, EndOf(l, side), Flow(links + [l], side));
  }

  // ---- shares -----------------------------------------------------------------------

  /** Go's `available * value / total` on floats. */
  function Share(available: real, value: int, total: int): real
    requires total != 0
  {
    available * value as real / total as real
  }

  lemma {:induction false} ShareAdds(available: real, a: int, b: int, total: int)
    requires total != 0
    ensures Share(available, a + b, total) == Share(available, a, total) + Share(available, b, total)
    ensures Share(available, 0, total) == 0.0
    ensures Share(available, total, total) == available
  {
  }

  lemma {:induction false} ShareSign(available: real, value: int, total: int)
    requires total > 0 && value > 0
    ensures Share(available, value, total) >= 0.0 <==> available >= 0.0
  {
    var t := total as real;
    var p := available * value as real;
    assert p >= 0.0 <==> available >= 0.0;
    assert p / t * t == p;
  }

  function NodeSpace(height: int, n: nat): real {
    height as real - (PAD * (n + 1)) as real
  }

  function LinkSpace(height: int): real {
    height as real - (PAD * 2) as real
  }

  function ScaleNode(value: int, total: int, height: int, n: nat): real
    requires total != 0
  {
    Share(NodeSpace(height, n), value, total)
  }

  function ScaleLink(value: int, total: int, height: int): real
    requires total != 0
  {
    Share(LinkSpace(height), value, total)
  }

  // ---- the layout -------------------------------------------------------------------

  /** Where the node below the first `k` starts. */
  function Top(links: seq<Link>, side: Side, height: int, k: nat): real
    requires k <= |Names(links, side)| && LinkSum(links) != 0
  {
    (PAD * (k + 1)) as real + Share(NodeSpace(height, |Names(links, side)|), NodeSum(Names(links, side)[..k], links, side), LinkSum(links))
  }

  function NodeX(side: Side, width: int): int {
    if side == Left then 0 else width - NODE_W
  }

  function BoxOf(links: seq<Link>, side: Side, width: int, height: int, k: nat): Box
    requires k < |Names(links, side)| && LinkSum(links) != 0
  {
    var names := Names(links, side);
    Box(names[k], NodeX(side, width), Top(links, side, height, k), NODE_W,
      ScaleNode(Through(links, side, names[k]), LinkSum(links), height, |names|))
  }

  function ColumnOf(links: seq<Link>, side: Side, width: int, height: int): (boxes: seq<Box>)
    requires LinkSum(links) != 0
  {
    seq(|Names(links, side)|, k requires 0 <= k < |Names(links, side)| => BoxOf(links, side, width, height, k))
  }

  function IndexOf(names: seq<string>, name: string): (i: nat)
    requires name in names
    ensures i < |names| && names[i] == name
  {
    if names[0] == name then 0 else 1 + IndexOf(names[1..], name)
  }

  /** A ribbon meets its node below the earlier ribbons of that node. */
  function RibbonTop(links: seq<Link>, side: Side, height: int, k: nat): real
    requires k < |links| && LinkSum(links) != 0
  {
    var name := EndOf(links[k], side);
    NamesAreDistinct(links, side);
    Top(links, side, height, IndexOf(Names(links, side), name)) + ScaleLink(Through(links[..k], side, name), LinkSum(links), height)
  }

  function RibbonOf(links: seq<Link>, width: int, height: int, k: nat): Ribbon
    requires k < |links| && LinkSum(links) != 0
  {
    Ribbon(links[k], NODE_W, RibbonTop(links, Left, height, k), width - NODE_W, RibbonTop(links, Right, height, k),
      ScaleLink(links[k].value, LinkSum(links), height))
  }

  function RibbonsOf(links: seq<Link>, width: int, height: int): seq<Ribbon>
    requires LinkSum(links) != 0
  {
    seq(|links|, k requires 0 <= k < |links| => RibbonOf(links, width, height, k))
  }

  function DiagramOf(links: seq<Link>, width: int, height: int): Diagram {
    var w, h := if width <= 0 then DEFAULT_WIDTH else width, if height <= 0 then DEFAULT_HEIGHT else height;
    if LinkSum(links) == 0 then NoData(w, h)
    else
      Drawn(w, h, ColumnOf(links, Left, w, h), ColumnOf(links, Right, w, h),
        RibbonsOf(links, w, h))
  }

  // ---- what a diagram is ----------------------------------------------------------------

  function Column(d: Diagram, side: Side): seq<Box>
    requires d.Drawn?
  {
    if side == Left then d.left else d.right
  }

  /** The corner of a ribbon on a side. */
  function Corner(r: Ribbon, side: Side): (int, real) {
    if side == Left then (r.x0, r.y0) else (r.x1, r.y1)
  }

  /** The height that the ribbons of a node take up, one below the other. */
  function Stacked(ribbons: seq<Ribbon>, side: Side, name: string): real {
    if ribbons == [] then 0.0
    else
      var r := ribbons[|ribbons| - 1];
      Stacked(ribbons[..|ribbons| - 1], side, name) + (if EndOf(r.link, side) == name then r.thickness else 0.0)
  }

  /** Ribbon `k` ends at the inner edge of this node, below its earlier ribbons. */
  ghost predicate Meets(ribbons: seq<Ribbon>, side: Side, k: nat, box: Box)
    requires k < |ribbons|
  {
    && box.name == EndOf(ribbons[k].link, side)
    && Corner(ribbons[k], side) == (if side == Left then box.x + box.w else box.x, box.y + Stacked(ribbons[..k], side, box.name))
  }

  /** The first link that ends in a node; their number if none does. */
  function FirstUse(links: seq<Link>, side: Side, name: string): nat {
    if links == [] then 0
    else if EndOf(links[0], side) == name then 0
    else 1 + FirstUse(links[1..], side, name)
  }

  /** The nodes of a side have different names, all ends of links, in the order in which
      they first occur. */
  ghost predicate AreEnds(boxes: seq<Box>, links: seq<Link>, side: Side) {
    && (forall j, k :: 0 <= j < k < |boxes| ==>
          boxes[j].name != boxes[k].name && FirstUse(links, side, boxes[j].name) < FirstUse(links, side, boxes[k].name))
    && (forall k :: 0 <= k < |boxes| ==> exists l :: l in links && EndOf(l, side) == boxes[k].name)
  }

  /** They stand one below the other with gaps of 4, also at the top and the bottom,
      along the outer edge, 12 wide, and share the remaining height in proportion to
      what flows through. */
  ghost predicate Stands(boxes: seq<Box>, links: seq<Link>, side: Side, width: int, height: int) {
    forall k :: 0 <= k < |boxes| ==>
      && boxes[k].w == 12 && boxes[k].x == (if side == Left then 0 else width - 12)
      && boxes[k].y == (if k == 0 then 4.0 else boxes[k - 1].y + boxes[k - 1].h + 4.0)
      && (k == |boxes| - 1 ==> boxes[k].y + boxes[k].h + 4.0 == height as real)
      && boxes[k].h * LinkSum(links) as real == (height - 4 * (|boxes| + 1)) as real * Through(links, side, boxes[k].name) as real
  }

  /** One ribbon for each link, of proportional thickness, from its source's node to its
      target's. */
  ghost predicate Connects(d: Diagram, links: seq<Link>)
    requires d.Drawn?
  {
    && |d.ribbons| == |links|
    && (forall k :: 0 <= k < |links| ==>
          && d.ribbons[k].link == links[k]
          && d.ribbons[k].thickness * LinkSum(links) as real == (d.height - 8) as real * links[k].value as real)
    && (forall side: Side, k :: 0 <= k < |links| ==> Attached(Column(d, side), d.ribbons, side, k))
  }

  ghost predicate Attached(boxes: seq<Box>, ribbons: seq<Ribbon>, side: Side, k: nat)
    requires k < |ribbons|
  {
    exists box :: box in boxes && Meets(ribbons, side, k, box)
  }

  /** The diagram, said of what is drawn. */
  ghost predicate IsSankey(d: Diagram, links: seq<Link>)
    requires d.Drawn?
  {
    && AreEnds(d.left, links, Left) && Stands(d.left, links, Left, d.width, d.height)
    && AreEnds(d.right, links, Right) && Stands(d.right, links, Right, d.width, d.height)
    && Connects(d, links)
  }

  // ---- the method --------------------------------------------------------------------

  method UniqueOrdered(links: seq<Link>, side: Side) returns (out: seq<string>)
    ensures out == Names(links, side)
  {
    var seen: set<string> := {};
    out := [];
    for i := 0 to |links|
      invariant out == Names(links[..i], side)
      invariant seen == set name | name in out
    {
      assert links[..i + 1][..i] == links[..i];
      var v := EndOf(links[i], side);
      if v !in seen {
        seen := seen + {v};
        out := out + [v];
      }
    }
    assert links[..|links|] == links;
  }

  ghost predicate HasTotals(totals: map<string, int>, links: seq<Link>, side: Side) {
    && (forall name :: name in totals <==> name in Names(links, side))
    && forall name :: name in totals ==> totals[name] == Through(links, side, name)
  }

  method Count(totals: map<string, int>, l: Link, side: Side, ghost before: seq<Link>) returns (out: map<string, int>)
    requires HasTotals(totals, before, side)
    ensures HasTotals(out, before + [l], side)
  {
    var name := EndOf(l, side);
    out := totals[name := (if name in totals then totals[name] else 0) + l.value];
    assert (before + [l])[..|before|] == before;
    if name !in totals {
      NoFlow(before, side, name);
    }
  }

  function NonZero(n: int): int {
    if n == 0 then 1 else n
  }

  lemma {:induction false} VisitNext(visited: seq<string>, name: string, links: seq<Link>, side: Side)
    requires DistinctKeys(visited, Id) && name !in visited
    ensures DistinctKeys(visited + [name], Id)
    ensures NodeSum(visited + [name], links, side) == NodeSum(visited, links, side) + Through(links, side, name)
  {
    hide Through;
    SumAppend(visited, name, Flow(links, side));
  }

  lemma {:induction false} AllVisited(visited: seq<string>, links: seq<Link>, side: Side)
    requires DistinctKeys(visited, Id) && forall name :: name in visited <==> name in Names(links, side)
    ensures NodeSum(visited, links, side) == LinkSum(links)
  {
    NamesAreDistinct(links, side);
    SameElementsSameBag(visited, Names(links, side), Id);
    SumPermutation(visited, Names(links, side), Flow(links, side));
    FlowIsConserved(links, side);
  }

  /** The sum of the values, visited in any order; 1 instead of 0. */
  method SumMap(m: map<string, int>, ghost links: seq<Link>, ghost side: Side) returns (n: int)
    requires HasTotals(m, links, side)
    ensures n == NonZero(LinkSum(links))
  {
    n := 0;
    var left := m.Keys;
    ghost var visited: seq<string> := [];
    assert DistinctKeys(visited, Id) && NodeSum(visited, links, side) == 0;
    hide Through, Names, NodeSum, DistinctKeys;
    while left != {}
      invariant left <= m.Keys
      invariant forall name :: name in visited <==> name in m.Keys - left
      invariant DistinctKeys(visited, Id)
      invariant n == NodeSum(visited, links, side)
      decreases |left|
    {
      var name :| name in left;
      VisitNext(visited, name, links, side);
      n := n + m[name];
      visited := visited + [name];
      left := left - {name};
    }
    AllVisited(visited, links, side);
    if n == 0 {
      n := 1;
    }
  }

  /** Where each node starts. */
  method NodePositions(names: seq<string>, totals: map<string, int>, height: int, ghost links: seq<Link>, ghost side: Side)
    returns (out: map<string, real>)
    requires names == Names(links, side) && HasTotals(totals, links, side) && LinkSum(links) != 0
    ensures forall k :: 0 <= k < |names| ==> names[k] in out && out[names[k]] == Top(links, side, height, k)
  {
    hide Share, NodeSum, Names, Through, NodeSpace;
    NamesAreDistinct(links, side);
    out := map[];
    var y := PAD as real;
    FirstTop(links, side, height);
    for i := 0 to |names|
      invariant y == Top(links, side, height, i)
      invariant forall k :: 0 <= k < i ==> names[k] in out && out[names[k]] == Top(links, side, height, k)
    {
      var n := names[i];
      forall k | 0 <= k < i ensures names[k] != n {
        assert Id(names[k]) != Id(names[i]);
      }
      out := out[n := y];
      var sum := SumMap(totals, links, side);
      NextTop(links, side, height, i);
      y := y + (ScaleNode(totals[n], sum, height, |names|) + PAD as real);
    }
  }

  lemma {:induction false} FirstTop(links: seq<Link>, side: Side, height: int)
    requires LinkSum(links) != 0
    ensures Top(links, side, height, 0) == PAD as real
  {
    hide Share;
    ShareAdds(NodeSpace(height, |Names(links, side)|), 0, 0, LinkSum(links));
  }

  /** Each node starts exactly PAD below the end of the one above. */
  lemma {:induction false} NextTop(links: seq<Link>, side: Side, height: int, k: nat)
    requires LinkSum(links) != 0 && k < |Names(links, side)|
    ensures var name := Names(links, side)[k];
      Top(links, side, height, k + 1) ==
        Top(links, side, height, k) + ScaleNode(Through(links, side, name), LinkSum(links), height, |Names(links, side)|) + PAD as real
  {
    hide Share, Names, Through, NodeSpace, LinkSum;
    var names := Names(links, side);
    var space := NodeSpace(height, |names|);
    assert names[..k + 1] == names[..k] + [names[k]];
    SumAppend(names[..k], names[k], Flow(links, side));
    ShareAdds(space, NodeSum(names[..k], links, side), Through(links, side, names[k]), LinkSum(links));
  }

  method DrawNodes(names: seq<string>, totals: map<string, int>, tops: map<string, real>, total: int, width: int, height: int,
                   ghost links: seq<Link>, side: Side)
    returns (boxes: seq<Box>)
    requires LinkSum(links) != 0 && total == LinkSum(links)
    requires names == Names(links, side) && HasTotals(totals, links, side)
    requires forall k :: 0 <= k < |names| ==> names[k] in tops && tops[names[k]] == Top(links, side, height, k)
    ensures boxes == ColumnOf(links, side, width, height)
  {
    hide Top, ScaleNode, Names, Through, LinkSum;
    boxes := [];
    for i := 0 to |names|
      invariant |boxes| == i
      invariant forall k :: 0 <= k < i ==> boxes[k] == BoxOf(links, side, width, height, k)
    {
      var h := ScaleNode(totals[names[i]], total, height, |names|);
      boxes := boxes + [Box(names[i], NodeX(side, width), tops[names[i]], NODE_W, h)];
    }
  }

  function Get(m: map<string, real>, name: string): real {
    if name in m then m[name] else 0.0
  }

  /** The ribbons drawn so far take up the height of their sum. */
  ghost predicate HasOffsets(offsets: map<string, real>, links: seq<Link>, side: Side, total: int, height: int) {
    && total != 0
    && forall name: string :: Get(offsets, name) == ScaleLink(Through(links, side, name), total, height)
  }

  method Advance(offsets: map<string, real>, l: Link, side: Side, total: int, height: int, ghost before: seq<Link>)
    returns (out: map<string, real>)
    requires HasOffsets(offsets, before, side, total, height)
    ensures HasOffsets(out, before + [l], side, total, height)
  {
    hide Share, Through;
    var name := EndOf(l, side);
    out := offsets[name := Get(offsets, name) + ScaleLink(l.value, total, height)];
    OneMoreLink(before, l, side);
    ShareAdds(LinkSpace(height), Through(before, side, name), l.value, total);
  }

  lemma {:induction false} NoOffsets(side: Side, total: int, height: int)
    requires total != 0
    ensures HasOffsets(map[], [], side, total, height)
  {
    hide Share;
    ShareAdds(LinkSpace(height), 0, 0, total);
  }

  ghost predicate HasTops(tops: map<string, real>, links: seq<Link>, side: Side, height: int) {
    var names := Names(links, side);
    LinkSum(links) != 0 && forall k :: 0 <= k < |names| ==> names[k] in tops && tops[names[k]] == Top(links, side, height, k)
  }

  lemma {:induction false} TopOfEnd(tops: map<string, real>, links: seq<Link>, side: Side, height: int, k: nat)
    requires HasTops(tops, links, side, height) && k < |links|
    ensures var name := EndOf(links[k], side);
      name in tops && name in Names(links, side) && tops[name] == Top(links, side, height, IndexOf(Names(links, side), name))
  {
    hide Top;
    NamesAreDistinct(links, side);
  }

  method DrawLinks(links: seq<Link>, srcY: map<string, real>, tgtY: map<string, real>, total: int, width: int, height: int)
    returns (ribbons: seq<Ribbon>)
    requires LinkSum(links) != 0 && total == LinkSum(links)
    requires HasTops(srcY, links, Left, height) && HasTops(tgtY, links, Right, height)
    ensures ribbons == RibbonsOf(links, width, height)
  {
    hide Top, ScaleLink, Names, Through, LinkSum, HasTops, IndexOf;
    var srcOffset: map<string, real> := map[];
    var tgtOffset: map<string, real> := map[];
    NoOffsets(Left, total, height);
    NoOffsets(Right, total, height);
    ribbons := [];
    for i := 0 to |links|
      invariant |ribbons| == i
      invariant forall k :: 0 <= k < i ==> ribbons[k] == RibbonOf(links, width, height, k)
      invariant HasOffsets(srcOffset, links[..i], Left, total, height)
      invariant HasOffsets(tgtOffset, links[..i], Right, total, height)
    {
      var l := links[i];
      TopOfEnd(srcY, links, Left, height, i);
      TopOfEnd(tgtY, links, Right, height, i);
      var linkH := ScaleLink(l.value, total, height);
      var y0 := srcY[l.source] + Get(srcOffset, l.source);
      var y1 := tgtY[l.target] + Get(tgtOffset, l.target);
      ribbons := ribbons + [Ribbon(l, NODE_W, y0, width - NODE_W, y1, linkH)];
      assert links[..i + 1] == links[..i] + [l];
      srcOffset := Advance(srcOffset, l, Left, total, height, links[..i]);
      tgtOffset := Advance(tgtOffset, l, Right, total, height, links[..i]);
    }
  }

  method Totals(links: seq<Link>) returns (srcTotals: map<string, int>, tgtTotals: map<string, int>, total: int)
    ensures HasTotals(srcTotals, links, Left) && HasTotals(tgtTotals, links, Right) && total == LinkSum(links)
  {
    srcTotals, tgtTotals, total := map[], map[], 0;
    for i := 0 to |links|
      invariant HasTotals(srcTotals, links[..i], Left) && HasTotals(tgtTotals, links[..i], Right)
      invariant total == LinkSum(links[..i])
    {
      hide HasTotals;
      var l := links[i];
      assert links[..i + 1] == links[..i] + [l] && links[..i + 1][..i] == links[..i];
      srcTotals := Count(srcTotals, l, Left, links[..i]);
      tgtTotals := Count(tgtTotals, l, Right, links[..i]);
      total := total + l.value;
    }
    assert links[..|links|] == links;
  }

  method Sankey(links: seq<Link>, width: int, height: int) returns (d: Diagram)
    ensures d == DiagramOf(links, width, height)
    ensures d.width == (if width <= 0 then 500 else width) && d.height == (if height <= 0 then 240 else height)
    ensures if LinkSum(links) == 0 then d.NoData? else d.Drawn? && IsSankey(d, links)
  {
    hide HasTotals, Names, ColumnOf, RibbonsOf, Top, IsSankey;
    var w, h := width, height;
    if w <= 0 {
      w := DEFAULT_WIDTH;
    }
    if h <= 0 {
      h := DEFAULT_HEIGHT;
    }
    if |links| == 0 {
      return NoData(w, h);
    }
    var sources := UniqueOrdered(links, Left);
    var targets := UniqueOrdered(links, Right);
    var srcTotals, tgtTotals, total := Totals(links);
    if total == 0 {
      return NoData(w, h);
    }
    var srcY := NodePositions(sources, srcTotals, h, links, Left);
    var tgtY := NodePositions(targets, tgtTotals, h, links, Right);
    var ribbons := DrawLinks(links, srcY, tgtY, total, w, h);
    var left := DrawNodes(sources, srcTotals, srcY, total, w, h, links, Left);
    var right := DrawNodes(targets, tgtTotals, tgtY, total, w, h, links, Right);
    d := Drawn(w, h, left, right, ribbons);
    DrawsSankey(links, width, height);
  }

  // ---- what the layout promises -------------------------------------------------------

  /** The last node ends PAD above the bottom edge, whatever the values. */
  lemma {:induction false} ColumnFillsHeight(links: seq<Link>, side: Side, height: int)
    requires LinkSum(links) != 0
    ensures Top(links, side, height, |Names(links, side)|) == height as real
  {
    hide Share, Names, LinkSum;
    var names := Names(links, side);
    assert names[..|names|] == names;
    FlowIsConserved(links, side);
    ShareAdds(NodeSpace(height, |names|), 0, 0, LinkSum(links));
  }

  ghost predicate NonNegative(links: seq<Link>) {
    forall i :: 0 <= i < |links| ==> links[i].value >= 0
  }

  lemma {:induction false} ThroughGrows(links: seq<Link>, side: Side, name: string, j: nat, k: nat)
    requires NonNegative(links) && j <= k <= |links|
    ensures 0 <= Through(links[..j], side, name) <= Through(links[..k], side, name)
  {
    if j < k {
      ThroughGrows(links, side, name, j, k - 1);
      assert links[..k][..k - 1] == links[..k - 1];
    } else if j > 0 {
      ThroughGrows(links, side, name, j - 1, j - 1);
      assert links[..j][..j - 1] == links[..j - 1];
    }
  }

  lemma {:induction false} FlowSomewhere(names: seq<string>, links: seq<Link>, side: Side)
    requires NodeSum(names, links, side) > 0
    ensures exists k :: 0 <= k < |names| && Through(links, side, names[k]) > 0
  {
    hide Through;
    var init, last := names[..|names| - 1], names[|names| - 1];
    if Through(links, side, last) > 0 {
      assert Through(links, side, names[|names| - 1]) > 0;
    } else {
      FlowSomewhere(init, links, side);
      var k :| 0 <= k < |init| && Through(links, side, init[k]) > 0;
      assert names[k] == init[k];
    }
  }

  /** No node is drawn upside down exactly when the canvas has room for the gaps. */
  lemma {:induction false} NodesFitIff(links: seq<Link>, side: Side, width: int, height: int)
    requires NonNegative(links) && LinkSum(links) > 0
    ensures (forall box :: box in ColumnOf(links, side, width, height) ==> box.h >= 0.0) <==> height >= PAD * (|Names(links, side)| + 1)
  {
    hide Share, Names, LinkSum, Through, Top;
    var names := Names(links, side);
    var column := ColumnOf(links, side, width, height);
    var space := NodeSpace(height, |names|);
    forall k | 0 <= k < |names|
      ensures 0 <= Through(links, side, names[k])
      ensures 0 < Through(links, side, names[k]) ==> (column[k].h >= 0.0 <==> space >= 0.0)
      ensures 0 == Through(links, side, names[k]) ==> column[k].h == 0.0
    {
      assert links[..|links|] == links;
      ThroughGrows(links, side, names[k], |links|, |links|);
      if Through(links, side, names[k]) > 0 {
        ShareSign(space, Through(links, side, names[k]), LinkSum(links));
      } else {
        ShareAdds(space, 0, 0, LinkSum(links));
      }
    }
    FlowIsConserved(links, side);
    FlowSomewhere(names, links, side);
    var k :| 0 <= k < |names| && Through(links, side, names[k]) > 0;
    assert column[k] in column;
  }

  lemma {:induction false} SpaceDifference(height: int, n: nat, value: int, total: int)
    requires total != 0 && n > 0
    ensures ScaleLink(value, total, height) - ScaleNode(value, total, height, n) == Share((PAD * (n - 1)) as real, value, total)
  {
    var t := total as real;
    var v := value as real;
    assert LinkSpace(height) == NodeSpace(height, n) + (PAD * (n - 1)) as real;
    assert LinkSpace(height) * v / t == NodeSpace(height, n) * v / t + (PAD * (n - 1)) as real * v / t;
  }

  // ---- nodes and ribbons ------------------------------------------------------------------

  lemma {:induction false} ShareTimesTotal(available: real, value: int, total: int)
    requires total != 0
    ensures Share(available, value, total) * total as real == available * value as real
  {
  }

  lemma {:induction false} FirstUseStays(links: seq<Link>, side: Side, l: Link, name: string)
    ensures FirstUse(links, side, name) <= |links|
    ensures FirstUse(links, side, name) < |links| <==> exists x :: x in links && EndOf(x, side) == name
    ensures FirstUse(links + [l], side, name) ==
      if FirstUse(links, side, name) < |links| || EndOf(l, side) == name then FirstUse(links, side, name) else |links| + 1
  {
    if links != [] {
      FirstUseStays(links[1..], side, l, name);
      assert links == [links[0]] + links[1..] && (links + [l])[1..] == links[1..] + [l];
    } else {
      assert [l][1..] == [];
    }
  }

  /** Names come in the order of their first links. */
  lemma {:induction false} NamesInOrder(links: seq<Link>, side: Side, j: nat, k: nat)
    requires j < k < |Names(links, side)|
    ensures FirstUse(links, side, Names(links, side)[j]) < FirstUse(links, side, Names(links, side)[k])
  {
    hide FirstUse;
    var init, l := links[..|links| - 1], links[|links| - 1];
    var names := Names(init, side);
    assert links == init + [l];
    NamesAreDistinct(init, side);
    FirstUseStays(init, side, l, Names(links, side)[j]);
    FirstUseStays(init, side, l, Names(links, side)[k]);
    assert names[j] in names;
    if k < |names| {
      assert names[k] in names;
      NamesInOrder(init, side, j, k);
    }
  }

  lemma {:induction false} ColumnIsNamed(links: seq<Link>, side: Side, width: int, height: int)
    requires LinkSum(links) != 0
    ensures AreEnds(ColumnOf(links, side, width, height), links, side)
  {
    hide LinkSum, BoxOf, FirstUse;
    var names, boxes := Names(links, side), ColumnOf(links, side, width, height);
    NamesAreDistinct(links, side);
    forall k | 0 <= k < |boxes| ensures boxes[k].name == names[k] && names[k] in names {
      BoxStands(links, side, width, height, k);
    }
    forall j, k | 0 <= j < k < |boxes|
      ensures boxes[j].name != boxes[k].name && FirstUse(links, side, boxes[j].name) < FirstUse(links, side, boxes[k].name)
    {
      assert Id(names[j]) != Id(names[k]);
      NamesInOrder(links, side, j, k);
    }
  }

  lemma {:induction false} BoxStands(links: seq<Link>, side: Side, width: int, height: int, k: nat)
    requires LinkSum(links) != 0 && k < |Names(links, side)|
    ensures var box, n := BoxOf(links, side, width, height, k), |Names(links, side)|;
      && box.name == Names(links, side)[k] && box.y == Top(links, side, height, k)
      && box.y + box.h + 4.0 == Top(links, side, height, k + 1)
      && box.h * LinkSum(links) as real == (height - 4 * (n + 1)) as real * Through(links, side, box.name) as real
  {
    hide Share, Names, LinkSum, Through, Top;
    NextTop(links, side, height, k);
    ShareTimesTotal(NodeSpace(height, |Names(links, side)|), Through(links, side, Names(links, side)[k]), LinkSum(links));
  }

  lemma {:induction false} ColumnStands(links: seq<Link>, side: Side, width: int, height: int)
    requires LinkSum(links) != 0
    ensures Stands(ColumnOf(links, side, width, height), links, side, width, height)
  {
    hide Names, LinkSum, Through, Top, ScaleNode;
    var boxes := ColumnOf(links, side, width, height);
    FirstTop(links, side, height);
    ColumnFillsHeight(links, side, height);
    forall k | 0 <= k < |boxes|
      ensures boxes[k].y == (if k == 0 then 4.0 else boxes[k - 1].y + boxes[k - 1].h + 4.0)
      ensures k == |boxes| - 1 ==> boxes[k].y + boxes[k].h + 4.0 == height as real
      ensures boxes[k].h * LinkSum(links) as real == (height - 4 * (|boxes| + 1)) as real * Through(links, side, boxes[k].name) as real
    {
      BoxStands(links, side, width, height, k);
      if k > 0 {
        BoxStands(links, side, width, height, k - 1);
      }
    }
  }

  lemma {:induction false} StackedSoFar(links: seq<Link>, side: Side, width: int, height: int, name: string, k: nat)
    requires LinkSum(links) != 0 && k <= |links|
    ensures Stacked(RibbonsOf(links, width, height)[..k], side, name) == ScaleLink(Through(links[..k], side, name), LinkSum(links), height)
  {
    hide Share, RibbonTop, LinkSum, Through;
    var ribbons := RibbonsOf(links, width, height);
    if k == 0 {
      ShareAdds(LinkSpace(height), 0, 0, LinkSum(links));
      ThroughNone(side, name);
    } else {
      StackedSoFar(links, side, width, height, name, k - 1);
      assert ribbons[..k][..k - 1] == ribbons[..k - 1] && links[..k] == links[..k - 1] + [links[k - 1]];
      OneMoreLink(links[..k - 1], links[k - 1], side);
      ShareAdds(LinkSpace(height), Through(links[..k - 1], side, name), links[k - 1].value, LinkSum(links));
    }
  }

  lemma {:induction false} ThroughNone(side: Side, name: string)
    ensures forall links: seq<Link> :: |links| == 0 ==> Through(links, side, name) == 0
  {
  }

  lemma {:induction false} RibbonMeetsNode(links: seq<Link>, side: Side, width: int, height: int, k: nat)
    requires LinkSum(links) != 0 && k < |links|
    ensures Attached(ColumnOf(links, side, width, height), RibbonsOf(links, width, height), side, k)
  {
    hide Share, Names, LinkSum, Through, Top, Stacked;
    var ribbons, name := RibbonsOf(links, width, height), EndOf(links[k], side);
    NamesAreDistinct(links, side);
    StackedSoFar(links, side, width, height, name, k);
    var box := ColumnOf(links, side, width, height)[IndexOf(Names(links, side), name)];
    assert box in ColumnOf(links, side, width, height);
    assert Meets(ribbons, side, k, box);
  }

  lemma {:induction false} DrawsSankey(links: seq<Link>, width: int, height: int)
    requires LinkSum(links) != 0
    ensures IsSankey(DiagramOf(links, width, height), links)
  {
    hide Share, Names, LinkSum, Through, Attached, AreEnds, Stands, RibbonTop;
    var d := DiagramOf(links, width, height);
    ColumnIsNamed(links, Left, d.width, d.height);
    ColumnStands(links, Left, d.width, d.height);
    ColumnIsNamed(links, Right, d.width, d.height);
    ColumnStands(links, Right, d.width, d.height);
    forall k | 0 <= k < |links|
      ensures d.ribbons[k].thickness * LinkSum(links) as real == (d.height - 8) as real * links[k].value as real
    {
      ShareTimesTotal(LinkSpace(d.height), links[k].value, LinkSum(links));
    }
    forall side: Side, k | 0 <= k < |links| ensures Attached(Column(d, side), d.ribbons, side, k) {
      RibbonMeetsNode(links, side, d.width, d.height, k);
    }
  }

  /** What flows through a node, stacked as ribbons. */
  lemma {:induction false} StackedAll(links: seq<Link>, side: Side, width: int, height: int, name: string)
    requires LinkSum(links) != 0
    ensures Stacked(RibbonsOf(links, width, height), side, name) == ScaleLink(Through(links, side, name), LinkSum(links), height)
  {
    hide Share, RibbonOf, LinkSum, Through, Stacked, ScaleLink;
    StackedSoFar(links, side, width, height, name, |links|);
    var ribbons := RibbonsOf(links, width, height);
    assert ribbons[..|links|] == ribbons && links[..|links|] == links;
  }

  /** The ribbons of a node, stacked, are as high as the node exactly when nothing
      flows through it or it is alone in its column: links are scaled to a column
      without inner gaps. */
  lemma {:induction false} RibbonsFillNodeIff(links: seq<Link>, side: Side, width: int, height: int, b: nat)
    requires LinkSum(links) != 0 && b < |Column(DiagramOf(links, width, height), side)|
    ensures var d := DiagramOf(links, width, height);
      var box := Column(d, side)[b];
      Stacked(d.ribbons, side, box.name) == box.h <==> Through(links, side, box.name) == 0 || |Column(d, side)| == 1
  {
    hide Names, Through, LinkSum, ScaleLink, ScaleNode, RibbonsOf, Top;
    var d, total := DiagramOf(links, width, height), LinkSum(links);
    var n, name := |Column(d, side)|, Column(d, side)[b].name;
    StackedAll(links, side, d.width, d.height, name);
    SpaceDifference(d.height, n, Through(links, side, name), total);
    ShareIsZeroIff((PAD * (n - 1)) as real, Through(links, side, name), total);
  }

  lemma {:induction false} ShareIsZeroIff(available: real, value: int, total: int)
    requires total != 0
    ensures Share(available, value, total) == 0.0 <==> available == 0.0 || value == 0
  {
    var p := available * value as real;
    assert p / total as real * total as real == p;
  }

  /** They reach below the place of the next node, which for the last node is the
      bottom edge of the canvas, exactly when the node carries more than its share,
      one part in n − 1. */
  lemma {:induction false} RibbonsReachNextIff(links: seq<Link>, side: Side, width: int, height: int, b: nat)
    requires LinkSum(links) > 0 && b < |Column(DiagramOf(links, width, height), side)|
    ensures var d := DiagramOf(links, width, height);
      var boxes := Column(d, side);
      var next := if b + 1 < |boxes| then boxes[b + 1].y else d.height as real;
      boxes[b].y + Stacked(d.ribbons, side, boxes[b].name) > next
      <==> (|boxes| - 1) * Through(links, side, boxes[b].name) > LinkSum(links)
  {
    hide Names, Through, LinkSum, ScaleLink, ScaleNode, RibbonsOf, Top;
    var d, total := DiagramOf(links, width, height), LinkSum(links);
    var n, name := |Column(d, side)|, Column(d, side)[b].name;
    StackedAll(links, side, d.width, d.height, name);
    NextTop(links, side, d.height, b);
    ColumnFillsHeight(links, side, d.height);
    SpaceDifference(d.height, n, Through(links, side, name), total);
    GapExceededIff(n - 1, Through(links, side, name), total);
  }

  lemma {:induction false} GapExceededIff(m: int, value: int, total: int)
    requires total > 0
    ensures Share((PAD * m) as real, value, total) > PAD as real <==> m * value > total
  {
    var t := total as real;
    var p := (PAD * m) as real * value as real;
    assert p == (PAD * (m * value)) as real;
    QuotientExceeds(p, PAD as real, t);
    assert PAD as real * t == (PAD * total) as real;
  }

  lemma {:induction false} QuotientExceeds(p: real, c: real, t: real)
    requires t > 0.0
    ensures p / t > c <==> p > c * t
  {
    var q := p / t;
    assert q * t == p;
    assert (q - c) * t == p - c * t;
    assert q > c ==> (q - c) * t > 0.0;
    assert q <= c ==> (q - c) * t <= 0.0;
  }

  lemma {:induction false} StackedGrows(links: seq<Link>, side: Side, width: int, height: int, name: string, j: nat, k: nat)
    requires NonNegative(links) && LinkSum(links) > 0 && height >= 2 * PAD && j <= k <= |links|
    ensures var ribbons := RibbonsOf(links, width, height);
      Stacked(ribbons[..j], side, name) <= Stacked(ribbons[..k], side, name)
  {
    hide Through, LinkSum, Share, RibbonOf, Stacked;
    var total := LinkSum(links);
    StackedSoFar(links, side, width, height, name, j);
    StackedSoFar(links, side, width, height, name, k);
    ThroughGrows(links, side, name, j, k);
    var before, after := Through(links[..j], side, name), Through(links[..k], side, name);
    ShareAdds(LinkSpace(height), before, after - before, total);
    if after > before {
      ShareSign(LinkSpace(height), after - before, total);
    }
  }

  /** The ribbons of a node do not cross: on its side a later one starts below the end
      of an earlier one. */
  lemma {:induction false} RibbonsDoNotCross(links: seq<Link>, side: Side, width: int, height: int, j: nat, k: nat)
    requires NonNegative(links) && LinkSum(links) > 0 && (height <= 0 || height >= 2 * PAD)
    requires j < k < |links| && EndOf(links[j], side) == EndOf(links[k], side)
    ensures var ribbons := DiagramOf(links, width, height).ribbons;
      Corner(ribbons[j], side).1 + ribbons[j].thickness <= Corner(ribbons[k], side).1
  {
    hide Names, Through, LinkSum, Share, Top;
    var d, name := DiagramOf(links, width, height), EndOf(links[j], side);
    StackedGrows(links, side, d.width, d.height, name, j + 1, k);
    StackedSoFar(links, side, d.width, d.height, name, j);
    StackedSoFar(links, side, d.width, d.height, name, k);
    assert d.ribbons[..j + 1][..j] == d.ribbons[..j];
  }

  function Thickness(ribbons: seq<Ribbon>): real {
    if ribbons == [] then 0.0 else Thickness(ribbons[..|ribbons| - 1]) + ribbons[|ribbons| - 1].thickness
  }

  /** Together the ribbons are as thick as the canvas less the outer gaps. */
  lemma {:induction false} RibbonsFillCanvas(links: seq<Link>, width: int, height: int)
    requires LinkSum(links) != 0
    ensures var d := DiagramOf(links, width, height);
      Thickness(d.ribbons) == LinkSpace(d.height)
  {
    hide Share, RibbonTop, LinkSum;
    var d := DiagramOf(links, width, height);
    ThicknessSoFar(links, d.width, d.height, |links|);
    assert d.ribbons[..|links|] == d.ribbons && links[..|links|] == links;
    ShareAdds(LinkSpace(d.height), 0, 0, LinkSum(links));
  }

  lemma {:induction false} ThicknessSoFar(links: seq<Link>, width: int, height: int, k: nat)
    requires LinkSum(links) != 0 && k <= |links|
    ensures Thickness(RibbonsOf(links, width, height)[..k]) == ScaleLink(LinkSum(links[..k]), LinkSum(links), height)
  {
    hide Share, RibbonTop;
    var ribbons := RibbonsOf(links, width, height);
    if k == 0 {
      ShareAdds(LinkSpace(height), 0, 0, LinkSum(links));
    } else {
      ThicknessSoFar(links, width, height, k - 1);
      assert ribbons[..k][..k - 1] == ribbons[..k - 1] && links[..k][..k - 1] == links[..k - 1];
      ShareAdds(LinkSpace(height), LinkSum(links[..k - 1]), links[k - 1].value, LinkSum(links));
    }
  }
}
