/** internal/tui/model.go: the state machine behind the terminal UI. Flash messages,
    the diff overlay and the live-tail channel are not modelled; the commands that
    only touch those leave the modelled state to the common tail of commitEditor. */
module Tui {
  import opened Text
  import opened Seqs
  import opened Findings
  import opened ResourceTree
  import opened Commands

  datatype Pane = TreePane | ListPane | DetailPane

  datatype Mode = Normal | Search | Command

  /** A key event: a named key or one character. */
  datatype Key = Enter | Esc | Backspace | CtrlC | Tab | ShiftTab | Up | Down | Space | Char(c: char) | Other(name: string)

  datatype Event = Press(key: Key) | Live(f: Finding) | Resize(width: int, height: int) | TailEnded

  datatype Model = Model(
    catalog: Catalog,
    all: seq<Finding>,
    filtered: seq<Finding>,
    providers: seq<Bucket>,
    focused: Pane,
    treeCursor: int,
    listCursor: int,
    providerSel: string,
    height: int,
    width: int,
    mode: Mode,
    input: string,
    filter: Criteria,
    graphMode: bool,
    graphRows: seq<Node>,
    graphCursor: int,
    helpMode: bool)

  // ---- filtering ---------------------------------------------------------------

  /** The findings that match, in order. */
  function FilterBy(fs: seq<Finding>, c: Criteria, cat: Catalog): seq<Finding> {
    if fs == [] then []
    else FilterBy(fs[..|fs| - 1], c, cat) + (if Matches(c, fs[|fs| - 1], cat) then [fs[|fs| - 1]] else [])
  }

  lemma {:induction false} NothingFiltered(fs: seq<Finding>, cat: Catalog)
    ensures FilterBy(fs, NO_CRITERIA, cat) == fs
  {
    if fs != [] {
      NothingFiltered(fs[..|fs| - 1], cat);
      NothingDemanded(fs[|fs| - 1], cat);
    }
  }

  /** A provider selected in the tree wins over one typed as a criterion. */
  function Merged(filter: Criteria, providerSel: string): Criteria {
    if providerSel != "" then filter.(provider := providerSel) else filter
  }

  function Refiltered(m: Model): Model {
    var out := FilterBy(m.all, Merged(m.filter, m.providerSel), m.catalog);
    m.(filtered := out, listCursor := if m.listCursor >= |out| then 0 else m.listCursor)
  }

  // ---- keys ------------------------------------------------------------------------

  function NextPane(p: Pane): Pane {
    match p case TreePane => ListPane case ListPane => DetailPane case DetailPane => TreePane
  }

  function PreviousPane(p: Pane): Pane {
    match p case TreePane => DetailPane case ListPane => TreePane case DetailPane => ListPane
  }

  function CursorDown(m: Model): Model {
    match m.focused
    case TreePane => if m.treeCursor < |m.providers| - 1 then m.(treeCursor := m.treeCursor + 1) else m
    case ListPane => if m.listCursor < |m.filtered| - 1 then m.(listCursor := m.listCursor + 1) else m
    case DetailPane => m
  }

  function CursorUp(m: Model): Model {
    match m.focused
    case TreePane => if m.treeCursor > 0 then m.(treeCursor := m.treeCursor - 1) else m
    case ListPane => if m.listCursor > 0 then m.(listCursor := m.listCursor - 1) else m
    case DetailPane => m
  }

  function CursorTop(m: Model): Model {
    match m.focused
    case TreePane => m.(treeCursor := 0)
    case ListPane => m.(listCursor := 0)
    case DetailPane => m
  }

  function LastIndex(n: nat): int {
    if n == 0 then 0 else n - 1
  }

  function CursorBottom(m: Model): Model {
    match m.focused
    case TreePane => m.(treeCursor := LastIndex(|m.providers|))
    case ListPane => m.(listCursor := LastIndex(|m.filtered|))
    case DetailPane => m
  }

  /** `n` and `N`; Go's remainder and Dafny's agree on the non-negative sum. */
  function StepSearch(m: Model, dir: int): Model {
    if m.filtered == [] then m
    else m.(listCursor := (m.listCursor + dir + |m.filtered|) % |m.filtered|)
  }

  /** Enter in normal mode. None is the panic of an index out of range, here and
      below. */
  function Activate(m: Model): Option<Model> {
    if m.focused == TreePane && m.providers != [] then
      if 0 <= m.treeCursor < |m.providers|
      then Some(Refiltered(m.(providerSel := m.providers[m.treeCursor].name)).(focused := ListPane))
      else None
    else if m.focused == ListPane then Some(m.(focused := DetailPane))
    else Some(m)
  }

  /** The guard of `w` and `r` before they index the filtered list. */
  predicate HasSelection(m: Model) {
    m.filtered != [] && m.listCursor < |m.filtered|
  }

  function StartWaive(m: Model): Model {
    if HasSelection(m) then m.(mode := Command, input := "waive: ") else m
  }

  ghost function OpenGraph(m: Model): Model {
    m.(graphRows := RowsUnder(m.all, []), graphCursor := 0, graphMode := true)
  }

  /** The character keys of normal mode. */
  ghost function NormalChar(m: Model, c: char): Option<Model> {
    if c == 'j' then Some(CursorDown(m))
    else if c == 'k' then Some(CursorUp(m))
    else if c == 'g' then Some(CursorTop(m))
    else if c == 'G' then Some(CursorBottom(m))
    else if c == 'n' then Some(StepSearch(m, 1))
    else if c == 'N' then Some(StepSearch(m, -1))
    else if c == 'w' then Some(StartWaive(m))
    else if c == 'r' then (if HasSelection(m) && m.listCursor < 0 then None else Some(m))
    else if c == '/' then Some(m.(mode := Search, input := ""))
    else if c == ':' then Some(m.(mode := Command, input := ""))
    else if c == 'R' then Some(OpenGraph(m))
    else Some(m)
  }

  ghost function NormalKey(m: Model, key: Key): Option<Model> {
    match key
    case Tab => Some(m.(focused := NextPane(m.focused)))
    case ShiftTab => Some(m.(focused := PreviousPane(m.focused)))
    case Down => Some(CursorDown(m))
    case Up => Some(CursorUp(m))
    case Enter => Activate(m)
    case Backspace =>
      if m.focused == TreePane || m.providerSel != "" then Some(Refiltered(m.(providerSel := ""))) else Some(m)
    case Char(c) => NormalChar(m, c)
    case _ => Some(m)
  }

  function GraphSelect(m: Model): Option<Model> {
    if m.graphCursor < |m.graphRows| then
      if m.graphCursor < 0 then None
      else
        var n := m.graphRows[m.graphCursor];
        Some(Refiltered(m.(providerSel := n.providerKey, filter := m.filter.(search := n.resourceKey))).(graphMode := false))
    else Some(m)
  }

  function GraphKey(m: Model, key: Key): Option<Model> {
    var down := if m.graphCursor < |m.graphRows| - 1 then m.(graphCursor := m.graphCursor + 1) else m;
    var up := if m.graphCursor > 0 then m.(graphCursor := m.graphCursor - 1) else m;
    match key
    case Esc => Some(m.(graphMode := false))
    case Down => Some(down)
    case Up => Some(up)
    case Enter => GraphSelect(m)
    case Char(c) =>
      if c == 'R' then Some(m.(graphMode := false))
      else if c == 'j' then Some(down)
      else if c == 'k' then Some(up)
      else if c == 'g' then Some(m.(graphCursor := 0))
      else if c == 'G' then Some(m.(graphCursor := |m.graphRows| - 1))
      else Some(m)
    case _ => Some(m)
  }

  /** The `:` commands that leave the filter alone. */
  predicate IsSideCommand(input: string) {
    var t := TrimSpace(input);
    t == "tail" || t == "untail" || HasPrefix(input, "waive: ") || HasPrefix(t, "diff ") || t == "undiff"
  }

  function NewFilter(m: Model): Criteria {
    match m.mode
    case Search => m.filter.(search := m.input)
    case Command => if IsSideCommand(m.input) then m.filter else ParseLine(m.input)
    case Normal => m.filter
  }

  /** `:waive: …` indexes the filtered list behind the same guard as `w`. */
  predicate WaivePanics(m: Model) {
    && m.mode == Command && HasPrefix(m.input, "waive: ")
    && TrimSpace(m.input) != "tail" && TrimSpace(m.input) != "untail"
    && HasSelection(m) && m.listCursor < 0
  }

  function CommitEditor(m: Model): Option<Model> {
    if WaivePanics(m) then None
    else Some(Refiltered(m.(filter := NewFilter(m), input := "")).(listCursor := 0))
  }

  function EditKey(m: Model, key: Key): Option<Model> {
    match key
    case Esc => Some(m.(mode := Normal, input := ""))
    case Enter =>
      var c := CommitEditor(m);
      if c.None? then None else Some(c.value.(mode := Normal))
    case Backspace => Some(if m.input == "" then m else m.(input := m.input[..|m.input| - 1]))
    case Char(c) => Some(if c < 128 as char then m.(input := m.input + [c]) else m)
    case Space => Some(m.(input := m.input + " "))
    case _ => Some(m)
  }

  function HelpKey(m: Model, key: Key): Model {
    if key == Esc || key == Char('?') then m.(helpMode := false) else m
  }

  ghost function HandleKey(m: Model, key: Key): Option<Model> {
    if m.helpMode then Some(HelpKey(m, key))
    else if m.graphMode then GraphKey(m, key)
    else if m.mode != Normal then EditKey(m, key)
    else if key == Char('?') then Some(m.(helpMode := true))
    else NormalKey(m, key)
  }

  ghost function Received(m: Model, f: Finding): Model {
    Refiltered(m.(all := m.all + [f], providers := Buckets(m.all + [f])))
  }

  ghost function Step(m: Model, e: Event): Option<Model> {
    match e
    case Press(key) => HandleKey(m, key)
    case Live(f) => Some(Received(m, f))
    case Resize(w, h) => Some(m.(width := w, height := h))
    case TailEnded => Some(m)
  }

  ghost function Run(m: Model, es: seq<Event>): Option<Model> {
    if es == [] then Some(m)
    else
      var before := Run(m, es[..|es| - 1]);
      if before.None? then None else Step(before.value, es[|es| - 1])
  }

  const DEFAULT_HEIGHT := 24

  ghost function NewModel(cat: Catalog, fs: seq<Finding>): Model {
    Refiltered(Model(cat, fs, [], Buckets(fs), ListPane, 0, 0, "", DEFAULT_HEIGHT, 0, Normal, "", NO_CRITERIA, false, [], 0, false))
  }

  // ---- invariant ---------------------------------------------------------------------

  predicate InRange(cursor: int, n: nat) {
    0 <= cursor && (cursor < n || cursor == 0)
  }

  /** The view is exactly the matching findings, the provider pane exactly the
      buckets of all findings, and the list and tree cursors are on a row (or 0
      on an empty pane). The graph cursor is on a row unless the graph has none,
      when it may be −1. */
  ghost predicate Inv(m: Model) {
    && m.filtered == FilterBy(m.all, Merged(m.filter, m.providerSel), m.catalog)
    && m.providers == Buckets(m.all)
    && InRange(m.listCursor, |m.filtered|)
    && InRange(m.treeCursor, |m.providers|)
    && GraphCursorOk(m)
  }

  predicate GraphCursorOk(m: Model) {
    && (m.graphCursor == -1 ==> m.graphRows == [])
    && -1 <= m.graphCursor && (m.graphCursor < |m.graphRows| || m.graphCursor == 0)
  }

  predicate KeepsFindings(m: Model, n: Model) {
    n.all == m.all
  }

  lemma {:induction false} MovesKeepInv(m: Model)
    requires Inv(m)
    ensures Inv(CursorDown(m)) && KeepsFindings(m, CursorDown(m))
    ensures Inv(CursorUp(m)) && KeepsFindings(m, CursorUp(m))
    ensures Inv(CursorTop(m)) && KeepsFindings(m, CursorTop(m))
    ensures Inv(CursorBottom(m)) && KeepsFindings(m, CursorBottom(m))
    ensures forall dir :: Inv(StepSearch(m, dir)) && KeepsFindings(m, StepSearch(m, dir))
    ensures Inv(StartWaive(m)) && KeepsFindings(m, StartWaive(m))
    ensures Inv(OpenGraph(m)) && KeepsFindings(m, OpenGraph(m))
  {
    hide FilterBy, Buckets, Merged, RowsUnder;
  }

  /** Whatever the filter has become. */
  lemma {:induction false} RefilteredKeepsInv(m: Model)
    requires m.providers == Buckets(m.all) && InRange(m.treeCursor, |m.providers|)
    requires m.listCursor >= 0
    requires GraphCursorOk(m)
    ensures Inv(Refiltered(m)) && KeepsFindings(m, Refiltered(m))
    ensures Refiltered(m) == m.(filtered := Refiltered(m).filtered, listCursor := Refiltered(m).listCursor)
  {
    hide FilterBy, Buckets, Merged;
  }

  lemma {:induction false} NormalCharsKeepInv(m: Model, c: char)
    requires Inv(m) && NormalChar(m, c).Some?
    ensures Inv(NormalChar(m, c).value) && KeepsFindings(m, NormalChar(m, c).value)
  {
    hide FilterBy, Buckets, CursorDown, CursorUp, CursorTop, CursorBottom, StepSearch, StartWaive, OpenGraph, Merged;
    MovesKeepInv(m);
  }

  lemma {:induction false} NormalKeysKeepInv(m: Model, key: Key)
    requires Inv(m) && NormalKey(m, key).Some?
    ensures Inv(NormalKey(m, key).value) && KeepsFindings(m, NormalKey(m, key).value)
  {
    hide FilterBy, Buckets, CursorDown, CursorUp, NormalChar, Merged, Refiltered;
    MovesKeepInv(m);
    RefilteredKeepsInv(m.(providerSel := ""));
    if m.focused == TreePane && m.providers != [] {
      RefilteredKeepsInv(m.(providerSel := m.providers[m.treeCursor].name));
    }
    if key.Char? {
      NormalCharsKeepInv(m, key.c);
    }
  }

  lemma {:induction false} GraphKeysKeepInv(m: Model, key: Key)
    requires Inv(m) && GraphKey(m, key).Some?
    ensures Inv(GraphKey(m, key).value) && KeepsFindings(m, GraphKey(m, key).value)
  {
    hide FilterBy, Buckets, Merged, GraphSelect;
    if key == Enter {
      GraphSelectKeepsInv(m);
    }
  }

  lemma {:induction false} GraphSelectKeepsInv(m: Model)
    requires Inv(m) && GraphSelect(m).Some?
    ensures Inv(GraphSelect(m).value) && KeepsFindings(m, GraphSelect(m).value)
  {
    hide FilterBy, Buckets, Merged, Refiltered;
    if 0 <= m.graphCursor < |m.graphRows| {
      var n := m.graphRows[m.graphCursor];
      RefilteredKeepsInv(m.(providerSel := n.providerKey, filter := m.filter.(search := n.resourceKey)));
    }
  }

  lemma {:induction false} EditKeysKeepInv(m: Model, key: Key)
    requires Inv(m) && EditKey(m, key).Some?
    ensures Inv(EditKey(m, key).value) && KeepsFindings(m, EditKey(m, key).value)
  {
    hide FilterBy, Buckets, WaivePanics, NewFilter, Merged, Refiltered;
    RefilteredKeepsInv(m.(filter := NewFilter(m), input := ""));
  }

  lemma {:induction false} KeysKeepInv(m: Model, key: Key)
    requires Inv(m) && HandleKey(m, key).Some?
    ensures Inv(HandleKey(m, key).value) && KeepsFindings(m, HandleKey(m, key).value)
  {
    hide FilterBy, Buckets, NormalKey, GraphKey, EditKey;
    if m.helpMode || (!m.graphMode && m.mode == Normal && key == Char('?')) {
    } else if m.graphMode {
      GraphKeysKeepInv(m, key);
    } else if m.mode != Normal {
      EditKeysKeepInv(m, key);
    } else {
      NormalKeysKeepInv(m, key);
    }
  }

  lemma {:induction false} StepKeepsInv(m: Model, e: Event)
    requires Inv(m) && Step(m, e).Some?
    ensures Inv(Step(m, e).value)
    ensures m.all <= Step(m, e).value.all
  {
    match e
    case Press(key) => KeysKeepInv(m, key);
    case Live(f) => BucketsNeverShrink(m.all, f);
    case _ =>
  }

  /** After any sequence of keys, findings and resizes. */
  lemma {:induction false} RunKeepsInv(cat: Catalog, fs: seq<Finding>, es: seq<Event>)
    requires Run(NewModel(cat, fs), es).Some?
    ensures Inv(Run(NewModel(cat, fs), es).value)
    ensures fs <= Run(NewModel(cat, fs), es).value.all
  {
    if es != [] {
      RunKeepsInv(cat, fs, es[..|es| - 1]);
      StepKeepsInv(Run(NewModel(cat, fs), es[..|es| - 1]).value, es[|es| - 1]);
    }
  }

  /** Enter in the graph with the cursor at −1, which only an empty graph allows. */
  predicate EntersNothing(m: Model, e: Event) {
    e == Press(Enter) && m.graphMode && !m.helpMode && m.graphCursor == -1
  }

  /** In a reachable state that is the only event that Update cannot handle. */
  lemma {:induction false} UpdatePanicsIff(m: Model, e: Event)
    requires Inv(m)
    ensures Step(m, e).None? <==> EntersNothing(m, e)
  {
    hide FilterBy, Buckets, ParseLine, TrimSpace, HasPrefix, RowsUnder;
  }

  /** A graph opened on findings has rows. */
  ghost predicate GraphFilled(m: Model) {
    m.all != [] && (m.graphMode ==> m.graphRows != [])
  }

  lemma {:induction false} RowsExist(fs: seq<Finding>)
    requires fs != []
    ensures RowsUnder(fs, []) != []
  {
    PaneAgreesWithTree(fs);
    BucketCount(fs);
    assert PathOf(fs[0])[0] in Children(fs, []);
  }

  lemma {:induction false} StepKeepsGraphFilled(m: Model, e: Event)
    requires GraphFilled(m) && Step(m, e).Some?
    ensures GraphFilled(Step(m, e).value)
  {
    hide FilterBy, Buckets, ParseLine, TrimSpace, HasPrefix, RowsUnder;
    RowsExist(m.all);
  }

  /** Update handles every sequence of events of a program started on findings. */
  lemma {:induction false} FilledRunsSurvive(cat: Catalog, fs: seq<Finding>, es: seq<Event>)
    requires fs != []
    ensures Run(NewModel(cat, fs), es).Some? && GraphFilled(Run(NewModel(cat, fs), es).value)
  {
    if es != [] {
      var init := es[..|es| - 1];
      FilledRunsSurvive(cat, fs, init);
      RunKeepsInv(cat, fs, init);
      var m := Run(NewModel(cat, fs), init).value;
      UpdatePanicsIff(m, es[|es| - 1]);
      StepKeepsGraphFilled(m, es[|es| - 1]);
    }
  }

  const OPEN_EMPTY_GRAPH: seq<Event> := [Press(Char('R')), Press(Char('G')), Press(Enter)]

  lemma {:induction false} EmptyGraphPanics(cat: Catalog)
    ensures Run(NewModel(cat, []), OPEN_EMPTY_GRAPH).None?
  {
    var m := NewModel(cat, []);
    var es := OPEN_EMPTY_GRAPH;
    assert es[..2][..1] == es[..1] && es[..1][..0] == [];
    assert Run(m, es[..1]) == Some(OpenGraph(m));
    PaneAgreesWithTree([]);
    assert RowsUnder([], []) == [] by {
      assert Children([], []) == {};
      assert SortedKeys({}) == [];
    }
    assert Run(m, es[..2]) == Some(OpenGraph(m).(graphCursor := -1));
  }

  // ---- the provider pane promises what Enter shows ---------------------------------------

  /** The findings shown under "(unknown)" for want of a provider. */
  function Blanks(fs: seq<Finding>): nat {
    if fs == [] then 0 else Blanks(fs[..|fs| - 1]) + (if RawProvider(fs[|fs| - 1]) == "" then 1 else 0)
  }

  lemma {:induction false} BlanksMeans(fs: seq<Finding>)
    ensures Blanks(fs) == 0 <==> forall f | f in fs :: RawProvider(f) != ""
  {
    hide RawProvider;
    if fs != [] {
      BlanksMeans(fs[..|fs| - 1]);
      assert fs == fs[..|fs| - 1] + [fs[|fs| - 1]];
    }
  }

  lemma {:induction false} SelectingMatches(p: string, f: Finding, cat: Catalog)
    requires p != ""
    ensures Matches(NO_CRITERIA.(provider := p), f, cat) <==> RawProvider(f) == p
  {
    hide RawProvider, Lower, ContainsText;
  }

  lemma {:induction false} SelectionCount(fs: seq<Finding>, p: string, cat: Catalog)
    requires p != ""
    ensures |FilterBy(fs, NO_CRITERIA.(provider := p), cat)| + (if p == UNKNOWN_LABEL then Blanks(fs) else 0) == Count(fs, [p])
  {
    hide Matches, RawProvider;
    if fs != [] {
      var f := fs[|fs| - 1];
      SelectionCount(fs[..|fs| - 1], p, cat);
      SelectingMatches(p, f, cat);
      assert [p] <= PathOf(f) <==> [p][0] == PathOf(f)[0];
    }
  }

  lemma {:induction false} BucketAt(fs: seq<Finding>, ks: seq<string>, i: nat)
    requires i < |ks|
    ensures i < |BucketsOf(fs, ks)| && BucketsOf(fs, ks)[i] == Bucket(ks[i], Count(fs, [ks[i]]))
  {
    BucketsLength(fs, ks);
    if i < |ks| - 1 {
      BucketAt(fs, ks[..|ks| - 1], i);
      BucketsLength(fs, ks[..|ks| - 1]);
    } else {
      BucketsLength(fs, ks[..i]);
    }
  }

  /** Enter on a provider, with no other filter: the list holds as many findings as
      the pane counts, exactly unless the row is "(unknown)" and counts findings
      without a provider, which the filter cannot name. */
  lemma {:induction false} SelectionShowsBucket(m: Model)
    requires Inv(m) && m.filter == NO_CRITERIA && m.focused == TreePane && m.providers != []
    ensures var row := m.providers[m.treeCursor];
      |Activate(m).value.filtered| == row.total <==> row.name != UNKNOWN_LABEL || forall f | f in m.all :: RawProvider(f) != ""
  {
    hide FilterBy, Count, RawProvider, Blanks;
    var ks := SortedKeys(Children(m.all, []));
    BucketsLength(m.all, ks);
    BucketAt(m.all, ks, m.treeCursor);
    assert ks[m.treeCursor] in Children(m.all, []);
    SelectionCount(m.all, ks[m.treeCursor], m.catalog);
    BlanksMeans(m.all);
  }

  // ---- keys that undo each other -------------------------------------------------------------

  /** In a reachable state `N` undoes `n` and `n` undoes `N`, also around the ends
      of the list, and the two focus keys undo each other. */
  lemma {:induction false} StepsUndo(m: Model)
    requires Inv(m)
    ensures StepSearch(StepSearch(m, 1), -1) == m && StepSearch(StepSearch(m, -1), 1) == m
    ensures PreviousPane(NextPane(m.focused)) == m.focused && NextPane(PreviousPane(m.focused)) == m.focused
  {
    hide FilterBy, Buckets, Merged;
    if m.filtered != [] {
      var at, n := m.listCursor, |m.filtered|;
      OnceAround(at + 1 + n, n);
      OnceAround(at - 1 + n, n);
      OnceAround((at + 1 + n) % n - 1 + n, n);
      OnceAround((at - 1 + n) % n + 1 + n, n);
    }
  }

  lemma {:induction false} OnceAround(x: int, n: nat)
    requires 0 < n && 0 <= x < 3 * n
    ensures x % n == if x < n then x else if x < 2 * n then x - n else x - 2 * n
  {
    var q, r := x / n, x % n;
    assert x == q * n + r && 0 <= r < n;
    assert q >= 3 ==> q * n >= 3 * n;
    assert q <= -1 ==> q * n <= -1 * n;
  }

  /** A live finding is added at the end of the view if it matches, and changes no
      other row. */
  lemma {:induction false} LiveFindingIsAppended(m: Model, f: Finding)
    requires Inv(m)
    ensures Received(m, f).filtered == m.filtered + if Matches(Merged(m.filter, m.providerSel), f, m.catalog) then [f] else []
  {
    hide Matches, Buckets, Merged;
    assert (m.all + [f])[..|m.all|] == m.all;
  }
}
