/** internal/tui/model.go: View as far as it can panic, the numbers it computes from
    the terminal's size, and the whole program, in which every state is shown: Bubble
    Tea calls View at the start and after every Update. */
module TuiView {
  import opened Text
  import opened Seqs
  import opened Findings
  import opened ResourceTree
  import opened Commands
  import opened Tui

  // ---- sizes ---------------------------------------------------------------------

  const DEFAULT_WIDTH := 120

  /** A size of 0 is not known yet. */
  function WidthOf(width: int): int {
    if width == 0 then DEFAULT_WIDTH else width
  }

  function HeightOf(height: int): int {
    if height == 0 then DEFAULT_HEIGHT else height
  }

  function AtLeast(min: int, n: int): int {
    if min > n then min else n
  }

  /** Go's `w * percent / 100`, which rounds towards zero. */
  function Percent(w: int, percent: nat): int {
    if w < 0 then -(-w * percent / 100) else w * percent / 100
  }

  function TreeWidth(w: int): int {
    AtLeast(10, Percent(w, 20))
  }

  function DetailWidth(w: int): int {
    AtLeast(10, Percent(w, 30))
  }

  function ListWidth(w: int): int {
    AtLeast(10, w - TreeWidth(w) - DetailWidth(w) - 3)
  }

  /** The room for a resource's name in a row of the list. */
  const ROW_PREFIX := 52

  function NameWidth(w: int): int {
    ListWidth(w) - ROW_PREFIX
  }

  function InnerHeight(h: int): int {
    h - 3
  }

  /** The list has rows, and room below its title to show one. */
  predicate ShowsRow(m: Model) {
    m.filtered != [] && InnerHeight(HeightOf(m.height)) - 1 >= 1
  }

  /** View panics on its three panes: a separator repeated a negative number of
      times, or a name cut to a negative length. */
  predicate ViewFails(m: Model) {
    && !m.helpMode && !m.graphMode
    && (InnerHeight(HeightOf(m.height)) < 0 || (ShowsRow(m) && NameWidth(WidthOf(m.width)) < 0))
  }

  /** The three panes are on the screen with fewer than 3 rows, or with a finding to
      show, at least 5 rows and fewer than 108 columns. */
  predicate TooSmall(m: Model) {
    && !m.helpMode && !m.graphMode
    && (HeightOf(m.height) < 3 || (m.filtered != [] && HeightOf(m.height) >= 5 && WidthOf(m.width) < 108))
  }

  lemma {:induction false} ViewFailsIff(m: Model)
    ensures ViewFails(m) <==> TooSmall(m)
  {
    assert NameWidth(WidthOf(m.width)) >= 0 <==> WidthOf(m.width) >= 108;
  }

  // ---- the program ---------------------------------------------------------------------

  /** A state on the screen; None is a panic. */
  function Shown(m: Model): Option<Model> {
    if ViewFails(m) then None else Some(m)
  }

  ghost function ShownStep(m: Model, e: Event): Option<Model> {
    var n := Step(m, e);
    if n.None? then None else Shown(n.value)
  }

  /** The program: shown at the start and after every event. */
  ghost function Session(m: Model, es: seq<Event>): Option<Model> {
    if es == [] then Shown(m)
    else
      var before := Session(m, es[..|es| - 1]);
      if before.None? then None else ShownStep(before.value, es[|es| - 1])
  }

  lemma {:induction false} SessionIsRun(m: Model, es: seq<Event>)
    requires Session(m, es).Some?
    ensures Run(m, es) == Session(m, es) && !ViewFails(Session(m, es).value)
  {
    hide Step, ViewFails;
    if es != [] {
      SessionIsRun(m, es[..|es| - 1]);
    }
  }

  lemma {:induction false} FailedSessionStaysFailed(m: Model, es: seq<Event>, k: nat)
    requires k <= |es| && Session(m, es[..k]).None?
    ensures Session(m, es).None?
  {
    hide ShownStep, Shown;
    if k == |es| {
      assert es[..k] == es;
    } else {
      assert es[..|es| - 1][..k] == es[..k];
      FailedSessionStaysFailed(m, es[..|es| - 1], k);
    }
  }

  /** In a reachable state an event makes the program panic exactly when it is Enter
      in the graph with the cursor at −1, or leaves a screen that is too small. */
  lemma {:induction false} EventPanicsIff(m: Model, e: Event)
    requires Inv(m)
    ensures ShownStep(m, e).None? <==> EntersNothing(m, e) || (Step(m, e).Some? && TooSmall(Step(m, e).value))
  {
    hide Step, ViewFails;
    UpdatePanicsIff(m, e);
    if Step(m, e).Some? {
      ViewFailsIff(Step(m, e).value);
    }
  }

  // ---- which terminals are safe -----------------------------------------------------------

  /** A terminal of this size shows any list. */
  predicate Fits(width: int, height: int) {
    HeightOf(height) >= 3 && (HeightOf(height) < 5 || WidthOf(width) >= 108)
  }

  /** An unknown size is taken for 120 by 24, which fits. */
  lemma {:induction false} UnknownSizeFits()
    ensures WidthOf(0) == 120 && HeightOf(0) == 24 && Fits(0, 0)
  {
  }

  /** Every size the terminal takes during the events is one of these. */
  ghost predicate Within(es: seq<Event>, sizes: iset<(int, int)>) {
    forall i :: 0 <= i < |es| && es[i].Resize? ==> (es[i].width, es[i].height) in sizes
  }

  ghost predicate SizeKnown(m: Model, sizes: iset<(int, int)>) {
    (m.width, m.height) in sizes || (m.width, m.height) == (0, DEFAULT_HEIGHT)
  }

  lemma {:induction false} StepKeepsSize(m: Model, e: Event, sizes: iset<(int, int)>)
    requires Step(m, e).Some? && SizeKnown(m, sizes) && (e.Resize? ==> (e.width, e.height) in sizes)
    ensures SizeKnown(Step(m, e).value, sizes)
  {
    hide FilterBy, Buckets, ParseLine, TrimSpace, HasPrefix, RowsUnder, Merged, WaivePanics, NewFilter;
  }

  lemma {:induction false} FittingIsShown(m: Model, sizes: iset<(int, int)>)
    requires SizeKnown(m, sizes) && forall size :: size in sizes ==> Fits(size.0, size.1)
    ensures !ViewFails(m)
  {
    ViewFailsIff(m);
    assert Fits(m.width, m.height);
  }

  lemma {:induction false} FilledSessionSurvives(cat: Catalog, fs: seq<Finding>, es: seq<Event>, sizes: iset<(int, int)>)
    requires fs != [] && Within(es, sizes) && forall size :: size in sizes ==> Fits(size.0, size.1)
    ensures Session(NewModel(cat, fs), es).Some? && SizeKnown(Session(NewModel(cat, fs), es).value, sizes)
  {
    hide Step, ViewFails, Fits;
    var m := NewModel(cat, fs);
    if es == [] {
      FittingIsShown(m, sizes);
    } else {
      var init, e := es[..|es| - 1], es[|es| - 1];
      FilledSessionSurvives(cat, fs, init, sizes);
      SessionIsRun(m, init);
      FilledRunsSurvive(cat, fs, es);
      var before := Session(m, init).value;
      StepKeepsSize(before, e, sizes);
      FittingIsShown(Step(before, e).value, sizes);
    }
  }

  lemma {:induction false} MisfitPanics(cat: Catalog, fs: seq<Finding>, width: int, height: int)
    requires fs != [] && !Fits(width, height)
    ensures Session(NewModel(cat, fs), [Resize(width, height)]).None?
  {
    hide Matches, Buckets, FilterBy;
    var m, es := NewModel(cat, fs), [Resize(width, height)];
    NothingFiltered(fs, cat);
    assert m.filtered == fs;
    assert es[..0] == [];
    if Session(m, []).Some? {
      ViewFailsIff(m.(width := width, height := height));
    }
  }

  /** The program never panics, whatever keys, findings and resizes arrive on a
      terminal that only takes the given sizes, exactly when it was started on at
      least one finding and all the sizes fit. */
  lemma {:induction false} NeverPanicsIff(cat: Catalog, fs: seq<Finding>, sizes: iset<(int, int)>)
    ensures (forall es :: Within(es, sizes) ==> Session(NewModel(cat, fs), es).Some?)
      <==> fs != [] && forall size :: size in sizes ==> Fits(size.0, size.1)
  {
    hide Session, NewModel, Fits;
    if fs != [] && forall size :: size in sizes ==> Fits(size.0, size.1) {
      forall es | Within(es, sizes) ensures Session(NewModel(cat, fs), es).Some? {
        FilledSessionSurvives(cat, fs, es, sizes);
      }
    } else if fs == [] {
      EmptyGraphPanics(cat);
      assert Within(OPEN_EMPTY_GRAPH, sizes);
      if Session(NewModel(cat, fs), OPEN_EMPTY_GRAPH).Some? {
        SessionIsRun(NewModel(cat, fs), OPEN_EMPTY_GRAPH);
      }
    } else {
      var size :| size in sizes && !Fits(size.0, size.1);
      MisfitPanics(cat, fs, size.0, size.1);
      assert Within([Resize(size.0, size.1)], sizes);
    }
  }

  /** The usual 80 by 24 is too narrow for a single finding. */
  lemma {:induction false} EightyColumnsPanic(cat: Catalog, f: Finding)
    ensures Session(NewModel(cat, [f]), [Resize(80, 24)]).None?
  {
    MisfitPanics(cat, [f], 80, 24);
  }
}
