/** internal/tui/model.go: the listModel itself, whose fields the handlers update
    in place, and its View. Every handler is tied to the function of Tui that
    specifies it; `ok == false` is a panic. */
module ListModels {
  import opened Text
  import opened Seqs
  import opened Findings
  import opened ResourceTree
  import opened Commands
  import Tui
  import TuiView

  class ListModel {
    const catalog: Catalog
    var all: seq<Finding>
    var filtered: seq<Finding>
    var providers: seq<Bucket>
    var focused: Tui.Pane
    var treeCursor: int
    var listCursor: int
    var providerSel: string
    var height: int
    var width: int
    var mode: Tui.Mode
    var input: string
    var filter: Criteria
    var graphMode: bool
    var graphRows: seq<Node>
    var graphCursor: int
    var helpMode: bool

    function Snapshot(): Tui.Model
      reads this
    {
      Tui.Model(catalog, all, filtered, providers, focused, treeCursor, listCursor, providerSel, height, width, mode,
                input, filter, graphMode, graphRows, graphCursor, helpMode)
    }

    constructor (cat: Catalog, findings: seq<Finding>)
      ensures Snapshot() == Tui.NewModel(cat, findings)
    {
      var buckets := BuildProviderBuckets(findings);
      catalog, all, filtered, focused, treeCursor, listCursor := cat, findings, [], Tui.ListPane, 0, 0;
      providerSel, height, width, mode, input, filter := "", Tui.DEFAULT_HEIGHT, 0, Tui.Normal, "", NO_CRITERIA;
      graphMode, graphRows, graphCursor, helpMode := false, [], 0, false;
      providers := buckets;
      new;
      ApplyFilter();
    }

    method ApplyFilter()
      modifies this`filtered, this`listCursor
      ensures Snapshot() == Tui.Refiltered(old(Snapshot()))
    {
      hide Matches;
      var merged := filter;
      if providerSel != "" {
        merged := merged.(provider := providerSel);
      }
      var out := [];
      for i := 0 to |all|
        invariant out == Tui.FilterBy(all[..i], merged, catalog)
      {
        if Matches(merged, all[i], catalog) {
          out := out + [all[i]];
        }
        assert all[..i + 1][..i] == all[..i];
      }
      assert all[..|all|] == all;
      filtered := out;
      if listCursor >= |out| {
        listCursor := 0;
      }
    }

    method CursorDown()
      modifies this`treeCursor, this`listCursor
      ensures Snapshot() == Tui.CursorDown(old(Snapshot()))
    {
      match focused
      case TreePane => if treeCursor < |providers| - 1 { treeCursor := treeCursor + 1; }
      case ListPane => if listCursor < |filtered| - 1 { listCursor := listCursor + 1; }
      case DetailPane =>
    }

    method CursorUp()
      modifies this`treeCursor, this`listCursor
      ensures Snapshot() == Tui.CursorUp(old(Snapshot()))
    {
      match focused
      case TreePane => if treeCursor > 0 { treeCursor := treeCursor - 1; }
      case ListPane => if listCursor > 0 { listCursor := listCursor - 1; }
      case DetailPane =>
    }

    method CursorTop()
      modifies this`treeCursor, this`listCursor
      ensures Snapshot() == Tui.CursorTop(old(Snapshot()))
    {
      match focused
      case TreePane => treeCursor := 0;
      case ListPane => listCursor := 0;
      case DetailPane =>
    }

    method CursorBottom()
      modifies this`treeCursor, this`listCursor
      ensures Snapshot() == Tui.CursorBottom(old(Snapshot()))
    {
      match focused
      case TreePane =>
        treeCursor := |providers| - 1;
        if treeCursor < 0 { treeCursor := 0; }
      case ListPane =>
        listCursor := |filtered| - 1;
        if listCursor < 0 { listCursor := 0; }
      case DetailPane =>
    }

    method StepSearch(dir: int)
      modifies this`listCursor
      ensures Snapshot() == Tui.StepSearch(old(Snapshot()), dir)
    {
      if |filtered| == 0 {
        return;
      }
      listCursor := (listCursor + dir + |filtered|) % |filtered|;
    }

    method Activate() returns (ok: bool)
      modifies this`providerSel, this`filtered, this`listCursor, this`focused
      ensures ok == Tui.Activate(old(Snapshot())).Some?
      ensures ok ==> Snapshot() == Tui.Activate(old(Snapshot())).value
    {
      hide Tui.FilterBy;
      ok := true;
      if focused == Tui.TreePane && |providers| > 0 {
        if !(0 <= treeCursor < |providers|) {
          return false;
        }
        providerSel := providers[treeCursor].name;
        ApplyFilter();
        focused := Tui.ListPane;
        return;
      }
      if focused == Tui.ListPane {
        focused := Tui.DetailPane;
      }
    }

    method StartWaive()
      modifies this`mode, this`input
      ensures Snapshot() == Tui.StartWaive(old(Snapshot()))
    {
      if |filtered| == 0 || listCursor >= |filtered| {
        return;
      }
      mode, input := Tui.Command, "waive: ";
    }

    /** previewRemediation and doWaive up to their reading of the selected finding. */
    method SelectedExists() returns (ok: bool)
      ensures ok == !(Tui.HasSelection(Snapshot()) && listCursor < 0)
    {
      if |filtered| == 0 || listCursor >= |filtered| {
        return true;
      }
      ok := 0 <= listCursor;
    }

    method HandleNormalKey(key: Tui.Key) returns (ok: bool)
      modifies this
      ensures ok == Tui.NormalKey(old(Snapshot()), key).Some?
      ensures ok ==> Snapshot() == Tui.NormalKey(old(Snapshot()), key).value
    {
      hide Tui.Refiltered, Tui.CursorDown, Tui.CursorUp, Tui.Activate, Tui.NormalChar;
      ok := true;
      match key
      case Tab => focused := Tui.NextPane(focused);
      case ShiftTab => focused := Tui.PreviousPane(focused);
      case Down => CursorDown();
      case Up => CursorUp();
      case Enter => ok := Activate();
      case Backspace =>
        if focused == Tui.TreePane || providerSel != "" {
          providerSel := "";
          ApplyFilter();
        }
      case Char(c) => ok := HandleNormalChar(c);
      case _ =>
    }

    method HandleNormalChar(c: char) returns (ok: bool)
      modifies this
      ensures ok == Tui.NormalChar(old(Snapshot()), c).Some?
      ensures ok ==> Snapshot() == Tui.NormalChar(old(Snapshot()), c).value
    {
      hide RowsUnder, Tui.CursorDown, Tui.CursorUp, Tui.CursorTop, Tui.CursorBottom, Tui.StepSearch, Tui.StartWaive;
      ok := true;
      match c
      case 'j' => CursorDown();
      case 'k' => CursorUp();
      case 'g' => CursorTop();
      case 'G' => CursorBottom();
      case 'n' => StepSearch(1);
      case 'N' => StepSearch(-1);
      case 'w' => StartWaive();
      case 'r' => ok := SelectedExists();
      case '/' => mode, input := Tui.Search, "";
      case ':' => mode, input := Tui.Command, "";
      case 'R' =>
        graphRows := BuildGraphRows(all);
        graphCursor := 0;
        graphMode := true;
      case _ =>
    }

    method HandleGraphKey(key: Tui.Key) returns (ok: bool)
      modifies this`graphMode, this`graphCursor, this`providerSel, this`filter, this`filtered, this`listCursor
      ensures ok == Tui.GraphKey(old(Snapshot()), key).Some?
      ensures ok ==> Snapshot() == Tui.GraphKey(old(Snapshot()), key).value
    {
      hide Tui.GraphSelect;
      ok := true;
      match key
      case Esc => graphMode := false;
      case Down => GraphDown();
      case Up => GraphUp();
      case Enter => ok := SelectInGraph();
      case Char(c) =>
        match c {
          case 'R' => graphMode := false;
          case 'j' => GraphDown();
          case 'k' => GraphUp();
          case 'g' => graphCursor := 0;
          case 'G' => graphCursor := |graphRows| - 1;
          case _ =>
        }
      case _ =>
    }

    method GraphDown()
      modifies this`graphCursor
      ensures graphCursor == if old(graphCursor) < |graphRows| - 1 then old(graphCursor) + 1 else old(graphCursor)
    {
      if graphCursor < |graphRows| - 1 { graphCursor := graphCursor + 1; }
    }

    method GraphUp()
      modifies this`graphCursor
      ensures graphCursor == if old(graphCursor) > 0 then old(graphCursor) - 1 else old(graphCursor)
    {
      if graphCursor > 0 { graphCursor := graphCursor - 1; }
    }

    /** Enter in the graph. */
    method SelectInGraph() returns (ok: bool)
      modifies this`graphMode, this`providerSel, this`filter, this`filtered, this`listCursor
      ensures ok == Tui.GraphSelect(old(Snapshot())).Some?
      ensures ok ==> Snapshot() == Tui.GraphSelect(old(Snapshot())).value
    {
      hide Tui.FilterBy, Tui.Refiltered;
      ok := true;
      if graphCursor < |graphRows| {
        if graphCursor < 0 {
          return false;
        }
        SelectRow(graphRows[graphCursor]);
        graphMode := false;
      }
    }

    method SelectRow(n: Node)
      modifies this`providerSel, this`filter, this`filtered, this`listCursor
      ensures Snapshot() == Tui.Refiltered(old(Snapshot()).(providerSel := n.providerKey, filter := old(filter).(search := n.resourceKey)))
    {
      hide Tui.FilterBy, Tui.Refiltered;
      providerSel := n.providerKey;
      if n.resourceKey != "" {
        filter := filter.(search := n.resourceKey);
      } else {
        filter := filter.(search := "");
      }
      ApplyFilter();
    }

    method CommitEditor() returns (ok: bool)
      modifies this`filter, this`input, this`filtered, this`listCursor
      ensures ok == Tui.CommitEditor(old(Snapshot())).Some?
      ensures ok ==> Snapshot() == Tui.CommitEditor(old(Snapshot())).value
    {
      hide Tui.Refiltered, Tui.NewFilter, Tui.WaivePanics;
      ok := CommitFilter();
      if !ok {
        return;
      }
      input := "";
      ApplyFilter();
      listCursor := 0;
    }

    /** The switch over the mode and the command. */
    method CommitFilter() returns (ok: bool)
      modifies this`filter
      ensures ok == !Tui.WaivePanics(old(Snapshot()))
      ensures ok ==> filter == Tui.NewFilter(old(Snapshot()))
    {
      hide TrimSpace, HasPrefix, ParseLine;
      if mode == Tui.Search {
        filter := filter.(search := input);
      } else if mode == Tui.Command {
        var trimmed := TrimSpace(input);
        if trimmed == "tail" || trimmed == "untail" {
        } else if HasPrefix(input, "waive: ") {
          var read := SelectedExists();
          if !read {
            return false;
          }
        } else if HasPrefix(trimmed, "diff ") || trimmed == "undiff" {
        } else {
          filter := ParseCommandLine(input);
        }
      }
      ok := true;
    }

    method HandleEditKey(key: Tui.Key) returns (ok: bool)
      modifies this`filter, this`input, this`mode, this`filtered, this`listCursor
      ensures ok == Tui.EditKey(old(Snapshot()), key).Some?
      ensures ok ==> Snapshot() == Tui.EditKey(old(Snapshot()), key).value
    {
      hide Tui.CommitEditor;
      ok := true;
      match key
      case Esc =>
        mode, input := Tui.Normal, "";
      case Enter =>
        ok := CommitEditor();
        mode := Tui.Normal;
      case Backspace =>
        if input != "" {
          input := input[..|input| - 1];
        }
      case Char(c) =>
        if c < 128 as char {
          input := input + [c];
        }
      case Space =>
        input := input + " ";
      case _ =>
    }

    method HandleKey(key: Tui.Key) returns (ok: bool)
      modifies this
      ensures ok == Tui.HandleKey(old(Snapshot()), key).Some?
      ensures ok ==> Snapshot() == Tui.HandleKey(old(Snapshot()), key).value
    {
      hide Tui.GraphKey, Tui.EditKey, Tui.NormalKey;
      ok := true;
      if helpMode {
        if key == Tui.Esc || key == Tui.Char('?') {
          helpMode := false;
        }
      } else if graphMode {
        ok := HandleGraphKey(key);
      } else if mode == Tui.Search || mode == Tui.Command {
        ok := HandleEditKey(key);
      } else if key == Tui.Char('?') {
        helpMode := true;
      } else {
        ok := HandleNormalKey(key);
      }
    }

    method Update(e: Tui.Event) returns (ok: bool)
      modifies this
      ensures ok == Tui.Step(old(Snapshot()), e).Some?
      ensures ok ==> Snapshot() == Tui.Step(old(Snapshot()), e).value
    {
      hide Tui.HandleKey, Tui.Refiltered, Buckets;
      ok := true;
      match e
      case Resize(w, h) => width, height := w, h;
      case Press(key) => ok := HandleKey(key);
      case Live(f) =>
        all := all + [f];
        providers := BuildProviderBuckets(all);
        ApplyFilter();
      case TailEnded =>
    }

    // ---- View --------------------------------------------------------------------

    /** False is a panic. */
    method View() returns (ok: bool)
      requires Tui.Inv(Snapshot())
      ensures ok == !TuiView.ViewFails(Snapshot())
    {
      hide Tui.FilterBy, Buckets, Tui.Merged;
      var w, h := TuiView.WidthOf(width), TuiView.HeightOf(height);
      if helpMode {
        return true;
      }
      if graphMode {
        RenderGraph(h);
        return true;
      }
      var tw, dw := TuiView.TreeWidth(w), TuiView.DetailWidth(w);
      var lw := TuiView.AtLeast(10, w - tw - dw - 3);
      var innerH := h - 3;
      RenderTree(tw, innerH);
      ok := RenderList(lw, innerH);
      if !ok {
        return;
      }
      RenderDetail(dw, innerH);
      var col := Repeat('|', innerH);
      ok := col.Some?;
    }

    method RenderGraph(h: int)
    {
      var start, end := GraphWindow(graphCursor, h, |graphRows|);
      for i := start to end
      {
        var n := graphRows[i];
        var indent := Repeat(' ', 2 * n.depth);
        assert indent.Some?;
      }
    }

    method RenderTree(w: int, h: int)
      requires w >= 10
    {
      var rule := Repeat('-', w - 1);
      assert rule.Some?;
      var i := 0;
      while i < |providers| && i < h - 1
      {
        var name := Truncate(providers[i].name, 12);
        var line := PadRight(name.value, w);
        i := i + 1;
      }
    }

    method RenderList(w: int, h: int) returns (ok: bool)
      requires w >= 10 && Tui.InRange(listCursor, |filtered|)
      ensures ok <==> |filtered| == 0 || h - 1 < 1 || w - TuiView.ROW_PREFIX >= 0
    {
      var rule := Repeat('-', w - 1);
      assert rule.Some?;
      if |filtered| == 0 {
        return true;
      }
      var start, end := Window(listCursor, h - 1, |filtered|);
      var i := start;
      while i < end
        invariant i >= start && (h - 1 >= 1 ==> i <= end)
        invariant i > start ==> w - TuiView.ROW_PREFIX >= 0
      {
        var f := filtered[i];
        var check := Truncate(f.checkID, 30);
        var name := Truncate(if f.resource.name != "" then f.resource.name else f.resource.id, w - TuiView.ROW_PREFIX);
        if name.None? {
          return false;
        }
        var line := PadRight(check.value + " " + name.value, w);
        i := i + 1;
      }
      ok := true;
    }

    method RenderDetail(w: int, h: int)
      requires w >= 10 && Tui.InRange(listCursor, |filtered|)
    {
      var rule := Repeat('-', w - 1);
      assert rule.Some?;
      if |filtered| == 0 || listCursor >= |filtered| {
        return;
      }
      var f := filtered[listCursor];
      if f.message != "" {
        var lines := Wrap(f.message, w - 2);
      }
    }
  }

  /** strings.Repeat panics on a negative count. */
  method Repeat(c: char, n: int) returns (r: Option<string>)
    ensures r.Some? <==> n >= 0
    ensures r.Some? ==> |r.value| == n && forall i :: 0 <= i < n ==> r.value[i] == c
  {
    if n < 0 {
      return None;
    }
    r := Some(seq(n, _ => c));
  }

  /** A text cut to `n` columns, which panics when `n` is negative. */
  method Truncate(s: string, n: int) returns (r: Option<string>)
    ensures r.Some? <==> n >= 0
    ensures r.Some? ==> |r.value| <= n && (|s| <= n ==> r.value == s)
  {
    if |s| <= n {
      return Some(s);
    }
    if n <= 1 {
      if n < 0 {
        return None;
      }
      return Some(s[..n]);
    }
    r := Some(s[..n - 1] + [ELLIPSIS]);
  }

  const ELLIPSIS: char := '\U{2026}'

  method PadRight(s: string, n: int) returns (r: string)
    ensures s <= r && |r| == if |s| >= n then |s| else n
  {
    if |s| >= n {
      return s;
    }
    var blanks := Repeat(' ', n - |s|);
    r := s + blanks.value;
  }

  function Joined(lines: seq<string>): string {
    if lines == [] then "" else Joined(lines[..|lines| - 1]) + lines[|lines| - 1]
  }

  /** The lines of a text, at most `w` long; put together they are the text. */
  method Wrap(s: string, w: int) returns (lines: seq<string>)
    ensures Joined(lines) == s
    ensures w > 0 ==> forall i :: 0 <= i < |lines| ==> |lines[i]| <= w
  {
    if w <= 0 {
      assert [s][..0] == [];
      return [s];
    }
    lines := [];
    var rest := s;
    while |rest| > w
      invariant Joined(lines) + rest == s
      invariant forall i :: 0 <= i < |lines| ==> |lines[i]| <= w
      decreases |rest|
    {
      assert (lines + [rest[..w]])[..|lines|] == lines;
      assert rest == rest[..w] + rest[w..];
      lines := lines + [rest[..w]];
      rest := rest[w..];
    }
    assert (lines + [rest])[..|lines|] == lines;
    lines := lines + [rest];
  }

  // ---- the program -------------------------------------------------------------------

  /** The program from start to its last event: it stops early exactly where the
      specified session does, and otherwise holds the invariant. Started on findings,
      on a terminal whose sizes all fit, it never does. */
  method Run(cat: Catalog, findings: seq<Finding>, events: seq<Tui.Event>) returns (m: ListModel, ok: bool)
    ensures ok == TuiView.Session(Tui.NewModel(cat, findings), events).Some?
    ensures ok ==> m.Snapshot() == TuiView.Session(Tui.NewModel(cat, findings), events).value && Tui.Inv(m.Snapshot())
    ensures findings != [] && (forall i :: 0 <= i < |events| && events[i].Resize? ==> TuiView.Fits(events[i].width, events[i].height)) ==> ok
  {
    hide Tui.NewModel, Tui.Step, Tui.Inv, TuiView.ViewFails, TuiView.Fits;
    ghost var start := Tui.NewModel(cat, findings);
    m := new ListModel(cat, findings);
    assert Tui.Run(start, []) == Some(start);
    Tui.RunKeepsInv(cat, findings, []);
    SafeSession(cat, findings, events);
    ok := m.View();
    var i := 0;
    while ok && i < |events|
      invariant 0 <= i <= |events|
      invariant fresh(m)
      invariant ok == TuiView.Session(start, events[..i]).Some?
      invariant ok ==> m.Snapshot() == TuiView.Session(start, events[..i]).value && Tui.Inv(m.Snapshot())
    {
      assert events[..i + 1][..i] == events[..i];
      ghost var before := m.Snapshot();
      ok := m.Update(events[i]);
      if ok {
        Tui.StepKeepsInv(before, events[i]);
        ok := m.View();
      }
      i := i + 1;
    }
    if !ok {
      TuiView.FailedSessionStaysFailed(start, events, i);
    } else {
      assert events[..i] == events;
    }
  }

  lemma {:induction false} SafeSession(cat: Catalog, findings: seq<Finding>, events: seq<Tui.Event>)
    ensures findings != [] && (forall i :: 0 <= i < |events| && events[i].Resize? ==> TuiView.Fits(events[i].width, events[i].height))
      ==> TuiView.Session(Tui.NewModel(cat, findings), events).Some?
  {
    hide Tui.NewModel, TuiView.Session, TuiView.Fits;
    if findings != [] && forall i :: 0 <= i < |events| && events[i].Resize? ==> TuiView.Fits(events[i].width, events[i].height) {
      var sizes := iset i | 0 <= i < |events| && events[i].Resize? :: (events[i].width, events[i].height);
      TuiView.FilledSessionSurvives(cat, findings, events, sizes);
    }
  }
}
