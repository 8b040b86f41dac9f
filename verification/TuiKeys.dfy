/** internal/tui/model.go: what sequences of keys do to what is shown. */
module TuiKeys {
  import opened Text
  import opened Seqs
  import opened Findings
  import opened ResourceTree
  import opened Commands
  import opened Tui

  predicate IsNormal(m: Model) {
    !m.helpMode && !m.graphMode && m.mode == Normal
  }

  predicate Ascii(text: string) {
    forall i :: 0 <= i < |text| ==> text[i] < 128 as char
  }

  lemma {:induction false} RunStep(m: Model, es: seq<Event>, e: Event)
    ensures Run(m, es + [e]) == if Run(m, es).None? then None else Step(Run(m, es).value, e)
    ensures Run(m, []) == Some(m)
  {
    hide Step;
    assert (es + [e])[..|es|] == es;
  }

  // ---- typing ----------------------------------------------------------------------

  /** One key for each character. */
  function Typed(text: string): seq<Event> {
    if text == "" then [] else Typed(text[..|text| - 1]) + [Press(Char(text[|text| - 1]))]
  }

  /** `/` or `:`, a text, and the key that ends it. */
  function Edited(open: char, text: string, close: Key): seq<Event> {
    [Press(Char(open))] + Typed(text) + [Press(close)]
  }

  function Opened(m: Model, open: char): Model {
    m.(mode := if open == '/' then Search else Command)
  }

  lemma {:induction false} OpenOne(m: Model, open: char)
    requires IsNormal(m) && (open == '/' || open == ':')
    ensures Step(m, Press(Char(open))) == Some(Opened(m, open).(input := ""))
  {
    hide RowsUnder, FilterBy;
  }

  lemma {:induction false} TypeOne(m: Model, c: char)
    requires !m.helpMode && !m.graphMode && m.mode != Normal && c < 128 as char
    ensures Step(m, Press(Char(c))) == Some(m.(input := m.input + [c]))
  {
  }

  lemma {:induction false} TypingFills(m: Model, open: char, text: string)
    requires IsNormal(m) && Ascii(text) && (open == '/' || open == ':')
    ensures Run(m, [Press(Char(open))] + Typed(text)) == Some(Opened(m, open).(input := text))
  {
    hide Step, Run;
    var start := [Press(Char(open))];
    OpenOne(m, open);
    RunStep(m, [], Press(Char(open)));
    assert [] + start == start;
    if text == "" {
      assert start + [] == start;
    } else {
      var init, e := text[..|text| - 1], Press(Char(text[|text| - 1]));
      TypingFills(m, open, init);
      RunStep(m, start + Typed(init), e);
      TypeOne(Opened(m, open).(input := init), text[|text| - 1]);
      assert start + Typed(text) == start + Typed(init) + [e];
      assert init + [text[|text| - 1]] == text;
    }
  }

  lemma {:induction false} EditEnds(m: Model, open: char, text: string, close: Key)
    requires IsNormal(m) && Ascii(text) && (open == '/' || open == ':')
    ensures Run(m, Edited(open, text, close)) == Step(Opened(m, open).(input := text), Press(close))
  {
    hide Step, Run;
    TypingFills(m, open, text);
    RunStep(m, [Press(Char(open))] + Typed(text), Press(close));
  }

  lemma {:induction false} FilterIsWhere(fs: seq<Finding>, c: Criteria, cat: Catalog)
    ensures FilterBy(fs, c, cat) == Where(fs, (f: Finding) => Matches(c, f, cat))
  {
    hide Matches;
    if fs != [] {
      FilterIsWhere(fs[..|fs| - 1], c, cat);
    }
  }

  /** The other criteria and the text, in any case. */
  ghost predicate IsFound(m: Model, text: string, f: Finding) {
    && ContainsText(Lower(SearchText(f)), Lower(text))
    && forall k: Kind :: k != SearchFor ==> FieldOk(Merged(m.filter, m.providerSel), k, f, m.catalog)
  }

  /** `/`, any text and Enter: the list shows exactly the findings that satisfy the
      other criteria and contain the text, in order and from the first on; all else
      stays. */
  lemma {:induction false} SearchShows(m: Model, text: string)
    requires IsNormal(m) && Ascii(text)
    ensures Run(m, Edited('/', text, Enter)) ==
      Some(m.(filtered := Where(m.all, (f: Finding) => IsFound(m, text, f)), filter := m.filter.(search := text), listCursor := 0, input := ""))
  {
    hide Run, FilterBy, Matches, IsFound;
    EditEnds(m, '/', text, Enter);
    var c := Merged(m.filter.(search := text), m.providerSel);
    FilterIsWhere(m.all, c, m.catalog);
    forall f ensures Matches(c, f, m.catalog) == IsFound(m, text, f) {
      SearchMatches(m, text, f);
    }
    SameWhere(m.all, (f: Finding) => Matches(c, f, m.catalog), (f: Finding) => IsFound(m, text, f));
  }

  lemma {:induction false} SearchMatches(m: Model, text: string, f: Finding)
    ensures Matches(Merged(m.filter.(search := text), m.providerSel), f, m.catalog) == IsFound(m, text, f)
  {
    hide ContainsText, Lower, SearchText, RawProvider;
    var c, before := Merged(m.filter.(search := text), m.providerSel), Merged(m.filter, m.providerSel);
    assert forall k: Kind :: k != SearchFor ==> FieldOk(c, k, f, m.catalog) == FieldOk(before, k, f, m.catalog);
    if text == "" {
      NothingIsContained(Lower(SearchText(f)));
      assert Lower(text) == "";
    }
  }

  /** `:`, a text that is no side command and Enter: the list shows exactly the findings
      that match the parsed line, whatever was filtered before, in order and from the
      first on. */
  lemma {:induction false} CommandShows(m: Model, text: string)
    requires IsNormal(m) && Ascii(text) && !IsSideCommand(text)
    ensures Run(m, Edited(':', text, Enter)) ==
      Some(m.(filtered := Where(m.all, (f: Finding) => Matches(Merged(ParseLine(text), m.providerSel), f, m.catalog)),
              filter := ParseLine(text), listCursor := 0, input := ""))
  {
    hide Run, FilterBy, Matches, ParseLine, TrimSpace, HasPrefix;
    EditEnds(m, ':', text, Enter);
    FilterIsWhere(m.all, Merged(ParseLine(text), m.providerSel), m.catalog);
  }

  /** A command about the live tail, a waiver or the diff. */
  predicate IsAside(text: string) {
    || text == "tail" || text == "untail" || text == "undiff" || "waive: " <= text
    || ("diff " <= text && |text| > 5 && !IsSpace(text[|text| - 1]))
  }

  /** These leave filter and list alone. */
  lemma {:induction false} SideCommandKeeps(m: Model, text: string)
    requires Inv(m) && IsNormal(m) && Ascii(text) && IsAside(text)
    ensures Run(m, Edited(':', text, Enter)) == Some(m.(listCursor := 0, input := ""))
  {
    hide Run, FilterBy, ParseLine, IsSideCommand, IsAside, Buckets;
    EditEnds(m, ':', text, Enter);
    IsAsideIsSide(text);
  }

  lemma {:induction false} IsAsideIsSide(text: string)
    requires IsAside(text)
    ensures IsSideCommand(text)
  {
    hide TrimSpace;
    if !("waive: " <= text) {
      Trimmed(text);
    }
  }

  lemma {:induction false} Trimmed(text: string)
    requires text != "" && !IsSpace(text[0]) && !IsSpace(text[|text| - 1])
    ensures TrimSpace(text) == text
  {
  }

  /** Esc leaves everything as it was, whatever was typed. */
  lemma {:induction false} EscapeKeeps(m: Model, open: char, text: string)
    requires IsNormal(m) && Ascii(text) && (open == '/' || open == ':')
    ensures Run(m, Edited(open, text, Esc)) == Some(m.(input := ""))
  {
    EditEnds(m, open, text, Esc);
  }

  /** Backspace takes back one character. */
  lemma {:induction false} BackspaceUndoes(m: Model, c: char)
    requires !m.helpMode && !m.graphMode && m.mode != Normal && c < 128 as char
    ensures Run(m, [Press(Char(c)), Press(Backspace)]) == Some(m)
  {
    RunStep(m, [], Press(Char(c)));
    RunStep(m, [Press(Char(c))], Press(Backspace));
    assert [] + [Press(Char(c))] == [Press(Char(c))];
    assert [Press(Char(c))] + [Press(Backspace)] == [Press(Char(c)), Press(Backspace)];
    assert (m.input + [c])[..|m.input|] == m.input;
  }

  // ---- moving -------------------------------------------------------------------------

  function Presses(key: Key, n: nat): seq<Event> {
    if n == 0 then [] else Presses(key, n - 1) + [Press(key)]
  }

  /** The rows of the pane in focus, and the one the cursor is on. */
  function Rows(m: Model): nat {
    match m.focused case TreePane => |m.providers| case ListPane => |m.filtered| case DetailPane => 1
  }

  function Cursor(m: Model): int {
    match m.focused case TreePane => m.treeCursor case ListPane => m.listCursor case DetailPane => 0
  }

  function MovedTo(m: Model, row: int): Model {
    match m.focused case TreePane => m.(treeCursor := row) case ListPane => m.(listCursor := row) case DetailPane => m
  }

  function Least(a: int, b: int): int {
    if a < b then a else b
  }

  function Greatest(a: int, b: int): int {
    if a > b then a else b
  }

  lemma {:induction false} OneKey(m: Model, key: Key)
    ensures Run(m, Presses(key, 1)) == Step(m, Press(key))
  {
    hide Step;
    RunStep(m, [], Press(key));
    assert [] + [Press(key)] == Presses(key, 0) + [Press(key)];
  }

  lemma {:induction false} MoveOne(m: Model, key: Key)
    requires IsNormal(m)
    ensures key == Char('j') || key == Down ==> Step(m, Press(key)) == Some(if Cursor(m) < Rows(m) - 1 then MovedTo(m, Cursor(m) + 1) else m)
    ensures key == Char('k') || key == Up ==> Step(m, Press(key)) == Some(if Cursor(m) > 0 then MovedTo(m, Cursor(m) - 1) else m)
  {
    hide RowsUnder, FilterBy;
  }

  lemma {:induction false} Moving(m: Model, row: int)
    ensures MovedTo(m, Cursor(m)) == m && Rows(MovedTo(m, row)) == Rows(m) && (IsNormal(m) ==> IsNormal(MovedTo(m, row)))
    ensures forall x: int :: MovedTo(MovedTo(m, row), x) == MovedTo(m, x)
    ensures Cursor(MovedTo(m, row)) == if m.focused == DetailPane then 0 else row
    ensures Inv(m) ==> InRange(Cursor(m), Rows(m))
    ensures m.focused == DetailPane ==> MovedTo(m, row) == m && Rows(m) == 1 && Cursor(m) == 0
  {
  }

  /** `j` or the arrow, n times: n rows down, at most to the last one. */
  lemma {:induction false} DownMoves(m: Model, key: Key, n: nat)
    requires Inv(m) && IsNormal(m) && (key == Char('j') || key == Down)
    ensures Run(m, Presses(key, n)) == Some(MovedTo(m, Least(Cursor(m) + n, Greatest(Rows(m) - 1, 0))))
  {
    hide Inv, Run, Step, MovedTo, Rows, Cursor, IsNormal;
    Moving(m, Least(Cursor(m) + n, Greatest(Rows(m) - 1, 0)));
    RunStep(m, [], TailEnded);
    if n > 0 {
      var row := Least(Cursor(m) + (n - 1), Greatest(Rows(m) - 1, 0));
      DownMoves(m, key, n - 1);
      RunStep(m, Presses(key, n - 1), Press(key));
      Moving(m, row);
      MoveOne(MovedTo(m, row), key);
    }
  }

  /** `k` or the arrow, n times: n rows up, at most to the first one. */
  lemma {:induction false} UpMoves(m: Model, key: Key, n: nat)
    requires Inv(m) && IsNormal(m) && (key == Char('k') || key == Up)
    ensures Run(m, Presses(key, n)) == Some(MovedTo(m, Greatest(Cursor(m) - n, 0)))
  {
    hide Inv, Run, Step, MovedTo, Rows, Cursor, IsNormal;
    Moving(m, Greatest(Cursor(m) - n, 0));
    RunStep(m, [], TailEnded);
    if n > 0 {
      var row := Greatest(Cursor(m) - (n - 1), 0);
      UpMoves(m, key, n - 1);
      RunStep(m, Presses(key, n - 1), Press(key));
      Moving(m, row);
      MoveOne(MovedTo(m, row), key);
    }
  }

  /** `g` and `G` go to the ends of the pane in focus. */
  lemma {:induction false} EndsAreReached(m: Model)
    requires IsNormal(m)
    ensures Run(m, Presses(Char('g'), 1)) == Some(MovedTo(m, 0))
    ensures Run(m, Presses(Char('G'), 1)) == Some(MovedTo(m, Greatest(Rows(m) - 1, 0)))
  {
    hide Run, RowsUnder, FilterBy;
    OneKey(m, Char('g'));
    OneKey(m, Char('G'));
  }

  /** The row reached by going round `size` rows. */
  function Wrapped(x: int, size: nat): (row: int)
    requires size > 0
    ensures 0 <= row < size
  {
    x % size
  }

  lemma {:induction false} SearchOne(m: Model)
    requires IsNormal(m) && m.filtered != []
    ensures var size := |m.filtered|;
      && Step(m, Press(Char('n'))) == Some(m.(listCursor := Wrapped(m.listCursor + 1 + size, size)))
      && Step(m, Press(Char('N'))) == Some(m.(listCursor := Wrapped(m.listCursor - 1 + size, size)))
  {
    hide RowsUnder, FilterBy;
  }

  /** `n` and `N`, n times, go round the list, in any pane. */
  lemma {:induction false} SearchGoesRound(m: Model, n: nat)
    requires Inv(m) && IsNormal(m) && m.filtered != []
    ensures Run(m, Presses(Char('n'), n)) == Some(m.(listCursor := Wrapped(m.listCursor + n, |m.filtered|)))
    ensures Run(m, Presses(Char('N'), n)) == Some(m.(listCursor := Wrapped(m.listCursor - n, |m.filtered|)))
  {
    hide FilterBy, Buckets, Run, Step, Wrapped;
    var size, at := |m.filtered|, m.listCursor;
    RunStep(m, [], TailEnded);
    if n > 0 {
      SearchGoesRound(m, n - 1);
      RunStep(m, Presses(Char('n'), n - 1), Press(Char('n')));
      RunStep(m, Presses(Char('N'), n - 1), Press(Char('N')));
      SearchOne(m.(listCursor := Wrapped(at + (n - 1), size)));
      SearchOne(m.(listCursor := Wrapped(at - (n - 1), size)));
      RemainderMoves(at + (n - 1), 1, size);
      RemainderMoves(at - (n - 1), -1, size);
    } else {
      SmallRemainder(at, size);
    }
  }

  lemma {:induction false} SmallRemainder(x: int, size: nat)
    requires 0 <= x < size
    ensures Wrapped(x, size) == x
  {
  }

  lemma {:induction false} RemainderMoves(x: int, d: int, size: nat)
    requires size > 0
    ensures Wrapped(Wrapped(x, size) + d + size, size) == Wrapped(x + d, size)
  {
    var q, r := x / size, x % size;
    assert x == q * size + r;
    var y := r + d + size;
    var p, t := y / size, y % size;
    assert x + d == (q + p - 1) * size + t;
    QuotientIsUnique(x + d, q + p - 1, t, size);
  }

  lemma {:induction false} QuotientIsUnique(x: int, q: int, r: int, size: nat)
    requires size > 0 && x == q * size + r && 0 <= r < size
    ensures x % size == r
  {
    var p, t := x / size, x % size;
    assert (q - p) * size == t - r;
    ProductGrows(q - p, size);
    ProductGrows(p - q, size);
  }

  lemma {:induction false} ProductGrows(a: int, b: nat)
    ensures a >= 1 ==> a * b >= b
  {
  }

  /** Tab goes from the providers to the list, from there to the detail, and back. */
  lemma {:induction false} TabGoesRound(m: Model)
    requires IsNormal(m)
    ensures Run(m, Presses(Tab, 1)) ==
      Some(m.(focused := if m.focused == TreePane then ListPane else if m.focused == ListPane then DetailPane else TreePane))
  {
    hide Run, RowsUnder, FilterBy;
    OneKey(m, Tab);
  }

  // ---- selecting -----------------------------------------------------------------------

  /** Backspace clears the provider selected in the tree: the list shows all findings
      that match the filter alone. */
  lemma {:induction false} BackspaceShowsAll(m: Model)
    requires IsNormal(m) && (m.focused == TreePane || m.providerSel != "")
    ensures var r := Run(m, Presses(Backspace, 1));
      && r.Some? && r.value.providerSel == "" && r.value.filter == m.filter
      && r.value.filtered == Where(m.all, (f: Finding) => Matches(m.filter, f, m.catalog))
  {
    hide Run, Matches, FilterBy, RowsUnder;
    OneKey(m, Backspace);
    FilterIsWhere(m.all, m.filter, m.catalog);
  }

  /** Enter in the graph shows the findings of the provider of the row, if it has one,
      that contain its resource and satisfy the other criteria, and closes the graph. */
  ghost predicate IsUnder(m: Model, row: Node, f: Finding) {
    && ContainsText(Lower(SearchText(f)), Lower(row.resourceKey))
    && (if row.providerKey != "" then RawProvider(f) == row.providerKey else FieldOk(m.filter, ProviderIs, f, m.catalog))
    && forall k: Kind :: k != SearchFor && k != ProviderIs ==> FieldOk(m.filter, k, f, m.catalog)
  }

  lemma {:induction false} GraphEnter(m: Model)
    requires m.graphMode && !m.helpMode && 0 <= m.graphCursor < |m.graphRows|
    ensures var r, row := Step(m, Press(Enter)), m.graphRows[m.graphCursor];
      var c := m.filter.(search := row.resourceKey);
      && r.Some? && !r.value.graphMode && r.value.providerSel == row.providerKey && r.value.filter == c
      && r.value.filtered == FilterBy(m.all, Merged(c, row.providerKey), m.catalog)
  {
    hide FilterBy, Merged;
  }

  lemma {:induction false} GraphRowShows(m: Model)
    requires m.graphMode && !m.helpMode && 0 <= m.graphCursor < |m.graphRows|
    ensures var r, row := Run(m, Presses(Enter, 1)), m.graphRows[m.graphCursor];
      && r.Some? && !r.value.graphMode && r.value.providerSel == row.providerKey && r.value.filter == m.filter.(search := row.resourceKey)
      && r.value.filtered == Where(m.all, (f: Finding) => IsUnder(m, row, f))
  {
    hide FilterBy, Matches, IsUnder, Step, Run;
    OneKey(m, Enter);
    GraphEnter(m);
    var row := m.graphRows[m.graphCursor];
    var c := Merged(m.filter.(search := row.resourceKey), row.providerKey);
    FilterIsWhere(m.all, c, m.catalog);
    forall f ensures Matches(c, f, m.catalog) == IsUnder(m, row, f) {
      RowMatches(m, row, f);
    }
    SameWhere(m.all, (f: Finding) => Matches(c, f, m.catalog), (f: Finding) => IsUnder(m, row, f));
  }

  lemma {:induction false} RowMatches(m: Model, row: Node, f: Finding)
    ensures Matches(Merged(m.filter.(search := row.resourceKey), row.providerKey), f, m.catalog) == IsUnder(m, row, f)
  {
    hide ContainsText, Lower, SearchText, RawProvider;
    var c := Merged(m.filter.(search := row.resourceKey), row.providerKey);
    assert forall k: Kind :: k != SearchFor && k != ProviderIs ==> FieldOk(c, k, f, m.catalog) == FieldOk(m.filter, k, f, m.catalog);
    if row.resourceKey == "" {
      NothingIsContained(Lower(SearchText(f)));
      assert Lower(row.resourceKey) == "";
    }
  }

  /** In particular those the row counts, if they satisfy the other criteria, unless its
      labels stand for a missing provider or name. */
  lemma {:induction false} GraphRowShowsItsOwn(m: Model, path: seq<string>, f: Finding)
    requires m.graphMode && !m.helpMode && 0 <= m.graphCursor < |m.graphRows| && 1 <= |path| <= 3
    requires m.graphRows[m.graphCursor] == Row(m.all, path) && path[0] != "(unknown)" && (|path| == 3 ==> path[2] != "(unnamed)")
    requires f in m.all && path <= PathOf(f)
    requires forall k: Kind :: k != SearchFor && k != ProviderIs ==> FieldOk(m.filter, k, f, m.catalog)
    ensures var r := Run(m, Presses(Enter, 1)); r.Some? && f in r.value.filtered
  {
    hide Run, Count, Worst, FieldOk, Merged;
    GraphRowShows(m);
    var row := m.graphRows[m.graphCursor];
    OwnLabels(path, f);
    if |path| < 3 {
      NothingIsContained(Lower(SearchText(f)));
      assert Lower("") == "";
    }
    assert IsUnder(m, row, f);
    WhereMembers(m.all, (f: Finding) => IsUnder(m, row, f));
  }

  lemma {:induction false} OwnLabels(path: seq<string>, f: Finding)
    requires 1 <= |path| <= 3 && path <= PathOf(f) && path[0] != "(unknown)" && (|path| == 3 ==> path[2] != "(unnamed)")
    ensures RawProvider(f) == path[0]
    ensures |path| == 3 ==> ContainsText(Lower(SearchText(f)), Lower(path[2]))
  {
    hide ContainsText, Lower, SearchText;
    assert path[0] == PathOf(f)[0];
    if |path| == 3 {
      assert path[2] == PathOf(f)[2];
      ItselfContained(Lower(path[2]));
      SearchFindsFields(f, path[2], path[2]);
    }
  }

  lemma {:induction false} ItselfContained(s: string)
    ensures ContainsText(s, s)
  {
  }

  /** Enter on a provider shows its findings that match the filter and goes to the list,
      and from there to the detail. */
  lemma {:induction false} EnterGoesOn(m: Model)
    requires Inv(m) && IsNormal(m)
    ensures m.focused == TreePane && m.providers != [] ==>
      var r, name := Run(m, Presses(Enter, 1)), m.providers[m.treeCursor].name;
      && r.Some? && r.value.focused == ListPane && r.value.providerSel == name && r.value.filter == m.filter
      && r.value.filtered == Where(m.all, (f: Finding) => Matches(Merged(m.filter, name), f, m.catalog))
    ensures m.focused == ListPane ==> Run(m, Presses(Enter, 1)) == Some(m.(focused := DetailPane))
    ensures m.focused == DetailPane ==> Run(m, Presses(Enter, 1)) == Some(m)
  {
    hide Run, FilterBy, Matches, Buckets, RowsUnder;
    OneKey(m, Enter);
    if m.focused == TreePane && m.providers != [] {
      FilterIsWhere(m.all, Merged(m.filter, m.providers[m.treeCursor].name), m.catalog);
    }
  }

  // ---- the start, the graph and waivers -------------------------------------------------

  /** At the start, and after `:reset`, every finding is shown. */
  lemma {:induction false} AllIsShown(cat: Catalog, fs: seq<Finding>)
    ensures var m := NewModel(cat, fs); m.filtered == fs && IsNormal(m) && m.focused == ListPane && m.all == fs
    ensures ParseLine("reset") == NO_CRITERIA
  {
    hide FilterBy, Buckets, ParseLine;
    NothingFiltered(fs, cat);
    ResetIsEmpty();
  }

  lemma {:induction false} ResetIsEmpty()
    ensures ParseLine("reset") == NO_CRITERIA
  {
    hide ParseTokens, Fields, TrimSpace;
    FieldsAreWords("reset", ' ', "");
    OnlyReset("reset");
    assert "reset"[0] != ':';
  }

  /** `R` opens the tree of all findings at its first row; `R` and Esc close it and leave
      everything else as it was. */
  lemma {:induction false} GraphOpensAndCloses(m: Model)
    requires IsNormal(m)
    ensures var open := m.(graphRows := RowsUnder(m.all, []), graphCursor := 0, graphMode := true);
      && Run(m, Presses(Char('R'), 1)) == Some(open)
      && Run(open, Presses(Char('R'), 1)) == Some(open.(graphMode := false))
      && Run(open, Presses(Esc, 1)) == Some(open.(graphMode := false))
  {
    hide Run, RowsUnder, FilterBy;
    var open := m.(graphRows := RowsUnder(m.all, []), graphCursor := 0, graphMode := true);
    OneKey(m, Char('R'));
    OneKey(open, Char('R'));
    OneKey(open, Esc);
  }

  /** In the tree the cursor moves by a row, and to the ends. */
  lemma {:induction false} GraphMoves(m: Model)
    requires m.graphMode && !m.helpMode && 0 <= m.graphCursor < |m.graphRows|
    ensures forall key :: key == Char('j') || key == Down ==>
      Step(m, Press(key)) == Some(m.(graphCursor := Least(m.graphCursor + 1, |m.graphRows| - 1)))
    ensures forall key :: key == Char('k') || key == Up ==> Step(m, Press(key)) == Some(m.(graphCursor := Greatest(m.graphCursor - 1, 0)))
    ensures Step(m, Press(Char('g'))) == Some(m.(graphCursor := 0))
    ensures Step(m, Press(Char('G'))) == Some(m.(graphCursor := |m.graphRows| - 1))
  {
    hide GraphSelect;
  }

  /** `w` opens a command line for a waiver of the selected finding, if there is one. */
  lemma {:induction false} WaiverIsOpened(m: Model)
    requires Inv(m) && IsNormal(m)
    ensures Run(m, Presses(Char('w'), 1)) == Some(if m.filtered == [] then m else m.(mode := Command, input := "waive: "))
    ensures Run(m, Presses(Char('r'), 1)) == Some(m)
  {
    hide Run, FilterBy, Buckets, RowsUnder;
    OneKey(m, Char('w'));
    OneKey(m, Char('r'));
  }

  /** A new size is kept, and changes nothing else. */
  lemma {:induction false} SizeIsKept(m: Model, width: int, height: int)
    ensures Step(m, Resize(width, height)) == Some(m.(width := width, height := height)) && Step(m, TailEnded) == Some(m)
  {
  }

  // ---- help ------------------------------------------------------------------------------

  /** While the help is shown no key does anything but `?` and Esc, which hide it. */
  lemma {:induction false} HelpIsInert(m: Model, keys: seq<Key>, close: Key)
    requires IsNormal(m) && (close == Esc || close == Char('?'))
    requires forall i :: 0 <= i < |keys| ==> keys[i] != Esc && keys[i] != Char('?')
    ensures Run(m, [Press(Char('?'))] + Pressed(keys) + [Press(close)]) == Some(m)
  {
    InertSoFar(m, keys);
    RunStep(m, [Press(Char('?'))] + Pressed(keys), Press(close));
  }

  function Pressed(keys: seq<Key>): seq<Event> {
    if keys == [] then [] else Pressed(keys[..|keys| - 1]) + [Press(keys[|keys| - 1])]
  }

  lemma {:induction false} InertSoFar(m: Model, keys: seq<Key>)
    requires IsNormal(m) && forall i :: 0 <= i < |keys| ==> keys[i] != Esc && keys[i] != Char('?')
    ensures Run(m, [Press(Char('?'))] + Pressed(keys)) == Some(m.(helpMode := true))
  {
    var start := [Press(Char('?'))];
    if keys == [] {
      RunStep(m, [], Press(Char('?')));
      assert [] + start == start && start + [] == start;
    } else {
      var init, e := keys[..|keys| - 1], Press(keys[|keys| - 1]);
      InertSoFar(m, init);
      RunStep(m, start + Pressed(init), e);
      assert start + Pressed(keys) == start + Pressed(init) + [e];
    }
  }
}
