/** internal/tui/commands.go: the filter criteria and the `:` command line. */
module Commands {
  import opened Text
  import opened Seqs
  import opened Findings
  import opened ResourceTree

  datatype Criteria = Criteria(
    sevEq: Option<Severity>,
    sevGte: Option<Severity>,
    statusEq: string,
    provider: string,
    checkSub: string,
    frameworkID: string,
    search: string)

  const NO_CRITERIA := Criteria(None, None, "", "", "", "", "")

  /** The registered checks, each with the frameworks it belongs to. */
  type Catalog = map<string, set<string>>

  /** One criterion per kind of token, and the `/` search. */
  datatype Kind = SevGte | SevEq | StatusIs | ProviderIs | CheckHas | InFramework | SearchFor

  function SearchText(f: Finding): string {
    f.checkID + " " + f.resource.name + " " + f.resource.id + " " + f.message
  }

  predicate FieldOk(c: Criteria, k: Kind, f: Finding, cat: Catalog) {
    match k
    case SevGte => c.sevGte.None? || f.severity >= c.sevGte.value
    case SevEq => c.sevEq.None? || f.severity == c.sevEq.value
    case StatusIs => c.statusEq == "" || f.status.Text() == c.statusEq
    case ProviderIs => c.provider == "" || RawProvider(f) == c.provider
    case CheckHas => c.checkSub == "" || ContainsText(f.checkID, c.checkSub)
    case InFramework => c.frameworkID == "" || (f.checkID in cat && c.frameworkID in cat[f.checkID])
    case SearchFor => c.search == "" || ContainsText(Lower(SearchText(f)), Lower(c.search))
  }

  /** filterCriteria.apply */
  predicate Matches(c: Criteria, f: Finding, cat: Catalog) {
    && FieldOk(c, SevEq, f, cat) && FieldOk(c, SevGte, f, cat)
    && FieldOk(c, StatusIs, f, cat) && FieldOk(c, ProviderIs, f, cat)
    && FieldOk(c, CheckHas, f, cat) && FieldOk(c, InFramework, f, cat)
    && FieldOk(c, SearchFor, f, cat)
  }

  function ParseSeverity(s: string): Severity {
    var t := Lower(s);
    if t == "critical" || t == "crit" then CRITICAL
    else if t == "high" then HIGH
    else if t == "medium" || t == "med" then MEDIUM
    else if t == "low" then LOW
    else INFO
  }

  /** The kind of a token, if it is one the parser knows. */
  function KindOf(tok: string): Option<Kind> {
    if HasPrefix(tok, "sev>=") then Some(SevGte)
    else if HasPrefix(tok, "sev=") then Some(SevEq)
    else if HasPrefix(tok, "status=") then Some(StatusIs)
    else if HasPrefix(tok, "provider=") then Some(ProviderIs)
    else if HasPrefix(tok, "check=") then Some(CheckHas)
    else if HasPrefix(tok, "fw=") then Some(InFramework)
    else None
  }

  /** What one token does to the criteria collected so far. */
  function Absorb(c: Criteria, tok: string): Criteria {
    match KindOf(tok)
    case None => c
    case Some(SevGte) => c.(sevGte := Some(ParseSeverity(tok[|"sev>="|..])))
    case Some(SevEq) => c.(sevEq := Some(ParseSeverity(tok[|"sev="|..])))
    case Some(StatusIs) => c.(statusEq := tok[|"status="|..])
    case Some(ProviderIs) => c.(provider := tok[|"provider="|..])
    case Some(CheckHas) => c.(checkSub := tok[|"check="|..])
    case Some(InFramework) => c.(frameworkID := tok[|"fw="|..])
    case Some(SearchFor) => c
  }

  function ParseTokens(toks: seq<string>): Criteria {
    if toks == [] then NO_CRITERIA else Absorb(ParseTokens(toks[..|toks| - 1]), toks[|toks| - 1])
  }

  /** unicode.IsSpace */
  predicate IsSpace(c: char) {
    || '\t' <= c <= '\r' || c == ' ' || c == '\U{85}' || c == '\U{A0}' || c == '\U{1680}'
    || '\U{2000}' <= c <= '\U{200A}' || c == '\U{2028}' || c == '\U{2029}' || c == '\U{202F}'
    || c == '\U{205F}' || c == '\U{3000}'
  }

  function TrimLeft(s: string): string {
    if s != [] && IsSpace(s[0]) then TrimLeft(s[1..]) else s
  }

  function TrimRight(s: string): string {
    if s != [] && IsSpace(s[|s| - 1]) then TrimRight(s[..|s| - 1]) else s
  }

  function TrimSpace(s: string): string {
    TrimRight(TrimLeft(s))
  }

  /** strings.Fields; `word` is the field being read. */
  function FieldsFrom(s: string, word: string): seq<string> {
    if s == [] then (if word == [] then [] else [word])
    else if IsSpace(s[0]) then (if word == [] then [] else [word]) + FieldsFrom(s[1..], [])
    else FieldsFrom(s[1..], word + [s[0]])
  }

  function Fields(s: string): seq<string> {
    FieldsFrom(s, [])
  }

  function ParseLine(line: string): Criteria {
    var t := TrimSpace(TrimPrefix(line, ":"));
    if t == "" || t == "reset" then NO_CRITERIA else ParseTokens(Fields(t))
  }

  method ParseCommandLine(line: string) returns (out: Criteria)
    ensures out == ParseLine(line)
  {
    out := NO_CRITERIA;
    var rest := TrimSpace(TrimPrefix(line, ":"));
    if rest == "" || rest == "reset" {
      return;
    }
    var toks := Fields(rest);
    for i := 0 to |toks|
      invariant out == ParseTokens(toks[..i])
    {
      var tok := toks[i];
      assert toks[..i + 1][..i] == toks[..i];
      if HasPrefix(tok, "sev>=") {
        out := out.(sevGte := Some(ParseSeverity(tok[|"sev>="|..])));
        continue;
      }
      if HasPrefix(tok, "sev=") {
        out := out.(sevEq := Some(ParseSeverity(tok[|"sev="|..])));
        continue;
      }
      if HasPrefix(tok, "status=") {
        out := out.(statusEq := tok[|"status="|..]);
        continue;
      }
      if HasPrefix(tok, "provider=") {
        out := out.(provider := tok[|"provider="|..]);
        continue;
      }
      if HasPrefix(tok, "check=") {
        out := out.(checkSub := tok[|"check="|..]);
        continue;
      }
      if HasPrefix(tok, "fw=") {
        out := out.(frameworkID := tok[|"fw="|..]);
        continue;
      }
    }
    assert toks[..|toks|] == toks;
  }

  /** A token matters unless a later one of its kind replaces it. */
  ghost predicate Counts(toks: seq<string>, i: nat)
    requires i < |toks|
  {
    KindOf(toks[i]).Some? && forall j :: i < j < |toks| ==> KindOf(toks[j]) != KindOf(toks[i])
  }

  lemma {:induction false} AbsorbSetsOneField(c: Criteria, tok: string, k: Kind, f: Finding, cat: Catalog)
    ensures KindOf(tok) != Some(k) ==> FieldOk(Absorb(c, tok), k, f, cat) == FieldOk(c, k, f, cat)
    ensures KindOf(tok) == Some(k) ==> FieldOk(Absorb(c, tok), k, f, cat) == FieldOk(Absorb(NO_CRITERIA, tok), k, f, cat)
  {
    hide HasPrefix, ContainsText, Lower, ParseSeverity, RawProvider;
  }

  lemma {:induction false} NoCriteriaMatch(k: Kind, f: Finding, cat: Catalog)
    ensures FieldOk(NO_CRITERIA, k, f, cat)
  {
  }

  lemma {:induction false} OneToken(tok: string, k: Kind, f: Finding, cat: Catalog)
    requires KindOf(tok) == Some(k)
    ensures Matches(ParseTokens([tok]), f, cat) == FieldOk(Absorb(NO_CRITERIA, tok), k, f, cat)
  {
    hide FieldOk, KindOf, Absorb;
    assert [tok][..0] == [];
    assert ParseTokens([tok]) == Absorb(NO_CRITERIA, tok);
    forall j: Kind ensures j != k ==> FieldOk(Absorb(NO_CRITERIA, tok), j, f, cat) {
      AbsorbSetsOneField(NO_CRITERIA, tok, j, f, cat);
      NoCriteriaMatch(j, f, cat);
    }
  }

  /** The token of kind `k` that matters, if any, decides the criterion `k`. */
  lemma {:induction false} LastTokenDecides(toks: seq<string>, k: Kind, f: Finding, cat: Catalog)
    ensures FieldOk(ParseTokens(toks), k, f, cat) <==>
      forall i :: 0 <= i < |toks| && Counts(toks, i) && KindOf(toks[i]) == Some(k) ==> Matches(ParseTokens([toks[i]]), f, cat)
  {
    hide FieldOk, KindOf, Absorb, Matches;
    if toks == [] {
      NoCriteriaMatch(k, f, cat);
    } else {
      var n := |toks| - 1;
      var init, tok := toks[..n], toks[n];
      LastTokenDecides(init, k, f, cat);
      AbsorbSetsOneField(ParseTokens(init), tok, k, f, cat);
      if KindOf(tok) == Some(k) {
        OneToken(tok, k, f, cat);
        assert Counts(toks, n);
        assert forall i :: 0 <= i < n && KindOf(toks[i]) == Some(k) ==> !Counts(toks, i);
      } else {
        forall i | 0 <= i < n && KindOf(toks[i]) == Some(k) ensures Counts(toks, i) <==> Counts(init, i) {
          assert forall j :: i < j < n ==> init[j] == toks[j];
        }
      }
    }
  }

  /** Chained criteria are a conjunction of those tokens that matter. Without two
      tokens of one kind that is all of them, as documented; with a repeated kind
      the last one alone counts, and unknown tokens never do. */
  lemma {:induction false} ChainMeans(toks: seq<string>, f: Finding, cat: Catalog)
    ensures Matches(ParseTokens(toks), f, cat) <==>
      forall i :: 0 <= i < |toks| && Counts(toks, i) ==> Matches(ParseTokens([toks[i]]), f, cat)
  {
    hide FieldOk, KindOf;
    forall k: Kind {
      LastTokenDecides(toks, k, f, cat);
    }
    assert FieldOk(ParseTokens(toks), SearchFor, f, cat) by {
      NoSearch(toks, f, cat);
    }
  }

  lemma {:induction false} NoSearch(toks: seq<string>, f: Finding, cat: Catalog)
    ensures ParseTokens(toks).search == ""
    ensures FieldOk(ParseTokens(toks), SearchFor, f, cat)
  {
    hide KindOf;
    if toks != [] {
      NoSearch(toks[..|toks| - 1], f, cat);
    }
  }

  // ---- what a command line asks for ------------------------------------------------------

  /** What a token demands of a finding; an unknown one demands nothing. */
  predicate Demands(tok: string, f: Finding, cat: Catalog) {
    if "sev>=" <= tok then f.severity >= ParseSeverity(tok[5..])
    else if "sev=" <= tok then f.severity == ParseSeverity(tok[4..])
    else if "status=" <= tok then tok == "status=" || f.status.Text() == tok[7..]
    else if "provider=" <= tok then tok == "provider=" || RawProvider(f) == tok[9..]
    else if "check=" <= tok then ContainsText(f.checkID, tok[6..])
    else if "fw=" <= tok then tok == "fw=" || (f.checkID in cat && tok[3..] in cat[f.checkID])
    else true
  }

  lemma {:induction false} NothingIsContained(s: string)
    ensures ContainsText(s, "")
  {
  }

  lemma {:induction false} TokenDemands(tok: string, f: Finding, cat: Catalog)
    ensures Matches(ParseTokens([tok]), f, cat) <==> Demands(tok, f, cat)
  {
    hide ContainsText, Lower, ParseSeverity, RawProvider, Matches, ParseTokens;
    if KindOf(tok).Some? {
      OneToken(tok, KindOf(tok).value, f, cat);
      NothingIsContained(f.checkID);
    } else {
      UnknownToken(tok);
      NothingDemanded(f, cat);
    }
  }

  lemma {:induction false} UnknownToken(tok: string)
    requires KindOf(tok).None?
    ensures ParseTokens([tok]) == NO_CRITERIA
  {
    assert [tok][..0] == [];
  }

  /** A command line shows exactly the findings that meet the demand of the last token
      of each kind, in the words of the line. */
  lemma {:induction false} LineDemands(line: string, f: Finding, cat: Catalog)
    ensures var toks := Fields(TrimPrefix(line, ":"));
      Matches(ParseLine(line), f, cat) <==>
        toks == ["reset"] || forall i :: 0 <= i < |toks| && Counts(toks, i) ==> Demands(toks[i], f, cat)
  {
    hide Matches, Demands, ParseTokens, Counts, Fields, TrimSpace;
    var t := TrimPrefix(line, ":");
    FieldsIgnoreEnds(t);
    OnlyReset(t);
    var toks := Fields(t);
    ChainMeans(toks, f, cat);
    forall i | 0 <= i < |toks| ensures Matches(ParseTokens([toks[i]]), f, cat) <==> Demands(toks[i], f, cat) {
      TokenDemands(toks[i], f, cat);
    }
    NothingDemanded(f, cat);
  }

  lemma {:induction false} NothingDemanded(f: Finding, cat: Catalog)
    ensures Matches(NO_CRITERIA, f, cat)
  {
    forall k: Kind {
      NoCriteriaMatch(k, f, cat);
    }
  }

  /** `status=` asks for a status by its name in the findings. */
  lemma {:induction false} StatusesAreNamed(f: Finding, cat: Catalog)
    ensures Demands("status=pass", f, cat) <==> f.status == Pass || f.status == Other("pass")
    ensures Demands("status=fail", f, cat) <==> f.status == Fail || f.status == Other("fail")
    ensures Demands("status=error", f, cat) <==> f.status == Error || f.status == Other("error")
    ensures Demands("status=skip", f, cat) <==> f.status == Skip || f.status == Other("skip")
  {
    hide Demands;
    StatusDemand("pass", f, cat);
    StatusDemand("fail", f, cat);
    StatusDemand("error", f, cat);
    StatusDemand("skip", f, cat);
    assert "status=" + "pass" == "status=pass" && "status=" + "fail" == "status=fail";
    assert "status=" + "error" == "status=error" && "status=" + "skip" == "status=skip";
    assert "pass"[0] == 'p' && "fail"[0] == 'f' && "error"[0] == 'e' && "skip"[0] == 's';
  }

  lemma {:induction false} StatusDemand(name: string, f: Finding, cat: Catalog)
    requires name != ""
    ensures Demands("status=" + name, f, cat) <==> f.status.Text() == name
  {
    var tok := "status=" + name;
    assert tok[7..] == name && tok[0] == 's' && tok[1] == 't' && tok != "status=";
    assert "sev>="[1] == 'e' && "sev="[1] == 'e';
  }

  // ---- words ------------------------------------------------------------------------------

  predicate IsWord(w: string) {
    w != "" && forall i :: 0 <= i < |w| ==> !IsSpace(w[i])
  }

  lemma {:induction false} WordRead(s: string, word: string)
    requires forall i :: 0 <= i < |s| ==> !IsSpace(s[i])
    ensures FieldsFrom(s, word) == if word + s == "" then [] else [word + s]
  {
    if s != [] {
      WordRead(s[1..], word + [s[0]]);
      assert word + [s[0]] + s[1..] == word + s;
    } else {
      assert word + s == word;
    }
  }

  /** The fields of a line are its words: none in nothing, one in a word, and a space of
      any kind separates. */
  lemma {:induction false} FieldsAreWords(a: string, c: char, b: string)
    requires IsSpace(c)
    ensures Fields("") == []
    ensures IsWord(a) ==> Fields(a) == [a]
    ensures Fields(a + [c] + b) == Fields(a) + Fields(b)
    ensures forall w :: w in Fields(a) ==> IsWord(w)
  {
    if IsWord(a) {
      WordRead(a, "");
      assert "" + a == a;
    }
    SpaceSeparates(a, c, b, "");
    OnlyWords(a, "");
  }

  lemma {:induction false} SpaceSeparates(a: string, c: char, b: string, word: string)
    requires IsSpace(c)
    ensures FieldsFrom(a + [c] + b, word) == FieldsFrom(a, word) + Fields(b)
  {
    var s := a + [c] + b;
    if a == [] {
      assert s[0] == c && s[1..] == b;
    } else {
      assert s[0] == a[0] && s[1..] == a[1..] + [c] + b;
      SpaceSeparates(a[1..], c, b, if IsSpace(a[0]) then [] else word + [a[0]]);
    }
  }

  lemma {:induction false} OnlyWords(s: string, word: string)
    requires word == "" || IsWord(word)
    ensures forall w :: w in FieldsFrom(s, word) ==> IsWord(w)
  {
    if s != [] {
      OnlyWords(s[1..], if IsSpace(s[0]) then [] else word + [s[0]]);
    }
  }

  lemma {:induction false} FieldsIgnoreEnds(s: string)
    ensures Fields(TrimSpace(s)) == Fields(s)
    ensures TrimSpace(s) == "" <==> Fields(s) == []
  {
    LeftIgnored(s);
    RightIgnored(TrimLeft(s));
    var t := TrimSpace(s);
    TrimmedRight(TrimLeft(s));
    if t != "" {
      LastWordRead(t, "");
    }
  }

  lemma {:induction false} LeftIgnored(s: string)
    ensures Fields(TrimLeft(s)) == Fields(s)
  {
    if s != [] && IsSpace(s[0]) {
      LeftIgnored(s[1..]);
    }
  }

  lemma {:induction false} RightIgnored(s: string)
    ensures Fields(TrimRight(s)) == Fields(s)
  {
    if s != [] && IsSpace(s[|s| - 1]) {
      var init := s[..|s| - 1];
      RightIgnored(init);
      assert s == init + [s[|s| - 1]] + "";
      SpaceSeparates(init, s[|s| - 1], "", "");
      assert Fields(init) + [] == Fields(init);
    }
  }

  lemma {:induction false} TrimmedRight(s: string)
    ensures TrimRight(s) == "" || !IsSpace(TrimRight(s)[|TrimRight(s)| - 1])
  {
    if s != [] && IsSpace(s[|s| - 1]) {
      TrimmedRight(s[..|s| - 1]);
    }
  }

  lemma {:induction false} LastWordRead(s: string, word: string)
    requires s != "" && !IsSpace(s[|s| - 1])
    ensures FieldsFrom(s, word) != []
  {
    if |s| > 1 {
      assert s[1..][|s| - 2] == s[|s| - 1];
      LastWordRead(s[1..], if IsSpace(s[0]) then [] else word + [s[0]]);
    }
  }

  lemma {:induction false} WordStarted(s: string, word: string)
    requires word != ""
    ensures FieldsFrom(s, word) != []
  {
    if s != [] && !IsSpace(s[0]) {
      WordStarted(s[1..], word + [s[0]]);
    }
  }

  lemma {:induction false} TrimmedLeft(s: string)
    ensures TrimLeft(s) == "" || !IsSpace(TrimLeft(s)[0])
  {
    if s != [] && IsSpace(s[0]) {
      TrimmedLeft(s[1..]);
    }
  }

  lemma {:induction false} RightKeepsFirst(s: string)
    ensures TrimRight(s) <= s
  {
    if s != [] && IsSpace(s[|s| - 1]) {
      RightKeepsFirst(s[..|s| - 1]);
    }
  }

  /** A line whose ends are no spaces is one word or has two fields. */
  lemma {:induction false} OneOrMoreFields(t: string)
    requires t != "" && !IsSpace(t[0]) && !IsSpace(t[|t| - 1])
    ensures Fields(t) == [t] || |Fields(t)| > 1
  {
    if i :| 0 <= i < |t| && IsSpace(t[i]) {
      var a, b := t[..i], t[i + 1..];
      assert t == a + [t[i]] + b;
      FieldsAreWords(a, t[i], b);
      assert [] + [a[0]] == [a[0]];
      WordStarted(a[1..], [a[0]]);
      assert b[|b| - 1] == t[|t| - 1];
      LastWordRead(b, "");
    } else {
      FieldsAreWords(t, ' ', "");
    }
  }

  /** Only the line "reset" has that one field. */
  lemma {:induction false} OnlyReset(s: string)
    ensures Fields(s) == ["reset"] <==> TrimSpace(s) == "reset"
  {
    FieldsIgnoreEnds(s);
    FieldsAreWords("reset", ' ', "");
    TrimmedLeft(s);
    TrimmedRight(TrimLeft(s));
    RightKeepsFirst(TrimLeft(s));
    if TrimSpace(s) != "" {
      OneOrMoreFields(TrimSpace(s));
    }
  }

  // ---- severities and searches ----------------------------------------------------------------

  /** The names of the severities and the two short forms are read, in any case, and
      anything else as info. */
  lemma {:induction false} SeverityIsReadBack(level: Severity, s: string)
    requires INFO <= level <= CRITICAL
    ensures Lower(s) == SeverityName(level) ==> ParseSeverity(s) == level
    ensures Lower(s) == "crit" ==> ParseSeverity(s) == CRITICAL
    ensures Lower(s) == "med" ==> ParseSeverity(s) == MEDIUM
    ensures (forall l :: LOW <= l <= CRITICAL ==> Lower(s) != SeverityName(l)) && Lower(s) !in {"crit", "med"} ==> ParseSeverity(s) == INFO
  {
    assert SeverityName(LOW) == "low" && SeverityName(MEDIUM) == "medium" && SeverityName(HIGH) == "high" && SeverityName(CRITICAL) == "critical";
    NamesDiffer(level);
  }

  lemma {:induction false} NamesDiffer(level: Severity)
    requires INFO <= level <= CRITICAL
    ensures var n := SeverityName(level); n[0] == (if level == INFO then 'i' else if level == LOW then 'l' else if level == MEDIUM then 'm' else if level == HIGH then 'h' else 'c')
  {
  }

  lemma {:induction false} ContainedAround(front: string, s: string, back: string, needle: string)
    requires ContainsText(s, needle)
    ensures ContainsText(front + s + back, needle)
  {
    var all := front + s + back;
    if front != [] {
      ContainedAround(front[1..], s, back, needle);
      assert all[1..] == front[1..] + s + back;
    } else if needle <= s {
      assert all[..|needle|] == s[..|needle|];
    } else {
      ContainedAround([], s[1..], back, needle);
      assert all[1..] == [] + s[1..] + back;
    }
  }

  lemma {:induction false} LowerJoins(a: string, b: string)
    ensures Lower(a + b) == Lower(a) + Lower(b)
  {
    hide Lower, LowerChar;
    forall i | 0 <= i < |a + b| ensures Lower(a + b)[i] == (Lower(a) + Lower(b))[i] {
    }
  }

  /** A search finds a text in the check, in the name or id of the resource, and in the
      message, in any case. */
  lemma {:induction false} SearchFindsFields(f: Finding, field: string, text: string)
    requires field in {f.checkID, f.resource.name, f.resource.id, f.message} && ContainsText(Lower(field), Lower(text))
    ensures ContainsText(Lower(SearchText(f)), Lower(text))
  {
    hide ContainsText, Lower;
    var a, b, c, d := f.checkID, f.resource.name, f.resource.id, f.message;
    var front := if field == a then "" else if field == b then a + " " else if field == c then a + " " + b + " " else a + " " + b + " " + c + " ";
    var back := if field == a then " " + b + " " + c + " " + d else if field == b then " " + c + " " + d else if field == c then " " + d else "";
    assert SearchText(f) == front + field + back;
    LowerJoins(front + field, back);
    LowerJoins(front, field);
    ContainedAround(Lower(front), Lower(field), Lower(back), Lower(text));
  }
}
