/** internal/remediate/registry.go: the registry of remediation strategies. A
    strategy is stateless, as its interface requires: Render is a function. */
module Remediate {
  import opened Seqs
  import opened Findings

  datatype Snippet = Snippet(checkID: string, format: string, resource: ResourceRef, risk: string, content: string)

  /** What a strategy's Render returns. `Declined` is ErrFormatUnsupported. */
  datatype Rendered = Ready(snippet: Snippet) | Declined | Broken(message: string)

  type Renderer = (Finding, string) -> Rendered

  datatype Strategy = Strategy(name: string, checkIDs: seq<string>, formats: seq<string>, render: Renderer)

  datatype RenderError = NoStrategy(checkID: string) | FormatUnsupported(checkID: string, format: string) | StrategyFailed(name: string, message: string)

  datatype Outcome = Done(snippet: Snippet) | Failed(error: RenderError)

  /** The panics of Register. */
  datatype Registration = Registered | NilStrategy | NoName | NoCheckIDs | NoFormats | DuplicateName

  const WILDCARD := "*"

  const ALL_FORMATS: seq<string> :=
    ["bash", "terraform", "kubectl", "helm", "ansible", "aws-cli", "gcloud", "az-cli", "doctl", "hcloud"]

  function StrategyName(s: Strategy): string {
    s.name
  }

  // ---- specification, on the history of registrations -----------------------------------

  function Times(ids: seq<string>, id: string): nat {
    if ids == [] then 0 else Times(ids[..|ids| - 1], id) + (if ids[|ids| - 1] == id then 1 else 0)
  }

  function Repeated(s: Strategy, n: nat): seq<Strategy> {
    if n == 0 then [] else Repeated(s, n - 1) + [s]
  }

  /** The strategies filed under an id; one that lists it twice is filed twice. */
  function Filed(history: seq<Strategy>, id: string): seq<Strategy> {
    if history == [] then []
    else
      var s := history[|history| - 1];
      Filed(history[..|history| - 1], id) + Repeated(s, Times(s.checkIDs, id))
  }

  /** The strategies that list an id, in registration order. */
  function Claimants(history: seq<Strategy>, id: string): seq<Strategy> {
    if history == [] then []
    else
      var s := history[|history| - 1];
      Claimants(history[..|history| - 1], id) + (if id in s.checkIDs then [s] else [])
  }

  /** Wildcards stand in only where nobody claims the id. */
  function Resolved(history: seq<Strategy>, id: string): seq<Strategy> {
    if Claimants(history, id) != [] then Claimants(history, id) else Claimants(history, WILDCARD)
  }

  function Completed(snip: Snippet, f: Finding, format: string): Snippet {
    Snippet(
      if snip.checkID == "" then f.checkID else snip.checkID,
      if snip.format == "" then format else snip.format,
      if snip.resource.id == "" then f.resource else snip.resource,
      snip.risk, snip.content)
  }

  /** What one strategy makes of a request; None passes it on. */
  function Answer(s: Strategy, f: Finding, format: string): Option<Outcome> {
    if format !in s.formats then None
    else
      match s.render(f, format)
      case Declined => None
      case Broken(message) => Some(Failed(StrategyFailed(s.name, message)))
      case Ready(snip) => Some(Done(Completed(snip, f, format)))
  }

  /** The first answer of a list of strategies. */
  function FirstAnswer(ss: seq<Strategy>, f: Finding, format: string): Option<Outcome> {
    if ss == [] then None
    else
      var earlier := FirstAnswer(ss[..|ss| - 1], f, format);
      if earlier.Some? then earlier else Answer(ss[|ss| - 1], f, format)
  }

  function RenderOf(history: seq<Strategy>, f: Finding, format: string): Outcome {
    var ss := Resolved(history, f.checkID);
    if ss == [] then Failed(NoStrategy(f.checkID))
    else
      var answer := FirstAnswer(ss, f, format);
      if answer.None? then Failed(FormatUnsupported(f.checkID, format)) else answer.value
  }

  /** The snippets of a finding, in the order of the formats. */
  function SnippetsOf(history: seq<Strategy>, f: Finding, formats: seq<string>): seq<Snippet> {
    if formats == [] then []
    else
      var last := RenderOf(history, f, formats[|formats| - 1]);
      SnippetsOf(history, f, formats[..|formats| - 1]) + (if last.Done? then [last.snippet] else [])
  }

  function AllSnippets(history: seq<Strategy>, fs: seq<Finding>): seq<Snippet> {
    if fs == [] then [] else AllSnippets(history, fs[..|fs| - 1]) + SnippetsOf(history, fs[|fs| - 1], ALL_FORMATS)
  }

  /** The findings without a snippet. */
  function Unmatched(history: seq<Strategy>, fs: seq<Finding>): seq<Finding> {
    if fs == [] then []
    else
      var f := fs[|fs| - 1];
      Unmatched(history, fs[..|fs| - 1]) + (if SnippetsOf(history, f, ALL_FORMATS) == [] then [f] else [])
  }

  // ---- repetition is harmless ------------------------------------------------------------

  lemma {:induction false} TimesIn(ids: seq<string>, id: string)
    ensures Times(ids, id) > 0 <==> id in ids
  {
    if ids != [] {
      TimesIn(ids[..|ids| - 1], id);
      assert ids == ids[..|ids| - 1] + [ids[|ids| - 1]];
    }
  }

  lemma {:induction false} AskingAgain(ss: seq<Strategy>, s: Strategy, n: nat, f: Finding, format: string)
    ensures FirstAnswer(ss + Repeated(s, n), f, format) == if n == 0 then FirstAnswer(ss, f, format) else FirstAnswer(ss + [s], f, format)
  {
    hide Answer;
    if n == 0 {
      assert ss + Repeated(s, n) == ss;
    } else {
      AskingAgain(ss, s, n - 1, f, format);
      var all := ss + Repeated(s, n);
      assert all[..|all| - 1] == ss + Repeated(s, n - 1);
      assert (ss + [s])[..|ss|] == ss;
      assert FirstAnswer(ss + [s], f, format) == if FirstAnswer(ss, f, format).Some? then FirstAnswer(ss, f, format) else Answer(s, f, format);
    }
  }

  lemma {:induction false} AppendAnswer(ss: seq<Strategy>, s: Strategy, f: Finding, format: string)
    ensures FirstAnswer(ss + [s], f, format) ==
      if FirstAnswer(ss, f, format).Some? then FirstAnswer(ss, f, format) else Answer(s, f, format)
  {
    assert (ss + [s])[..|ss|] == ss;
  }

  /** Filing a strategy more than once changes neither who answers nor whether
      there is anybody to ask. */
  lemma {:induction false} RepetitionIsHarmless(history: seq<Strategy>, id: string, f: Finding, format: string)
    ensures FirstAnswer(Filed(history, id), f, format) == FirstAnswer(Claimants(history, id), f, format)
    ensures Filed(history, id) == [] <==> Claimants(history, id) == []
  {
    hide Answer, FirstAnswer;
    if history != [] {
      var init, s := history[..|history| - 1], history[|history| - 1];
      RepetitionIsHarmless(init, id, f, format);
      TimesIn(s.checkIDs, id);
      AskingAgain(Filed(init, id), s, Times(s.checkIDs, id), f, format);
      AppendAnswer(Filed(init, id), s, f, format);
      AppendAnswer(Claimants(init, id), s, f, format);
      if Times(s.checkIDs, id) == 0 {
        assert Claimants(init, id) + [] == Claimants(init, id);
      }
    }
  }

  /** What the first `k` ids of a strategy contribute under `id`. */
  ghost function Pending(pending: Option<Strategy>, k: nat, id: string): seq<Strategy> {
    if pending.None? || k > |pending.value.checkIDs| then []
    else Repeated(pending.value, Times(pending.value.checkIDs[..k], id))
  }

  lemma {:induction false} PendingStep(s: Strategy, k: nat)
    requires k < |s.checkIDs|
    ensures forall id: string :: Pending(Some(s), k + 1, id) == Pending(Some(s), k, id) + if id == s.checkIDs[k] then [s] else []
  {
    assert s.checkIDs[..k + 1][..k] == s.checkIDs[..k];
  }

  lemma {:induction false} PendingAll(s: Strategy)
    ensures forall id: string :: Pending(Some(s), |s.checkIDs|, id) == Repeated(s, Times(s.checkIDs, id))
    ensures forall id: string :: Pending(Some(s), 0, id) == []
  {
    assert s.checkIDs[..|s.checkIDs|] == s.checkIDs;
  }

  function Bucket(byCheckID: map<string, seq<Strategy>>, id: string): seq<Strategy> {
    if id in byCheckID then byCheckID[id] else []
  }

  /** The buckets hold the history and the first `k` ids of a strategy that is
      being registered. */
  ghost predicate FiledSoFar(byCheckID: map<string, seq<Strategy>>, wildcards: seq<Strategy>, h: seq<Strategy>, pending: Option<Strategy>, k: nat) {
    && wildcards == Filed(h, WILDCARD) + Pending(pending, k, WILDCARD)
    && WILDCARD !in byCheckID
    && forall id: string :: id != WILDCARD ==> Bucket(byCheckID, id) == Filed(h, id) + Pending(pending, k, id)
  }

  lemma {:induction false} NothingPending(byCheckID: map<string, seq<Strategy>>, wildcards: seq<Strategy>, h: seq<Strategy>, s: Strategy)
    requires FiledSoFar(byCheckID, wildcards, h, None, 0)
    ensures FiledSoFar(byCheckID, wildcards, h, Some(s), 0)
  {
    hide Filed;
    PendingAll(s);
  }

  lemma {:induction false} FileOne(byCheckID: map<string, seq<Strategy>>, wildcards: seq<Strategy>, h: seq<Strategy>, s: Strategy, k: nat)
    requires k < |s.checkIDs| && FiledSoFar(byCheckID, wildcards, h, Some(s), k)
    ensures var id := s.checkIDs[k];
      if id == WILDCARD then FiledSoFar(byCheckID, wildcards + [s], h, Some(s), k + 1)
      else FiledSoFar(byCheckID[id := Bucket(byCheckID, id) + [s]], wildcards, h, Some(s), k + 1)
  {
    hide Filed, Pending;
    PendingStep(s, k);
    var key := s.checkIDs[k];
    if key != WILDCARD {
      var filed := byCheckID[key := Bucket(byCheckID, key) + [s]];
      forall id: string | id != WILDCARD ensures Bucket(filed, id) == Filed(h, id) + Pending(Some(s), k + 1, id) {
        assert Bucket(filed, id) == Bucket(byCheckID, id) + if id == key then [s] else [];
      }
    }
  }

  lemma {:induction false} AllFiled(byCheckID: map<string, seq<Strategy>>, wildcards: seq<Strategy>, h: seq<Strategy>, s: Strategy)
    requires FiledSoFar(byCheckID, wildcards, h, Some(s), |s.checkIDs|)
    ensures FiledSoFar(byCheckID, wildcards, h + [s], None, 0)
  {
    hide Filed, Times, Repeated;
    PendingAll(s);
    FiledStep(h, s);
  }

  // ---- the registry ---------------------------------------------------------------------------

  class Registry {
    var byCheckID: map<string, seq<Strategy>>
    var wildcards: seq<Strategy>
    var registered: map<string, Strategy>
    /** The accepted registrations, in order. */
    ghost var history: seq<Strategy>

    ghost predicate Valid()
      reads this
    {
      && DistinctKeys(history, StrategyName)
      && registered.Keys == KeysOf(history, StrategyName)
      && (forall s :: s in history ==> s.name in registered && registered[s.name] == s)
      && FiledSoFar(byCheckID, wildcards, history, None, 0)
    }

    constructor ()
      ensures Valid() && history == []
    {
      byCheckID, wildcards, registered, history := map[], [], map[], [];
    }

    /** A rejected strategy changes nothing; None is a nil strategy. */
    method Register(strategy: Option<Strategy>) returns (r: Registration)
      requires Valid()
      modifies this
      ensures Valid()
      ensures r == Verdict(old(history), strategy)
      ensures history == old(history) + if r == Registered then [strategy.value] else []
      ensures r != Registered ==> byCheckID == old(byCheckID) && wildcards == old(wildcards) && registered == old(registered)
    {
      hide Filed;
      if strategy.None? {
        return NilStrategy;
      }
      var s := strategy.value;
      if s.name == "" {
        return NoName;
      }
      if |s.checkIDs| == 0 {
        return NoCheckIDs;
      }
      if |s.formats| == 0 {
        return NoFormats;
      }
      assert StrategyName(s) == s.name;
      if s.name in registered {
        return DuplicateName;
      }
      NameIsNew(history, s);
      registered := registered[s.name := s];
      File(s);
      r := Registered;
    }

    /** The loop over the strategy's ids. */
    method File(s: Strategy)
      requires FiledSoFar(byCheckID, wildcards, history, None, 0)
      modifies this`byCheckID, this`wildcards, this`history
      ensures history == old(history) + [s]
      ensures FiledSoFar(byCheckID, wildcards, history, None, 0)
    {
      hide FiledSoFar;
      NothingPending(byCheckID, wildcards, history, s);
      for i := 0 to |s.checkIDs|
        invariant history == old(history)
        invariant FiledSoFar(byCheckID, wildcards, history, Some(s), i)
      {
        var id := s.checkIDs[i];
        FileOne(byCheckID, wildcards, history, s, i);
        if id == WILDCARD {
          wildcards := wildcards + [s];
        } else {
          byCheckID := byCheckID[id := Bucket(byCheckID, id) + [s]];
        }
      }
      AllFiled(byCheckID, wildcards, history, s);
      history := history + [s];
    }

    /** In registration order; empty when nobody handles the check. */
    method StrategiesFor(checkID: string) returns (out: seq<Strategy>)
      requires Valid()
      ensures out == if Filed(history, checkID) != [] then Filed(history, checkID) else Filed(history, WILDCARD)
    {
      hide Filed;
      if checkID in byCheckID && |byCheckID[checkID]| > 0 {
        assert Bucket(byCheckID, checkID) == Filed(history, checkID) + [];
        return byCheckID[checkID];
      }
      assert checkID != WILDCARD ==> Bucket(byCheckID, checkID) == Filed(history, checkID) + [];
      assert Filed(history, WILDCARD) + [] == Filed(history, WILDCARD);
      if |wildcards| > 0 {
        return wildcards;
      }
      out := [];
    }

    method Render(f: Finding, format: string) returns (r: Outcome)
      requires Valid()
      ensures r == RenderOf(history, f, format)
    {
      hide Filed, Claimants, Answer;
      var strategies := StrategiesFor(f.checkID);
      RepetitionIsHarmless(history, f.checkID, f, format);
      RepetitionIsHarmless(history, WILDCARD, f, format);
      if |strategies| == 0 {
        return Failed(NoStrategy(f.checkID));
      }
      for i := 0 to |strategies|
        invariant FirstAnswer(strategies[..i], f, format) == None
      {
        var answer := Attempt(strategies[i], f, format);
        FirstAnswerStays(strategies, f, format, i);
        if answer.Some? {
          return answer.value;
        }
      }
      assert strategies[..|strategies|] == strategies;
      r := Failed(FormatUnsupported(f.checkID, format));
    }

    method RenderAll(findings: seq<Finding>) returns (snippets: seq<Snippet>, unmatched: seq<Finding>)
      requires Valid()
      ensures snippets == AllSnippets(history, findings)
      ensures unmatched == Unmatched(history, findings)
    {
      hide RenderOf, Valid, SnippetsOf;
      snippets, unmatched := [], [];
      for i := 0 to |findings|
        invariant snippets == AllSnippets(history, findings[..i])
        invariant unmatched == Unmatched(history, findings[..i])
      {
        assert findings[..i + 1][..i] == findings[..i];
        var found := RenderFinding(findings[i]);
        snippets := snippets + found;
        if |found| == 0 {
          unmatched := unmatched + [findings[i]];
        }
      }
      assert findings[..|findings|] == findings;
    }

    /** The body of RenderAll's loop. */
    method RenderFinding(f: Finding) returns (snippets: seq<Snippet>)
      requires Valid()
      ensures snippets == SnippetsOf(history, f, ALL_FORMATS)
    {
      hide RenderOf, Filed, Valid;
      snippets := [];
      var strategies := StrategiesFor(f.checkID);
      if |strategies| == 0 {
        NobodyToAsk(history, f, ALL_FORMATS);
        return;
      }
      for i := 0 to |ALL_FORMATS|
        invariant snippets == SnippetsOf(history, f, ALL_FORMATS[..i])
      {
        assert ALL_FORMATS[..i + 1][..i] == ALL_FORMATS[..i];
        var r := Render(f, ALL_FORMATS[i]);
        if r.Done? {
          snippets := snippets + [r.snippet];
        }
      }
      assert ALL_FORMATS[..|ALL_FORMATS|] == ALL_FORMATS;
    }
  }

  /** One turn of the loop in Render. */
  method Attempt(s: Strategy, f: Finding, format: string) returns (answer: Option<Outcome>)
    ensures answer == Answer(s, f, format)
  {
    if format !in s.formats {
      return None;
    }
    match s.render(f, format)
    case Declined => return None;
    case Broken(message) => return Some(Failed(StrategyFailed(s.name, message)));
    case Ready(snippet) =>
      var snip := snippet;
      if snip.checkID == "" {
        snip := snip.(checkID := f.checkID);
      }
      if snip.format == "" {
        snip := snip.(format := format);
      }
      if snip.resource.id == "" {
        snip := snip.(resource := f.resource);
      }
      return Some(Done(snip));
  }

  ghost function Verdict(history: seq<Strategy>, strategy: Option<Strategy>): Registration {
    if strategy.None? then NilStrategy
    else if strategy.value.name == "" then NoName
    else if strategy.value.checkIDs == [] then NoCheckIDs
    else if strategy.value.formats == [] then NoFormats
    else if strategy.value.name in KeysOf(history, StrategyName) then DuplicateName
    else Registered
  }

  /** The first fault counts, in this order. */
  lemma {:induction false} VerdictMeans(history: seq<Strategy>, s: Strategy)
    ensures Verdict(history, None) == NilStrategy
    ensures var v, taken := Verdict(history, Some(s)), exists x :: x in history && x.name == s.name;
      && (v == NoName <==> s.name == "")
      && (v == NoCheckIDs <==> s.name != "" && s.checkIDs == [])
      && (v == NoFormats <==> s.name != "" && s.checkIDs != [] && s.formats == [])
      && (v == DuplicateName <==> s.name != "" && s.checkIDs != [] && s.formats != [] && taken)
      && (v == Registered <==> s.name != "" && s.checkIDs != [] && s.formats != [] && !taken)
  {
    if x :| x in history && x.name == s.name {
      assert StrategyName(x) in KeysOf(history, StrategyName);
    }
  }

  lemma {:induction false} NameIsNew(history: seq<Strategy>, s: Strategy)
    requires DistinctKeys(history, StrategyName) && s.name !in KeysOf(history, StrategyName)
    ensures DistinctKeys(history + [s], StrategyName)
    ensures KeysOf(history + [s], StrategyName) == KeysOf(history, StrategyName) + {s.name}
  {
    assert KeysOf(history + [s], StrategyName) == KeysOf(history, StrategyName) + {StrategyName(s)};
    forall x | x in history ensures StrategyName(x) != s.name {
      assert StrategyName(x) in KeysOf(history, StrategyName);
    }
  }

  lemma {:induction false} FiledStep(history: seq<Strategy>, s: Strategy)
    ensures forall id: string :: Filed(history + [s], id) == Filed(history, id) + Repeated(s, Times(s.checkIDs, id))
    ensures forall id: string :: Claimants(history + [s], id) == Claimants(history, id) + if id in s.checkIDs then [s] else []
  {
    assert (history + [s])[..|history|] == history;
  }

  lemma {:induction false} FirstAnswerStays(ss: seq<Strategy>, f: Finding, format: string, i: nat)
    requires i < |ss| && FirstAnswer(ss[..i], f, format) == None
    ensures FirstAnswer(ss[..i + 1], f, format) == Answer(ss[i], f, format)
    ensures Answer(ss[i], f, format).Some? ==> FirstAnswer(ss, f, format) == Answer(ss[i], f, format)
  {
    hide Answer;
    assert ss[..i + 1][..i] == ss[..i];
    if Answer(ss[i], f, format).Some? {
      LaterAnswersIgnored(ss, f, format, i + 1);
    }
  }

  lemma {:induction false} LaterAnswersIgnored(ss: seq<Strategy>, f: Finding, format: string, k: nat)
    requires k <= |ss| && FirstAnswer(ss[..k], f, format).Some?
    ensures FirstAnswer(ss, f, format) == FirstAnswer(ss[..k], f, format)
  {
    hide Answer;
    if k == |ss| {
      assert ss[..k] == ss;
    } else {
      assert ss[..|ss| - 1][..k] == ss[..k];
      LaterAnswersIgnored(ss[..|ss| - 1], f, format, k);
    }
  }

  lemma {:induction false} NobodyToAsk(history: seq<Strategy>, f: Finding, formats: seq<string>)
    requires Filed(history, f.checkID) == [] && Filed(history, WILDCARD) == []
    ensures SnippetsOf(history, f, formats) == []
  {
    if formats != [] {
      NobodyToAsk(history, f, formats[..|formats| - 1]);
      RepetitionIsHarmless(history, f.checkID, f, "");
      RepetitionIsHarmless(history, WILDCARD, f, "");
    }
  }

  // ---- what a request gets -------------------------------------------------------------------

  /** The strategy is asked: it lists the id. */
  predicate Lists(history: seq<Strategy>, id: string, i: nat) {
    i < |history| && id in history[i].checkIDs
  }

  /** It has the format and does not decline. */
  predicate Speaks(s: Strategy, f: Finding, format: string) {
    format in s.formats && !s.render(f, format).Declined?
  }

  /** The first strategy registered for the id that does not pass the request on. */
  ghost predicate IsFirstSpeaker(history: seq<Strategy>, id: string, f: Finding, format: string, i: nat) {
    && Lists(history, id, i) && Speaks(history[i], f, format)
    && forall j: nat :: j < i && Lists(history, id, j) ==> !Speaks(history[j], f, format)
  }

  /** Its error, or its snippet with what it left empty filled in from the request. */
  ghost predicate IsReplyOf(s: Strategy, f: Finding, format: string, r: Outcome) {
    match s.render(f, format)
    case Declined => false
    case Broken(message) => r == Failed(StrategyFailed(s.name, message))
    case Ready(raw) =>
      && r.Done? && r.snippet.risk == raw.risk && r.snippet.content == raw.content
      && (raw.checkID != "" ==> r.snippet.checkID == raw.checkID) && (raw.checkID == "" ==> r.snippet.checkID == f.checkID)
      && (raw.format != "" ==> r.snippet.format == raw.format) && (raw.format == "" ==> r.snippet.format == format)
      && (raw.resource.id != "" ==> r.snippet.resource == raw.resource) && (raw.resource.id == "" ==> r.snippet.resource == f.resource)
  }

  lemma {:induction false} AnswerMeans(s: Strategy, f: Finding, format: string)
    ensures Answer(s, f, format).Some? <==> Speaks(s, f, format)
    ensures Answer(s, f, format).Some? ==> IsReplyOf(s, f, format, Answer(s, f, format).value)
  {
  }

  lemma {:induction false} ClaimantsExist(history: seq<Strategy>, id: string)
    ensures Claimants(history, id) == [] <==> forall i: nat :: !Lists(history, id, i)
  {
    if history != [] {
      var n := |history| - 1;
      ClaimantsExist(history[..n], id);
      assert forall i: nat :: i < n ==> (Lists(history[..n], id, i) <==> Lists(history, id, i));
      assert Lists(history, id, n) <==> id in history[n].checkIDs;
    }
  }

  lemma {:induction false} ClaimantsAnswer(history: seq<Strategy>, id: string, f: Finding, format: string)
    ensures var a := FirstAnswer(Claimants(history, id), f, format);
      if a.None? then forall i: nat :: Lists(history, id, i) ==> !Speaks(history[i], f, format)
      else exists i: nat :: IsFirstSpeaker(history, id, f, format, i) && IsReplyOf(history[i], f, format, a.value)
  {
    hide Answer, Speaks, IsReplyOf;
    if history != [] {
      var n := |history| - 1;
      var init, s := history[..n], history[n];
      ClaimantsAnswer(init, id, f, format);
      AppendAnswer(Claimants(init, id), s, f, format);
      AnswerMeans(s, f, format);
      assert Claimants(init, id) + [] == Claimants(init, id);
      assert forall i: nat :: i < n ==> (Lists(init, id, i) <==> Lists(history, id, i));
      assert Lists(history, id, n) <==> id in s.checkIDs;
      var before := FirstAnswer(Claimants(init, id), f, format);
      if before.Some? {
        var i: nat :| IsFirstSpeaker(init, id, f, format, i) && IsReplyOf(init[i], f, format, before.value);
        assert IsFirstSpeaker(history, id, f, format, i);
      } else if id in s.checkIDs && Speaks(s, f, format) {
        assert IsFirstSpeaker(history, id, f, format, n);
      }
    }
  }

  /** The id under which a finding is handled: its check's if any strategy lists that,
      the wildcard otherwise. */
  ghost function HandledAs(history: seq<Strategy>, checkID: string): string {
    if exists i: nat :: Lists(history, checkID, i) then checkID else "*"
  }

  /** Every request, whatever was registered: with nobody to ask it fails as such, with
      nobody who speaks the format as that, and otherwise the first strategy that does
      decides it. */
  lemma {:induction false} RenderMeans(history: seq<Strategy>, f: Finding, format: string)
    ensures var id, r := HandledAs(history, f.checkID), RenderOf(history, f, format);
      if forall i: nat :: !Lists(history, id, i) then r == Failed(NoStrategy(f.checkID))
      else if forall i: nat :: Lists(history, id, i) ==> !Speaks(history[i], f, format) then r == Failed(FormatUnsupported(f.checkID, format))
      else exists i: nat :: IsFirstSpeaker(history, id, f, format, i) && IsReplyOf(history[i], f, format, r)
  {
    hide Claimants, FirstAnswer, Lists, Speaks, IsReplyOf;
    ClaimantsExist(history, f.checkID);
    ClaimantsExist(history, "*");
    ClaimantsAnswer(history, f.checkID, f, format);
    ClaimantsAnswer(history, "*", f, format);
  }

  /** Snippets come finding by finding, for each in the order of the formats. */
  lemma {:induction false} SnippetsConcat(history: seq<Strategy>, a: seq<Finding>, b: seq<Finding>)
    ensures AllSnippets(history, a + b) == AllSnippets(history, a) + AllSnippets(history, b)
  {
    hide SnippetsOf;
    if b == [] {
      assert a + b == a;
    } else {
      SnippetsConcat(history, a, b[..|b| - 1]);
      assert (a + b)[..|a + b| - 1] == a + b[..|b| - 1];
    }
  }

  lemma {:induction false} UnmatchedMeans(history: seq<Strategy>, fs: seq<Finding>)
    ensures Unmatched(history, fs) == Where(fs, (f: Finding) => SnippetsOf(history, f, ALL_FORMATS) == [])
  {
    hide SnippetsOf;
    if fs != [] {
      UnmatchedMeans(history, fs[..|fs| - 1]);
    }
  }

  lemma {:induction false} SnippetsByFormat(history: seq<Strategy>, f: Finding, a: seq<string>, b: seq<string>)
    ensures SnippetsOf(history, f, a + b) == SnippetsOf(history, f, a) + SnippetsOf(history, f, b)
  {
    hide RenderOf;
    if b == [] {
      assert a + b == a;
    } else {
      SnippetsByFormat(history, f, a, b[..|b| - 1]);
      assert (a + b)[..|a + b| - 1] == a + b[..|b| - 1];
    }
  }

  lemma {:induction false} SnippetsOfOne(history: seq<Strategy>, f: Finding, format: string)
    ensures AllSnippets(history, [f]) == SnippetsOf(history, f, ALL_FORMATS)
    ensures SnippetsOf(history, f, [format]) == if RenderOf(history, f, format).Done? then [RenderOf(history, f, format).snippet] else []
  {
    hide RenderOf;
    assert [f][..0] == [] && [format][..0] == [];
    assert AllSnippets(history, []) == [] && SnippetsOf(history, f, []) == [];
  }

  // ---- what the registry promises ----------------------------------------------------------

  /** A finding is unmatched or has a snippet, never both; a matched one has at most
      one for each format. */
  lemma {:induction false} EveryFindingIsRouted(history: seq<Strategy>, fs: seq<Finding>)
    ensures forall f :: f in Unmatched(history, fs) <==> f in fs && SnippetsOf(history, f, ALL_FORMATS) == []
    ensures var matched := |fs| - |Unmatched(history, fs)|;
      matched <= |AllSnippets(history, fs)| <= matched * |ALL_FORMATS|
  {
    hide SnippetsOf;
    if fs != [] {
      var init, f := fs[..|fs| - 1], fs[|fs| - 1];
      EveryFindingIsRouted(history, init);
      assert fs == init + [f];
      AtMostOnePerFormat(history, f, ALL_FORMATS);
    }
  }

  lemma {:induction false} AtMostOnePerFormat(history: seq<Strategy>, f: Finding, formats: seq<string>)
    ensures |SnippetsOf(history, f, formats)| <= |formats|
  {
    hide RenderOf;
    if formats != [] {
      AtMostOnePerFormat(history, f, formats[..|formats| - 1]);
    }
  }

  /** No later registration changes the snippet. */
  ghost predicate Stable(history: seq<Strategy>, f: Finding, format: string) {
    forall s :: Verdict(history, Some(s)) == Registered ==> RenderOf(history + [s], f, format) == RenderOf(history, f, format)
  }

  /** A snippet survives every later registration exactly when a strategy claims its
      check by id; one rendered by a wildcard can be lost to a newcomer that claims
      the check and then declines the format. */
  lemma {:induction false} SnippetIsStableIff(history: seq<Strategy>, f: Finding, format: string)
    requires RenderOf(history, f, format).Done?
    ensures Stable(history, f, format) <==> Claimants(history, f.checkID) != []
  {
    hide Claimants, FirstAnswer, Answer, Verdict;
    if Claimants(history, f.checkID) != [] {
      forall s | Verdict(history, Some(s)) == Registered
        ensures RenderOf(history + [s], f, format) == RenderOf(history, f, format)
      {
        FiledStep(history, s);
        AppendAnswer(Claimants(history, f.checkID), s, f, format);
        assert Claimants(history, f.checkID) + [] == Claimants(history, f.checkID);
        assert Claimants(history + [s], f.checkID) != [];
      }
    } else {
      var s := Newcomer(history, f.checkID);
      NewcomerIsAccepted(history, f.checkID);
      NewcomerTakesOver(history, f, format);
      assert RenderOf(history + [s], f, format) != RenderOf(history, f, format);
    }
  }

  function Longest(history: seq<Strategy>): nat {
    if history == [] then 0
    else
      var rest := Longest(history[..|history| - 1]);
      if |history[|history| - 1].name| > rest then |history[|history| - 1].name| else rest
  }

  lemma {:induction false} LongestBounds(history: seq<Strategy>)
    ensures forall s :: s in history ==> |s.name| <= Longest(history)
  {
    if history != [] {
      LongestBounds(history[..|history| - 1]);
      assert history == history[..|history| - 1] + [history[|history| - 1]];
    }
  }

  /** A strategy for the check, under a new name, that renders nothing. */
  function Newcomer(history: seq<Strategy>, checkID: string): Strategy {
    Strategy(seq(Longest(history) + 1, _ => 'n'), [checkID], ["bash"], (_, _) => Declined)
  }

  lemma {:induction false} NewcomerIsAccepted(history: seq<Strategy>, checkID: string)
    ensures Verdict(history, Some(Newcomer(history, checkID))) == Registered
  {
    LongestBounds(history);
    forall s | s in history ensures StrategyName(s) != Newcomer(history, checkID).name {
    }
  }

  lemma {:induction false} NewcomerTakesOver(history: seq<Strategy>, f: Finding, format: string)
    requires Claimants(history, f.checkID) == []
    ensures RenderOf(history + [Newcomer(history, f.checkID)], f, format).Failed?
  {
    hide Claimants;
    var s := Newcomer(history, f.checkID);
    FiledStep(history, s);
    assert Claimants(history + [s], f.checkID) == [s];
    assert Answer(s, f, format).None?;
    assert [s] == [] + [s];
    AppendAnswer([], s, f, format);
  }
}
