/** internal/rules/engine.go and pkg/compliancekit/rules: what a condition tree
    means. An evaluator returns Go's pair of a bool and an error. */
module Rules {
  import opened Seqs

  /** A JSON value, as far as the shipped evaluators tell values apart. */
  datatype Value = Text(s: string) | Number(n: int) | Texts(items: seq<string>) | OtherValue

  type Params = map<string, Value>

  /** Times are in seconds; None is the zero time. */
  datatype FindingFacts = FindingFacts(fingerprint: string, checkID: string, severity: string, status: string,
    provider: string, resourceID: string, resourceName: string, resourceType: string,
    frameworks: seq<string>, tags: seq<string>, firstSeenAt: Option<int>, lastSeenAt: Option<int>)

  datatype ScanFacts = ScanFacts(id: string, source: string, status: string, score: int, coverage: int,
    totalFindings: int, actionableFindings: int, finishedAt: Option<int>)

  datatype ResourceFacts = ResourceFacts(id: string, typ: string, provider: string, tags: seq<string>)

  const NO_SCAN := ScanFacts("", "", "", 0, 0, 0, 0, None)

  const NO_RESOURCE := ResourceFacts("", "", "", [])

  /** EvalContext. */
  datatype Facts = Facts(trigger: string, now: Option<int>, finding: FindingFacts, scan: ScanFacts,
    resource: ResourceFacts, extras: Params, simulated: bool)

  datatype Verdict = Verdict(holds: bool, error: Option<string>) {
    /** The value, if there was no error. */
    function Clean(): Option<bool> {
      if error.None? then Some(holds) else None
    }
  }

  type Evaluator = (Params, Facts) -> Verdict

  type Conditions = map<string, Evaluator>

  const OP_NONE := ""
  const OP_AND := "and"
  const OP_OR := "or"

  datatype Term = Term(kind: string, params: Params, negate: bool)

  datatype Condition = Condition(op: string, children: seq<Condition>, term: Option<Term>) {
    predicate IsAlwaysMatch() {
      op == OP_NONE && term.None?
    }

    /** A node whose children are evaluated. A term wins over an operator. */
    predicate IsInner() {
      term.None? && (op == OP_AND || op == OP_OR)
    }
  }

  function TermVerdict(reg: Conditions, t: Term, ec: Facts): Verdict {
    if t.kind !in reg then Verdict(false, Some("rules: unknown condition kind"))
    else
      var got := reg[t.kind](t.params, ec);
      if got.error.Some? then Verdict(false, got.error) else Verdict(got.holds != t.negate, None)
  }

  /** The verdict of the first child that settles the node, an error or the value
      that absorbs the operator; failing that, the operator's neutral value. */
  function FirstSettled(reg: Conditions, c: Condition, i: nat, ec: Facts): Verdict
    requires i <= |c.children|
    decreases c, |c.children| - i
  {
    if i == |c.children| then Verdict(c.op == OP_AND, None)
    else
      var v := VerdictOf(reg, c.children[i], ec);
      if v.error.Some? then Verdict(false, v.error)
      else if v.holds == (c.op == OP_OR) then v
      else FirstSettled(reg, c, i + 1, ec)
  }

  function VerdictOf(reg: Conditions, c: Condition, ec: Facts): Verdict
    decreases c, |c.children| + 1
  {
    if c.IsAlwaysMatch() then Verdict(true, None)
    else if c.term.Some? then TermVerdict(reg, c.term.value, ec)
    else if c.IsInner() then FirstSettled(reg, c, 0, ec)
    else Verdict(false, Some("rules: unsupported op"))
  }

  // ---- an error never passes for a match --------------------------------------------

  lemma {:induction false} ErrorMeansFalse(reg: Conditions, c: Condition, ec: Facts)
    ensures VerdictOf(reg, c, ec).error.Some? ==> !VerdictOf(reg, c, ec).holds
  {
    if c.IsInner() {
      ChildErrorMeansFalse(reg, c, 0, ec);
    }
  }

  lemma {:induction false} ChildErrorMeansFalse(reg: Conditions, c: Condition, i: nat, ec: Facts)
    requires i <= |c.children|
    ensures FirstSettled(reg, c, i, ec).error.Some? ==> !FirstSettled(reg, c, i, ec).holds
    decreases |c.children| - i
  {
    if i < |c.children| {
      ChildErrorMeansFalse(reg, c, i + 1, ec);
    }
  }

  // ---- the boolean meaning ------------------------------------------------------------

  /** Every term is known and evaluates without error, every operator is supported. */
  ghost predicate Faultless(reg: Conditions, c: Condition, ec: Facts) {
    if c.IsAlwaysMatch() then true
    else if c.term.Some? then TermVerdict(reg, c.term.value, ec).error.None?
    else c.IsInner() && forall i :: 0 <= i < |c.children| ==> Faultless(reg, c.children[i], ec)
  }

  /** The tree read as a formula, all children taken into account. */
  ghost predicate Means(reg: Conditions, c: Condition, ec: Facts) {
    if c.IsAlwaysMatch() then true
    else if c.term.Some? then c.term.value.kind in reg && reg[c.term.value.kind](c.term.value.params, ec).holds != c.term.value.negate
    else if c.op == OP_AND then forall i :: 0 <= i < |c.children| ==> Means(reg, c.children[i], ec)
    else exists i :: 0 <= i < |c.children| && Means(reg, c.children[i], ec)
  }

  lemma {:induction false} ShortCircuitIsBoolean(reg: Conditions, c: Condition, ec: Facts)
    requires Faultless(reg, c, ec)
    ensures VerdictOf(reg, c, ec) == Verdict(Means(reg, c, ec), None)
    decreases c, |c.children| + 1
  {
    if c.IsInner() {
      RestIsBoolean(reg, c, 0, ec);
    }
  }

  lemma {:induction false} RestIsBoolean(reg: Conditions, c: Condition, i: nat, ec: Facts)
    requires i <= |c.children| && c.IsInner() && Faultless(reg, c, ec)
    ensures FirstSettled(reg, c, i, ec) == Verdict(
      if c.op == OP_AND then forall j :: i <= j < |c.children| ==> Means(reg, c.children[j], ec)
      else exists j :: i <= j < |c.children| && Means(reg, c.children[j], ec), None)
    decreases c, |c.children| - i
  {
    if i < |c.children| {
      ShortCircuitIsBoolean(reg, c.children[i], ec);
      RestIsBoolean(reg, c, i + 1, ec);
    }
  }

  // ---- negation -----------------------------------------------------------------------

  /** NOT c, written as the builder must: AND and OR swapped, terms negated. */
  function Dual(c: Condition): Condition {
    if c.IsAlwaysMatch() then Condition(OP_OR, [], None)
    else if c.term.Some? then Condition(c.op, c.children, Some(c.term.value.(negate := !c.term.value.negate)))
    else if c.IsInner() then
      Condition(if c.op == OP_AND then OP_OR else OP_AND, seq(|c.children|, i requires 0 <= i < |c.children| => Dual(c.children[i])), None)
    else c
  }

  function Complement(v: Verdict): Verdict {
    if v.error.None? then Verdict(!v.holds, None) else v
  }

  /** De Morgan, on every tree: errors surface unchanged. */
  lemma {:induction false} DualComplements(reg: Conditions, c: Condition, ec: Facts)
    ensures VerdictOf(reg, Dual(c), ec) == Complement(VerdictOf(reg, c, ec))
    decreases c, |c.children| + 1
  {
    if c.IsInner() {
      RestComplements(reg, c, 0, ec);
    } else if c.IsAlwaysMatch() {
      assert FirstSettled(reg, Dual(c), 0, ec) == Verdict(false, None);
    }
  }

  lemma {:induction false} RestComplements(reg: Conditions, c: Condition, i: nat, ec: Facts)
    requires i <= |c.children| && c.IsInner()
    ensures FirstSettled(reg, Dual(c), i, ec) == Complement(FirstSettled(reg, c, i, ec))
    decreases c, |c.children| - i
  {
    if i < |c.children| {
      DualComplements(reg, c.children[i], ec);
      RestComplements(reg, c, i + 1, ec);
    }
  }

  // ---- an error-free verdict is final -----------------------------------------------------

  /** Where `reg` answers, `wider` answers the same. */
  ghost predicate Extends(wider: Conditions, reg: Conditions, ec: Facts) {
    forall t: Term :: TermVerdict(reg, t, ec).error.None? ==> TermVerdict(wider, t, ec) == TermVerdict(reg, t, ec)
  }

  /** Registering missing kinds or repairing failing evaluators changes no verdict
      that was reached without an error. */
  lemma {:induction false} CleanVerdictIsFinal(reg: Conditions, wider: Conditions, c: Condition, ec: Facts)
    requires Extends(wider, reg, ec) && VerdictOf(reg, c, ec).error.None?
    ensures VerdictOf(wider, c, ec) == VerdictOf(reg, c, ec)
    decreases c, |c.children| + 1
  {
    if c.IsInner() {
      CleanRestIsFinal(reg, wider, c, 0, ec);
    }
  }

  lemma {:induction false} CleanRestIsFinal(reg: Conditions, wider: Conditions, c: Condition, i: nat, ec: Facts)
    requires i <= |c.children| && Extends(wider, reg, ec) && FirstSettled(reg, c, i, ec).error.None?
    ensures FirstSettled(wider, c, i, ec) == FirstSettled(reg, c, i, ec)
    decreases c, |c.children| - i
  {
    if i < |c.children| {
      CleanVerdictIsFinal(reg, wider, c.children[i], ec);
      if VerdictOf(reg, c.children[i], ec).holds != (c.op == OP_OR) {
        CleanRestIsFinal(reg, wider, c, i + 1, ec);
      }
    }
  }

  /** So it is the boolean meaning of the tree under every repair. */
  lemma {:induction false} CleanVerdictIsMeaning(reg: Conditions, wider: Conditions, c: Condition, ec: Facts)
    requires Extends(wider, reg, ec) && VerdictOf(reg, c, ec).error.None? && Faultless(wider, c, ec)
    ensures VerdictOf(reg, c, ec).holds == Means(wider, c, ec)
  {
    CleanVerdictIsFinal(reg, wider, c, ec);
    ShortCircuitIsBoolean(wider, c, ec);
  }

  // ---- what a rule sees of the simulator ------------------------------------------------

  /** The evaluator gives the same value, or fails, on both. */
  ghost predicate SameAnswer(reg: Conditions, kind: string, p: Params, a: Facts, b: Facts) {
    kind in reg ==> reg[kind](p, a).Clean() == reg[kind](p, b).Clean()
  }

  ghost predicate Indistinguishable(reg: Conditions, a: Facts, b: Facts) {
    forall kind: string, p: Params :: SameAnswer(reg, kind, p, a, b)
  }

  lemma {:induction false} SameAnswersSameVerdict(reg: Conditions, c: Condition, a: Facts, b: Facts)
    requires Indistinguishable(reg, a, b)
    ensures VerdictOf(reg, c, a).Clean() == VerdictOf(reg, c, b).Clean()
    decreases c, |c.children| + 1
  {
    if c.IsInner() {
      SameAnswersSameRest(reg, c, 0, a, b);
    } else if c.term.Some? {
      assert SameAnswer(reg, c.term.value.kind, c.term.value.params, a, b);
    }
  }

  lemma {:induction false} SameAnswersSameRest(reg: Conditions, c: Condition, i: nat, a: Facts, b: Facts)
    requires i <= |c.children|
    requires Indistinguishable(reg, a, b)
    ensures FirstSettled(reg, c, i, a).Clean() == FirstSettled(reg, c, i, b).Clean()
    decreases c, |c.children| - i
  {
    if i < |c.children| {
      SameAnswersSameVerdict(reg, c.children[i], a, b);
      SameAnswersSameRest(reg, c, i + 1, a, b);
    }
  }

  ghost predicate SameMatches(reg: Conditions, a: Facts, b: Facts) {
    forall c: Condition :: VerdictOf(reg, c, a).holds == VerdictOf(reg, c, b).holds
  }

  /** Two contexts match the same conditions exactly when no evaluator can tell
      them apart; a term and its negation together expose any that can. */
  lemma {:induction false} SameMatchesIff(reg: Conditions, a: Facts, b: Facts)
    ensures SameMatches(reg, a, b) <==> Indistinguishable(reg, a, b)
  {
    if Indistinguishable(reg, a, b) {
      forall c: Condition ensures VerdictOf(reg, c, a).holds == VerdictOf(reg, c, b).holds {
        SameAnswersSameVerdict(reg, c, a, b);
        ErrorMeansFalse(reg, c, a);
        ErrorMeansFalse(reg, c, b);
      }
    }
    if SameMatches(reg, a, b) {
      forall kind: string, p: Params ensures SameAnswer(reg, kind, p, a, b) {
        TermsExpose(reg, kind, p, a, b);
      }
    }
  }

  function Leaf(kind: string, p: Params, negate: bool): Condition {
    Condition(OP_NONE, [], Some(Term(kind, p, negate)))
  }

  lemma {:induction false} TermsExpose(reg: Conditions, kind: string, p: Params, a: Facts, b: Facts)
    requires SameMatches(reg, a, b)
    ensures SameAnswer(reg, kind, p, a, b)
  {
    assert VerdictOf(reg, Leaf(kind, p, false), a).holds == VerdictOf(reg, Leaf(kind, p, false), b).holds;
    assert VerdictOf(reg, Leaf(kind, p, true), a).holds == VerdictOf(reg, Leaf(kind, p, true), b).holds;
  }
}
