/** internal/rules/conditions/conditions.go: the evaluators the daemon ships, and
    which of them a simulation forecasts. Strings are ASCII. */
module BuiltinConditions {
  import opened Seqs
  import opened Text
  import opened Findings
  import opened Rules
  import Clock
  import RuleEngine
  import Simulator

  // ---- parameters ----------------------------------------------------------------

  function TextParam(p: Params, key: string): Option<string> {
    if key in p && p[key].Text? then Some(p[key].s) else None
  }

  function NumberParam(p: Params, key: string): Option<int> {
    if key in p && p[key].Number? then Some(p[key].n) else None
  }

  function TextsParam(p: Params, key: string): Option<seq<string>> {
    if key in p && p[key].Texts? then Some(p[key].items) else None
  }

  function Answer(holds: bool): Verdict {
    Verdict(holds, None)
  }

  function Broken(message: string): Verdict {
    Verdict(false, Some(message))
  }

  // ---- evaluators -----------------------------------------------------------------

  function SeverityRank(s: string): int {
    if s == "info" then 1 else if s == "low" then 2 else if s == "medium" then 3
    else if s == "high" then 4 else if s == "critical" then 5 else 0
  }

  function EvalSeverity(p: Params, ec: Facts): Verdict {
    var sev := ec.finding.severity;
    var min, max, eq := TextParam(p, "min"), TextParam(p, "max"), TextParam(p, "eq");
    if min.Some? then Answer(SeverityRank(sev) >= SeverityRank(min.value))
    else if max.Some? then Answer(SeverityRank(sev) < SeverityRank(max.value) || sev == max.value)
    else if eq.Some? then Answer(sev == eq.value)
    else Broken("severity: needs min, max, or eq")
  }

  function EvalFramework(p: Params, ec: Facts): Verdict {
    var id, any := TextParam(p, "id"), TextsParam(p, "any");
    if id.Some? then Answer(id.value in ec.finding.frameworks)
    else if any.Some? then Answer(exists i :: 0 <= i < |any.value| && any.value[i] in ec.finding.frameworks)
    else Broken("framework: needs id or any")
  }

  function EvalProvider(p: Params, ec: Facts): Verdict {
    var id, any := TextParam(p, "id"), TextsParam(p, "any");
    if id.Some? then Answer(ec.finding.provider == id.value)
    else if any.Some? then Answer(ec.finding.provider in any.value)
    else Broken("provider: needs id or any")
  }

  /** resource_type and check_id. */
  function EqualsOrStarts(p: Params, text: string, error: string): Verdict {
    var eq, prefix, any := TextParam(p, "eq"), TextParam(p, "prefix"), TextsParam(p, "any");
    if eq.Some? then Answer(text == eq.value)
    else if prefix.Some? then Answer(HasPrefix(text, prefix.value))
    else if any.Some? then Answer(text in any.value)
    else Broken(error)
  }

  function EvalResourceTag(p: Params, ec: Facts): Verdict {
    var has, any := TextsParam(p, "has"), TextsParam(p, "any");
    if has.Some? then Answer(forall i :: 0 <= i < |has.value| ==> has.value[i] in ec.resource.tags)
    else if any.Some? then Answer(exists i :: 0 <= i < |any.value| && any.value[i] in ec.resource.tags)
    else Broken("resource_tag: needs has or any")
  }

  /** Midnight of January 1st of the year 1, Go's zero time. */
  const ZERO_TIME := -62_135_596_800

  function Seconds(t: Option<int>): int {
    if t.None? then ZERO_TIME else t.value
  }

  const DAY := 24 * 60 * 60

  function EvalFindingAge(p: Params, ec: Facts): Verdict {
    if ec.finding.firstSeenAt.None? then Answer(false)
    else
      var age := Seconds(ec.now) - ec.finding.firstSeenAt.value;
      var min, max := NumberParam(p, "min_days"), NumberParam(p, "max_days");
      if min.Some? then Answer(age >= min.value * DAY)
      else if max.Some? then Answer(age <= max.value * DAY)
      else Broken("finding_age: needs min_days or max_days")
  }

  function EvalDriftDelta(p: Params, ec: Facts): Verdict {
    var baseline := NumberParam(ec.extras, "baseline_score");
    if baseline.None? then Answer(false)
    else
      var delta := ec.scan.score - baseline.value;
      var drop, gain := NumberParam(p, "min_drop"), NumberParam(p, "max_gain");
      if drop.Some? then Answer(delta <= -drop.value)
      else if gain.Some? then Answer(delta >= gain.value)
      else Broken("drift_delta: needs min_drop or max_gain")
  }

  /** A text as bytes; no time of day contains a byte of a longer character. */
  function Bytes(s: string): seq<byte> {
    seq(|s|, i requires 0 <= i < |s| => if s[i] < 128 as char then s[i] as byte else 255)
  }

  function MinuteOf(t: int): int {
    t / 60
  }

  function DayOf(t: int): int {
    t / DAY
  }

  function EvalTimeOfDay(p: Params, ec: Facts): Verdict {
    var start, end := TextParam(p, "start"), TextParam(p, "end");
    if start.None? || end.None? then Broken("time_of_day: needs start + end (HH:MM)")
    else
      var minute := MinuteOf(Seconds(ec.now));
      Answer(Clock.SilenceWindow(minute / 60 % 24, minute % 60, Bytes(start.value), Bytes(end.value)))
  }

  const WEEKDAYS: seq<string> := ["sun", "mon", "tue", "wed", "thu", "fri", "sat"]

  /** The first of January 1970 was a Thursday. */
  function Weekday(day: int): string {
    WEEKDAYS[(day + 4) % 7]
  }

  function FirstThree(s: string): string {
    if |s| <= 3 then s else s[..3]
  }

  function EvalDayOfWeek(p: Params, ec: Facts): Verdict {
    var days := TextsParam(p, "days");
    if days.None? then Broken("day_of_week: needs days []")
    else
      var want := Weekday(DayOf(Seconds(ec.now)));
      Answer(exists i :: 0 <= i < |days.value| && FirstThree(Lower(days.value[i])) == want)
  }

  function EvalStatus(p: Params, ec: Facts): Verdict {
    var eq, any := TextParam(p, "eq"), TextsParam(p, "any");
    if eq.Some? then Answer(ec.finding.status == eq.value)
    else if any.Some? then Answer(ec.finding.status in any.value)
    else Broken("status: needs eq or any")
  }

  const BUILTINS: Conditions := map[
    "severity" := (p: Params, ec: Facts) => EvalSeverity(p, ec),
    "framework" := (p: Params, ec: Facts) => EvalFramework(p, ec),
    "provider" := (p: Params, ec: Facts) => EvalProvider(p, ec),
    "resource_type" := (p: Params, ec: Facts) => EqualsOrStarts(p, ec.finding.resourceType, "resource_type: needs eq, prefix, or any"),
    "resource_tag" := (p: Params, ec: Facts) => EvalResourceTag(p, ec),
    "check_id" := (p: Params, ec: Facts) => EqualsOrStarts(p, ec.finding.checkID, "check_id: needs eq, prefix, or any"),
    "finding_age" := (p: Params, ec: Facts) => EvalFindingAge(p, ec),
    "drift_delta" := (p: Params, ec: Facts) => EvalDriftDelta(p, ec),
    "time_of_day" := (p: Params, ec: Facts) => EvalTimeOfDay(p, ec),
    "day_of_week" := (p: Params, ec: Facts) => EvalDayOfWeek(p, ec),
    "status" := (p: Params, ec: Facts) => EvalStatus(p, ec)]

  /** The registry of the daemon, or one with only some of the kinds. */
  function Only(kinds: set<string>): Conditions {
    map kind | kind in BUILTINS && kind in kinds :: BUILTINS[kind]
  }

  // ---- what the evaluators mean ----------------------------------------------------

  lemma {:induction false} RankIsLevel(level: Severity)
    requires INFO <= level <= CRITICAL
    ensures SeverityRank(SeverityName(level)) == level
  {
  }

  /** `min`, `max` and `eq` compare the severities by their levels; the first that is
      given decides. */
  lemma {:induction false} SeverityMeans(ec: Facts, level: Severity, bound: Severity, p: Params)
    requires INFO <= level <= CRITICAL && INFO <= bound <= CRITICAL && ec.finding.severity == SeverityName(level)
    ensures TextParam(p, "min") == Some(SeverityName(bound)) ==> EvalSeverity(p, ec) == Answer(level >= bound)
    ensures TextParam(p, "min").None? && TextParam(p, "max") == Some(SeverityName(bound)) ==> EvalSeverity(p, ec) == Answer(level <= bound)
    ensures TextParam(p, "min").None? && TextParam(p, "max").None? && TextParam(p, "eq") == Some(SeverityName(bound)) ==>
      EvalSeverity(p, ec) == Answer(level == bound)
  {
    hide SeverityRank, SeverityName;
    RankIsLevel(level);
    RankIsLevel(bound);
  }

  /** A finding is at least so many days old from that time after its first sighting on,
      and at most so many until then; both only at that second. */
  lemma {:induction false} AgeMeans(ec: Facts, days: int, seen: int, now: int)
    requires ec.finding.firstSeenAt == Some(seen) && ec.now == Some(now)
    ensures EvalFindingAge(map["min_days" := Number(days)], ec) == Answer(seen + days * 86400 <= now)
    ensures EvalFindingAge(map["max_days" := Number(days)], ec) == Answer(now <= seen + days * 86400)
  {
  }

  /** A drop is counted from the baseline down, a gain up. */
  lemma {:induction false} DriftMeans(ec: Facts, baseline: int, points: int)
    requires NumberParam(ec.extras, "baseline_score") == Some(baseline)
    ensures EvalDriftDelta(map["min_drop" := Number(points)], ec) == Answer(ec.scan.score + points <= baseline)
    ensures EvalDriftDelta(map["max_gain" := Number(points)], ec) == Answer(baseline + points <= ec.scan.score)
  {
  }

  const DAYS: seq<string> := ["Sunday", "Monday", "Tuesday", "Wednesday", "Thursday", "Friday", "Saturday"]

  /** A weekday is met every seventh day, Thursday on the first of January 1970. */
  lemma {:induction false} WeekdayMeans(ec: Facts, k: int)
    requires 0 <= k < 7
    ensures EvalDayOfWeek(map["days" := Texts([DAYS[k]])], ec) == Answer((DayOf(Seconds(ec.now)) + 4) % 7 == k)
    ensures Weekday(0) == "thu"
  {
    hide DayOf, Seconds;
    var p: Params := map["days" := Texts([DAYS[k]])];
    var day := (DayOf(Seconds(ec.now)) + 4) % 7;
    assert [DAYS[k]][0] == DAYS[k];
    ShortName(k);
    AllNamesDiffer(k, day);
  }

  /** Go's zero time, the first of January of the year 1, was a Monday. */
  lemma {:induction false} ZeroTimeMeans()
    ensures ZERO_TIME == -(365 * 1969 + 1969 / 4 - 1969 / 100 + 1969 / 400) * 86400
    ensures Weekday(DayOf(Seconds(None))) == "mon"
  {
    assert DayOf(ZERO_TIME) == -719162;
    assert (-719162 + 4) % 7 == 1;
  }

  lemma {:induction false} ShortName(k: int)
    requires 0 <= k < 7
    ensures FirstThree(Lower(DAYS[k])) == WEEKDAYS[k]
  {
    hide Lower;
    var full := DAYS[k];
    var low := Lower(full);
    assert full == (if k == 0 then "Sunday" else if k == 1 then "Monday" else if k == 2 then "Tuesday" else if k == 3 then "Wednesday"
      else if k == 4 then "Thursday" else if k == 5 then "Friday" else "Saturday");
    assert low[..3] == [LowerChar(full[0]), LowerChar(full[1]), LowerChar(full[2])];
  }

  lemma {:induction false} AllNamesDiffer(k: int, j: int)
    requires 0 <= k < 7 && 0 <= j < 7
    ensures WEEKDAYS[k] == WEEKDAYS[j] <==> k == j
  {
    assert WEEKDAYS[0][0] == 's' && WEEKDAYS[1][0] == 'm' && WEEKDAYS[2][0] == 't' && WEEKDAYS[3][0] == 'w';
    assert WEEKDAYS[4][0] == 't' && WEEKDAYS[5][0] == 'f' && WEEKDAYS[6][0] == 's';
    assert WEEKDAYS[0][1] == 'u' && WEEKDAYS[2][1] == 'u' && WEEKDAYS[4][1] == 'h' && WEEKDAYS[6][1] == 'a';
  }

  /** What the conditions on texts ask, for a single value, for one of several, for all
      of several and for a beginning. */
  lemma {:induction false} TextsMean(ec: Facts, x: string, xs: seq<string>)
    ensures EvalProvider(map["id" := Text(x)], ec) == Answer(ec.finding.provider == x)
    ensures EvalProvider(map["any" := Texts(xs)], ec) == Answer(ec.finding.provider in xs)
    ensures EvalStatus(map["eq" := Text(x)], ec) == Answer(ec.finding.status == x)
    ensures EvalStatus(map["any" := Texts(xs)], ec) == Answer(ec.finding.status in xs)
    ensures EvalFramework(map["id" := Text(x)], ec) == Answer(x in ec.finding.frameworks)
    ensures EvalFramework(map["any" := Texts(xs)], ec) == Answer(exists y :: y in xs && y in ec.finding.frameworks)
    ensures EvalResourceTag(map["has" := Texts(xs)], ec) == Answer(forall y :: y in xs ==> y in ec.resource.tags)
    ensures EvalResourceTag(map["any" := Texts(xs)], ec) == Answer(exists y :: y in xs && y in ec.resource.tags)
  {
  }

  lemma {:induction false} BeginningMeans(ec: Facts, kind: string, x: string, xs: seq<string>)
    requires kind == "resource_type" || kind == "check_id"
    ensures var text := if kind == "check_id" then ec.finding.checkID else ec.finding.resourceType;
      && BUILTINS[kind](map["eq" := Text(x)], ec) == Answer(text == x)
      && BUILTINS[kind](map["any" := Texts(xs)], ec) == Answer(text in xs)
      && BUILTINS[kind](map["prefix" := Text(x)], ec) == Answer(exists rest :: text == x + rest)
  {
    hide EvalSeverity, EvalFramework, EvalProvider, EvalResourceTag, EvalFindingAge, EvalDriftDelta, EvalTimeOfDay, EvalDayOfWeek, EvalStatus;
    var text := if kind == "check_id" then ec.finding.checkID else ec.finding.resourceType;
    if x <= text {
      assert text == x + text[|x|..];
    }
  }

  /** Without parameters every kind is an error, except where there is nothing to
      compare: an age never seen, a drift without a baseline. */
  lemma {:induction false} ParametersAreNeeded(kind: string, ec: Facts)
    requires kind in BUILTINS
    ensures BUILTINS[kind](map[], ec).error.Some? <==>
      !(kind == "finding_age" && ec.finding.firstSeenAt.None?) && !(kind == "drift_delta" && NumberParam(ec.extras, "baseline_score").None?)
    ensures !BUILTINS[kind](map[], ec).holds
  {
  }

  // ---- what the evaluators read ----------------------------------------------------

  /** Facts that agree on the columns of the findings table. */
  ghost predicate SameColumns(a: Facts, b: Facts) {
    a.finding.(frameworks := [], tags := []) == b.finding.(frameworks := [], tags := [])
  }

  lemma {:induction false} ColumnsAnswer(kind: string, p: Params, a: Facts, b: Facts)
    requires kind == "severity" || kind == "provider" || kind == "resource_type" || kind == "check_id" || kind == "status"
    requires SameColumns(a, b)
    ensures SameAnswer(BUILTINS, kind, p, a, b)
  {
    hide SeverityRank, HasPrefix;
  }

  lemma {:induction false} TimesAnswer(kind: string, p: Params, a: Facts, b: Facts)
    requires SameColumns(a, b)
    requires kind == "finding_age" ==> Seconds(a.now) == Seconds(b.now)
    requires kind == "time_of_day" ==> MinuteOf(Seconds(a.now)) == MinuteOf(Seconds(b.now))
    requires kind == "day_of_week" ==> DayOf(Seconds(a.now)) == DayOf(Seconds(b.now))
    requires kind == "finding_age" || kind == "time_of_day" || kind == "day_of_week"
    ensures SameAnswer(BUILTINS, kind, p, a, b)
  {
    hide Clock.SilenceWindow, Lower, Bytes, Weekday, MinuteOf, DayOf, Seconds;
  }

  /** A byte string of ASCII characters as text. */
  function Chars(b: seq<byte>): string {
    seq(|b|, i requires 0 <= i < |b| => b[i] as char)
  }

  function TimeText(h: int, m: int): string
    requires Clock.IsTimeOfDay(h, m)
  {
    Chars(Clock.FormatHHMM(h, m))
  }

  lemma {:induction false} TimeTextParses(h: int, m: int)
    requires Clock.IsTimeOfDay(h, m)
    ensures Clock.ParseHHMM(Bytes(TimeText(h, m))) == Some((h, m))
  {
    var b := Clock.FormatHHMM(h, m);
    assert forall i :: 0 <= i < |b| ==> b[i] < 128;
    assert Bytes(Chars(b)) == b;
    Clock.FormattedParses(h, m);
  }

  /** The window from a minute of the day round the clock to the minute before it. */
  function WindowFrom(minute: int): Params {
    Clock.OnTheClock(minute);
    Clock.OnTheClock(minute - 1);
    map["start" := Text(TimeText(minute / 60 % 24, minute % 60)), "end" := Text(TimeText((minute - 1) / 60 % 24, (minute - 1) % 60))]
  }

  /** It is open all day but for that minute. */
  lemma {:induction false} WindowAt(minute: int, ec: Facts)
    ensures EvalTimeOfDay(WindowFrom(minute), ec) ==
      Answer(Clock.InArc(MinuteOf(Seconds(ec.now)) % Clock.DAY, minute % Clock.DAY, (minute - 1) % Clock.DAY))
  {
    hide Clock.ParseHHMM, Clock.SilenceWindow, Clock.FormatHHMM, Clock.InArc, Bytes, TimeText;
    var now := MinuteOf(Seconds(ec.now));
    Clock.OnTheClock(minute);
    Clock.OnTheClock(minute - 1);
    Clock.OnTheClock(now);
    var h, m, g, n := minute / 60 % 24, minute % 60, (minute - 1) / 60 % 24, (minute - 1) % 60;
    TimeTextParses(h, m);
    TimeTextParses(g, n);
    Clock.WindowIsArc(now / 60 % 24, now % 60, Bytes(TimeText(h, m)), Bytes(TimeText(g, n)));
  }

  lemma {:induction false} WeekdaysDiffer(day: int)
    ensures FirstThree(Lower(Weekday(day))) == Weekday(day) && Weekday(day - 1) != Weekday(day)
  {
    var i := (day + 4) % 7;
    assert (day + 3) % 7 == if i == 0 then 6 else i - 1;
    NamesDiffer(i);
  }

  lemma {:induction false} NamesDiffer(i: int)
    requires 0 <= i < 7
    ensures WEEKDAYS[i] != WEEKDAYS[if i == 0 then 6 else i - 1]
    ensures |WEEKDAYS[i]| == 3 && Lower(WEEKDAYS[i]) == WEEKDAYS[i]
  {
    assert WEEKDAYS[0][0] == 's' && WEEKDAYS[1][0] == 'm' && WEEKDAYS[2][0] == 't' && WEEKDAYS[3][0] == 'w';
    assert WEEKDAYS[4][0] == 't' && WEEKDAYS[5][0] == 'f' && WEEKDAYS[6][0] == 's';
    assert WEEKDAYS[6][1] == 'a' && WEEKDAYS[0][1] == 'u';
  }

  lemma {:induction false} OnlyAnswers(kinds: set<string>, kind: string, p: Params, a: Facts, b: Facts)
    ensures SameAnswer(Only(kinds), kind, p, a, b) <==> (kind in kinds ==> SameAnswer(BUILTINS, kind, p, a, b))
  {
    hide BUILTINS;
  }

  lemma {:induction false} BuiltinKinds()
    ensures BUILTINS.Keys == {"severity", "framework", "provider", "resource_type", "resource_tag", "check_id",
      "finding_age", "drift_delta", "time_of_day", "day_of_week", "status"}
  {
  }

  // ---- which conditions a simulation forecasts --------------------------------------

  /** The kinds that read nothing but columns of the findings table are always
      forecast; the others only by windows too narrow to tell. */
  predicate Foreseeable(kind: string, start: int, end: int) {
    if kind == "framework" || kind == "resource_tag" || kind == "drift_delta" then end < start
    else if kind == "finding_age" then end <= start
    else if kind == "time_of_day" then end < start || MinuteOf(start) == MinuteOf(end)
    else if kind == "day_of_week" then end < start || DayOf(start) == DayOf(end)
    else true
  }

  lemma {:induction false} ForeseeableAnswers(kind: string, p: Params, o: Simulator.Options, row: Simulator.Row)
    requires kind in BUILTINS && o.start.Some? && o.end.Some? && o.start.value <= row.createdAt <= o.end.value
    requires Foreseeable(kind, o.start.value, o.end.value)
    ensures SameAnswer(BUILTINS, kind, p, Simulator.EventOf(o, row), Simulator.RealEvent(o, row))
  {
    hide BUILTINS, SameAnswer;
    BuiltinKinds();
    var a, b := Simulator.EventOf(o, row), Simulator.RealEvent(o, row);
    assert MinuteOf(o.start.value) <= MinuteOf(row.createdAt) <= MinuteOf(o.end.value);
    assert DayOf(o.start.value) <= DayOf(row.createdAt) <= DayOf(o.end.value);
    if kind == "finding_age" || kind == "time_of_day" || kind == "day_of_week" {
      TimesAnswer(kind, p, a, b);
    } else {
      ColumnsAnswer(kind, p, a, b);
    }
  }

  const NO_FINDING := FindingFacts("", "", "", "", "", "", "", "", [], [], None, None)

  /** A finding as stored at `t`, with one framework, one resource tag and a drop of
      the score. */
  function Sample(t: int): Simulator.Row {
    Simulator.Row(t, NO_FINDING.(frameworks := ["soc2"], firstSeenAt := Some(t), lastSeenAt := Some(t)), NO_SCAN,
      NO_RESOURCE.(tags := ["soc2"]), map["baseline_score" := Number(1)])
  }

  /** A parameter and a finding the daemon can have stored on which replay and event
      differ. */
  ghost predicate Tells(kind: string, o: Simulator.Options, row: Simulator.Row, p: Params)
    requires o.start.Some? && o.end.Some?
  {
    && Simulator.IsStored(row) && o.start.value <= row.createdAt <= o.end.value
    && !SameAnswer(BUILTINS, kind, p, Simulator.EventOf(o, row), Simulator.RealEvent(o, row))
  }

  /** The framework, the tag and the score are not replayed. */
  lemma {:induction false} LostFactsTell(kind: string, o: Simulator.Options)
    requires kind == "framework" || kind == "resource_tag" || kind == "drift_delta"
    requires o.start.Some? && o.end.Some? && o.start.value <= o.end.value
    ensures exists row, p :: Tells(kind, o, row, p)
  {
    hide EvalSeverity, EvalProvider, EqualsOrStarts, EvalFindingAge, EvalTimeOfDay, EvalDayOfWeek, EvalStatus;
    var row, texts := Sample(o.end.value), ["soc2"];
    assert texts[0] == "soc2";
    var p := map["id" := Text("soc2"), "has" := Texts(texts), "min_drop" := Number(1)];
    assert BUILTINS[kind](p, Simulator.RealEvent(o, row)).holds;
    assert Tells(kind, o, row, p);
  }

  /** The real engine sees a finding on the day it was first seen, the simulator at
      the end of the window. */
  lemma {:induction false} AgeTells(o: Simulator.Options)
    requires o.start.Some? && o.end.Some? && o.start.value < o.end.value
    ensures exists row, p :: Tells("finding_age", o, row, p)
  {
    var row := Sample(o.start.value);
    assert Tells("finding_age", o, row, map["max_days" := Number(0)]);
  }

  lemma {:induction false} TimeTells(o: Simulator.Options)
    requires o.start.Some? && o.end.Some? && MinuteOf(o.start.value) < MinuteOf(o.end.value)
    ensures exists row, p :: Tells("time_of_day", o, row, p)
  {
    hide EvalTimeOfDay, Clock.InArc, WindowFrom;
    var minute := MinuteOf(o.end.value);
    var row, p := Sample(minute * 60 - 1), WindowFrom(minute);
    Clock.AllButThePreviousMinute(minute);
    WindowAt(minute, Simulator.EventOf(o, row));
    WindowAt(minute, Simulator.RealEvent(o, row));
    assert Tells("time_of_day", o, row, p);
  }

  lemma {:induction false} WeekdayTells(o: Simulator.Options)
    requires o.start.Some? && o.end.Some? && DayOf(o.start.value) < DayOf(o.end.value)
    ensures exists row, p :: Tells("day_of_week", o, row, p)
  {
    hide Weekday, Lower, FirstThree;
    var day := DayOf(o.end.value);
    var row := Sample(day * DAY - 1);
    var texts := [Weekday(day)];
    assert texts[0] == Weekday(day);
    WeekdaysDiffer(day);
    assert DayOf(row.createdAt) == day - 1;
    assert Tells("day_of_week", o, row, map["days" := Texts(texts)]);
  }

  lemma {:induction false} OthersTell(kind: string, o: Simulator.Options)
    requires kind in BUILTINS && o.start.Some? && o.end.Some?
    requires !Foreseeable(kind, o.start.value, o.end.value)
    ensures exists row, p :: Tells(kind, o, row, p)
  {
    hide BUILTINS, Tells;
    assert o.start.value <= o.end.value;
    assert MinuteOf(o.start.value) <= MinuteOf(o.end.value) && DayOf(o.start.value) <= DayOf(o.end.value);
    if kind == "finding_age" {
      AgeTells(o);
    } else if kind == "time_of_day" {
      TimeTells(o);
    } else if kind == "day_of_week" {
      WeekdayTells(o);
    } else {
      LostFactsTell(kind, o);
    }
  }

  /** Of the shipped conditions, the forecast is right for every rule made of the
      given kinds, and every history, of any findings or only of findings as the
      daemon stores them, exactly when each kind reads nothing but the columns of
      the findings table, or the window is too narrow for it to tell:
      empty for framework, resource_tag and drift_delta, whose facts a replay does
      not have; no longer than an instant for finding_age, a minute for time_of_day
      and a day for day_of_week, which read the time. */
  lemma {:induction false} BuiltinForecastIff(kinds: set<string>, o: Simulator.Options, such: Simulator.Row -> bool)
    requires kinds <= BUILTINS.Keys && o.start.Some? && o.end.Some? && o.limit > 0
    requires forall row :: Simulator.IsStored(row) ==> such(row)
    ensures Simulator.ForecastIsRight(Only(kinds), o, such) <==> forall kind :: kind in kinds ==> Foreseeable(kind, o.start.value, o.end.value)
  {
    hide BUILTINS, Foreseeable, Simulator.ForecastIsRight, Simulator.EventOf, Simulator.RealEvent, SameAnswer, Only;
    Simulator.ForecastIsRightIff(Only(kinds), o, such);
    if forall kind :: kind in kinds ==> Foreseeable(kind, o.start.value, o.end.value) {
      forall row: Simulator.Row, kind: string, p: Params | o.start.value <= row.createdAt <= o.end.value
        ensures SameAnswer(Only(kinds), kind, p, Simulator.EventOf(o, row), Simulator.RealEvent(o, row))
      {
        if kind in kinds {
          ForeseeableAnswers(kind, p, o, row);
        }
        OnlyAnswers(kinds, kind, p, Simulator.EventOf(o, row), Simulator.RealEvent(o, row));
      }
    } else {
      var kind :| kind in kinds && !Foreseeable(kind, o.start.value, o.end.value);
      OthersTell(kind, o);
      var row, p :| Tells(kind, o, row, p);
      OnlyAnswers(kinds, kind, p, Simulator.EventOf(o, row), Simulator.RealEvent(o, row));
      assert such(row) && !Indistinguishable(Only(kinds), Simulator.EventOf(o, row), Simulator.RealEvent(o, row));
    }
  }

  /** In particular: a term that asks for a framework never fires in a simulation,
      on any history, however often the real engine matches it. */
  lemma {:induction false} FrameworkNeverFires(rl: RuleEngine.Rule, id: string, fs: seq<Simulator.Row>, o: Simulator.Options)
    requires rl.condition == Leaf("framework", map["id" := Text(id)], false)
    ensures Simulator.FireCount(BUILTINS, rl, fs, o) == 0
  {
    if fs != [] {
      FrameworkNeverFires(rl, id, fs[..|fs| - 1], o);
    }
  }
}
