/** internal/rules/engine.go: times of day and silence windows. */
module Clock {
  import opened Seqs
  import opened Text

  const DAY := 24 * 60

  const ZERO: byte := '0' as byte
  const COLON: byte := ':' as byte

  /** Go's `int(c - '0')` on bytes: the subtraction wraps around. */
  function Digit(c: byte): int {
    (c as int - ZERO as int) % 256
  }

  predicate IsDigit(c: byte) {
    '0' as byte <= c <= '9' as byte
  }

  function ParseHHMM(s: seq<byte>): Option<(int, int)> {
    if |s| != 5 || s[2] != COLON then None
    else
      var h, m := Digit(s[0]) * 10 + Digit(s[1]), Digit(s[3]) * 10 + Digit(s[4]);
      if h < 0 || h > 23 || m < 0 || m > 59 then None else Some((h, m))
  }

  function TwoDigits(n: int): seq<byte>
    requires 0 <= n < 100
  {
    [(ZERO as int + n / 10) as byte, (ZERO as int + n % 10) as byte]
  }

  function FormatHHMM(h: int, m: int): seq<byte>
    requires 0 <= h < 24 && 0 <= m < 60
  {
    TwoDigits(h) + [COLON] + TwoDigits(m)
  }

  lemma {:induction false} ParsedIsTimeOfDay(s: seq<byte>)
    ensures ParseHHMM(s).Some? ==> 0 <= ParseHHMM(s).value.0 < 24 && 0 <= ParseHHMM(s).value.1 < 60
  {
  }

  /** Every time of day is read back, */
  lemma {:induction false} FormattedParses(h: int, m: int)
    requires 0 <= h < 24 && 0 <= m < 60
    ensures ParseHHMM(FormatHHMM(h, m)) == Some((h, m))
  {
    assert Digit(TwoDigits(h)[0]) * 10 + Digit(TwoDigits(h)[1]) == h;
    assert Digit(TwoDigits(m)[0]) * 10 + Digit(TwoDigits(m)[1]) == m;
    var s := FormatHHMM(h, m);
    assert s[..2] == TwoDigits(h) && s[3..] == TwoDigits(m);
    assert s[0] == TwoDigits(h)[0] && s[1] == TwoDigits(h)[1] && s[3] == TwoDigits(m)[0] && s[4] == TwoDigits(m)[1];
  }

  /** and what is read was written so exactly when its second and last bytes are
      digits; the wrapped subtraction also takes the bytes after '9'. */
  lemma {:induction false} ParsedWasFormattedIff(s: seq<byte>)
    requires ParseHHMM(s).Some?
    ensures FormatHHMM(ParseHHMM(s).value.0, ParseHHMM(s).value.1) == s <==> IsDigit(s[1]) && IsDigit(s[4])
  {
    var h, m := ParseHHMM(s).value.0, ParseHHMM(s).value.1;
    PairWasFormattedIff(s[0], s[1], h);
    PairWasFormattedIff(s[3], s[4], m);
    var t := FormatHHMM(h, m);
    assert t[..2] == TwoDigits(h) && t[3..] == TwoDigits(m) && t[2] == COLON;
    assert s == s[..2] + [s[2]] + s[3..];
    assert s[..2] == [s[0], s[1]] && s[3..] == [s[3], s[4]];
  }

  lemma {:induction false} PairWasFormattedIff(a: byte, b: byte, n: int)
    requires n == Digit(a) * 10 + Digit(b) && 0 <= n < 60
    ensures TwoDigits(n) == [a, b] <==> IsDigit(b)
  {
    assert 0 <= Digit(a) < 6;
    assert a as int == ZERO as int + Digit(a);
    if IsDigit(b) {
      assert n / 10 == Digit(a) && n % 10 == Digit(b);
    }
    assert TwoDigits(n)[1] == b ==> IsDigit(b);
  }

  /** What is read at all: five bytes with a colon in the middle whose pairs, each byte
      counted from '0' on, stay within a day. */
  lemma {:induction false} ParsesIff(s: seq<byte>)
    ensures ParseHHMM(s).Some? <==>
      && |s| == 5 && s[2] == ':' as byte
      && s[0] >= '0' as byte && s[1] >= '0' as byte && s[3] >= '0' as byte && s[4] >= '0' as byte
      && (s[0] as int - 48) * 10 + (s[1] as int - 48) < 24 && (s[3] as int - 48) * 10 + (s[4] as int - 48) < 60
  {
  }

  /** "0G:00" is 23 o'clock. */
  lemma {:induction false} LettersParse()
    ensures ParseHHMM([ZERO, 'G' as byte, COLON, ZERO, ZERO]) == Some((23, 0))
  {
  }

  // ---- windows -----------------------------------------------------------------------

  function Minutes(t: (int, int)): int {
    t.0 * 60 + t.1
  }

  predicate SilenceWindow(hour: int, minute: int, startHHMM: seq<byte>, endHHMM: seq<byte>) {
    var start, end := ParseHHMM(startHHMM), ParseHHMM(endHHMM);
    if start.None? || end.None? then false
    else
      var now, a, b := hour * 60 + minute, Minutes(start.value), Minutes(end.value);
      if a == b then false
      else if a < b then now >= a && now < b
      else now >= a || now < b
  }

  /** The minutes from `a` round the clock up to and without `b`. */
  predicate InArc(now: int, a: int, b: int) {
    (now - a) % DAY < (b - a) % DAY
  }

  predicate IsTimeOfDay(h: int, m: int) {
    0 <= h < 24 && 0 <= m < 60
  }

  lemma {:induction false} WindowIsArc(h: int, m: int, s: seq<byte>, e: seq<byte>)
    requires IsTimeOfDay(h, m)
    ensures SilenceWindow(h, m, s, e) <==>
      && ParseHHMM(s).Some? && ParseHHMM(e).Some?
      && InArc(h * 60 + m, Minutes(ParseHHMM(s).value), Minutes(ParseHHMM(e).value))
  {
    if ParseHHMM(s).Some? && ParseHHMM(e).Some? {
      ArcOnOneDay(h * 60 + m, Minutes(ParseHHMM(s).value), Minutes(ParseHHMM(e).value));
    }
  }

  lemma {:induction false} ArcOnOneDay(now: int, a: int, b: int)
    requires 0 <= now < DAY && 0 <= a < DAY && 0 <= b < DAY
    ensures InArc(now, a, b) <==> if a < b then a <= now < b else a != b && (now >= a || now < b)
  {
    assert (now - a) % DAY == if now >= a then now - a else now - a + DAY;
    assert (b - a) % DAY == if b >= a then b - a else b - a + DAY;
  }

  /** A window and the one from its end to its start share out the day. */
  lemma {:induction false} ReversedWindowIsComplement(h: int, m: int, s: seq<byte>, e: seq<byte>)
    requires IsTimeOfDay(h, m) && ParseHHMM(s).Some? && ParseHHMM(e).Some?
    ensures SilenceWindow(h, m, s, e) == !SilenceWindow(h, m, e, s) <==> ParseHHMM(s).value != ParseHHMM(e).value
    ensures ParseHHMM(s).value == ParseHHMM(e).value ==> !SilenceWindow(h, m, s, e)
  {
    var t, u := ParseHHMM(s).value, ParseHHMM(e).value;
    assert Minutes(t) == Minutes(u) ==> t.0 == u.0;
  }

  /** A window splits at any time inside it. */
  lemma {:induction false} WindowSplits(h: int, m: int, s: seq<byte>, mid: seq<byte>, e: seq<byte>)
    requires IsTimeOfDay(h, m) && ParseHHMM(mid).Some?
    requires SilenceWindow(ParseHHMM(mid).value.0, ParseHHMM(mid).value.1, s, e)
    ensures SilenceWindow(h, m, s, e) == (SilenceWindow(h, m, s, mid) || SilenceWindow(h, m, mid, e))
    ensures !(SilenceWindow(h, m, s, mid) && SilenceWindow(h, m, mid, e))
  {
  }

  /** How many of the first `n` minutes of the day are in the window. */
  function SilentMinutes(n: nat, s: seq<byte>, e: seq<byte>): nat {
    if n == 0 then 0
    else SilentMinutes(n - 1, s, e) + (if SilenceWindow((n - 1) / 60, (n - 1) % 60, s, e) then 1 else 0)
  }

  lemma {:induction false} WindowLength(s: seq<byte>, e: seq<byte>)
    requires ParseHHMM(s).Some? && ParseHHMM(e).Some?
    ensures SilentMinutes(DAY, s, e) == (Minutes(ParseHHMM(e).value) - Minutes(ParseHHMM(s).value)) % DAY
  {
    hide SilentMinutes, ParseHHMM;
    SilentSoFar(DAY, s, e);
    ParsedIsTimeOfDay(s);
    ParsedIsTimeOfDay(e);
  }

  function Clamp(x: int, top: int): int
    requires 0 <= top
  {
    if x < 0 then 0 else if x > top then top else x
  }

  lemma {:induction false} SilentSoFar(n: nat, s: seq<byte>, e: seq<byte>)
    requires ParseHHMM(s).Some? && ParseHHMM(e).Some? && n <= DAY
    ensures var a, b := Minutes(ParseHHMM(s).value), Minutes(ParseHHMM(e).value);
      SilentMinutes(n, s, e) == if a <= b then Clamp(n - a, b - a) else Clamp(n, b) + Clamp(n - a, DAY)
  {
    hide ParseHHMM;
    ParsedIsTimeOfDay(s);
    ParsedIsTimeOfDay(e);
    if n > 0 {
      SilentSoFar(n - 1, s, e);
      assert (n - 1) / 60 * 60 + (n - 1) % 60 == n - 1;
    }
  }

  // ---- minutes since any midnight -----------------------------------------------------

  lemma {:induction false} OnTheClock(minute: int)
    ensures IsTimeOfDay(minute / 60 % 24, minute % 60)
    ensures minute / 60 % 24 * 60 + minute % 60 == minute % DAY
  {
    var hour := minute / 60;
    var q, r := hour / 24, hour % 24 * 60 + minute % 60;
    assert (q * 1440 + r) % 1440 == r;
    assert minute == hour * 60 + minute % 60;
    assert hour == hour / 24 * 24 + hour % 24;
  }

  /** The window from a minute round the clock to the minute before it. */
  lemma {:induction false} AllButThePreviousMinute(minute: int)
    ensures InArc(minute % DAY, minute % DAY, (minute - 1) % DAY)
    ensures !InArc((minute - 1) % DAY, minute % DAY, (minute - 1) % DAY)
  {
    var a, c := minute % DAY, (minute - 1) % DAY;
    assert c == if a == 0 then DAY - 1 else a - 1;
  }
}
