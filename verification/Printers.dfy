/** The small encoders of internal/report: intToStr of html.go, chromedpDataURL of
    pdf.go and escapeXML of chart.go, each with the decoder it must satisfy. */
module Printers {
  import opened Text
  import opened Seqs

  // ---- intToStr -------------------------------------------------------------------

  const TWO63 := 0x8000_0000_0000_0000

  /** An int is 64 bits wide. */
  predicate IsInt64(i: int) {
    -TWO63 <= i < TWO63
  }

  /** Negation wraps around at the least value. */
  function Negated(i: int): int
    requires IsInt64(i)
  {
    if i == -TWO63 then i else -i
  }

  function DigitChar(d: int): char
    requires 0 <= d < 10
  {
    '0' + d as char
  }

  /** The decimal digits of a positive number; none for 0. */
  function Digits(n: nat): string {
    if n == 0 then "" else Digits(n / 10) + [DigitChar(n % 10)]
  }

  /** The least int has no positive counterpart whose digits could be printed. */
  function Printed(num: int): string
    requires IsInt64(num)
  {
    if num == 0 then "0"
    else if num > 0 then Digits(num)
    else "-" + if num == -TWO63 then "" else Digits(-num)
  }

  function Power10(k: nat): nat {
    if k == 0 then 1 else 10 * Power10(k - 1)
  }

  lemma {:induction false} FitsNineteenDigits()
    ensures Power10(19) == 10_000_000_000_000_000_000
  {
    assert Power10(4) == 10_000;
    PowerProduct(4, 4);
    PowerProduct(8, 8);
    PowerProduct(16, 3);
    assert Power10(3) == 1000;
  }

  lemma {:induction false} PowerProduct(a: nat, b: nat)
    ensures Power10(a + b) == Power10(a) * Power10(b)
  {
    if b > 0 {
      PowerProduct(a, b - 1);
      assert Power10(a + b) == 10 * Power10(a + (b - 1));
    }
  }

  /** The digits of a number, if it is positive, written backwards from the end of
      the buffer of 20 bytes, which leaves room for a sign. */
  method WriteDigits(num: int, buf: array<char>) returns (n: nat)
    requires num < TWO63 && buf.Length == 20
    modifies buf
    ensures 1 <= n <= 20 && buf[n..] == if num > 0 then Digits(num) else ""
  {
    hide Digits, Power10, DigitChar;
    n := 20;
    if num <= 0 {
      return;
    }
    FitsNineteenDigits();
    NoDigits();
    var i := num;
    while i > 0
      invariant 1 <= n <= 20 && 0 <= i < Power10(n - 1)
      invariant Digits(num) == Digits(i) + buf[n..]
    {
      DigitWritten(i, buf[n..]);
      QuotientFits(i, n - 1);
      n := n - 1;
      buf[n] := DigitChar(i % 10);
      assert buf[n..] == [buf[n]] + buf[n + 1..];
      i := i / 10;
    }
    assert Digits(num) == buf[n..];
  }

  /** The buffer is never underrun. The least int prints as "-". */
  method IntToStr(num: int) returns (s: string)
    requires IsInt64(num)
    ensures s == Printed(num)
  {
    hide Digits;
    if num == 0 {
      return "0";
    }
    var i := num;
    var buf := new char[20];
    var neg := i < 0;
    if neg {
      i := Negated(i);
    }
    var n := WriteDigits(i, buf);
    if neg {
      n := n - 1;
      buf[n] := '-';
      assert buf[n..] == [buf[n]] + buf[n + 1..];
    }
    s := buf[n..];
  }

  lemma {:induction false} NoDigits()
    ensures Digits(0) == ""
  {
  }

  /** The last digit moves to the front of what is written already. */
  lemma {:induction false} DigitWritten(i: nat, written: string)
    requires i > 0
    ensures Digits(i) + written == Digits(i / 10) + ([DigitChar(i % 10)] + written)
  {
  }

  lemma {:induction false} QuotientFits(i: nat, k: nat)
    requires 0 < i < Power10(k)
    ensures k > 0 && i / 10 < Power10(k - 1)
  {
    if k > 0 {
      assert i < 10 * Power10(k - 1);
    }
  }

  function DigitValue(c: char): Option<int> {
    if '0' <= c <= '9' then Some((c - '0') as int) else None
  }

  /** The value of a non-empty string of digits. */
  function ParseNat(s: string): Option<int> {
    if s == "" then None
    else
      var last := DigitValue(s[|s| - 1]);
      if last.None? then None
      else if |s| == 1 then Some(last.value)
      else
        var rest := ParseNat(s[..|s| - 1]);
        if rest.None? then None else Some(10 * rest.value + last.value)
  }

  function ParseInt(s: string): Option<int> {
    if s != "" && s[0] == '-' then
      var n := ParseNat(s[1..]);
      if n.None? then None else Some(-n.value)
    else
      var n := ParseNat(s);
      if n.None? then None else Some(n.value)
  }

  lemma {:induction false} DigitsParse(n: nat)
    requires n > 0
    ensures ParseNat(Digits(n)) == Some(n)
    ensures Digits(n) != "" && Digits(n)[0] != '-'
  {
    hide Digits, DigitChar, DigitValue;
    var s := Digits(n);
    LastDigit(n);
    assert s[..|s| - 1] == Digits(n / 10);
    if n >= 10 {
      DigitsParse(n / 10);
    }
  }

  lemma {:induction false} LastDigit(n: nat)
    requires n > 0
    ensures Digits(n) == Digits(n / 10) + [DigitChar(n % 10)]
    ensures DigitValue(DigitChar(n % 10)) == Some(n % 10) && DigitChar(n % 10) != '-'
    ensures n < 10 ==> Digits(n / 10) == ""
  {
  }

  lemma {:induction false} NoLeadingZero(n: nat)
    requires n > 0
    ensures Digits(n) != "" && '1' <= Digits(n)[0] <= '9'
  {
    if n >= 10 {
      NoLeadingZero(n / 10);
    }
  }

  /** No number is printed with a leading zero or plus. */
  lemma {:induction false} PrintedIsCanonical(num: int)
    requires IsInt64(num)
    ensures num == 0 ==> Printed(num) == "0"
    ensures num > 0 ==> '1' <= Printed(num)[0] <= '9'
    ensures num < 0 ==> Printed(num)[0] == '-' && (num != -TWO63 ==> |Printed(num)| > 1 && '1' <= Printed(num)[1] <= '9')
  {
    if num > 0 {
      NoLeadingZero(num);
    } else if num < 0 {
      NoLeadingZero(-num);
    }
  }

  /** Parsing undoes printing for every int but the least. */
  lemma {:induction false} PrintedParsesIff(num: int)
    requires IsInt64(num)
    ensures ParseInt(Printed(num)) == Some(num) <==> num != -TWO63
  {
    hide Digits;
    if num > 0 {
      DigitsParse(num);
    } else if num < 0 && num != -TWO63 {
      DigitsParse(-num);
      assert Printed(num)[1..] == Digits(-num);
    }
  }

  // ---- chromedpDataURL ----------------------------------------------------------------

  const HASH: byte := '#' as byte
  const PERCENT: byte := '%' as byte

  function HexNibble(b: byte): byte
    requires b < 16
  {
    if b < 10 then '0' as byte + b else 'a' as byte + b - 10
  }

  function Escaped(c: byte): seq<byte> {
    if c == HASH || c == PERCENT then [PERCENT, HexNibble(c / 16), HexNibble(c % 16)] else [c]
  }

  function DataURL(s: seq<byte>): seq<byte> {
    if s == [] then [] else Escaped(s[0]) + DataURL(s[1..])
  }

  method ChromedpDataURL(s: seq<byte>) returns (out: seq<byte>)
    ensures out == DataURL(s)
  {
    out := [];
    for i := 0 to |s|
      invariant out + DataURL(s[i..]) == DataURL(s)
    {
      hide DataURL, HexNibble;
      var c := s[i];
      DataURLStep(s, i);
      Regroup(out, Escaped(c), DataURL(s[i + 1..]));
      if c == HASH || c == PERCENT {
        out := out + [PERCENT, HexNibble(c / 16), HexNibble(c % 16)];
      } else {
        out := out + [c];
      }
    }
  }

  lemma {:induction false} Regroup(a: seq<byte>, b: seq<byte>, c: seq<byte>)
    ensures a + (b + c) == (a + b) + c
  {
  }

  lemma {:induction false} DataURLStep(s: seq<byte>, i: nat)
    requires i < |s|
    ensures DataURL(s[i..]) == Escaped(s[i]) + DataURL(s[i + 1..])
  {
    assert s[i..][1..] == s[i + 1..];
  }

  function HexValue(c: byte): Option<byte> {
    if '0' as byte <= c <= '9' as byte then Some(c - '0' as byte)
    else if 'a' as byte <= c <= 'f' as byte then Some(c - 'a' as byte + 10)
    else if 'A' as byte <= c <= 'F' as byte then Some(c - 'A' as byte + 10)
    else None
  }

  /** Percent-decoding, section 2.1 of RFC 3986; None when a '%' starts no escape. */
  function PercentDecoded(s: seq<byte>): Option<seq<byte>> {
    if s == [] then Some([])
    else if s[0] == PERCENT then
      if |s| < 3 || HexValue(s[1]).None? || HexValue(s[2]).None? then None
      else Prepended(HexValue(s[1]).value * 16 + HexValue(s[2]).value, PercentDecoded(s[3..]))
    else Prepended(s[0], PercentDecoded(s[1..]))
  }

  function Prepended<T>(x: T, rest: Option<seq<T>>): Option<seq<T>> {
    if rest.None? then None else Some([x] + rest.value)
  }

  lemma {:induction false} DataURLDecodes(s: seq<byte>)
    ensures PercentDecoded(DataURL(s)) == Some(s)
    ensures HASH !in DataURL(s)
  {
    if s != [] {
      DataURLDecodes(s[1..]);
      EscapedDecodes(s[0], DataURL(s[1..]));
      assert s == [s[0]] + s[1..];
    }
  }

  lemma {:induction false} EscapedDecodes(c: byte, rest: seq<byte>)
    ensures PercentDecoded(Escaped(c) + rest) == Prepended(c, PercentDecoded(rest))
    ensures HASH !in Escaped(c)
  {
    var t := Escaped(c) + rest;
    if c == HASH || c == PERCENT {
      assert t[3..] == rest;
    } else {
      assert t[1..] == rest;
    }
  }

  /** Texts without '#' whose escapes stand only for '#' and '%'. */
  predicate IsDataURL(t: seq<byte>) {
    if t == [] then true
    else if t[0] == PERCENT then
      |t| >= 3 && (t[..3] == Escaped(HASH) || t[..3] == Escaped(PERCENT)) && IsDataURL(t[3..])
    else t[0] != HASH && IsDataURL(t[1..])
  }

  /** A text is the encoding of what it decodes to exactly when it is of that form. */
  lemma {:induction false} ReencodesIff(t: seq<byte>)
    ensures (exists s: seq<byte> :: DataURL(s) == t) <==> IsDataURL(t)
  {
    if s: seq<byte> :| DataURL(s) == t {
      EncodingsAreCanonical(s);
    }
    if IsDataURL(t) {
      var s := CanonicalDecodes(t);
    }
  }

  lemma {:induction false} EncodingsAreCanonical(s: seq<byte>)
    ensures IsDataURL(DataURL(s))
  {
    if s != [] {
      EncodingsAreCanonical(s[1..]);
      var t := DataURL(s);
      if s[0] == HASH || s[0] == PERCENT {
        assert t[..3] == Escaped(s[0]) && t[3..] == DataURL(s[1..]);
      } else {
        assert t[1..] == DataURL(s[1..]);
      }
    }
  }

  lemma {:induction false} CanonicalDecodes(t: seq<byte>) returns (s: seq<byte>)
    requires IsDataURL(t)
    ensures DataURL(s) == t
  {
    if t == [] {
      s := [];
    } else if t[0] == PERCENT {
      var rest := CanonicalDecodes(t[3..]);
      var c := if t[..3] == Escaped(HASH) then HASH else PERCENT;
      s := [c] + rest;
      assert s[1..] == rest && t == t[..3] + t[3..];
    } else {
      var rest := CanonicalDecodes(t[1..]);
      s := [t[0]] + rest;
      assert s[1..] == rest && t == [t[0]] + t[1..];
    }
  }

  // ---- escapeXML -------------------------------------------------------------------------

  function Entity(c: char): string {
    if c == '&' then "&amp;"
    else if c == '<' then "&lt;"
    else if c == '>' then "&gt;"
    else if c == '"' then "&quot;"
    else if c == '\'' then "&apos;"
    else [c]
  }

  /** strings.NewReplacer replaces each special character on its own. */
  function EscapeXML(s: string): string {
    if s == "" then "" else Entity(s[0]) + EscapeXML(s[1..])
  }

  const SPECIAL := ['&', '<', '>', '"', '\'']

  /** The first of the predefined entities, section 4.6 of XML 1.0, that starts `s`. */
  function EntityAt(s: string): Option<char> {
    if HasPrefix(s, "&amp;") then Some('&')
    else if HasPrefix(s, "&lt;") then Some('<')
    else if HasPrefix(s, "&gt;") then Some('>')
    else if HasPrefix(s, "&quot;") then Some('"')
    else if HasPrefix(s, "&apos;") then Some('\'')
    else None
  }

  /** None when an '&' starts no predefined entity. */
  function Unescaped(s: string): Option<string> {
    if s == "" then Some("")
    else if s[0] == '&' then
      var c := EntityAt(s);
      if c.None? then None else Prepended(c.value, Unescaped(s[|Entity(c.value)|..]))
    else Prepended(s[0], Unescaped(s[1..]))
  }

  lemma {:induction false} EntityDecodes(c: char, rest: string)
    ensures Unescaped(Entity(c) + rest) == Prepended(c, Unescaped(rest))
  {
    var t := Entity(c) + rest;
    assert t[..|Entity(c)|] == Entity(c) && t[|Entity(c)|..] == rest;
    if c in SPECIAL {
      EntityIsFound(c, rest);
    }
  }

  lemma {:induction false} EntityIsFound(c: char, rest: string)
    requires c in SPECIAL
    ensures EntityAt(Entity(c) + rest) == Some(c)
  {
    var t := Entity(c) + rest;
    assert t[..|Entity(c)|] == Entity(c);
    assert t[1] == Entity(c)[1] && t[2] == Entity(c)[2];
  }

  /** A character that must not stand in the escaped text. */
  predicate IsRaw(c: char) {
    c == '<' || c == '>' || c == '"' || c == '\''
  }

  lemma {:induction false} EscapedUnescapes(s: string)
    ensures Unescaped(EscapeXML(s)) == Some(s)
    ensures forall c :: c in EscapeXML(s) ==> !IsRaw(c)
  {
    hide Unescaped, Entity, IsRaw;
    EntityIsNotRaw('&');
    if s != "" {
      EscapedUnescapes(s[1..]);
      EntityDecodes(s[0], EscapeXML(s[1..]));
      EntityIsNotRaw(s[0]);
      assert s == [s[0]] + s[1..];
    }
  }

  lemma {:induction false} EntityIsNotRaw(c: char)
    ensures forall d :: d in Entity(c) ==> !IsRaw(d)
    ensures Unescaped("") == Some("")
  {
  }

  lemma {:induction false} EntityFoundMeans(t: string)
    requires EntityAt(t).Some?
    ensures var e := Entity(EntityAt(t).value);
      |e| <= |t| && t == e + t[|e|..] && EntityAt(t).value in SPECIAL
  {
    var e := Entity(EntityAt(t).value);
    assert t[..|e|] == e;
  }

  /** Escaping restores an unescaped text exactly when it had no raw character. */
  lemma {:induction false} EscapingRestoresIff(t: string)
    requires Unescaped(t).Some?
    ensures EscapeXML(Unescaped(t).value) == t <==> forall c :: c in t ==> !IsRaw(c)
  {
    if EscapeXML(Unescaped(t).value) == t {
      EscapedUnescapes(Unescaped(t).value);
    }
    if forall c :: c in t ==> !IsRaw(c) {
      CleanRestores(t);
    }
  }

  lemma {:induction false} CleanRestores(t: string)
    requires Unescaped(t).Some? && forall c :: c in t ==> !IsRaw(c)
    ensures EscapeXML(Unescaped(t).value) == t
  {
    if t != "" {
      assert t[0] in t;
      if t[0] == '&' {
        EntityFoundMeans(t);
      }
      var c := if t[0] == '&' then EntityAt(t).value else t[0];
      assert t[0] != '&' ==> t == Entity(t[0]) + t[1..];
      var rest := t[|Entity(c)|..];
      CleanRestores(rest);
      var u := Unescaped(t).value;
      assert u[0] == c && u[1..] == Unescaped(rest).value;
    }
  }
}
