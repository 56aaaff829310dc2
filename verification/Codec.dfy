/**
 The wire format of one transition on the `bid.transitions` stream: the producer's flattening into
 text fields and the consumer's lenient parser, with the decimal and JSON texts spelled out.
 */
module Codec {
  import opened Prelude
  import opened Projection

  // ---------------------------------------------------------------- decimal numbers

  predicate IsDigit(c: char) {
    '0' <= c <= '9'
  }

  function DigitChar(d: nat): (c: char)
    requires d < 10
    ensures IsDigit(c) && DigitValue(c) == d
  {
    (d + '0' as int) as char
  }

  function DigitValue(c: char): nat {
    if IsDigit(c) then c as int - '0' as int else 0
  }

  /** `str(n)` */
  function NatText(n: nat): string {
    if n < 10 then [DigitChar(n)] else NatText(n / 10) + [DigitChar(n % 10)]
  }

  /** The last `width` decimal digits of `n`, zero-padded. */
  function Padded(n: nat, width: nat): string {
    if width == 0 then "" else Padded(n / 10, width - 1) + [DigitChar(n % 10)]
  }

  /** `f"{m / 1000000:.6f}"` of a whole number of micro-USD. */
  function MicroText(m: int): string {
    var a := if m < 0 then -m else m;
    (if m < 0 then "-" else "") + NatText(a / 1000000) + "." + Padded(a % 1000000, 6)
  }

  function NumberOf(digits: string): nat {
    if digits == "" then 0
    else NumberOf(digits[..|digits| - 1]) * 10 + DigitValue(digits[|digits| - 1])
  }

  ghost predicate AllDigits(s: string) {
    forall i :: 0 <= i < |s| ==> IsDigit(s[i])
  }

  /** How many digits `s` starts with. */
  function Span(s: string): (n: nat)
    ensures n <= |s| && AllDigits(s[..n]) && (n < |s| ==> !IsDigit(s[n]))
  {
    if s == "" || !IsDigit(s[0]) then 0 else
      var n := 1 + Span(s[1..]);
      assert forall i :: 1 <= i < n ==> s[i] == s[1..][i - 1];
      n
  }

  predicate IsSpace(c: char) {
    var n := c as int;
    || 9 <= n <= 13 || n == 0x20 || n == 0xA0 || n == 0x1680 || 0x2000 <= n <= 0x200A
    || n == 0x2028 || n == 0x2029 || n == 0x202F || n == 0x205F || n == 0x3000 || n == 0xFEFF
  }

  function SkipSpace(s: string): string {
    if s != "" && IsSpace(s[0]) then SkipSpace(s[1..]) else s
  }

  predicate Signed(s: string) {
    s != "" && (s[0] == '-' || s[0] == '+')
  }

  function Unsigned(s: string): string {
    if Signed(s) then s[1..] else s
  }

  predicate Negative(s: string) {
    s != "" && s[0] == '-'
  }

  /** `Number.parseInt(s, 10)`; None is NaN. */
  function ParseInt(s: string): Option<int> {
    var t := SkipSpace(s);
    var u := Unsigned(t);
    if Span(u) == 0 then None
    else Some(if Negative(t) then -(NumberOf(u[..Span(u)]) as int) else NumberOf(u[..Span(u)]))
  }

  /** r * 10^k */
  function Scale(r: real, k: int): real
    decreases if k < 0 then -k else k
  {
    if k == 0 then r else if k > 0 then Scale(r * 10.0, k - 1) else Scale(r / 10.0, k + 1)
  }

  /** The exponent part at the head of `s`; anything that is not one counts as none. */
  function Exponent(s: string): int {
    if s != "" && (s[0] == 'e' || s[0] == 'E') && Span(Unsigned(s[1..])) > 0 then
      var u := Unsigned(s[1..]);
      if Negative(s[1..]) then -(NumberOf(u[..Span(u)]) as int) else NumberOf(u[..Span(u)])
    else 0
  }

  /** `Number.parseFloat(s)` in exact arithmetic; None is NaN or an infinity. */
  function ParseFloat(s: string): Option<real> {
    var t := SkipSpace(s);
    var u := Unsigned(t);
    var whole := u[..Span(u)];
    var rest := u[Span(u)..];
    var fraction := if rest != "" && rest[0] == '.' then rest[1..][..Span(rest[1..])] else "";
    var tail := if rest != "" && rest[0] == '.' then rest[1..][Span(rest[1..])..] else rest;
    if whole + fraction == "" then None else
      var magnitude := Scale(NumberOf(whole + fraction) as real, Exponent(tail) - |fraction|);
      Some(if Negative(t) then -magnitude else magnitude)
  }

  /** What a column of scale 6 keeps, in micro-USD. */
  function Micro(x: real): int {
    if x >= 0.0 then (x * 1000000.0 + 0.5).Floor else -((0.5 - x * 1000000.0).Floor)
  }

  lemma {:induction false} NatTextDigits(n: nat)
    ensures AllDigits(NatText(n)) && NatText(n) != "" && NumberOf(NatText(n)) == n
  {
    if n >= 10 {
      NatTextDigits(n / 10);
      assert NatText(n)[..|NatText(n)| - 1] == NatText(n / 10);
    }
  }

  function Pow10(k: nat): nat {
    if k == 0 then 1 else 10 * Pow10(k - 1)
  }

  lemma {:induction false} PaddedDigits(n: nat, width: nat)
    requires n < Pow10(width)
    ensures AllDigits(Padded(n, width)) && |Padded(n, width)| == width && NumberOf(Padded(n, width)) == n
  {
    if width > 0 {
      PaddedDigits(n / 10, width - 1);
      assert Padded(n, width)[..width - 1] == Padded(n / 10, width - 1);
    }
  }

  lemma TimesTen(x: nat, p: nat, y: nat, d: nat)
    ensures (x * p + y) * 10 + d == x * (10 * p) + (y * 10 + d)
  {
  }

  lemma {:induction false} NumberOfConcat(a: string, b: string)
    ensures NumberOf(a + b) == NumberOf(a) * Pow10(|b|) + NumberOf(b)
    decreases |b|
  {
    if b == "" {
      assert a + b == a;
    } else {
      var n := |b| - 1;
      NumberOfConcat(a, b[..n]);
      assert (a + b)[..|a + b| - 1] == a + b[..n] && (a + b)[|a + b| - 1] == b[n];
      TimesTen(NumberOf(a), Pow10(n), NumberOf(b[..n]), DigitValue(b[n]));
    }
  }

  lemma {:induction false} SpanOfDigits(a: string, rest: string)
    requires AllDigits(a) && (rest == "" || !IsDigit(rest[0]))
    ensures Span(a + rest) == |a| && (a + rest)[..|a|] == a && (a + rest)[|a|..] == rest
  {
    if a != "" {
      assert (a + rest)[1..] == a[1..] + rest;
      SpanOfDigits(a[1..], rest);
    } else {
      assert a + rest == rest;
    }
  }

  lemma SixDown(x: real)
    ensures Scale(x, -6) == x / 1000000.0
  {
    assert Scale(x, -6) == Scale(x / 10.0, -5);
    assert Scale(x / 10.0, -5) == Scale(x / 10.0 / 10.0, -4);
    assert Scale(x / 10.0 / 10.0, -4) == Scale(x / 10.0 / 10.0 / 10.0, -3);
    assert Scale(x / 10.0 / 10.0 / 10.0, -3) == Scale(x / 10.0 / 10.0 / 10.0 / 10.0, -2);
    assert Scale(x / 10.0 / 10.0 / 10.0 / 10.0, -2) == Scale(x / 10.0 / 10.0 / 10.0 / 10.0 / 10.0, -1);
  }

  /** A printed sequence number parses back. */
  lemma SeqRoundTrip(n: nat)
    ensures ParseInt(NatText(n)) == Some(n)
  {
    NatTextDigits(n);
    var s := NatText(n);
    assert IsDigit(s[0]);
    assert SkipSpace(s) == s && Unsigned(s) == s;
    assert s + "" == s;
    SpanOfDigits(s, "");
  }

  /** The parser reads a number up to the first character that is no digit, and a minus before it. */
  lemma SeqWithTail(n: nat, tail: string)
    requires tail == "" || !IsDigit(tail[0])
    ensures ParseInt(NatText(n) + tail) == Some(n) && ParseInt("-" + NatText(n) + tail) == Some(-(n as int))
  {
    hide NumberOf, NatText, Span;
    NatTextDigits(n);
    var s := NatText(n) + tail;
    var t := "-" + NatText(n) + tail;
    assert s[0] == NatText(n)[0] && t[1..] == s;
    NoSpaces(s);
    NoSpaces(t);
    SpanOfDigits(NatText(n), tail);
  }

  /** A text without a leading number has no value. */
  lemma NoNumber(s: string)
    requires s == "" || !(IsDigit(s[0]) || IsSpace(s[0]) || Signed(s))
    ensures ParseInt(s) == None
  {
  }

  lemma MicroExact(a: nat)
    ensures Micro(a as real / 1000000.0) == a && Micro(-(a as real / 1000000.0)) == -(a as int)
  {
    assert a as real / 1000000.0 * 1000000.0 == a as real;
    assert (a as real + 0.5).Floor == a;
  }

  function MagnitudeText(a: nat): string {
    NatText(a / 1000000) + "." + Padded(a % 1000000, 6)
  }

  /** The digits of the unsigned text of `a` micro-USD. */
  lemma {:induction false} MagnitudeDigits(a: nat) returns (whole: string, fraction: string)
    ensures MagnitudeText(a) == whole + ("." + fraction) && whole != "" && |fraction| == 6
    ensures AllDigits(whole) && AllDigits(fraction) && NumberOf(whole + fraction) == a
  {
    whole, fraction := NatText(a / 1000000), Padded(a % 1000000, 6);
    NatTextDigits(a / 1000000);
    PowSix();
    PaddedDigits(a % 1000000, 6);
    NumberOfConcat(whole, fraction);
  }

  /** The unsigned text of `a` micro-USD, with or without a minus, as the float parser sees it. */
  lemma {:induction false} MagnitudeRoundTrip(a: nat)
    ensures var u := MagnitudeText(a);
            && ParseFloat(u) == Some(a as real / 1000000.0) && ParseFloat("-" + u) == Some(-(a as real / 1000000.0))
  {
    hide NumberOf, Scale, NatText, Padded, Span;
    var whole, fraction := MagnitudeDigits(a);
    var u := MagnitudeText(a);
    SpanOfDigits(whole, "." + fraction);
    assert ("." + fraction)[1..] == fraction && fraction + "" == fraction;
    SpanOfDigits(fraction, "");
    SixDown(a as real);
    assert u[0] == whole[0] && IsDigit(u[0]);
    var t := "-" + u;
    assert t[1..] == u;
    NoSpaces(u);
    NoSpaces(t);
  }

  lemma NoSpaces(s: string)
    requires s != "" && (IsDigit(s[0]) || s[0] == '-')
    ensures SkipSpace(s) == s && (IsDigit(s[0]) ==> Unsigned(s) == s && !Negative(s))
    ensures s[0] == '-' ==> Unsigned(s) == s[1..] && Negative(s)
  {
  }

  lemma PowSix()
    ensures Pow10(6) == 1000000
  {
    assert Pow10(3) == 1000;
    assert Pow10(6) == 1000 * Pow10(3);
  }

  /** A printed cost parses back to the same number of micro-USD. */
  lemma CostRoundTrip(m: int)
    ensures MicroText(m) != "" && ParseFloat(MicroText(m)).Some? && Micro(ParseFloat(MicroText(m)).value) == m
  {
    hide ParseFloat, Micro, NatText, Padded;
    var a := if m < 0 then -m else m;
    MagnitudeRoundTrip(a);
    MicroExact(a);
    assert MicroText(m) == (if m < 0 then "-" else "") + MagnitudeText(a);
    assert "" + MagnitudeText(a) == MagnitudeText(a);
  }

  lemma {:induction false} ScaleUp(r: real, k: nat)
    ensures Scale(r, k) == r * (Pow10(k) as real)
    decreases k
  {
    if k > 0 {
      ScaleUp(r * 10.0, k - 1);
      assert r * 10.0 * (Pow10(k - 1) as real) == r * (10.0 * (Pow10(k - 1) as real));
    }
  }

  lemma {:induction false} ScaleDown(r: real, k: nat)
    ensures Scale(r, 0 - k) * (Pow10(k) as real) == r
    decreases k
  {
    if k > 0 {
      var x := Scale(r / 10.0, 0 - (k - 1));
      ScaleDown(r / 10.0, k - 1);
      assert Scale(r, 0 - k) == x;
      assert x * (10.0 * (Pow10(k - 1) as real)) == 10.0 * (x * (Pow10(k - 1) as real));
    }
  }

  /** An exponent shifts the decimal point, to either side (see `ScaleUp` and `ScaleDown`). */
  lemma ExponentShifts(a: nat, k: nat)
    ensures ParseFloat(NatText(a) + "e" + NatText(k)) == Some(Scale(a as real, k))
    ensures ParseFloat(NatText(a) + "e-" + NatText(k)) == Some(Scale(a as real, 0 - k))
  {
    hide NumberOf, NatText, Scale, Span, ParseFloat, Exponent, Pow10;
    var whole, digits := NatText(a), NatText(k);
    NatTextDigits(a);
    NatTextDigits(k);
    ExponentOf(digits);
    assert ("e" + digits)[0] == 'e' && ("e-" + digits)[0] == 'e';
    WholeThen(whole, "e" + digits);
    WholeThen(whole, "e-" + digits);
    assert whole + "e" + digits == whole + ("e" + digits) && whole + "e-" + digits == whole + ("e-" + digits);
  }

  lemma ExponentOf(digits: string)
    requires AllDigits(digits) && digits != ""
    ensures Exponent("e" + digits) == NumberOf(digits) && Exponent("e-" + digits) == -(NumberOf(digits) as int)
  {
    hide NumberOf, Span;
    assert digits + "" == digits;
    SpanOfDigits(digits, "");
    assert ("e" + digits)[1..] == digits && ("e-" + digits)[1..] == "-" + digits && ("-" + digits)[1..] == digits;
    assert digits[..|digits|] == digits && IsDigit(digits[0]);
  }

  /** A whole number with an exponent part, as the float parser sees it. */
  lemma WholeThen(whole: string, tail: string)
    requires AllDigits(whole) && whole != "" && tail != "" && !IsDigit(tail[0]) && tail[0] != '.'
    ensures ParseFloat(whole + tail) == Some(Scale(NumberOf(whole) as real, Exponent(tail)))
  {
    hide NumberOf, Scale, Exponent, Span;
    var s := whole + tail;
    assert s[0] == whole[0];
    NoSpaces(s);
    SpanOfDigits(whole, tail);
    assert whole + "" == whole;
  }

  /** What is stored of a cost is the nearest whole number of micro-USD. */
  lemma MicroIsNearest(x: real)
    ensures -0.5 <= Micro(x) as real - x * 1000000.0 <= 0.5
  {
  }

  // ---------------------------------------------------------------- JSON arrays of strings

  function HexChar(d: nat): char
    requires d < 16
  {
    if d < 10 then (d + '0' as int) as char else (d - 10 + 'a' as int) as char
  }

  function HexValue(c: char): Option<nat> {
    if '0' <= c <= '9' then Some(c as int - '0' as int)
    else if 'a' <= c <= 'f' then Some(c as int - 'a' as int + 10)
    else if 'A' <= c <= 'F' then Some(c as int - 'A' as int + 10)
    else None
  }

  /** `\uXXXX` */
  function Unit(n: nat): string
    requires n < 0x10000
  {
    ['\\', 'u', HexChar(n / 4096), HexChar(n / 256 % 16), HexChar(n / 16 % 16), HexChar(n % 16)]
  }

  /** One character inside a JSON string as `json.dumps` writes it: ASCII only, surrogate pairs above U+FFFF. */
  function Escape(c: char): string {
    var n := c as int;
    if c == '"' then "\\\"" else if c == '\\' then "\\\\"
    else if n == 8 then "\\b" else if n == 9 then "\\t" else if n == 10 then "\\n"
    else if n == 12 then "\\f" else if n == 13 then "\\r"
    else if 0x20 <= n <= 0x7E then [c]
    else if n < 0x10000 then Unit(n)
    else Unit(0xD800 + (n - 0x10000) / 1024) + Unit(0xDC00 + (n - 0x10000) % 1024)
  }

  function EscapeAll(s: string): string {
    if s == "" then "" else Escape(s[0]) + EscapeAll(s[1..])
  }

  function DumpString(s: string): string {
    "\"" + EscapeAll(s) + "\""
  }

  /** The text after the opening bracket. */
  function DumpItems(keys: seq<string>): string {
    if keys == [] then "]"
    else if |keys| == 1 then DumpString(keys[0]) + "]"
    else DumpString(keys[0]) + ", " + DumpItems(keys[1..])
  }

  /** `json.dumps(keys)` */
  function DumpKeys(keys: seq<string>): string {
    "[" + DumpItems(keys)
  }

  /** A value read from the head of a text, and the text after it. */
  datatype Read<T> = Read(value: T, rest: string) | Bad

  function ReadUnit(s: string): Read<nat> {
    if |s| < 6 || s[0] != '\\' || s[1] != 'u' then Bad else
      var a, b, c, d := HexValue(s[2]), HexValue(s[3]), HexValue(s[4]), HexValue(s[5]);
      if a.None? || b.None? || c.None? || d.None? then Bad
      else Read(a.value * 4096 + b.value * 256 + c.value * 16 + d.value, s[6..])
  }

  /** A `\u` escape, or two of them forming a surrogate pair; a lone surrogate is no character. */
  function ReadUnicode(s: string): (r: Read<char>)
    ensures r.Read? ==> |r.rest| < |s|
  {
    var hi := ReadUnit(s);
    if hi.Bad? || hi.value >= 0x10000 then Bad
    else if !(0xD800 <= hi.value < 0xE000) then Read(hi.value as char, hi.rest)
    else
      var lo := ReadUnit(hi.rest);
      if hi.value < 0xDC00 && lo.Read? && 0xDC00 <= lo.value < 0xE000
      then Read((0x10000 + (hi.value - 0xD800) * 1024 + (lo.value - 0xDC00)) as char, lo.rest)
      else Bad
  }

  /** One character of a JSON string; the closing quote and raw control characters are none. */
  function ReadChar(s: string): (r: Read<char>)
    ensures r.Read? ==> |r.rest| < |s|
  {
    if s == "" || s[0] == '"' || s[0] as int < 0x20 then Bad
    else if s[0] != '\\' then Read(s[0], s[1..])
    else if |s| < 2 then Bad
    else match s[1]
      case '"' => Read('"', s[2..])
      case '\\' => Read('\\', s[2..])
      case '/' => Read('/', s[2..])
      case 'b' => Read(8 as char, s[2..])
      case 'f' => Read(12 as char, s[2..])
      case 'n' => Read(10 as char, s[2..])
      case 'r' => Read(13 as char, s[2..])
      case 't' => Read(9 as char, s[2..])
      case _ => ReadUnicode(s)
  }

  /** The rest of a string whose opening quote has been read. */
  function ReadBody(s: string): (r: Read<string>)
    ensures r.Read? ==> |r.rest| < |s|
    decreases |s|
  {
    if s != "" && s[0] == '"' then Read("", s[1..]) else
      var c := ReadChar(s);
      if c.Bad? then Bad else
        var tail := ReadBody(c.rest);
        if tail.Bad? then Bad else Read([c.value] + tail.value, tail.rest)
  }

  function SkipJsonSpace(s: string): (r: string)
    ensures |r| <= |s|
  {
    if s != "" && (s[0] as int == 0x20 || 9 <= s[0] as int <= 10 || s[0] as int == 13) then SkipJsonSpace(s[1..]) else s
  }

  /** One string element with the space around it. */
  function ReadItem(s: string): (r: Read<string>)
    ensures r.Read? ==> |r.rest| < |s|
  {
    var t := SkipJsonSpace(s);
    if t == "" || t[0] != '"' then Bad else
      var body := ReadBody(t[1..]);
      if body.Bad? then Bad else Read(body.value, SkipJsonSpace(body.rest))
  }

  /** At least one element, up to and including the closing bracket. */
  function ReadItems(s: string): Read<seq<string>>
    decreases |s|
  {
    var item := ReadItem(s);
    if item.Bad? || item.rest == "" then Bad
    else if item.rest[0] == ']' then Read([item.value], item.rest[1..])
    else if item.rest[0] != ',' then Bad
    else
      var tail := ReadItems(item.rest[1..]);
      if tail.Bad? then Bad else Read([item.value] + tail.value, tail.rest)
  }

  /** A JSON array of strings; None for every other text, valid JSON or not. */
  function ParseKeys(s: string): Option<seq<string>> {
    var t := SkipJsonSpace(s);
    if t == "" || t[0] != '[' then None else
      var u := SkipJsonSpace(t[1..]);
      var r := if u != "" && u[0] == ']' then Read([], u[1..]) else ReadItems(u);
      if r.Read? && SkipJsonSpace(r.rest) == "" then Some(r.value) else None
  }

  lemma HexRoundTrip(d: nat)
    requires d < 16
    ensures HexValue(HexChar(d)) == Some(d)
  {
  }

  lemma HexDigitsAdd(n: nat)
    requires n < 0x10000
    ensures n / 4096 < 16
    ensures n / 4096 * 4096 + n / 256 % 16 * 256 + n / 16 % 16 * 16 + n % 16 == n
  {
    var a, b, c := n / 16, n / 256, n / 4096;
    assert n == a * 16 + n % 16 && a == b * 16 + a % 16 && b == c * 16 + b % 16;
  }

  lemma UnitRoundTrip(n: nat, rest: string)
    requires n < 0x10000
    ensures ReadUnit(Unit(n) + rest) == Read(n, rest)
  {
    HexDigitsAdd(n);
    HexRoundTrip(n / 4096);
    HexRoundTrip(n / 256 % 16);
    HexRoundTrip(n / 16 % 16);
    HexRoundTrip(n % 16);
    assert (Unit(n) + rest)[6..] == rest;
  }

  lemma {:induction false} UnicodeRoundTrip(c: char, rest: string)
    requires !(0x20 <= c as int <= 0x7E)
    ensures var n := c as int;
            ReadUnicode((if n < 0x10000 then Unit(n)
                         else Unit(0xD800 + (n - 0x10000) / 1024) + Unit(0xDC00 + (n - 0x10000) % 1024)) + rest)
            == Read(c, rest)
  {
    hide Unit, ReadUnit;
    var n := c as int;
    if n < 0x10000 {
      UnitRoundTrip(n, rest);
    } else {
      var hi, lo := 0xD800 + (n - 0x10000) / 1024, 0xDC00 + (n - 0x10000) % 1024;
      assert (Unit(hi) + Unit(lo)) + rest == Unit(hi) + (Unit(lo) + rest);
      UnitRoundTrip(hi, Unit(lo) + rest);
      UnitRoundTrip(lo, rest);
    }
  }

  lemma {:induction false} CharRoundTrip(c: char, rest: string)
    ensures ReadChar(Escape(c) + rest) == Read(c, rest)
    ensures Escape(c) != "" && Escape(c)[0] != '"'
  {
    hide ReadUnicode;
    var e := Escape(c);
    assert (e + rest)[|e|..] == rest;
    if !(0x20 <= c as int <= 0x7E) {
      UnicodeRoundTrip(c, rest);
    }
  }

  lemma {:induction false} BodyRoundTrip(s: string, rest: string)
    ensures ReadBody(EscapeAll(s) + ("\"" + rest)) == Read(s, rest)
  {
    hide Escape, ReadChar;
    if s == "" {
      assert EscapeAll(s) + ("\"" + rest) == "\"" + rest;
      assert ("\"" + rest)[1..] == rest;
    } else {
      var tail := EscapeAll(s[1..]) + ("\"" + rest);
      assert EscapeAll(s) + ("\"" + rest) == Escape(s[0]) + tail;
      CharRoundTrip(s[0], tail);
      BodyRoundTrip(s[1..], rest);
      assert (Escape(s[0]) + tail)[0] != '"';
      assert [s[0]] + s[1..] == s;
    }
  }

  lemma {:induction false} ItemRoundTrip(s: string, space: string, rest: string)
    requires space == "" || space == " "
    requires rest != "" && (rest[0] == ']' || rest[0] == ',')
    ensures ReadItem(space + (DumpString(s) + rest)) == Read(s, rest)
  {
    hide ReadBody, EscapeAll;
    var t := "\"" + (EscapeAll(s) + ("\"" + rest));
    assert DumpString(s) + rest == t;
    assert t[1..] == EscapeAll(s) + ("\"" + rest);
    assert SkipJsonSpace(t) == t;
    assert space + t == t || (space + t)[1..] == t;
    BodyRoundTrip(s, rest);
  }

  lemma {:induction false} ItemsRoundTrip(keys: seq<string>, space: string)
    requires keys != [] && (space == "" || space == " ")
    ensures ReadItems(space + DumpItems(keys)) == Read(keys, "")
  {
    hide ReadItem, DumpString;
    if |keys| == 1 {
      ItemRoundTrip(keys[0], space, "]");
      assert keys == [keys[0]];
    } else {
      var rest := ", " + DumpItems(keys[1..]);
      assert DumpItems(keys) == DumpString(keys[0]) + rest;
      ItemRoundTrip(keys[0], space, rest);
      assert rest[1..] == " " + DumpItems(keys[1..]);
      ItemsRoundTrip(keys[1..], " ");
      assert keys == [keys[0]] + keys[1..];
    }
  }

  /** Dumped artifact keys parse back, whatever characters they hold. */
  lemma {:induction false} KeysRoundTrip(keys: seq<string>)
    ensures DumpKeys(keys) != "" && ParseKeys(DumpKeys(keys)) == Some(keys)
  {
    hide ReadItems;
    var s := DumpKeys(keys);
    assert s[1..] == DumpItems(keys);
    if keys != [] {
      assert DumpItems(keys)[0] == '"';
      assert "" + DumpItems(keys) == DumpItems(keys);
      ItemsRoundTrip(keys, "");
    } else {
      assert DumpItems(keys)[1..] == "";
    }
  }

  // ---------------------------------------------------------------- the stream entry

  /** `_stream_fields`, in dictionary order. */
  function StreamFields(e: Entry): seq<(string, string)> {
    [("bid_id", e.bidId),
     ("workflow_id", e.workflowId),
     ("transition_seq", NatText(e.seqNo)),
     ("tenant_id", e.tenantId),
     ("from_state", if e.fromState.Some? then e.fromState.value else ""),
     ("to_state", e.toState),
     ("profile", e.profile),
     ("artifact_keys", DumpKeys(e.artifactKeys)),
     ("occurred_at", e.occurredAt),
     ("llm_cost_delta", if e.cost.Some? then MicroText(e.cost.value) else "")]
  }

  /** Names and values in turn, as the stream hands an entry over. */
  function Flatten(pairs: seq<(string, string)>): seq<string> {
    if pairs == [] then [] else
      var n := |pairs| - 1;
      Flatten(pairs[..n]) + [pairs[n].0, pairs[n].1]
  }

  function Encode(e: Entry): seq<string> {
    Flatten(StreamFields(e))
  }

  /** The field map of a flat list: the last of equal names wins, a name without a value gets "". */
  function Fields(flat: seq<string>): map<string, string>
    decreases |flat|
  {
    var n := |flat|;
    if n == 0 then map[]
    else if n % 2 == 1 then Fields(flat[..n - 1])[flat[n - 1] := ""]
    else Fields(flat[..n - 2])[flat[n - 2] := flat[n - 1]]
  }

  function Get(m: map<string, string>, name: string): string {
    if name in m then m[name] else ""
  }

  /** JavaScript's `x || d` on texts. */
  function OrElse(x: string, d: string): string {
    if x == "" then d else x
  }

  /** The element list of `artifact_keys`; `other` decides texts that are not JSON arrays of strings. */
  function KeysOf(raw: string, other: string -> Option<seq<string>>): Option<seq<string>> {
    if ParseKeys(raw).Some? then ParseKeys(raw) else other(raw)
  }

  function Parse(flat: seq<string>, other: string -> Option<seq<string>>): Option<Entry> {
    var m := Fields(flat);
    var seqNo := ParseInt(Get(m, "transition_seq"));
    var keys := KeysOf(OrElse(Get(m, "artifact_keys"), "[]"), other);
    var cost := Get(m, "llm_cost_delta");
    if seqNo.None? || seqNo.value < 0 then None
    else if keys.None? then None
    else if cost != "" && ParseFloat(cost).None? then None
    else if Get(m, "bid_id") == "" || Get(m, "to_state") == "" || Get(m, "profile") == "" then None
    else Some(Entry(Get(m, "bid_id"), Get(m, "workflow_id"), seqNo.value, Get(m, "tenant_id"),
                    if Get(m, "from_state") != "" then Some(m["from_state"]) else None,
                    Get(m, "to_state"), Get(m, "profile"), keys.value, Get(m, "occurred_at"),
                    if cost == "" then None else Some(Micro(ParseFloat(cost).value))))
  }

  /** The loop that fills the field map. */
  method FieldMap(flat: seq<string>) returns (m: map<string, string>)
    ensures m == Fields(flat)
  {
    m := map[];
    var i := 0;
    while i < |flat|
      invariant 0 <= i <= |flat| && (i % 2 == 0 || i == |flat|) && m == Fields(flat[..i])
    {
      var value := if i + 1 < |flat| then flat[i + 1] else "";
      m := m[flat[i] := value];
      var next := if i + 2 <= |flat| then i + 2 else |flat|;
      assert flat[..next][..i] == flat[..i];
      i := next;
    }
    assert flat[..|flat|] == flat;
  }

  method ParseEntry(flat: seq<string>, other: string -> Option<seq<string>>) returns (r: Option<Entry>)
    ensures r == Parse(flat, other)
  {
    var m := FieldMap(flat);
    var seqNo := ParseInt(Get(m, "transition_seq"));
    if seqNo.None? || seqNo.value < 0 { return None; }
    var keys := KeysOf(OrElse(Get(m, "artifact_keys"), "[]"), other);
    if keys.None? { return None; }
    var cost: Option<int> := None;
    if Get(m, "llm_cost_delta") != "" {
      var x := ParseFloat(Get(m, "llm_cost_delta"));
      if x.None? { return None; }
      cost := Some(Micro(x.value));
    }
    if Get(m, "bid_id") == "" || Get(m, "to_state") == "" || Get(m, "profile") == "" { return None; }
    var from := Get(m, "from_state");
    return Some(Entry(Get(m, "bid_id"), Get(m, "workflow_id"), seqNo.value, Get(m, "tenant_id"),
                      if from != "" then Some(from) else None,
                      Get(m, "to_state"), Get(m, "profile"), keys.value, Get(m, "occurred_at"), cost));
  }

  // ---------------------------------------------------------------- the round trip

  ghost predicate DistinctNames(pairs: seq<(string, string)>) {
    forall i, j :: 0 <= i < j < |pairs| ==> pairs[i].0 != pairs[j].0
  }

  lemma {:induction false} FieldsOfPairs(pairs: seq<(string, string)>, i: nat)
    requires DistinctNames(pairs) && i < |pairs|
    ensures |Flatten(pairs)| == 2 * |pairs|
    ensures pairs[i].0 in Fields(Flatten(pairs)) && Fields(Flatten(pairs))[pairs[i].0] == pairs[i].1
  {
    var n := |pairs| - 1;
    var flat := Flatten(pairs[..n]);
    if n > 0 { FieldsOfPairs(pairs[..n], if i < n then i else 0); }
    assert Flatten(pairs) == flat + [pairs[n].0, pairs[n].1];
    assert Flatten(pairs)[..2 * n] == flat;
  }

  lemma FieldsOfEven(flat: seq<string>)
    requires |flat| >= 2 && |flat| % 2 == 0
    ensures Fields(flat) == Fields(flat[..|flat| - 2])[flat[|flat| - 2] := flat[|flat| - 1]]
  {
  }

  lemma FieldsOfOdd(flat: seq<string>)
    requires |flat| % 2 == 1
    ensures Fields(flat) == Fields(flat[..|flat| - 1])[flat[|flat| - 1] := ""]
  {
  }

  lemma FieldsSnoc(flat: seq<string>, name: string, value: string)
    requires |flat| % 2 == 0
    ensures Fields(flat + [name, value]) == Fields(flat)[name := value]
    ensures Fields(flat + [name]) == Fields(flat)[name := ""]
  {
    hide Fields;
    FieldsOfEven(flat + [name, value]);
    FieldsOfOdd(flat + [name]);
    assert (flat + [name, value])[..|flat|] == flat && (flat + [name])[..|flat|] == flat;
  }

  /** Of two values of one name the later wins; other names are not touched, and a trailing name gets "". */
  lemma LastOfName(flat: seq<string>, name: string, value: string, other: string)
    requires |flat| % 2 == 0
    ensures Fields(flat + [name, value])[name] == value && Fields(flat + [name])[name] == ""
    ensures other != name ==> Get(Fields(flat + [name, value]), other) == Get(Fields(flat), other)
                              && Get(Fields(flat + [name]), other) == Get(Fields(flat), other)
  {
    hide Fields;
    FieldsSnoc(flat, name, value);
  }

  /** The four fields an entry must have; everything it leaves out has its default. */
  function Bare(bidId: string, seqText: string, toState: string, profile: string): seq<string> {
    ["bid_id", bidId, "transition_seq", seqText, "to_state", toState, "profile", profile]
  }

  lemma {:induction false} BareFields(bidId: string, seqText: string, toState: string, profile: string)
    ensures Fields(Bare(bidId, seqText, toState, profile))
            == map["bid_id" := bidId, "transition_seq" := seqText, "to_state" := toState, "profile" := profile]
  {
    var flat := Bare(bidId, seqText, toState, profile);
    assert flat[..6] == ["bid_id", bidId, "transition_seq", seqText, "to_state", toState];
    assert flat[..6][..4] == ["bid_id", bidId, "transition_seq", seqText];
    assert flat[..6][..4][..2] == ["bid_id", bidId];
    assert flat[..6][..4][..2][..0] == [];
    assert Fields([]) == map[];
    assert Fields(flat[..6][..4][..2]) == map["bid_id" := bidId];
    assert Fields(flat[..6][..4]) == map["bid_id" := bidId]["transition_seq" := seqText];
    assert Fields(flat[..6]) == map["bid_id" := bidId]["transition_seq" := seqText]["to_state" := toState];
  }

  lemma BareGets(bidId: string, seqText: string, toState: string, profile: string) returns (m: map<string, string>)
    ensures m == Fields(Bare(bidId, seqText, toState, profile))
    ensures Get(m, "bid_id") == bidId && Get(m, "transition_seq") == seqText
    ensures Get(m, "to_state") == toState && Get(m, "profile") == profile
    ensures Get(m, "workflow_id") == Get(m, "tenant_id") == Get(m, "from_state") == ""
    ensures Get(m, "artifact_keys") == Get(m, "occurred_at") == Get(m, "llm_cost_delta") == ""
  {
    hide Fields, Bare;
    BareFields(bidId, seqText, toState, profile);
    m := Fields(Bare(bidId, seqText, toState, profile));
    assert |"workflow_id"| == 11 && |"tenant_id"| == 9 && |"from_state"| == 10 && |"artifact_keys"| == 13;
    assert |"occurred_at"| == 11 && |"llm_cost_delta"| == 14 && "llm_cost_delta"[0] != "transition_seq"[0];
  }

  /** What such an entry parses to: its number decides, and then its three texts. */
  lemma ParseBare(bidId: string, seqText: string, toState: string, profile: string,
                  other: string -> Option<seq<string>>)
    ensures Parse(Bare(bidId, seqText, toState, profile), other)
            == match ParseInt(seqText)
               case None => None
               case Some(n) =>
                 if n < 0 || bidId == "" || toState == "" || profile == "" then None
                 else Some(Entry(bidId, "", n, "", None, toState, profile, [], "", None))
  {
    hide Fields, Bare, Get, ParseInt, ParseFloat, ParseKeys;
    var m := BareGets(bidId, seqText, toState, profile);
    KeysRoundTrip([]);
    assert DumpKeys([]) == "[]";
  }

  /**
   Missing fields have their defaults, a sequence number is read up to what follows it, a negative one makes
   the entry malformed, and so does the lack of a number, a bid, a state or a profile.
   */
  lemma LenientParse(bidId: string, n: nat, tail: string, toState: string, profile: string,
                     other: string -> Option<seq<string>>)
    requires tail == "" || !(IsDigit(tail[0]) || IsSpace(tail[0]) || Signed(tail))
    ensures Parse(Bare(bidId, NatText(n) + tail, toState, profile), other)
            == if bidId == "" || toState == "" || profile == "" then None
               else Some(Entry(bidId, "", n, "", None, toState, profile, [], "", None))
    ensures n > 0 ==> Parse(Bare(bidId, "-" + NatText(n) + tail, toState, profile), other) == None
    ensures Parse(Bare(bidId, tail, toState, profile), other) == None
  {
    hide NatText, ParseInt, Bare, Parse;
    SeqWithTail(n, tail);
    NoNumber(tail);
    ParseBare(bidId, NatText(n) + tail, toState, profile, other);
    ParseBare(bidId, "-" + NatText(n) + tail, toState, profile, other);
    ParseBare(bidId, tail, toState, profile, other);
  }

  lemma NamesDistinct(e: Entry)
    ensures DistinctNames(StreamFields(e))
  {
    hide NatText, DumpKeys, MicroText;
    var pairs := StreamFields(e);
    assert "workflow_id"[0] != "occurred_at"[0] && "transition_seq"[0] != "llm_cost_delta"[0];
  }

  lemma FieldsOfEncoded(e: Entry) returns (m: map<string, string>)
    ensures m == Fields(Encode(e))
    ensures Get(m, "bid_id") == e.bidId && Get(m, "workflow_id") == e.workflowId
    ensures Get(m, "transition_seq") == NatText(e.seqNo) && Get(m, "tenant_id") == e.tenantId
    ensures "from_state" in m && m["from_state"] == if e.fromState.Some? then e.fromState.value else ""
    ensures Get(m, "to_state") == e.toState && Get(m, "profile") == e.profile
    ensures Get(m, "artifact_keys") == DumpKeys(e.artifactKeys) && Get(m, "occurred_at") == e.occurredAt
    ensures Get(m, "llm_cost_delta") == if e.cost.Some? then MicroText(e.cost.value) else ""
  {
    hide NatText, DumpKeys, MicroText, Fields, Flatten;
    m := Fields(Encode(e));
    NamesDistinct(e);
    forall i: nat | i < 10
      ensures var p := StreamFields(e)[i]; p.0 in m && m[p.0] == p.1
    {
      FieldsOfPairs(StreamFields(e), i);
    }
    var p := StreamFields(e);
    assert p[0].0 == "bid_id" && p[1].0 == "workflow_id" && p[2].0 == "transition_seq" && p[3].0 == "tenant_id"
        && p[4].0 == "from_state" && p[5].0 == "to_state" && p[6].0 == "profile" && p[7].0 == "artifact_keys"
        && p[8].0 == "occurred_at" && p[9].0 == "llm_cost_delta";
  }

  /** A transition as the consumer sees it: an empty previous state counts as none. */
  function AsSeen(e: Entry): Entry {
    e.(fromState := if e.fromState == Some("") then None else e.fromState)
  }

  /**
   Round trip: parsing the fields of a transition gives it back, an absent or present previous state
   and cost and all artifact keys included, exactly when its bid, state and profile are nonempty;
   otherwise the entry is malformed.
   */
  lemma RoundTrip(e: Entry, other: string -> Option<seq<string>>)
    ensures Parse(Encode(e), other)
            == if e.bidId == "" || e.toState == "" || e.profile == "" then None else Some(AsSeen(e))
  {
    hide NatText, DumpKeys, MicroText, Fields, Flatten, ParseInt, ParseFloat, ParseKeys, Micro;
    var m := FieldsOfEncoded(e);
    SeqRoundTrip(e.seqNo);
    KeysRoundTrip(e.artifactKeys);
    if e.cost.Some? { CostRoundTrip(e.cost.value); }
  }
}
