/** The two number conversions the id rewrite relies on: `parseInt(s, 16)` and
    `Number.prototype.toString(16)`, for integer values. */
module JsNumbers {
  import opened JsValues

  predicate IsHexDigit(c: char)
  {
    ('0' <= c <= '9') || ('a' <= c <= 'f') || ('A' <= c <= 'F')
  }

  /** The digits `toString(16)` writes. */
  predicate IsLowerHexDigit(c: char)
  {
    ('0' <= c <= '9') || ('a' <= c <= 'f')
  }

  predicate AllHex(s: string)
  {
    forall i :: 0 <= i < |s| ==> IsHexDigit(s[i])
  }

  function HexDigitValue(c: char): (d: nat)
    requires IsHexDigit(c)
    ensures d < 16
  {
    if '0' <= c <= '9' then (c - '0') as nat
    else if 'a' <= c <= 'f' then (c - 'a') as nat + 10
    else (c - 'A') as nat + 10
  }

  function HexChar(d: nat): (c: char)
    requires d < 16
    ensures IsLowerHexDigit(c) && IsHexDigit(c) && HexDigitValue(c) == d
    ensures c == '0' <==> d == 0
  {
    if d < 10 then '0' + d as char else 'a' + (d - 10) as char
  }

  /** The value of a string of hex digits, most significant first. */
  function HexValue(s: string): nat
    requires AllHex(s)
  {
    if |s| == 0 then 0 else 16 * HexValue(s[..|s| - 1]) + HexDigitValue(s[|s| - 1])
  }

  /** `n.toString(16)` for a natural number: lowercase digits, no leading zero. */
  function ToHex(n: nat): (s: string)
    ensures |s| > 0
    ensures forall i :: 0 <= i < |s| ==> IsLowerHexDigit(s[i])
    ensures AllHex(s)
    ensures s[0] == '0' ==> n == 0 && s == "0"
  {
    if n < 16 then [HexChar(n)] else ToHex(n / 16) + [HexChar(n % 16)]
  }

  /** `i.toString(16)` for an integer: a minus sign before the magnitude. */
  function NumberToHex(i: int): (s: string)
    ensures |s| > 0
    ensures s[0] == '-' <==> i < 0
    ensures forall k :: 0 < k < |s| ==> IsLowerHexDigit(s[k])
  {
    if i < 0 then "-" + ToHex(-i) else ToHex(i)
  }

  /** The characters `parseInt` skips at the start (white space and line
      terminators, sections 12.2 and 12.3 of ECMAScript 2023). */
  predicate IsStrWhiteSpace(c: char)
  {
    c == '\t' || c == '\n' || c == '\U{B}' || c == '\U{C}' || c == '\r' || c == ' '
    || c == '\U{A0}' || c == '\U{1680}' || ('\U{2000}' <= c <= '\U{200A}')
    || c == '\U{2028}' || c == '\U{2029}' || c == '\U{202F}' || c == '\U{205F}'
    || c == '\U{3000}' || c == '\U{FEFF}'
  }

  function TrimStart(s: string): string
  {
    if |s| > 0 && IsStrWhiteSpace(s[0]) then TrimStart(s[1..]) else s
  }

  /** What `TrimStart` removes is white space, and what it keeps starts with
      something else. */
  lemma {:induction false} TrimStartMeaning(s: string)
    ensures |TrimStart(s)| <= |s| && TrimStart(s) == s[|s| - |TrimStart(s)|..]
    ensures |TrimStart(s)| > 0 ==> !IsStrWhiteSpace(TrimStart(s)[0])
    ensures forall i :: 0 <= i < |s| - |TrimStart(s)| ==> IsStrWhiteSpace(s[i])
  {
    if |s| > 0 && IsStrWhiteSpace(s[0]) {
      TrimStartMeaning(s[1..]);
    }
  }

  /** The length of the longest prefix of hex digits. */
  function HexPrefixLen(s: string): (k: nat)
    ensures k <= |s| && AllHex(s[..k])
    ensures k < |s| ==> !IsHexDigit(s[k])
  {
    if |s| == 0 || !IsHexDigit(s[0]) then 0
    else
      var k := 1 + HexPrefixLen(s[1..]);
      assert s[..k] == [s[0]] + s[1..][..k - 1];
      k
  }

  /** `parseInt(s, 16)` (section 19.2.5 of ECMAScript 2023) on integer values: skip
      leading white space, take an optional sign, drop a `0x`/`0X` prefix,
      read the longest run of hex digits; None is NaN (no digit at all). */
  function ParseIntHex(s: string): (r: Option<int>)
    ensures |TrimStart(s)| == 0 ==> r.None?
    ensures r.Some? && r.value < 0 ==> |TrimStart(s)| > 0 && TrimStart(s)[0] == '-'
  {
    var t := TrimStart(s);
    if |t| > 0 && t[0] == '-' then Negated(ParseMagnitude(t[1..]))
    else if |t| > 0 && t[0] == '+' then ParseMagnitude(t[1..])
    else ParseMagnitude(t)
  }

  /** What follows the sign: an optional `0x`/`0X` and the longest run of hex
      digits after it. */
  function ParseMagnitude(u: string): (r: Option<int>)
    ensures r.Some? ==> r.value >= 0
    ensures r.None? <==> |WithoutHexPrefix(u)| == 0 || !IsHexDigit(WithoutHexPrefix(u)[0])
  {
    var v := WithoutHexPrefix(u);
    var k := HexPrefixLen(v);
    if k == 0 then None else Some(HexValue(v[..k]))
  }

  /** The text after an optional `0x`/`0X`. */
  function WithoutHexPrefix(u: string): string
  {
    if |u| >= 2 && u[0] == '0' && (u[1] == 'x' || u[1] == 'X') then u[2..] else u
  }

  function Negated(m: Option<int>): Option<int>
  {
    if m.None? then None else Some(-m.value)
  }

  lemma {:induction false} HexValueOfToHex(n: nat)
    ensures HexValue(ToHex(n)) == n
  {
    if n >= 16 {
      var s := ToHex(n);
      assert s[..|s| - 1] == ToHex(n / 16);
      HexValueOfToHex(n / 16);
    }
  }

  lemma HexPrefixOfAllHex(s: string)
    requires AllHex(s)
    ensures HexPrefixLen(s) == |s|
  {
  }

  /** Hex digits without a `0x` prefix are read in full. */
  lemma ParseMagnitudeOfDigits(h: string)
    requires |h| > 0 && AllHex(h)
    ensures ParseMagnitude(h) == Some(HexValue(h))
  {
    if |h| >= 2 {
      HexDigitIsNotX(h[1]);
    }
    HexPrefixOfAllHex(h);
    assert h[..|h|] == h;
  }

  /** A string made only of hex digits parses to its value. */
  lemma ParseIntHexOfDigits(s: string)
    requires |s| > 0 && AllHex(s)
    ensures ParseIntHex(s) == Some(HexValue(s))
  {
    ParseMagnitudeOfDigits(s);
    ParseIntHexSigned(s, HexValue(s));
  }

  /** A magnitude that starts with a hex digit parses as it is, and negated
      after a minus sign. */
  lemma ParseIntHexSigned(h: string, v: int)
    requires |h| > 0 && IsHexDigit(h[0]) && ParseMagnitude(h) == Some(v)
    ensures ParseIntHex(h) == Some(v)
    ensures ParseIntHex("-" + h) == Some(-v)
  {
    HexDigitIsNotSpace(h[0]);
    assert TrimStart(h) == h;
    var s := "-" + h;
    assert TrimStart(s) == s by { assert !IsStrWhiteSpace(s[0]); }
    assert s[1..] == h;
  }

  lemma HexDigitIsNotSpace(c: char)
    requires IsHexDigit(c)
    ensures !IsStrWhiteSpace(c) && c != '-' && c != '+'
  {
  }

  lemma HexDigitIsNotX(c: char)
    requires IsHexDigit(c)
    ensures c != 'x' && c != 'X'
  {
  }

  /** `parseInt(i.toString(16), 16) == i`: the two conversions are inverse. */
  lemma NumberToHexRoundTrip(i: int)
    ensures ParseIntHex(NumberToHex(i)) == Some(i)
  {
    var m: nat := if i < 0 then -i else i;
    var h := ToHex(m);
    HexValueOfToHex(m);
    ParseMagnitudeOfDigits(h);
    ParseIntHexSigned(h, m);
  }

  lemma NumberToHexInjective(i: int, j: int)
    requires NumberToHex(i) == NumberToHex(j)
    ensures i == j
  {
    NumberToHexRoundTrip(i);
    NumberToHexRoundTrip(j);
  }
}
