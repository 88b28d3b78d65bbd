/**
 * The two number/string conversions the chart builder relies on: the global
 * `parseInt` of JavaScript, called with a single argument (so radix 10 unless the
 * digits start with `0x`), and the decimal rendering of a non-negative integer
 * that a template literal such as `graph-item-${index}` performs.
 * `NaN` is `None`; integers are exact (no double-precision rounding).
 */
module JsNumbers {
  import opened Wrappers

  /** What `\d` matches in a regular expression without the `u` flag. */
  predicate IsDecimalDigit(c: char) {
    '0' <= c <= '9'
  }

  /** Value of a digit character in radices up to 36; 36 for everything else. */
  function DigitValue(c: char): (v: nat)
    ensures v <= 36
    ensures IsDecimalDigit(c) <==> v < 10
  {
    if '0' <= c <= '9' then c as nat - '0' as nat
    else if 'a' <= c <= 'z' then c as nat - 'a' as nat + 10
    else if 'A' <= c <= 'Z' then c as nat - 'A' as nat + 10
    else 36
  }

  predicate IsRadixDigit(c: char, radix: nat) {
    DigitValue(c) < radix
  }

  /** StrWhiteSpaceChar of ECMAScript: WhiteSpace (TAB, VT, FF, ZWNBSP, the Zs characters) and LineTerminator. */
  predicate IsJsWhiteSpace(c: char) {
    c == '\t' || c == '\U{000B}' || c == '\U{000C}' || c == '\U{FEFF}' ||
    c == ' ' || c == '\U{00A0}' || c == '\U{1680}' || ('\U{2000}' <= c <= '\U{200A}') ||
    c == '\U{202F}' || c == '\U{205F}' || c == '\U{3000}' ||
    c == '\n' || c == '\r' || c == '\U{2028}' || c == '\U{2029}'
  }

  /** The string with its leading white space removed. */
  function TrimStart(s: string): (t: string)
    ensures |t| <= |s| && t == s[|s| - |t|..]
    ensures forall i :: 0 <= i < |s| - |t| ==> IsJsWhiteSpace(s[i])
    ensures t == [] || !IsJsWhiteSpace(t[0])
  {
    if s != [] && IsJsWhiteSpace(s[0]) then TrimStart(s[1..]) else s
  }

  /** The longest prefix of `s` made of digits of the given radix. */
  function LeadingDigits(s: string, radix: nat): (d: string)
    ensures d <= s
    ensures forall i :: 0 <= i < |d| ==> IsRadixDigit(d[i], radix)
    ensures |d| == |s| || !IsRadixDigit(s[|d|], radix)
  {
    if s == [] || !IsRadixDigit(s[0], radix) then [] else [s[0]] + LeadingDigits(s[1..], radix)
  }

  /** Positional value of a digit string, most significant digit first. */
  function DigitsValue(d: string, radix: nat): nat {
    if d == [] then 0 else DigitsValue(d[..|d| - 1], radix) * radix + DigitValue(d[|d| - 1])
  }

  /**
   * `parseInt(s)`: skip leading white space, take one optional sign, switch to
   * radix 16 after a `0x`/`0X` prefix, read the longest run of digits; no digits is NaN.
   */
  function ParseInt(s: string): (r: Option<int>)
    ensures r.Some? ==> exists i :: 0 <= i < |s| && IsDecimalDigit(s[i])
    ensures r.Some? && r.value < 0 ==> TrimStart(s) != [] && TrimStart(s)[0] == '-'
  {
    var t := TrimStart(s);
    var r := ParseSigned(t);
    if r.Some? then
      var i :| 0 <= i < |t| && IsDecimalDigit(t[i]);
      assert s[|s| - |t| + i] == t[i];
      r
    else r
  }

  /** `parseInt` after the white space: a leading `-` negates, a leading `+` is dropped. */
  function ParseSigned(t: string): (r: Option<int>)
    ensures r.Some? ==> exists i :: 0 <= i < |t| && IsDecimalDigit(t[i])
    ensures r.Some? && r.value < 0 ==> t != [] && t[0] == '-'
  {
    if t != [] && t[0] == '-' then
      match ParseUnsigned(t[1..])
      case None => None
      case Some(v) => assert IsDecimalDigit(t[1]); Some(-v)
    else if t != [] && t[0] == '+' then
      var r := ParseUnsigned(t[1..]);
      assert r.Some? ==> IsDecimalDigit(t[1]);
      r
    else
      var r := ParseUnsigned(t);
      assert r.Some? ==> IsDecimalDigit(t[0]);
      r
  }

  predicate HasHexPrefix(u: string) {
    |u| >= 2 && u[0] == '0' && (u[1] == 'x' || u[1] == 'X')
  }

  /** `parseInt` after the sign: radix 16 behind a hex prefix, radix 10 otherwise. */
  function ParseUnsigned(u: string): (r: Option<int>)
    ensures r.Some? ==> r.value >= 0 && u != [] && IsDecimalDigit(u[0])
  {
    if HasHexPrefix(u) then ParseDigits(u[2..], 16) else ParseDigits(u, 10)
  }

  /** The value of the longest digit prefix, NaN when that prefix is empty. */
  function ParseDigits(u: string, radix: nat): (r: Option<int>)
    ensures r.None? <==> u == [] || !IsRadixDigit(u[0], radix)
    ensures r.Some? ==> r.value >= 0
  {
    var d := LeadingDigits(u, radix);
    if d == [] then None else Some(DigitsValue(d, radix))
  }

  /** The character of a decimal digit value. */
  function DigitChar(d: nat): (c: char)
    requires d < 10
    ensures IsDecimalDigit(c) && DigitValue(c) == d
  {
    ('0' as nat + d) as char
  }

  /** `${n}` for a non-negative integer `n`: its decimal digits, without leading zeros. */
  function Decimal(n: nat): (s: string)
    ensures s != []
    ensures forall i :: 0 <= i < |s| ==> IsDecimalDigit(s[i])
    ensures |s| > 1 ==> s[0] != '0'
  {
    if n < 10 then [DigitChar(n)] else Decimal(n / 10) + [DigitChar(n % 10)]
  }

  /** Reading back the decimal rendering of `n` gives `n`. */
  lemma {:induction false} DecimalValue(n: nat)
    ensures DigitsValue(Decimal(n), 10) == n
  {
    if n >= 10 {
      DecimalValue(n / 10);
      var s := Decimal(n);
      assert s[..|s| - 1] == Decimal(n / 10);
    }
  }

  /** A string of decimal digits is its own longest decimal-digit prefix. */
  lemma AllDigitsLeading(d: string)
    requires forall i :: 0 <= i < |d| ==> IsDecimalDigit(d[i])
    ensures LeadingDigits(d, 10) == d
  {
  }

  /** The digits of `d` followed by a non-digit: the longest digit prefix is `d`. */
  lemma {:induction false} LeadingDigitsBeforeNonDigit(d: string, rest: string)
    requires forall i :: 0 <= i < |d| ==> IsDecimalDigit(d[i])
    requires rest == [] || !IsDecimalDigit(rest[0])
    ensures LeadingDigits(d + rest, 10) == d
  {
    if d != [] {
      assert (d + rest)[1..] == d[1..] + rest;
      LeadingDigitsBeforeNonDigit(d[1..], rest);
    } else {
      assert d + rest == rest;
    }
  }

  /** `parseInt` of a non-empty string of decimal digits is their value (never NaN, never negative). */
  lemma ParseIntOfDigits(d: string)
    requires d != []
    requires forall i :: 0 <= i < |d| ==> IsDecimalDigit(d[i])
    ensures ParseInt(d) == Some(DigitsValue(d, 10))
  {
    assert !IsJsWhiteSpace(d[0]) by {
      assert IsDecimalDigit(d[0]);
    }
    assert TrimStart(d) == d;
    assert !HasHexPrefix(d) by {
      if |d| >= 2 {
        assert IsDecimalDigit(d[1]);
      }
    }
    assert ParseSigned(d) == ParseUnsigned(d) by {
      assert IsDecimalDigit(d[0]);
    }
    AllDigitsLeading(d);
  }

  /** `parseInt` undoes `${n}`. */
  lemma ParseIntDecimal(n: nat)
    ensures ParseInt(Decimal(n)) == Some(n)
  {
    ParseIntOfDigits(Decimal(n));
    DecimalValue(n);
  }

  /** `parseInt` reads a minus sign: it undoes `${-n}`. */
  lemma ParseIntNegativeDecimal(n: nat)
    ensures ParseInt("-" + Decimal(n)) == Some(-(n as int))
  {
    var d := Decimal(n);
    var s := "-" + d;
    assert TrimStart(s) == s;
    assert s[1..] == d;
    assert !HasHexPrefix(d) by {
      if |d| >= 2 {
        assert IsDecimalDigit(d[1]);
      }
    }
    AllDigitsLeading(d);
    DecimalValue(n);
  }
}
