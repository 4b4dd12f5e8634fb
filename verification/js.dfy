/**
 * The pieces of JavaScript semantics the scripts rely on: `String.prototype.trim`,
 * the truthiness of numbers, `parseInt(s, 10)` and the decimal rendering of a
 * number by string concatenation (`'' + n`).
 */
module Js {

  /** ECMAScript WhiteSpace and LineTerminator code points (sections 12.2 and 12.3
      of ECMA-262): what `trim` strips and what `parseInt` skips. */
  predicate IsSpace(c: char)
  {
    || c == '\t' || c == '\n' || c == '\U{000B}' || c == '\U{000C}' || c == '\r' || c == ' '
    || c == '\U{00A0}' || c == '\U{1680}' || ('\U{2000}' <= c <= '\U{200A}')
    || c == '\U{2028}' || c == '\U{2029}' || c == '\U{202F}' || c == '\U{205F}'
    || c == '\U{3000}' || c == '\U{FEFF}'
  }

  /** Number of white-space characters at the front of `s`. */
  function LeadingSpaces(s: string): (n: nat)
    ensures n <= |s|
    ensures forall k :: 0 <= k < n ==> IsSpace(s[k])
    ensures n < |s| ==> !IsSpace(s[n])
  {
    if |s| == 0 || !IsSpace(s[0]) then 0 else 1 + LeadingSpaces(s[1..])
  }

  /** Number of white-space characters at the back of `s`. */
  function TrailingSpaces(s: string): (n: nat)
    ensures n <= |s|
    ensures forall k :: |s| - n <= k < |s| ==> IsSpace(s[k])
    ensures n < |s| ==> !IsSpace(s[|s| - 1 - n])
  {
    if |s| == 0 || !IsSpace(s[|s| - 1]) then 0 else 1 + TrailingSpaces(s[..|s| - 1])
  }

  /** `s.trim()`: the slice of `s` between its leading and trailing white space. */
  function Trim(s: string): (r: string)
    ensures LeadingSpaces(s) + |r| <= |s|
    ensures r == s[LeadingSpaces(s)..LeadingSpaces(s) + |r|]
    ensures forall k :: LeadingSpaces(s) + |r| <= k < |s| ==> IsSpace(s[k])
    ensures |r| > 0 ==> !IsSpace(r[0]) && !IsSpace(r[|r| - 1])
  {
    var rest := s[LeadingSpaces(s)..];
    rest[..|rest| - TrailingSpaces(rest)]
  }

  /** Neither starts nor ends with white space: what `trim` leaves. */
  predicate Trimmed(s: string)
  {
    |s| > 0 ==> !IsSpace(s[0]) && !IsSpace(s[|s| - 1])
  }

  /** A string that neither starts nor ends with white space is its own trim. */
  lemma TrimKeeps(s: string)
    requires Trimmed(s)
    ensures Trim(s) == s
  {
    if |s| > 0 {
      assert LeadingSpaces(s) == 0;
      assert TrailingSpaces(s) == 0;
    }
  }

  lemma TrimIdempotent(s: string)
    ensures Trim(Trim(s)) == Trim(s)
  {
    TrimKeeps(Trim(s));
  }

  /** The strings `trim` leaves alone are exactly the trimmed ones. */
  lemma TrimFixedIffTrimmed(s: string)
    ensures Trim(s) == s <==> Trimmed(s)
  {
    if Trimmed(s) {
      TrimKeeps(s);
    }
  }

  /** `option[0] == '-'`; for the empty string `option[0]` is `undefined`. */
  predicate StartsWithDash(s: string)
  {
    |s| > 0 && s[0] == '-'
  }

  /** A JavaScript number as the scripts can produce one: NaN or an integer. */
  datatype Number = NaN | Num(value: int)

  /** `!!x`: NaN and zero (also `-0`) are falsy. */
  predicate Truthy(x: Number)
  {
    x.Num? && x.value != 0
  }

  predicate IsDigit(c: char)
  {
    '0' <= c <= '9'
  }

  predicate AllDigits(s: string)
  {
    forall k :: 0 <= k < |s| ==> IsDigit(s[k])
  }

  /** Length of the run of decimal digits at the front of `s`. */
  function DigitPrefix(s: string): (n: nat)
    ensures n <= |s|
    ensures AllDigits(s[..n])
    ensures n < |s| ==> !IsDigit(s[n])
  {
    if |s| == 0 || !IsDigit(s[0]) then 0
    else
      var n := 1 + DigitPrefix(s[1..]);
      assert s[..n] == [s[0]] + s[1..][..n - 1];
      n
  }

  function DigitValue(c: char): (d: nat)
    requires IsDigit(c)
    ensures d < 10
  {
    (c as int) - ('0' as int)
  }

  function DigitChar(d: nat): (c: char)
    requires d < 10
    ensures IsDigit(c) && DigitValue(c) == d
  {
    (('0' as int) + d) as char
  }

  /** The value of a string of decimal digits, most significant first. */
  function DigitsValue(ds: string): nat
    requires AllDigits(ds)
  {
    if |ds| == 0 then 0 else DigitsValue(ds[..|ds| - 1]) * 10 + DigitValue(ds[|ds| - 1])
  }

  /** `parseInt(s, 10)`: skip white space, take an optional sign, then as many
      decimal digits as follow; NaN when there are none. */
  function ParseInt(s: string): (r: Number)
    ensures r.Num? ==> exists k :: 0 <= k < |s| && IsDigit(s[k])
  {
    var lead := LeadingSpaces(s);
    var t := s[lead..];
    var r := ParseSigned(t);
    if r.NaN? then NaN
    else
      var k :| 0 <= k < |t| && IsDigit(t[k]);
      assert IsDigit(s[lead + k]);
      r
  }

  /** What `parseInt` reads once the white space is skipped: an optional sign,
      then the digits that follow. */
  function ParseSigned(t: string): (r: Number)
    ensures r.Num? ==> exists k :: 0 <= k < |t| && IsDigit(t[k])
  {
    var signed := |t| > 0 && (t[0] == '+' || t[0] == '-');
    var start := if signed then 1 else 0;
    var m := Unsigned(t[start..]);
    if m.NaN? then NaN
    else
      assert IsDigit(t[start]) by { assert t[start..][0] == t[start]; }
      if signed && t[0] == '-' then Num(-m.value) else m
  }

  /** The digits at the front of `u`, read as a decimal; NaN when there are none. */
  function Unsigned(u: string): (r: Number)
    ensures r.Num? <==> |u| > 0 && IsDigit(u[0])
    ensures r.Num? ==> r.value >= 0
  {
    var n := DigitPrefix(u);
    if n == 0 then NaN else Num(DigitsValue(u[..n]))
  }

  /** The canonical decimal form of a natural number, as `'' + n` produces it:
      digits only, and no leading zero. */
  function Decimal(n: nat): (r: string)
    ensures |r| > 0 && AllDigits(r)
    ensures r[0] == '0' <==> n == 0
  {
    if n < 10 then [DigitChar(n)] else Decimal(n / 10) + [DigitChar(n % 10)]
  }

  lemma {:induction false} DecimalValue(n: nat)
    ensures DigitsValue(Decimal(n)) == n
  {
    if n >= 10 {
      var d := Decimal(n / 10);
      var r := d + [DigitChar(n % 10)];
      assert r[..|r| - 1] == d;
      DecimalValue(n / 10);
    }
  }

  /** `'' + x` for the numbers the scripts print. */
  function NumberToString(x: Number): (r: string)
    ensures |r| > 0 && ' ' !in r
  {
    match x
    case NaN => "NaN"
    case Num(v) => if v < 0 then "-" + Decimal(-v) else Decimal(v)
  }

  lemma {:induction false} DigitPrefixOf(ds: string, rest: string)
    requires AllDigits(ds)
    requires |rest| > 0 ==> !IsDigit(rest[0])
    ensures DigitPrefix(ds + rest) == |ds|
  {
    if |ds| > 0 {
      assert (ds + rest)[1..] == ds[1..] + rest;
      DigitPrefixOf(ds[1..], rest);
    }
  }

  /** `parseInt` skips leading white space. */
  lemma ParseIntSkipsSpace(c: char, s: string)
    requires IsSpace(c)
    ensures ParseInt([c] + s) == ParseInt(s)
  {
    var u := [c] + s;
    assert u[1..] == s;
    assert u[LeadingSpaces(u)..] == s[LeadingSpaces(s)..];
  }

  /** Text that starts with neither white space, a sign nor a digit has no number in it. */
  lemma ParseIntNoLeadingDigit(s: string)
    requires |s| > 0 && !IsSpace(s[0]) && !IsDigit(s[0]) && s[0] != '+' && s[0] != '-'
    ensures ParseInt(s) == NaN
  {
    assert LeadingSpaces(s) == 0;
    assert s[0..] == s;
  }

  /** With no white space in front, `parseInt` goes straight to the sign. */
  lemma ParseIntNoSpace(s: string)
    requires |s| > 0 && !IsSpace(s[0])
    ensures ParseInt(s) == ParseSigned(s)
  {
    assert LeadingSpaces(s) == 0;
    assert s[0..] == s;
  }

  /** Digits at the front, bare or after a minus sign, are what `parseInt` reads. */
  lemma ParseIntLeadingDigits(u: string)
    requires |u| > 0 && IsDigit(u[0])
    ensures ParseInt(u) == Unsigned(u)
    ensures ParseInt("-" + u) == Num(-Unsigned(u).value)
  {
    ParseIntNoSpace(u);
    assert u[0..] == u;
    var s := "-" + u;
    assert s[0] == '-';
    ParseIntNoSpace(s);
    assert s[1..] == u;
  }

  lemma UnsignedDecimal(n: nat, rest: string)
    requires |rest| > 0 ==> !IsDigit(rest[0])
    ensures Unsigned(Decimal(n) + rest) == Num(n)
  {
    var d := Decimal(n);
    var s := d + rest;
    DigitPrefixOf(d, rest);
    assert s[..DigitPrefix(s)] == d;
    DecimalValue(n);
  }

  /** `parseInt` reads back a decimal, with or without a minus sign, and stops at
      the first character that is not a digit. */
  lemma ParseIntDecimal(n: nat, rest: string)
    requires |rest| > 0 ==> !IsDigit(rest[0])
    ensures ParseInt(Decimal(n) + rest) == Num(n)
    ensures ParseInt("-" + (Decimal(n) + rest)) == Num(-(n as int))
  {
    UnsignedDecimal(n, rest);
    var s := Decimal(n) + rest;
    assert s[0] == Decimal(n)[0];
    ParseIntLeadingDigits(s);
  }

  /** The text "NaN" has no digits to read. */
  lemma ParseIntNaN()
    ensures ParseInt("NaN") == NaN
  {
    var s := "NaN";
    ParseIntNoSpace(s);
    assert s[0..] == s;
  }

  /** `parseInt(String(x), 10)` gives `x` back, NaN included. */
  lemma ParseIntRoundTrip(x: Number)
    ensures ParseInt(NumberToString(x)) == x
  {
    match x
    case NaN => ParseIntNaN();
    case Num(v) =>
      var n: nat := if v < 0 then -v else v;
      ParseIntDecimal(n, "");
      assert Decimal(n) + "" == Decimal(n);
  }
}
