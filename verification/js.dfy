/**
 * The few pieces of JavaScript semantics the client relies on, written out
 * over Dafny's unbounded integers and strings: optional values, string
 * truthiness, `Math.ceil` of a quotient, the truncating `%` operator,
 * `parseInt` with its default radix, and `String(n)` for integers.
 */
module Js {

  /** `undefined` (None) or a present value. */
  datatype Option<+T> = None | Some(value: T)

  /** A header value is falsy when it is absent or the empty string. */
  predicate Falsy(v: Option<string>) {
    v.None? || v.value == ""
  }

  function Max(a: int, b: int): int {
    if a < b then b else a
  }

  /** `Math.ceil(a / b)` for a positive divisor: the least q with a <= q * b. */
  function CeilDiv(a: int, b: int): (q: int)
    requires b > 0
    ensures (q - 1) * b < a <= q * b
  {
    var f := (-a) / b;
    assert -a == f * b + (-a) % b;
    assert (-f - 1) * b == -f * b - b;
    -f
  }

  /** JavaScript's `a % b` for a positive divisor: the remainder takes the sign of the dividend. */
  function Rem(a: int, b: int): (r: int)
    requires b > 0
    ensures -b < r < b
    ensures 0 <= a ==> 0 <= r
    ensures a <= 0 ==> r <= 0
    ensures (a - r) % b == 0
  {
    if a >= 0 then
      assert a - a % b == (a / b) * b;
      MultipleHasNoRemainder(a / b, b);
      a % b
    else
      assert a + (-a) % b == -((-a) / b) * b;
      MultipleHasNoRemainder(-((-a) / b), b);
      -((-a) % b)
  }

  /** The only multiple of a positive b strictly between -b and b is zero. */
  lemma SmallMultipleIsZero(k: int, b: int)
    requires b > 0 && -b < k * b < b
    ensures k == 0
  {
  }

  lemma MultipleHasNoRemainder(q: int, b: int)
    requires b > 0
    ensures (q * b) % b == 0
  {
    var x := q * b;
    var k := q - x / b;
    assert x % b == k * b;
    SmallMultipleIsZero(k, b);
  }

  /** Sign, bound and congruence pin the remainder down: nothing else meets them. */
  lemma RemUnique(a: int, b: int, r: int)
    requires b > 0
    requires -b < r < b
    requires 0 <= a ==> 0 <= r
    requires a <= 0 ==> r <= 0
    requires (a - r) % b == 0
    ensures r == Rem(a, b)
  {
    var r' := Rem(a, b);
    var q, q' := (a - r) / b, (a - r') / b;
    assert a - r == q * b;
    assert a - r' == q' * b;
    assert r' - r == (q - q') * b;
    SmallMultipleIsZero(q - q', b);
  }

  /** Truncation is symmetric about zero: negating the dividend negates the remainder. */
  lemma RemIsOdd(a: int, b: int)
    requires b > 0
    ensures Rem(-a, b) == -Rem(a, b)
  {
  }

  // ---------------------------------------------------------------------------
  // parseInt(string) with no radix argument
  // ---------------------------------------------------------------------------

  /** The white space and line terminators that `parseInt` skips at the start. */
  predicate IsWhiteSpace(c: char) {
    var k := c as int;
    k == 0x09 || k == 0x0A || k == 0x0B || k == 0x0C || k == 0x0D || k == 0x20
    || k == 0xA0 || k == 0x1680 || (0x2000 <= k <= 0x200A) || k == 0x2028
    || k == 0x2029 || k == 0x202F || k == 0x205F || k == 0x3000 || k == 0xFEFF
  }

  /** Drops leading white space: the result is the longest suffix not starting with it. */
  function TrimStart(s: string): (t: string)
    ensures |t| <= |s| && t == s[|s| - |t|..]
    ensures forall i :: 0 <= i < |s| - |t| ==> IsWhiteSpace(s[i])
    ensures |t| > 0 ==> !IsWhiteSpace(t[0])
  {
    if |s| > 0 && IsWhiteSpace(s[0]) then TrimStart(s[1..]) else s
  }

  /** The value of a character as a digit in radix up to 36; 36 for a non-digit. */
  function DigitValue(c: char): (d: nat)
    ensures d <= 36
  {
    if '0' <= c <= '9' then (c as int) - ('0' as int)
    else if 'a' <= c <= 'z' then (c as int) - ('a' as int) + 10
    else if 'A' <= c <= 'Z' then (c as int) - ('A' as int) + 10
    else 36
  }

  /** The longest prefix of s made of digits of the given radix. */
  function LeadingDigits(s: string, radix: nat): (ds: string)
    ensures |ds| <= |s| && ds == s[..|ds|]
    ensures forall i :: 0 <= i < |ds| ==> DigitValue(ds[i]) < radix
    ensures |ds| < |s| ==> DigitValue(s[|ds|]) >= radix
  {
    if |s| == 0 || DigitValue(s[0]) >= radix then [] else [s[0]] + LeadingDigits(s[1..], radix)
  }

  /** The number a digit string denotes in the given radix, most significant digit first. */
  function DigitsValue(ds: string, radix: nat): nat
  {
    if |ds| == 0 then 0
    else DigitsValue(ds[..|ds| - 1], radix) * radix + DigitValue(ds[|ds| - 1])
  }

  /**
   * The unsigned part of `parseInt`: radix 16 after a `0x`/`0X` prefix,
   * radix 10 otherwise, then the longest run of digits; `NaN` (None) when
   * that run is empty.
   */
  function ParseMagnitude(u: string): (r: Option<int>)
    ensures r.Some? ==> r.value >= 0 && |u| > 0 && IsDecimalDigit(u[0])
    ensures |u| > 0 && IsDecimalDigit(u[0]) && !HexPrefixed(u) ==> r.Some?
  {
    var hex := HexPrefixed(u);
    var radix := if hex then 16 else 10;
    var ds := LeadingDigits(if hex then u[2..] else u, radix);
    if |ds| == 0 then None else Some(DigitsValue(ds, radix))
  }

  predicate IsDecimalDigit(c: char) {
    DigitValue(c) < 10
  }

  predicate HexPrefixed(u: string) {
    |u| >= 2 && u[0] == '0' && (u[1] == 'x' || u[1] == 'X')
  }

  /** A decimal digit first, or right after one sign. */
  predicate StartsWithNumber(t: string) {
    |t| > 0 && (IsDecimalDigit(t[0]) || (|t| > 1 && (t[0] == '-' || t[0] == '+') && IsDecimalDigit(t[1])))
  }

  /**
   * `parseInt(s)` with no radix: skip leading white space, then read a signed
   * number. It gives a number only when a decimal digit comes next, alone or
   * after one sign; the number is negative only after a `-`; and a decimal
   * digit not followed by `x` or `X` always gives a non-negative number.
   */
  function ParseInt(s: string): (r: Option<int>)
    ensures r.Some? ==> StartsWithNumber(TrimStart(s))
    ensures r.Some? && r.value < 0 ==> TrimStart(s)[0] == '-'
    ensures var t := TrimStart(s);
            |t| > 0 && IsDecimalDigit(t[0]) && !HexPrefixed(t) ==> r.Some? && r.value >= 0
  {
    ParseSigned(TrimStart(s))
  }

  /** One optional sign, then the magnitude. */
  function ParseSigned(t: string): (r: Option<int>)
    ensures r.Some? ==> StartsWithNumber(t)
    ensures r.Some? && r.value < 0 ==> t[0] == '-'
    ensures |t| > 0 && IsDecimalDigit(t[0]) && !HexPrefixed(t) ==> r.Some? && r.value >= 0
  {
    if |t| > 0 && t[0] == '-' then
      match ParseMagnitude(t[1..])
      case None => None
      case Some(v) => Some(-v)
    else if |t| > 0 && t[0] == '+' then ParseMagnitude(t[1..])
    else ParseMagnitude(t)
  }

  // ---------------------------------------------------------------------------
  // String(n) for an integer n
  // ---------------------------------------------------------------------------

  function DigitChar(d: nat): (c: char)
    requires d < 10
    ensures DigitValue(c) == d
  {
    (('0' as int) + d) as char
  }

  /** The decimal digits of n, without leading zeros. */
  function Decimal(n: nat): (s: string)
    ensures |s| > 0
    ensures forall i :: 0 <= i < |s| ==> DigitValue(s[i]) < 10
    ensures |s| > 1 ==> s[0] != '0'
  {
    if n < 10 then [DigitChar(n)] else Decimal(n / 10) + [DigitChar(n % 10)]
  }

  /** `String(n)` for an integer n. */
  function Show(n: int): string {
    if n < 0 then "-" + Decimal(-n) else Decimal(n)
  }

  lemma {:induction false} DecimalValue(n: nat)
    ensures DigitsValue(Decimal(n), 10) == n
  {
    if n >= 10 {
      var s := Decimal(n);
      assert s[..|s| - 1] == Decimal(n / 10);
      DecimalValue(n / 10);
    }
  }

  lemma AllDigitsAreLeading(s: string, radix: nat)
    requires forall i :: 0 <= i < |s| ==> DigitValue(s[i]) < radix
    ensures LeadingDigits(s, radix) == s
  {
  }

  /** The unsigned reader reads back the decimal digits of any natural number. */
  lemma ParseDecimal(m: nat)
    ensures ParseMagnitude(Decimal(m)) == Some(m)
  {
    var d := Decimal(m);
    assert |d| >= 2 ==> DigitValue(d[1]) < 10;
    AllDigitsAreLeading(d, 10);
    DecimalValue(m);
  }

  lemma DigitIsNotWhiteSpace(c: char)
    requires DigitValue(c) < 10
    ensures !IsWhiteSpace(c)
  {
  }

  lemma TrimStartKeeps(s: string)
    requires |s| > 0 && !IsWhiteSpace(s[0])
    ensures TrimStart(s) == s
  {
  }

  /** `String(n)` starts with a sign or a digit, never with white space. */
  lemma ShowHasNoLeadingWhiteSpace(n: int)
    ensures TrimStart(Show(n)) == Show(n)
  {
    var s := Show(n);
    if n < 0 {
      assert s == "-" + Decimal(-n);
      assert s[0] == '-';
    } else {
      var d := Decimal(n);
      assert s == d;
      DigitIsNotWhiteSpace(d[0]);
    }
    TrimStartKeeps(s);
  }

  lemma ParseSignedShow(n: int)
    ensures ParseSigned(Show(n)) == Some(n)
  {
    var m := if n < 0 then -n else n;
    ParseDecimal(m);
    var s := Show(n);
    if n < 0 {
      assert s[0] == '-' && s[1..] == Decimal(m);
    } else {
      assert DigitValue(s[0]) < 10;
    }
  }

  /** parseInt reads back what String writes: parseInt(String(n)) == n. */
  lemma ParseShowRoundTrip(n: int)
    ensures ParseInt(Show(n)) == Some(n)
  {
    ShowHasNoLeadingWhiteSpace(n);
    ParseSignedShow(n);
  }

  lemma {:induction false} TrimStartSkipsWhiteSpace(ws: string, s: string)
    requires forall i :: 0 <= i < |ws| ==> IsWhiteSpace(ws[i])
    ensures TrimStart(ws + s) == TrimStart(s)
  {
    if |ws| > 0 {
      var x := ws + s;
      assert x[0] == ws[0];
      assert IsWhiteSpace(x[0]);
      assert TrimStart(x) == TrimStart(x[1..]);
      assert x[1..] == ws[1..] + s;
      TrimStartSkipsWhiteSpace(ws[1..], s);
    } else {
      assert ws + s == s;
    }
  }

  /** Leading white space never changes what parseInt reads. */
  lemma ParseIgnoresLeadingWhiteSpace(ws: string, s: string)
    requires forall i :: 0 <= i < |ws| ==> IsWhiteSpace(ws[i])
    ensures ParseInt(ws + s) == ParseInt(s)
  {
    TrimStartSkipsWhiteSpace(ws, s);
  }
}
