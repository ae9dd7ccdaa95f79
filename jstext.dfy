/**
 * The few pieces of JavaScript number and string semantics that the seat labels
 * rely on: `Math.floor(a / b)`, the truncating `%`, `String.fromCharCode` and
 * the decimal rendering of an integer inside a template literal.
 */
module JsText {

  function Abs(x: int): nat { if x < 0 then -x else x }

  /** `Math.floor(a / b)` for a non-zero integer divisor. */
  function FloorDiv(a: int, b: int): (q: int)
    requires b != 0
    ensures b > 0 ==> q * b <= a < q * b + b
    ensures b < 0 ==> q * b >= a > q * b + b
  {
    if b > 0 then a / b
    else
      var d := -b;
      var q := (-a) / d;
      assert q * d <= -a < q * d + d;
      assert q * b == -(q * d);
      q
  }

  /** `Math.trunc(a / b)`: the quotient rounded towards zero. */
  function TruncDiv(a: int, b: int): (q: int)
    requires b != 0
    ensures Abs(q * b) <= Abs(a) < Abs(q * b) + Abs(b)
    ensures a >= 0 ==> q * b >= 0
    ensures a < 0 ==> q * b <= 0
    ensures a >= 0 && b > 0 ==> q == a / b
  {
    var n, m := Abs(a), Abs(b);
    var k := n / m;
    DivBounds(n, m);
    if a >= 0 && b > 0 then
      k
    else if a >= 0 then
      NegMul(k, m);
      -k
    else if b > 0 then
      NegMul(k, m);
      -k
    else
      NegMul(k, m);
      k
  }

  /** The Euclidean quotient of a natural number by a positive one, times the divisor, is at most one divisor short. */
  lemma DivBounds(n: int, m: int)
    requires 0 <= n && 0 < m
    ensures 0 <= (n / m) * m <= n < (n / m) * m + m
  {
  }

  lemma NegMul(x: int, y: int)
    ensures (-x) * y == -(x * y) && x * (-y) == -(x * y) && (-x) * (-y) == x * y
  {
  }

  /**
   * JavaScript's `a % b` for a non-zero integer divisor: the remainder of the
   * magnitudes, carrying the dividend's sign (the divisor's sign plays no part).
   */
  function TruncRem(a: int, b: int): (r: int)
    requires b != 0
    ensures Abs(r) < Abs(b)
    ensures a >= 0 ==> 0 <= r
    ensures a < 0 ==> r <= 0
    ensures a >= 0 ==> r == a % Abs(b)
    ensures a < 0 ==> r == -((-a) % Abs(b))
  {
    if a >= 0 then a % Abs(b) else -((-a) % Abs(b))
  }

  /** `a % b` is what the truncated quotient leaves: `a == Math.trunc(a / b) * b + a % b`. */
  lemma TruncDivRem(a: int, b: int)
    requires b != 0
    ensures a == TruncDiv(a, b) * b + TruncRem(a, b)
  {
    var n, m := Abs(a), Abs(b);
    var k := n / m;
    DivBounds(n, m);
    assert n == k * m + n % m;
    NegMul(k, m);
  }

  /** The ToUint16 conversion that `String.fromCharCode` applies to an integer argument. */
  function ToUint16(x: int): (u: int)
    ensures 0 <= u < 0x1_0000
    ensures 0 <= x < 0x1_0000 ==> u == x
    ensures (x - u) % 0x1_0000 == 0
  {
    x % 0x1_0000
  }

  /**
   * `String.fromCharCode(code)` yields one UTF-16 code unit; a lone surrogate
   * has no Dafny `char`, so those 2048 units are rendered as U+FFFD here.
   */
  function FromCharCode(code: int): (c: char)
    ensures 0 <= code < 0xD800 ==> c as int == code
    ensures !(0xD800 <= ToUint16(code) < 0xE000) ==> c as int == ToUint16(code)
    ensures 0xD800 <= ToUint16(code) < 0xE000 ==> c == '\U{FFFD}'
  {
    var u := ToUint16(code);
    if u < 0xD800 || 0xE000 <= u then u as char else '\U{FFFD}'
  }

  predicate IsDigit(c: char) { '0' <= c <= '9' }

  predicate AllDigits(s: string) { forall i :: 0 <= i < |s| ==> IsDigit(s[i]) }

  function DigitChar(d: int): (c: char)
    requires 0 <= d < 10
    ensures IsDigit(c) && c as int - '0' as int == d
  {
    ('0' as int + d) as char
  }

  /** Decimal digits of a natural number, most significant first, no leading zero. */
  function NatToString(n: nat): (s: string)
    ensures |s| >= 1 && AllDigits(s)
    ensures n >= 10 ==> s[0] != '0'
    ensures |s| > 1 ==> s[0] != '0'
    decreases n
  {
    if n < 10 then [DigitChar(n)] else NatToString(n / 10) + [DigitChar(n % 10)]
  }

  /** `${x}` for an integer-valued number. */
  function NumberToString(x: int): (s: string)
    ensures |s| >= 1
    ensures x >= 0 <==> AllDigits(s)
    ensures x >= 0 ==> DigitsValue(s) == x && (|s| > 1 ==> s[0] != '0')
    ensures x < 0 ==> s[0] == '-' && |s| >= 2 && AllDigits(s[1..]) && DigitsValue(s[1..]) == -x && (|s| > 2 ==> s[1] != '0')
  {
    if x < 0 then
      var digits := NatToString(-x);
      DigitsValueOfNatToString(-x);
      var s := "-" + digits;
      assert s[1..] == digits;
      assert !IsDigit(s[0]);
      s
    else
      DigitsValueOfNatToString(x);
      NatToString(x)
  }

  /** The value of a string of decimal digits (the inverse of NatToString). */
  function DigitsValue(s: string): nat
    requires AllDigits(s)
  {
    if s == [] then 0 else DigitsValue(s[..|s| - 1]) * 10 + (s[|s| - 1] as int - '0' as int)
  }

  lemma {:induction false} DigitsValueOfNatToString(n: nat)
    ensures DigitsValue(NatToString(n)) == n
    decreases n
  {
    var s := NatToString(n);
    if n >= 10 {
      DigitsValueOfNatToString(n / 10);
      assert s[..|s| - 1] == NatToString(n / 10);
    }
  }

  lemma NatToStringInjective(m: nat, n: nat)
    requires NatToString(m) == NatToString(n)
    ensures m == n
  {
    DigitsValueOfNatToString(m);
    DigitsValueOfNatToString(n);
  }
}
