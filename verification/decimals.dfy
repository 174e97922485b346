/**
 Canonical money: a decimal number is written as one text only, with at most 18 digits on either
 side of the point, and never rounded.

 A number is a sign, digits without leading zeros, and an exponent, as `Decimal.as_tuple` gives
 them. Amounts are compared in units of 10^-18.
 */
module Decimals {
  import opened Wrappers

  type Digit = d: nat | d < 10

  const PLACES: int := 18
  const MAX_DIGITS: nat := 128

  datatype Number = Number(negative: bool, digits: seq<Digit>, exponent: int)

  // ---------------------------------------------------------------- amounts

  function Pow10(n: nat): (p: nat)
    ensures p >= 1
  {
    if n == 0 then 1 else 10 * Pow10(n - 1)
  }

  /** The digits read as an integer. */
  function Coefficient(ds: seq<Digit>): nat {
    if ds == [] then 0 else 10 * Coefficient(ds[..|ds| - 1]) + ds[|ds| - 1]
  }

  /** The number's magnitude is `k` units of 10^-18. */
  predicate Amounts(n: Number, k: nat) {
    if n.exponent >= -PLACES then Coefficient(n.digits) * Pow10(n.exponent + PLACES) == k
    else Coefficient(n.digits) == k * Pow10(-PLACES - n.exponent)
  }

  /** Digits as a decimal library keeps them: no leading zero but in zero itself. */
  predicate Proper(n: Number) {
    n.digits == [0] || (n.digits != [] && n.digits[0] != 0)
  }

  predicate IsZero(n: Number) {
    Coefficient(n.digits) == 0
  }

  // ---------------------------------------------------------------- canonical form

  /** No trailing zero digit. */
  function Stripped(ds: seq<Digit>, exponent: int): (r: (seq<Digit>, int))
    decreases |ds|
  {
    if ds != [] && ds[|ds| - 1] == 0 then Stripped(ds[..|ds| - 1], exponent + 1) else (ds, exponent)
  }

  function Canonical(n: Number): Number {
    var r := Stripped(n.digits, n.exponent);
    Number(n.negative, r.0, r.1)
  }

  predicate InRange(n: Number) {
    n.exponent >= -PLACES && |n.digits| + n.exponent <= PLACES
  }

  // ---------------------------------------------------------------- text

  /** The parts of a decimal text: the digits before and after the point. */
  datatype Parts = Parts(negative: bool, whole: seq<Digit>, fraction: seq<Digit>)

  function Zeros(n: nat): (ds: seq<Digit>)
    ensures |ds| == n && forall i :: 0 <= i < n ==> ds[i] == 0
  {
    seq(n, _ => 0)
  }

  /** The positional notation of a number, without an exponent. */
  function Positional(n: Number): Parts {
    var point := |n.digits| + n.exponent;
    if n.exponent >= 0 then Parts(n.negative, n.digits + Zeros(n.exponent), [])
    else if point > 0 then Parts(n.negative, n.digits[..point], n.digits[point..])
    else Parts(n.negative, [0], Zeros(-point) + n.digits)
  }

  function Chars(ds: seq<Digit>): string {
    seq(|ds|, i requires 0 <= i < |ds| => '0' + ds[i] as char)
  }

  function Written(p: Parts): string {
    (if p.negative then "-" else "") + Chars(p.whole) + (if p.fraction == [] then "" else "." + Chars(p.fraction))
  }

  /** The canonical text of a number, if it is in range. */
  function DecimalText(n: Number): Option<string>
    requires Proper(n)
  {
    if IsZero(n) then Some("0")
    else if |n.digits| > MAX_DIGITS || !InRange(Canonical(n)) then None
    else Some(Written(Positional(Canonical(n))))
  }

  /** Remove zeros, then a point, from the end of a text. */
  function TrimZeros(s: string): string {
    if s != "" && s[|s| - 1] == '0' then TrimZeros(s[..|s| - 1]) else s
  }

  function TrimPoint(s: string): string {
    if s != "" && s[|s| - 1] == '.' then TrimPoint(s[..|s| - 1]) else s
  }

  method WriteDecimal(n: Number) returns (r: Option<string>)
    requires Proper(n)
    ensures r == DecimalText(n)
  {
    ZeroIs(n);
    if n.digits == [0] {
      return Some("0");
    }
    if |n.digits| > MAX_DIGITS {
      return None;
    }
    var digits, exponent := n.digits, n.exponent;
    while digits[|digits| - 1] == 0
      invariant digits != [] && Coefficient(digits) > 0
      invariant Stripped(n.digits, n.exponent) == Stripped(digits, exponent)
      decreases |digits|
    {
      digits := digits[..|digits| - 1];
      exponent := exponent + 1;
    }
    if exponent < -PLACES || |digits| + exponent > PLACES {
      return None;
    }
    var result := Written(Positional(Number(n.negative, digits, exponent)));
    if '.' in result {
      NothingToTrim(Number(n.negative, digits, exponent));
      result := TrimPoint(TrimZeros(result));
    }
    return Some(result);
  }

  /** A canonical number has no zeros to trim from its text. */
  lemma NothingToTrim(n: Number)
    requires n.digits != [] && n.digits[|n.digits| - 1] != 0 && '.' in Written(Positional(n))
    ensures TrimZeros(Written(Positional(n))) == Written(Positional(n))
    ensures TrimPoint(Written(Positional(n))) == Written(Positional(n))
  {
    var p := Positional(n);
    var s := Written(p);
    NoPoint(p.whole);
    assert p.fraction != [];
    assert p.fraction[|p.fraction| - 1] == n.digits[|n.digits| - 1];
    assert s[|s| - 1] == Chars(p.fraction)[|p.fraction| - 1];
  }

  lemma NoPoint(ds: seq<Digit>)
    ensures '.' !in Chars(ds) && '-' !in Chars(ds)
  {
  }

  // ---------------------------------------------------------------- reading a text

  predicate DigitChar(c: char) {
    '0' <= c <= '9'
  }

  function DigitOf(c: char): Digit
    requires DigitChar(c)
  {
    c as int - '0' as int
  }

  predicate AllDigits(s: string) {
    forall i :: 0 <= i < |s| ==> DigitChar(s[i])
  }

  function Digits(s: string): (ds: seq<Digit>)
    requires AllDigits(s)
    ensures |ds| == |s| && forall i :: 0 <= i < |s| ==> ds[i] == DigitOf(s[i])
  {
    seq(|s|, i requires 0 <= i < |s| => DigitOf(s[i]))
  }

  function UpToPoint(s: string): (r: string)
    ensures r <= s
  {
    if s == "" || s[0] == '.' then "" else [s[0]] + UpToPoint(s[1..])
  }

  predicate IsParts(p: Parts) {
    1 <= |p.whole| <= PLACES && (|p.whole| > 1 ==> p.whole[0] != 0) && |p.fraction| <= PLACES
  }

  /** A whole part without leading zero, and up to 18 decimal places. */
  function ParsedBody(negative: bool, body: string): (r: Option<Parts>)
    ensures r.Some? ==> IsParts(r.value)
  {
    var whole := UpToPoint(body);
    var rest := body[|whole|..];
    if !(1 <= |whole| <= PLACES && AllDigits(whole) && (|whole| > 1 ==> whole[0] != '0')) then None
    else if rest == "" then Some(Parts(negative, Digits(whole), []))
    else if !(2 <= |rest| <= PLACES + 1 && AllDigits(rest[1..])) then None
    else Some(Parts(negative, Digits(whole), Digits(rest[1..])))
  }

  /** The parts of a text of the grammar: an optional sign and a body. */
  function Parsed(s: string): (r: Option<Parts>)
    ensures r.Some? ==> IsParts(r.value)
  {
    if s != "" && s[0] == '-' then ParsedBody(true, s[1..]) else ParsedBody(false, s)
  }

  function DropZeros(ds: seq<Digit>): (r: seq<Digit>)
    ensures r == [] || r[0] != 0
    ensures |r| <= |ds|
  {
    if ds != [] && ds[0] == 0 then DropZeros(ds[1..]) else ds
  }

  /** The number a text stands for. */
  function NumberOf(p: Parts): (n: Number)
    ensures Proper(n)
  {
    var ds := DropZeros(p.whole + p.fraction);
    Number(p.negative, if ds == [] then [0] else ds, -|p.fraction|)
  }

  // ---------------------------------------------------------------- arithmetic

  lemma {:induction false} PowSum(m: nat, n: nat)
    ensures Pow10(m + n) == Pow10(m) * Pow10(n)
  {
    if m > 0 {
      PowSum(m - 1, n);
      assert Pow10(m) * Pow10(n) == 10 * (Pow10(m - 1) * Pow10(n));
    }
  }

  lemma {:induction false} PowGrows(m: nat, n: nat)
    requires m <= n
    ensures Pow10(m) <= Pow10(n)
    ensures m < n ==> 10 * Pow10(m) <= Pow10(n)
  {
    if m < n { PowGrows(m, n - 1); }
  }

  /** A number of so many digits, the first of them not zero, is of that size. */
  lemma {:induction false} CoefficientSize(ds: seq<Digit>)
    ensures Coefficient(ds) < Pow10(|ds|)
    ensures ds != [] && ds[0] != 0 ==> Coefficient(ds) >= Pow10(|ds| - 1)
    decreases |ds|
  {
    if ds != [] {
      CoefficientSize(ds[..|ds| - 1]);
      assert |ds| > 1 ==> Pow10(|ds| - 1) == 10 * Pow10(|ds| - 2);
    }
  }

  lemma ZeroIs(n: Number)
    requires Proper(n)
    ensures IsZero(n) <==> n.digits == [0]
  {
    CoefficientSize(n.digits);
    assert [0][..0] == [];
  }

  /** Digits without a leading zero are determined by their coefficient. */
  lemma {:induction false} SameDigits(a: seq<Digit>, b: seq<Digit>)
    requires Coefficient(a) == Coefficient(b)
    requires a != [] ==> a[0] != 0
    requires b != [] ==> b[0] != 0
    ensures a == b
    decreases |a|
  {
    CoefficientSize(a);
    CoefficientSize(b);
    if a != [] && b != [] {
      var m, n := |a| - 1, |b| - 1;
      LastDigit(Coefficient(a[..m]), a[m], Coefficient(b[..n]), b[n]);
      if m > 0 && n > 0 {
        SameDigits(a[..m], b[..n]);
        assert a == a[..m] + [a[m]] && b == b[..n] + [b[n]];
      } else {
        CoefficientSize(a[..m]);
        CoefficientSize(b[..n]);
        assert m == 0 && n == 0 by { OneDigit(a, b); }
      }
    }
  }

  lemma LastDigit(x: nat, c: Digit, y: nat, d: Digit)
    requires 10 * x + c == 10 * y + d
    ensures x == y && c == d
  {
  }

  lemma OneDigit(a: seq<Digit>, b: seq<Digit>)
    requires a != [] && b != [] && a[0] != 0 && b[0] != 0 && (|a| == 1 || |b| == 1)
    requires Coefficient(a[..|a| - 1]) == Coefficient(b[..|b| - 1])
    ensures |a| == 1 && |b| == 1
  {
    CoefficientSize(a[..|a| - 1]);
    CoefficientSize(b[..|b| - 1]);
  }
}
