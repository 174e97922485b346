/**
 What the canonical text of an amount is worth: it exists for exactly the amounts it can hold, it
 keeps the value, equal values and only those have equal texts, and a canonical text is its own.
 */
module DecimalsExact {
  import opened Wrappers
  import opened Decimals

  /** Amounts below 10^18, in units of 10^-18. */
  predicate Held(k: nat) {
    0 < k < Pow10(36)
  }

  predicate IsCanonical(n: Number) {
    n.digits != [] && n.digits[0] != 0 && n.digits[|n.digits| - 1] != 0
  }

  // ---------------------------------------------------------------- stripping keeps the amount

  lemma StripOne(n: Number, k: nat)
    requires n.digits != [] && n.digits[|n.digits| - 1] == 0
    ensures Amounts(n, k) <==> Amounts(Number(n.negative, n.digits[..|n.digits| - 1], n.exponent + 1), k)
  {
    var c := Coefficient(n.digits[..|n.digits| - 1]);
    assert Coefficient(n.digits) == 10 * c;
    if n.exponent >= -PLACES {
      TenTimes(c, Pow10(n.exponent + PLACES));
    } else {
      var m := -PLACES - n.exponent - 1;
      TenTimes(k, Pow10(m));
      assert Pow10(m + 1) == 10 * Pow10(m);
    }
  }

  lemma TenTimes(x: nat, y: nat)
    ensures 10 * x * y == x * (10 * y) == 10 * (x * y)
  {
  }

  lemma {:induction false} StripSame(n: Number, k: nat)
    ensures Amounts(n, k) <==> Amounts(Canonical(n), k)
    decreases |n.digits|
  {
    if n.digits != [] && n.digits[|n.digits| - 1] == 0 {
      var less := Number(n.negative, n.digits[..|n.digits| - 1], n.exponent + 1);
      StripOne(n, k);
      StripSame(less, k);
      assert Canonical(n) == Canonical(less);
    }
  }

  lemma {:induction false} StripIsCanonical(n: Number)
    requires n.digits != [] && n.digits[0] != 0
    ensures IsCanonical(Canonical(n)) && Canonical(n).negative == n.negative
    decreases |n.digits|
  {
    var last := |n.digits| - 1;
    if n.digits[last] == 0 {
      var less := Number(n.negative, n.digits[..last], n.exponent + 1);
      StripIsCanonical(less);
      assert Canonical(n) == Canonical(less);
    }
  }

  lemma {:induction false} StripPadded(n: Number, zeros: nat)
    requires IsCanonical(n)
    ensures Canonical(Number(n.negative, n.digits + Zeros(zeros), n.exponent - zeros)) == n
  {
    var padded := Number(n.negative, n.digits + Zeros(zeros), n.exponent - zeros);
    if zeros == 0 {
      assert n.digits + Zeros(0) == n.digits;
    } else {
      StripPadded(n, zeros - 1);
      assert padded.digits[..|padded.digits| - 1] == n.digits + Zeros(zeros - 1);
    }
  }

  // ---------------------------------------------------------------- which amounts are in range

  lemma RangeHolds(c: Number)
    requires IsCanonical(c) && InRange(c)
    ensures var k := Coefficient(c.digits) * Pow10(c.exponent + PLACES); Held(k) && Amounts(c, k)
  {
    var x, p := Coefficient(c.digits), Pow10(c.exponent + PLACES);
    CoefficientSize(c.digits);
    PowSum(|c.digits|, c.exponent + PLACES);
    PowGrows(|c.digits| + (c.exponent + PLACES), 2 * PLACES);
    Monotone(x, Pow10(|c.digits|), p);
  }

  lemma Monotone(x: nat, y: nat, p: nat)
    requires 0 < x < y && p >= 1
    ensures 0 < x * p < y * p
  {
  }

  lemma PowIsTens(x: nat, m: nat)
    requires m > 0
    ensures x * Pow10(m) == 10 * (x * Pow10(m - 1))
  {
    TenTimes(x, Pow10(m - 1));
  }

  /** A coefficient with a factor of ten ends in zero. */
  lemma EndsInZero(ds: seq<Digit>, x: nat, m: nat)
    requires ds != [] && m > 0 && Coefficient(ds) == x * Pow10(m)
    ensures ds[|ds| - 1] == 0
  {
    PowIsTens(x, m);
    LastDigit(Coefficient(ds[..|ds| - 1]), ds[|ds| - 1], x * Pow10(m - 1), 0);
  }

  lemma FewPlaces(c: Number, k: nat)
    requires IsCanonical(c) && Amounts(c, k)
    ensures c.exponent >= -PLACES
  {
    if c.exponent < -PLACES { EndsInZero(c.digits, k, -PLACES - c.exponent); }
  }

  lemma ManyDigits(c: Number, k: nat)
    requires c.digits != [] && c.digits[0] != 0 && Amounts(c, k)
    requires c.exponent >= -PLACES && |c.digits| + c.exponent > PLACES
    ensures k >= Pow10(2 * PLACES)
  {
    var d, e := |c.digits| - 1, c.exponent + PLACES;
    CoefficientSize(c.digits);
    PowSum(d, e);
    PowGrows(2 * PLACES, d + e);
    AtLeast(Coefficient(c.digits), Pow10(d), Pow10(e));
  }

  lemma FewDigits(c: Number, k: nat)
    requires IsCanonical(c) && Amounts(c, k) && Held(k)
    ensures InRange(c)
  {
    FewPlaces(c, k);
    if |c.digits| + c.exponent > PLACES { ManyDigits(c, k); }
  }

  lemma AtLeast(x: nat, y: nat, p: nat)
    requires x >= y
    ensures x * p >= y * p
  {
  }

  /** A number is written if and only if it is zero, or it is a multiple of 10^-18 below 10^18 in
      magnitude and has at most 128 digits. */
  lemma SuccessExact(n: Number)
    requires Proper(n)
    ensures DecimalText(n).Some? <==> IsZero(n) || (|n.digits| <= 128 && exists k :: Held(k) && Amounts(n, k))
  {
    ZeroIs(n);
    if !IsZero(n) {
      var c := Canonical(n);
      StripIsCanonical(n);
      if InRange(c) {
        RangeHolds(c);
        StripSame(n, Coefficient(c.digits) * Pow10(c.exponent + PLACES));
      }
      if k :| Held(k) && Amounts(n, k) {
        StripSame(n, k);
        FewDigits(c, k);
      }
    }
  }

  // ---------------------------------------------------------------- one canonical number per amount

  lemma SameExponent(a: Number, b: Number, k: nat)
    requires IsCanonical(a) && IsCanonical(b) && Amounts(a, k) && Amounts(b, k) && k > 0
    requires -PLACES <= a.exponent <= b.exponent
    ensures a.exponent == b.exponent && Coefficient(a.digits) == Coefficient(b.digits)
  {
    var x, y := Coefficient(a.digits), Coefficient(b.digits);
    var m := b.exponent - a.exponent;
    var p := Pow10(a.exponent + PLACES);
    PowSum(m, a.exponent + PLACES);
    Cancel(x, y * Pow10(m), p, y, Pow10(m));
    if m > 0 { EndsInZero(a.digits, y, m); }
  }

  lemma Cancel(x: nat, z: nat, p: nat, y: nat, q: nat)
    requires p >= 1 && z == y * q && x * p == y * (q * p)
    ensures x == z
  {
    assert y * (q * p) == z * p;
    if x < z { Less(x, z, p); } else if z < x { Less(z, x, p); }
  }

  lemma Less(x: nat, y: nat, p: nat)
    requires x < y && p >= 1
    ensures x * p < y * p
  {
  }

  lemma SameNumber(a: Number, b: Number, k: nat)
    requires IsCanonical(a) && IsCanonical(b) && Amounts(a, k) && Amounts(b, k) && k > 0
    ensures a.digits == b.digits && a.exponent == b.exponent
  {
    FewPlaces(a, k);
    FewPlaces(b, k);
    if a.exponent <= b.exponent { SameExponent(a, b, k); } else { SameExponent(b, a, k); }
    SameDigits(a.digits, b.digits);
  }

  // ---------------------------------------------------------------- reading what was written

  lemma CharsRead(ds: seq<Digit>)
    ensures |Chars(ds)| == |ds| && AllDigits(Chars(ds))
    ensures Digits(Chars(ds)) == ds
  {
  }

  lemma {:induction false} UpToPointIs(a: string, rest: string)
    requires '.' !in a && (rest == "" || rest[0] == '.')
    ensures UpToPoint(a + rest) == a
    decreases |a|
  {
    if a == "" {
      assert a + rest == rest;
    } else {
      assert (a + rest)[1..] == a[1..] + rest;
      UpToPointIs(a[1..], rest);
    }
  }

  lemma ReadBody(p: Parts, whole: string, rest: string)
    requires IsParts(p) && whole == Chars(p.whole)
    requires rest == if p.fraction == [] then "" else "." + Chars(p.fraction)
    ensures ParsedBody(p.negative, whole + rest) == Some(p)
  {
    CharsRead(p.whole);
    CharsRead(p.fraction);
    NoPoint(p.whole);
    UpToPointIs(whole, rest);
    assert (whole + rest)[|whole|..] == rest;
    assert p.fraction != [] ==> rest[1..] == Chars(p.fraction);
    assert p.whole[0] != 0 ==> whole[0] != '0';
  }

  lemma ReadWritten(p: Parts)
    requires IsParts(p)
    ensures Parsed(Written(p)) == Some(p)
  {
    var whole := Chars(p.whole);
    var rest := if p.fraction == [] then "" else "." + Chars(p.fraction);
    ReadBody(p, whole, rest);
    CharsRead(p.whole);
    ReadSign(p, whole + rest, Written(p));
  }

  lemma ReadSign(p: Parts, body: string, s: string)
    requires ParsedBody(p.negative, body) == Some(p) && body != "" && body[0] != '-'
    requires s == (if p.negative then "-" else "") + body
    ensures Parsed(s) == Some(p)
  {
    if p.negative {
      assert s[1..] == body;
    } else {
      assert s == body;
    }
  }

  lemma PositionalIsParts(c: Number)
    requires IsCanonical(c) && InRange(c)
    ensures IsParts(Positional(c))
  {
  }

  lemma {:induction false} DropPadded(n: nat, ds: seq<Digit>)
    requires ds != [] && ds[0] != 0
    ensures DropZeros(Zeros(n) + ds) == ds
  {
    if n == 0 {
      assert Zeros(0) + ds == ds;
    } else {
      assert (Zeros(n) + ds)[1..] == Zeros(n - 1) + ds;
      DropPadded(n - 1, ds);
    }
  }

  /** The number read from the text of a canonical number is that number again. */
  lemma ReadCanonical(c: Number)
    requires IsCanonical(c) && InRange(c)
    ensures Canonical(NumberOf(Positional(c))) == c
  {
    var p := Positional(c);
    var point := |c.digits| + c.exponent;
    if c.exponent >= 0 {
      assert p.whole + p.fraction == c.digits + Zeros(c.exponent);
      assert DropZeros(c.digits + Zeros(c.exponent)) == c.digits + Zeros(c.exponent);
      StripPadded(c, c.exponent);
    } else if point > 0 {
      assert p.whole + p.fraction == c.digits;
      assert DropZeros(c.digits) == c.digits;
      assert NumberOf(p) == c;
    } else {
      assert p.whole + p.fraction == Zeros(1 - point) + c.digits;
      DropPadded(1 - point, c.digits);
      assert NumberOf(p) == c;
    }
  }

  /** The number a written text stands for. */
  function ValueOf(text: string): Number
    requires Parsed(text).Some?
  {
    NumberOf(Parsed(text).value)
  }

  lemma WrittenBack(n: Number)
    requires Proper(n) && DecimalText(n).Some? && !IsZero(n)
    ensures Parsed(DecimalText(n).value).Some? && IsCanonical(Canonical(n))
    ensures Canonical(ValueOf(DecimalText(n).value)) == Canonical(n) && !IsZero(ValueOf(DecimalText(n).value))
    ensures |ValueOf(DecimalText(n).value).digits| <= 2 * PLACES
  {
    var c := Canonical(n);
    ZeroIs(n);
    StripIsCanonical(n);
    PositionalIsParts(c);
    ReadWritten(Positional(c));
    ReadCanonical(c);
    var back := ValueOf(DecimalText(n).value);
    NotZero(back);
  }

  lemma NotZero(n: Number)
    requires Proper(n) && IsCanonical(Canonical(n))
    ensures !IsZero(n)
  {
    ZeroIs(n);
    StripZero(n.exponent);
  }

  lemma StripZero(exponent: int)
    ensures Stripped([0], exponent) == ([], exponent + 1)
  {
    assert [0][..0] == [] && Stripped([], exponent + 1) == ([], exponent + 1);
  }

  lemma ZeroText()
    ensures Parsed("0") == Some(Parts(false, [0], [])) && IsZero(ValueOf("0")) && ValueOf("0") == Number(false, [0], 0)
  {
    assert UpToPoint("0") == "0" by { assert "0"[1..] == ""; }
    assert Digits("0") == [0];
    assert [0] + [] == [0];
    assert DropZeros([0]) == [] by { assert [0][1..] == []; }
    assert [0][..0] == [];
  }

  lemma {:induction false} ZeroAmount(n: Number, k: nat)
    requires IsZero(n)
    ensures Amounts(n, k) <==> k == 0
  {
    if n.exponent < -PLACES && k > 0 { Less(0, k, Pow10(-PLACES - n.exponent)); }
  }

  // ---------------------------------------------------------------- main results

  /** The text stands for the number it was written from. */
  lemma ValuePreserved(n: Number, k: nat)
    requires Proper(n) && DecimalText(n).Some?
    ensures Parsed(DecimalText(n).value).Some?
    ensures Amounts(ValueOf(DecimalText(n).value), k) <==> Amounts(n, k)
    ensures !IsZero(n) ==> ValueOf(DecimalText(n).value).negative == n.negative
  {
    if IsZero(n) {
      ZeroText();
      ZeroAmount(n, k);
      ZeroAmount(ValueOf("0"), k);
    } else {
      WrittenBack(n);
      StripSame(n, k);
      StripSame(ValueOf(DecimalText(n).value), k);
    }
  }

  /** A canonical text is its own canonical text. */
  lemma Idempotent(n: Number)
    requires Proper(n) && DecimalText(n).Some?
    ensures Parsed(DecimalText(n).value).Some? && DecimalText(ValueOf(DecimalText(n).value)) == DecimalText(n)
  {
    if IsZero(n) { ZeroText(); } else { WrittenBack(n); }
  }

  /** Both zero, or of the same sign and amount. */
  ghost predicate SameValue(a: Number, b: Number) {
    (IsZero(a) && IsZero(b)) || (a.negative == b.negative && exists k :: k > 0 && Amounts(a, k) && Amounts(b, k))
  }

  /** Equal values, and only equal values, have equal texts. */
  lemma SameTextSameValue(a: Number, b: Number)
    requires Proper(a) && Proper(b) && DecimalText(a).Some? && DecimalText(b).Some?
    ensures DecimalText(a) == DecimalText(b) <==> SameValue(a, b)
  {
    if IsZero(a) && IsZero(b) {
    } else if IsZero(a) {
      ZeroDiffers(b, a);
    } else if IsZero(b) {
      ZeroDiffers(a, b);
    } else {
      NonzeroTexts(a, b);
    }
  }

  lemma ZeroDiffers(n: Number, zero: Number)
    requires Proper(n) && !IsZero(n) && DecimalText(n).Some? && IsZero(zero)
    ensures DecimalText(n) != Some("0")
    ensures forall k :: Amounts(zero, k) ==> k == 0
  {
    WrittenBack(n);
    ZeroText();
    forall k | Amounts(zero, k)
      ensures k == 0
    {
      ZeroAmount(zero, k);
    }
  }

  lemma NonzeroTexts(a: Number, b: Number)
    requires Proper(a) && Proper(b) && DecimalText(a).Some? && DecimalText(b).Some? && !IsZero(a) && !IsZero(b)
    ensures DecimalText(a) == DecimalText(b) <==> SameValue(a, b)
  {
    var c, d := Canonical(a), Canonical(b);
    WrittenBack(a);
    WrittenBack(b);
    if DecimalText(a) == DecimalText(b) {
      assert c == d;
      RangeHolds(c);
      var k := Coefficient(c.digits) * Pow10(c.exponent + PLACES);
      StripSame(a, k);
      StripSame(b, k);
    }
    if SameValue(a, b) {
      var k :| k > 0 && Amounts(a, k) && Amounts(b, k);
      StripSame(a, k);
      StripSame(b, k);
      SameNumber(c, d, k);
      assert c == d;
    }
  }

  lemma NumberOfParts(p: Parts)
    requires IsParts(p) && !IsZero(NumberOf(p))
    ensures -PLACES <= NumberOf(p).exponent <= 0 && |NumberOf(p).digits| + NumberOf(p).exponent <= PLACES
    ensures |NumberOf(p).digits| <= MAX_DIGITS
  {
    ZeroIs(NumberOf(p));
  }

  /** Every text of the grammar is accepted. */
  lemma GrammarAccepted(text: string)
    requires Parsed(text).Some?
    ensures DecimalText(ValueOf(text)).Some?
  {
    var n := ValueOf(text);
    if !IsZero(n) {
      NumberOfParts(Parsed(text).value);
      AmountFits(n);
      SuccessExact(n);
    }
  }

  lemma AmountFits(n: Number)
    requires !IsZero(n) && -PLACES <= n.exponent <= 0 && |n.digits| + n.exponent <= PLACES
    ensures exists k :: Held(k) && Amounts(n, k)
  {
    SmallAmount(n, Coefficient(n.digits) * Pow10(n.exponent + PLACES));
  }

  lemma SmallAmount(n: Number, k: nat)
    requires !IsZero(n) && -PLACES <= n.exponent <= 0 && |n.digits| + n.exponent <= PLACES
    requires k == Coefficient(n.digits) * Pow10(n.exponent + PLACES)
    ensures Held(k) && Amounts(n, k)
  {
    CoefficientSize(n.digits);
    PowSum(|n.digits|, n.exponent + PLACES);
    PowGrows(|n.digits| + (n.exponent + PLACES), 2 * PLACES);
    Monotone(Coefficient(n.digits), Pow10(|n.digits|), Pow10(n.exponent + PLACES));
  }
}
