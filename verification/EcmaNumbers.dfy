/**
 Section 3.2.2.3 of RFC 8785 has numbers print as ECMA-262 prints them. That algorithm, and
 exactly which floats utils/jcs.py prints as it does.
 */
module EcmaNumbers {
  import opened Texts
  import opened Decimals
  import opened Jcs

  /** Number::toString of ECMA-262 on a float whose shortest decimal is s / 10^k. */
  function EcmaText(neg: bool, s: nat, k: int): Text {
    (if neg then [MINUS] else []) + EcmaMagnitude(Digits(s), |Digits(s)| - k)
  }

  /** The digits `ds` with the point behind the n-th place. */
  function EcmaMagnitude(ds: Text, n: int): Text
    requires ds != []
  {
    if |ds| <= n <= 21 then ds + Zeros(n - |ds|)
    else if 0 < n <= 21 then ds[..n] + [POINT] + ds[n..]
    else if -6 < n <= 0 then [ZERO, POINT] + Zeros(-n) + ds
    else Mantissa(ds) + [LETTER_E, if n > 0 then PLUS else MINUS] + Digits(Abs(n - 1))
  }

  function Mantissa(ds: Text): Text
    requires ds != []
  {
    [ds[0]] + (if |ds| > 1 then [POINT] + ds[1..] else [])
  }

  // ------------------------------------------------------------ non-integers

  /** Both printers' positional texts are one. */
  lemma FixedIsEcma(d: Decimal)
    requires d.k > 0 && -4 <= Exponent(d) <= 20
    ensures Fixed(d) == EcmaText(d.m < 0, Abs(d.m), d.k)
  {
    var ds := Digits(Abs(d.m));
    var fs, n := Figures(d), |ds| - d.k;
    hide Digits;
    if n > 0 {
      assert fs == ds;
    } else {
      assert fs == Zeros(d.k + 1 - |ds|) + ds;
      assert fs[..|fs| - d.k] == [ZERO];
      assert fs[|fs| - d.k..] == Zeros(-n) + ds;
      assert [ZERO] + [POINT] + (Zeros(-n) + ds) == [ZERO, POINT] + Zeros(-n) + ds;
    }
    SignFirst(d.m < 0, fs[..|fs| - d.k], fs[|fs| - d.k..]);
  }

  lemma SignFirst(neg: bool, ip: Text, fp: Text)
    ensures Positional(neg, ip, fp) == (if neg then [MINUS] else []) + (ip + [POINT] + fp)
  {
  }

  lemma ScientificParts(neg: bool, ds: Text, x: Text)
    requires ds != []
    ensures Scientific(neg, ds, x) == ((if neg then [MINUS] else []) + (Mantissa(ds) + [LETTER_E, MINUS])) + x
  {
    var sign := if neg then [MINUS] else [];
    assert sign + [ds[0]] + (if |ds| > 1 then [POINT] + ds[1..] else []) == sign + Mantissa(ds);
  }

  /** A non-integer float prints as ECMA-262 has it exactly when its leading digit stands for
      10^-4 to 10^20 or for 10^-10 or less. */
  lemma FractionMeetsEcmaIff(d: Decimal)
    requires d.k > 0
    ensures FormatNumber(d) == EcmaText(d.m < 0, Abs(d.m), d.k) <==> -4 <= Exponent(d) <= 20 || Exponent(d) <= -10
  {
    hide Fixed, Scientific, EcmaMagnitude, Digits, PadLeft, PrintInt;
    var e, ds := Exponent(d), Digits(Abs(d.m));
    if -4 <= e <= 20 {
      FixedIsEcma(d);
    } else if e > 20 {
      FixedHasNoE(d);
      EcmaHasE(d.m < 0, Abs(d.m), d.k);
    } else if e >= -6 {
      FractionWithoutE(d);
      ScientificHasE(d.m < 0, ds, PadLeft(Digits(-e), 2));
    } else {
      ExponentPadding(-e);
      SmallIsEcmaIff(d.m < 0, ds, e);
    }
  }

  lemma SmallIsEcmaIff(neg: bool, ds: Text, e: int)
    requires ds != [] && e < -6
    ensures Scientific(neg, ds, PadLeft(Digits(-e), 2)) == (if neg then [MINUS] else []) + EcmaMagnitude(ds, e + 1) <==>
            PadLeft(Digits(-e), 2) == Digits(-e)
  {
    hide PadLeft, Digits;
    var x, y := PadLeft(Digits(-e), 2), Digits(-e);
    var sign := if neg then [MINUS] else [];
    var front := sign + (Mantissa(ds) + [LETTER_E, MINUS]);
    ScientificParts(neg, ds, x);
    assert Abs(e + 1 - 1) == -e;
    assert EcmaMagnitude(ds, e + 1) == Mantissa(ds) + [LETTER_E, MINUS] + y;
    assert sign + EcmaMagnitude(ds, e + 1) == front + y;
    PrefixCut(front, x, y);
  }

  lemma ExponentPadding(n: nat)
    ensures PadLeft(Digits(n), 2) == Digits(n) <==> n >= 10
  {
  }

  lemma FixedHasNoE(d: Decimal)
    requires d.k > 0
    ensures LETTER_E !in Fixed(d)
  {
    hide Digits, PadLeft;
    var fs := Figures(d);
    SignFirst(d.m < 0, fs[..|fs| - d.k], fs[|fs| - d.k..]);
  }

  lemma ScientificHasE(neg: bool, ds: Text, exponent: Text)
    requires ds != []
    ensures LETTER_E in Scientific(neg, ds, exponent)
  {
    var front := (if neg then [MINUS] else []) + Mantissa(ds);
    ScientificParts(neg, ds, exponent);
    assert Scientific(neg, ds, exponent)[|front|] == LETTER_E;
  }

  lemma EcmaHasE(neg: bool, s: nat, k: int)
    requires |Digits(s)| - k > 21
    ensures LETTER_E in EcmaText(neg, s, k)
  {
    hide Digits;
    var ds, n := Digits(s), |Digits(s)| - k;
    var front := (if neg then [MINUS] else []) + Mantissa(ds);
    assert EcmaText(neg, s, k) == front + [LETTER_E, PLUS] + Digits(Abs(n - 1));
    assert EcmaText(neg, s, k)[|front|] == LETTER_E;
  }

  lemma FractionWithoutE(d: Decimal)
    requires d.k > 0 && -6 <= Exponent(d) <= -5
    ensures LETTER_E !in EcmaText(d.m < 0, Abs(d.m), d.k)
  {
    hide Digits;
  }

  // ---------------------------------------------------------------- integers

  lemma DigitsTimesTen(t: nat)
    requires t > 0
    ensures Digits(10 * t) == Digits(t) + [ZERO]
  {
  }

  lemma TimesTen(s: nat, z: nat)
    requires z > 0
    ensures s * Pow10(z) == 10 * (s * Pow10(z - 1))
  {
  }

  lemma {:induction false} DigitsShifted(s: nat, z: nat)
    requires s > 0
    ensures s * Pow10(z) > 0 && Digits(s * Pow10(z)) == Digits(s) + Zeros(z)
  {
    hide Digits;
    if z == 0 {
      assert Digits(s) + Zeros(0) == Digits(s);
    } else {
      DigitsShifted(s, z - 1);
      TimesTen(s, z);
      hide Pow10;
      DigitsTimesTen(s * Pow10(z - 1));
      assert Digits(s) + Zeros(z) == Digits(s) + Zeros(z - 1) + [ZERO];
    }
  }

  lemma {:induction false} DigitsCount(n: nat, w: nat)
    requires w > 0
    ensures |Digits(n)| <= w <==> n < Pow10(w)
  {
    if n >= 10 && w > 1 {
      DigitsCount(n / 10, w - 1);
    } else if n >= 10 {
      assert Pow10(1) == 10 * Pow10(0);
    } else {
      PowersGrow(w);
    }
  }

  lemma {:induction false} PowersGrow(w: nat)
    requires w > 0
    ensures Pow10(w) >= 10
  {
    if w > 1 { PowersGrow(w - 1); }
  }

  lemma DigitsInjective(m: nat, n: nat)
    requires Digits(m) == Digits(n)
    ensures m == n
  {
    NatOfDigits(m);
    NatOfDigits(n);
  }

  lemma WholeText(ds: Text, z: nat)
    requires ds != [] && |ds| + z <= 21
    ensures EcmaMagnitude(ds, |ds| + z) == ds + Zeros(z)
  {
  }

  /** An integer-valued float m whose shortest decimal is s * 10^z prints as ECMA-262 has it
      exactly when that decimal is the float itself and below 10^21. */
  lemma WholeMeetsEcmaIff(m: int, s: nat, z: nat)
    requires s > 0 || z == 0
    ensures PrintInt(m) == EcmaText(m < 0, s, -(z as int)) <==> Abs(m) == s * Pow10(z) && Abs(m) < Pow10(21)
  {
    hide Digits, Pow10, EcmaMagnitude, Zeros;
    var sign, ds, p := if m < 0 then [MINUS] else [], Digits(s), s * Pow10(z);
    assert PrintInt(m) == sign + Digits(Abs(m));
    ShiftedDigits(s, z);
    DigitsCount(Abs(m), 21);
    if |ds| + z <= 21 {
      WholeText(ds, z);
      PrefixCut(sign, Digits(Abs(m)), ds + Zeros(z));
      if Digits(Abs(m)) == Digits(p) { DigitsInjective(Abs(m), p); }
    } else {
      EcmaHasE(m < 0, s, -(z as int));
      IntegerHasNoE(m);
    }
  }

  lemma ShiftedDigits(s: nat, z: nat)
    requires s > 0 || z == 0
    ensures s * Pow10(z) >= 0 && Digits(s * Pow10(z)) == Digits(s) + Zeros(z)
  {
    hide Digits;
    if s > 0 { DigitsShifted(s, z); } else { assert Digits(s) + Zeros(0) == Digits(s); }
  }

  lemma IntegerHasNoE(m: int)
    ensures LETTER_E !in PrintInt(m)
  {
    if LETTER_E in PrintInt(m) { PrintIntChars(m, LETTER_E); }
  }

  /** Up to 2^53, where every integer is a float and its own shortest decimal, they agree. */
  lemma SafeIntegersMeetEcma(m: int, s: nat, z: nat)
    requires Abs(m) <= 0x20_0000_0000_0000 && Abs(m) == s * Pow10(z) && (s > 0 || z == 0)
    ensures PrintInt(m) == EcmaText(m < 0, s, -(z as int))
  {
    WholeMeetsEcmaIff(m, s, z);
    TenTo21();
  }

  lemma TenTo21()
    ensures Pow10(21) == 1_000_000_000_000_000_000_000
  {
    assert Pow10(7) == 10_000_000;
    PowersAdd(7, 7);
    PowersAdd(7, 14);
  }

  lemma {:induction false} PowersAdd(a: nat, b: nat)
    ensures Pow10(a + b) == Pow10(a) * Pow10(b)
  {
    if a > 0 { PowersAdd(a - 1, b); }
  }

  /** The float 2^60, whose shortest decimal is 1152921504606847000 (24 away, less than half the
      way to the next float on either side), and the float 10^22 print differently. */
  lemma LargeIntegersDeviate()
    ensures 0 < 1_152_921_504_606_847 * Pow10(3) - 0x1000_0000_0000_0000 < 64
    ensures PrintInt(0x1000_0000_0000_0000) != EcmaText(false, 1_152_921_504_606_847, -3)
    ensures PrintInt(10_000_000_000_000_000_000_000) != EcmaText(false, 1, -22)
  {
    assert Pow10(3) == 1000;
    TenTo21();
    hide PrintInt, EcmaText, Pow10;
    WholeMeetsEcmaIff(0x1000_0000_0000_0000, 1_152_921_504_606_847, 3);
    WholeMeetsEcmaIff(10_000_000_000_000_000_000_000, 1, 22);
  }
}
