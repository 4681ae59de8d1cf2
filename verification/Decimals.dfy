/**
 Decimal numerals: Python's `str(int)`, zero padding, and the digit strings of
 finite floats in positional notation.
 */
module Decimals {
  import opened Texts

  const ZERO: CodePoint := 0x30
  const PLUS: CodePoint := 0x2B
  const MINUS: CodePoint := 0x2D
  const POINT: CodePoint := 0x2E

  predicate IsDigit(c: CodePoint) {
    0x30 <= c <= 0x39
  }

  predicate AllDigits(t: Text) {
    forall i | 0 <= i < |t| :: IsDigit(t[i])
  }

  /** The numeral of a natural number, no leading zero. */
  function Digits(n: nat): (t: Text)
    ensures t != [] && AllDigits(t)
    ensures t[0] == ZERO ==> n == 0 && |t| == 1
  {
    if n < 10 then [ZERO + n] else Digits(n / 10) + [ZERO + n % 10]
  }

  /** The number a digit string denotes. */
  function NatOf(t: Text): nat
    requires AllDigits(t)
  {
    if t == [] then 0 else 10 * NatOf(t[..|t| - 1]) + (t[|t| - 1] - ZERO)
  }

  lemma {:induction false} NatOfDigits(n: nat)
    ensures NatOf(Digits(n)) == n
  {
    if n >= 10 {
      NatOfDigits(n / 10);
      assert Digits(n)[..|Digits(n)| - 1] == Digits(n / 10);
    } else {
      assert Digits(n)[..0] == [];
    }
  }

  function Zeros(k: nat): (t: Text)
    ensures |t| == k && AllDigits(t)
    ensures forall i | 0 <= i < k :: t[i] == ZERO
  {
    seq(k, _ => ZERO)
  }

  /** `t` padded with zeros on the left to at least `width` characters. */
  function PadLeft(t: Text, width: nat): (r: Text)
    ensures |r| == if |t| < width then width else |t|
    ensures AllDigits(t) ==> AllDigits(r)
  {
    if |t| < width then Zeros(width - |t|) + t else t
  }

  lemma {:induction false} NatOfZeros(k: nat, t: Text)
    requires AllDigits(t)
    ensures NatOf(Zeros(k) + t) == NatOf(t)
  {
    var s := Zeros(k) + t;
    if t != [] {
      assert s[..|s| - 1] == Zeros(k) + t[..|t| - 1];
      NatOfZeros(k, t[..|t| - 1]);
    } else if k > 0 {
      assert s[..|s| - 1] == Zeros(k - 1) + t;
      NatOfZeros(k - 1, t);
    } else {
      assert s == [];
    }
  }

  lemma NatOfPadLeft(n: nat, width: nat)
    ensures NatOf(PadLeft(Digits(n), width)) == n
  {
    NatOfDigits(n);
    if |Digits(n)| < width { NatOfZeros(width - |Digits(n)|, Digits(n)); }
  }

  function Abs(n: int): nat {
    if n < 0 then -n else n
  }

  /** `str(n)` of a Python integer. */
  function PrintInt(n: int): (t: Text)
    ensures t != []
  {
    if n < 0 then [MINUS] + Digits(-n) else Digits(n)
  }

  /** An integer's text holds only digits and at most a leading minus. */
  lemma PrintIntChars(n: int, c: CodePoint)
    requires c in PrintInt(n)
    ensures IsDigit(c) || c == MINUS
  {
  }

  lemma PrintIntInjective(m: int, n: int)
    requires PrintInt(m) == PrintInt(n)
    ensures m == n
  {
    NatOfDigits(Abs(m));
    NatOfDigits(Abs(n));
    var s, t := PrintInt(m), PrintInt(n);
    assert m < 0 ==> s[0] == MINUS && s[1..] == Digits(-m);
    assert n < 0 ==> t[0] == MINUS && t[1..] == Digits(-n);
  }

  // ------------------------------------------------------------------ floats

  /** The value m / 10^k of a finite float, k as small as possible. */
  datatype RawDecimal = Decimal(m: int, k: nat)
  type Decimal = d: RawDecimal | d.k > 0 ==> d.m % 10 != 0 witness Decimal(0, 0)

  function Pow10(k: nat): (p: nat)
    ensures p > 0
  {
    if k == 0 then 1 else 10 * Pow10(k - 1)
  }

  function RealOf(d: RawDecimal): real {
    (d.m as real) / (Pow10(d.k) as real)
  }

  /** Drops trailing zeros of the fraction: the decimal with the same value. */
  function Normalize(m: int, k: nat): (d: Decimal)
    ensures k > 0 && m % 10 != 0 ==> d == Decimal(m, k)
    decreases k
  {
    if k > 0 && m % 10 == 0 then Normalize(m / 10, k - 1) else Decimal(m, k)
  }
}
