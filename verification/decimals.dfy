/** java.math.BigDecimal as far as the request amounts need it: a value
    unscaled × 10^(-scale), its precision, the numeric order used by
    @DecimalMin, and the exact conversion to hundredths used for balances. */
module Decimals {

  /** A BigDecimal: the number unscaled × 10^(-scale). The scale may be
      negative (1E+2 has unscaled 1 and scale -2). */
  datatype Decimal = Decimal(unscaled: int, scale: int)

  /** An amount of money in hundredths. BigDecimal arithmetic on amounts with
      at most two fraction digits is exact, so it is integer arithmetic on
      hundredths. */
  type Money = int

  function Pow10(n: nat): (p: nat)
    ensures p >= 1
  {
    if n == 0 then 1 else 10 * Pow10(n - 1)
  }

  function Abs(x: int): nat
  {
    if x < 0 then -x else x
  }

  function Max(a: int, b: int): int
  {
    if a < b then b else a
  }

  /** Number of decimal digits of n; zero has one digit, as in BigDecimal. */
  function DigitCount(n: nat): (k: nat)
    ensures k >= 1
    ensures n < Pow10(k)
    ensures k > 1 ==> Pow10(k - 1) <= n
  {
    if n < 10 then 1 else 1 + DigitCount(n / 10)
  }

  /** BigDecimal.precision(): the digits of the unscaled value. */
  function Precision(d: Decimal): nat
  {
    DigitCount(Abs(d.unscaled))
  }

  /** Integer digits as @Digits counts them: precision - scale. */
  function IntegerLength(d: Decimal): int
  {
    Precision(d) - d.scale
  }

  /** Fraction digits as @Digits counts them: the scale, or 0 if negative. */
  function FractionLength(d: Decimal): nat
  {
    if d.scale < 0 then 0 else d.scale
  }

  /** The Money format, @Digits(integer = 12, fraction = 2): at most twelve
      integer digits and at most two fraction digits. */
  predicate HasMoneyFormat(d: Decimal)
  {
    IntegerLength(d) <= 12 && FractionLength(d) <= 2
  }

  /** BigDecimal.compareTo: the sign of a - b, independent of the scales. */
  function CompareTo(a: Decimal, b: Decimal): (c: int)
    ensures -1 <= c <= 1
  {
    var t := Max(a.scale, b.scale);
    var x, y := a.unscaled * Pow10(t - a.scale), b.unscaled * Pow10(t - b.scale);
    if x < y then -1 else if x == y then 0 else 1
  }

  /** The exact value in hundredths, for a decimal with at most two
      fraction digits. */
  function Hundredths(d: Decimal): int
    requires d.scale <= 2
  {
    d.unscaled * Pow10(2 - d.scale)
  }

  lemma {:induction false} Pow10Add(m: nat, n: nat)
    ensures Pow10(m + n) == Pow10(m) * Pow10(n)
  {
    if m > 0 {
      Pow10Add(m - 1, n);
      assert Pow10(m + n) == 10 * Pow10(m - 1 + n);
    }
  }

  lemma {:induction false} Pow10Monotone(m: nat, n: nat)
    requires m <= n
    ensures Pow10(m) <= Pow10(n)
  {
    if m < n {
      Pow10Monotone(m, n - 1);
    }
  }

  lemma ScaleByPositive(x: int, y: int, k: int)
    requires k >= 1
    ensures x < y <==> x * k < y * k
    ensures x == y <==> x * k == y * k
  {
    if x < y {
      assert y * k - x * k == (y - x) * k;
    } else if y < x {
      assert x * k - y * k == (x - y) * k;
    }
  }

  lemma Reassociate(u: int, p: int, k: int)
    ensures u * (p * k) == (u * p) * k
  {
  }

  /** Hundredths(d) is the unscaled value brought to scale t, times the
      remaining power of ten. */
  lemma HundredthsAtScale(d: Decimal, t: int)
    requires d.scale <= t <= 2
    ensures Hundredths(d) == (d.unscaled * Pow10(t - d.scale)) * Pow10(2 - t)
  {
    var p, k := Pow10(t - d.scale), Pow10(2 - t);
    Pow10Add(t - d.scale, 2 - t);
    assert Pow10(2 - d.scale) == p * k;
    Reassociate(d.unscaled, p, k);
  }

  /** For decimals with at most two fraction digits, compareTo agrees with
      the order of their hundredths: the engine may compare balances and
      amounts as integers. */
  lemma CompareToByHundredths(a: Decimal, b: Decimal)
    requires a.scale <= 2 && b.scale <= 2
    ensures CompareTo(a, b) < 0 <==> Hundredths(a) < Hundredths(b)
    ensures CompareTo(a, b) == 0 <==> Hundredths(a) == Hundredths(b)
    ensures CompareTo(a, b) > 0 <==> Hundredths(a) > Hundredths(b)
  {
    var t := Max(a.scale, b.scale);
    var x, y := a.unscaled * Pow10(t - a.scale), b.unscaled * Pow10(t - b.scale);
    HundredthsAtScale(a, t);
    HundredthsAtScale(b, t);
    ScaleByPositive(x, y, Pow10(2 - t));
  }

  lemma AbsOfScaled(u: int, q: nat)
    ensures Abs(u * q) == Abs(u) * q
  {
    if u < 0 {
      assert u * q == -(Abs(u) * q);
    }
  }

  /** An amount that passes @Digits(integer = 12, fraction = 2) is a whole
      number of hundredths, below 10^12 in units, i.e. fewer than 10^14
      hundredths in magnitude: the Money ceiling. */
  lemma DigitsBoundHundredths(d: Decimal)
    requires HasMoneyFormat(d)
    ensures d.scale <= 2
    ensures Abs(Hundredths(d)) < Pow10(14)
  {
    var p: nat := Precision(d);
    var e: nat := 2 - d.scale;
    var u: nat, q: nat := Abs(d.unscaled), Pow10(e);
    AbsOfScaled(d.unscaled, q);
    assert Abs(Hundredths(d)) == u * q;
    assert u < Pow10(p);
    ScaleByPositive(u, Pow10(p), q);
    Pow10Add(p, e);
    Pow10Monotone(p + e, 14);
  }

  /** A Money-format amount as hundredths: numerically equal to the decimal,
      and below 10^12 in units, i.e. fewer than 10^14 hundredths. */
  function AmountInHundredths(d: Decimal): (a: Money)
    requires HasMoneyFormat(d)
    ensures CompareTo(d, Decimal(a, 2)) == 0
    ensures Abs(a) < Pow10(14)
  {
    DigitsBoundHundredths(d);
    CompareToByHundredths(d, Decimal(Hundredths(d), 2));
    Hundredths(d)
  }
}
