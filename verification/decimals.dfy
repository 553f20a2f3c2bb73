/** Exact fixed-point arithmetic standing in for `java.math.BigDecimal`.

    A decimal number is kept as an integer count of units 10^-s for a scale s
    fixed by context (hundredths for prices, ten-thousandths for ratios).
    `RoundingMode.HALF_UP` rounds to the nearest unit and breaks ties away
    from zero; `DivHalfUp` is that rounding applied to an exact quotient. */
module Decimals {

  function Pow10(n: nat): (r: nat)
    ensures r >= 1
  {
    if n == 0 then 1 else 10 * Pow10(n - 1)
  }

  lemma {:induction false} Pow10Add(a: nat, b: nat)
    ensures Pow10(a + b) == Pow10(a) * Pow10(b)
  {
    if a > 0 {
      Pow10Add(a - 1, b);
      assert Pow10(a + b) == 10 * Pow10(a - 1 + b);
    }
  }

  /** `r` is `n / d` rounded to the nearest integer, ties away from zero. */
  predicate IsHalfUpQuotient(n: int, d: int, r: int)
    requires d > 0
  {
    if n >= 0 then -d <= 2 * (n - r * d) < d
    else -d < 2 * (n - r * d) <= d
  }

  /** `BigDecimal.divide(..., RoundingMode.HALF_UP)` on exact integers. */
  function DivHalfUp(n: int, d: int): (r: int)
    requires d > 0
    ensures IsHalfUpQuotient(n, d, r)
    ensures n >= 0 ==> r >= 0
    ensures n <= 0 ==> r <= 0
  {
    var m := if n >= 0 then n else -n;
    var q := (2 * m + d) / (2 * d);
    MagnitudeQuotient(m, d, q);
    if n >= 0 then q else -q
  }

  /** The rounded quotient of a magnitude, and the same for its negation. */
  lemma MagnitudeQuotient(m: int, d: int, q: int)
    requires m >= 0 && d > 0 && q == (2 * m + d) / (2 * d)
    ensures q >= 0
    ensures -d <= 2 * (m - q * d) < d
    ensures -d < 2 * (-m - (-q) * d) <= d
  {
    DivBounds(2 * m + d, 2 * d);
    var t := q * d;
    assert 2 * d * q == 2 * t;
    assert (-q) * d == -t;
  }

  lemma DivBounds(a: int, b: int)
    requires a >= 0 && b > 0
    ensures b * (a / b) <= a < b * (a / b) + b
  {
  }

  /** The only multiple of `d` strictly between `-d` and `d` is zero. */
  lemma SmallMultipleIsZero(k: int, d: int)
    requires d > 0 && -d < k * d < d
    ensures k == 0
  {
    if k >= 1 {
      MulAtLeast(k, d);
    } else if k <= -1 {
      MulAtLeast(-k, d);
    }
  }

  lemma MulAtLeast(k: int, d: int)
    requires k >= 1 && d > 0
    ensures k * d >= d
  {
  }

  /** At most one integer is the half-up quotient of `n / d`. */
  lemma {:induction false} HalfUpQuotientUnique(n: int, d: int, r1: int, r2: int)
    requires d > 0
    requires IsHalfUpQuotient(n, d, r1) && IsHalfUpQuotient(n, d, r2)
    ensures r1 == r2
  {
    assert (r2 - r1) * d == r2 * d - r1 * d;
    SmallMultipleIsZero(r2 - r1, d);
  }

  /** `DivHalfUp` is exactly the half-up rounding of the quotient. */
  lemma {:induction false} DivHalfUpCharacterization(n: int, d: int, r: int)
    requires d > 0
    ensures DivHalfUp(n, d) == r <==> IsHalfUpQuotient(n, d, r)
  {
    if IsHalfUpQuotient(n, d, r) {
      HalfUpQuotientUnique(n, d, DivHalfUp(n, d), r);
    }
  }

  /** An exact quotient is never rounded. */
  lemma {:induction false} DivHalfUpExact(k: int, d: int)
    requires d > 0
    ensures DivHalfUp(k * d, d) == k
  {
    assert IsHalfUpQuotient(k * d, d, k);
    DivHalfUpCharacterization(k * d, d, k);
  }

  /** HALF_UP is symmetric about zero. */
  lemma {:induction false} DivHalfUpNegate(n: int, d: int)
    requires d > 0
    ensures DivHalfUp(-n, d) == -DivHalfUp(n, d)
  {
    var r := DivHalfUp(n, d);
    assert (-n) - (-r) * d == -(n - r * d);
    if n == 0 {
      assert r == 0;
    }
    assert IsHalfUpQuotient(-n, d, -r);
    DivHalfUpCharacterization(-n, d, -r);
  }

  /** The quotient of two amounts kept in the same unit, at `scale` decimals:
      `a.divide(b, scale, RoundingMode.HALF_UP)`, as a count of 10^-scale. */
  function DivideAtScale(n: int, d: int, scale: nat): (r: int)
    requires d > 0
    ensures IsHalfUpQuotient(n * Pow10(scale), d, r)
  {
    DivHalfUp(n * Pow10(scale), d)
  }

  /** A `BigDecimal` as written: `unscaled × 10^-scale`. The scale may be
      negative, as for `BigDecimal("1.0E10")`. */
  datatype Decimal = Decimal(unscaled: int, scale: int)

  /** The value as the fraction Num / Den. */
  function Num(x: Decimal): int {
    if x.scale >= 0 then x.unscaled else x.unscaled * Pow10(-x.scale)
  }

  function Den(x: Decimal): (r: nat)
    ensures r >= 1
  {
    if x.scale >= 0 then Pow10(x.scale) else 1
  }

  /** `x.setScale(s, RoundingMode.HALF_UP)`, as a count of 10^-s. */
  function SetScale(x: Decimal, s: nat): (r: int)
    ensures IsHalfUpQuotient(Num(x) * Pow10(s), Den(x), r)
    ensures x.scale <= s ==> r == x.unscaled * Pow10(s - x.scale)
  {
    var r := DivHalfUp(Num(x) * Pow10(s), Den(x));
    if x.scale <= s then WideningIsExact(x, s); r else r
  }

  /** Raising the scale only appends zeros. */
  lemma WideningIsExact(x: Decimal, s: nat)
    requires x.scale <= s
    ensures DivHalfUp(Num(x) * Pow10(s), Den(x)) == x.unscaled * Pow10(s - x.scale)
  {
    var k := x.unscaled * Pow10(s - x.scale);
    if x.scale >= 0 {
      var a, b := Pow10(s - x.scale), Pow10(x.scale);
      Pow10Add(s - x.scale, x.scale);
      MulAssoc(x.unscaled, a, b);
      assert Num(x) * Pow10(s) == k * Den(x);
    } else {
      var a, b := Pow10(-x.scale), Pow10(s);
      Pow10Add(-x.scale, s);
      MulAssoc(x.unscaled, a, b);
      assert Num(x) * Pow10(s) == k * Den(x);
    }
    DivHalfUpExact(k, Den(x));
  }

  lemma MulAssoc(u: int, a: int, b: int)
    ensures u * (a * b) == (u * a) * b
  {
  }

  /** `x >= t` for an integer threshold `t`, compared exactly. */
  predicate AtLeast(x: Decimal, t: int) {
    Num(x) >= t * Den(x)
  }

  /** `(num.divide(den, 4, HALF_UP) * 100).setScale(2, HALF_UP)`: a ratio
      of two amounts in the same unit, as a percentage in hundredths. */
  function RatioAsPercent(num: int, den: int): (r: int)
    requires den > 0
    ensures IsHalfUpQuotient(num * 10000, den, r)
  {
    var ratio := DivideAtScale(num, den, 4);       // ten-thousandths
    assert Pow10(4) == 10000;
    HundredfoldAtScaleFour(ratio);
    SetScale(Decimal(ratio * 100, 4), 2)           // ×100 keeps scale 4
  }

  /** `x * 100` at scale 4, brought to scale 2, is `x` exactly. */
  lemma HundredfoldAtScaleFour(x: int)
    ensures SetScale(Decimal(x * 100, 4), 2) == x
  {
    var d := Decimal(x * 100, 4);
    assert Pow10(2) == 100 && Pow10(4) == 10000;
    assert Num(d) * Pow10(2) == x * 10000;
    HalfUpQuotientUnique(x * 10000, 10000, SetScale(d, 2), x);
  }

  /** Multiplying the 4-decimal ratio by 100 lands on whole hundredths, so the
      final `setScale(2)` never rounds: the percentage is the ratio's digits. */
  lemma RatioAsPercentNeedsNoFinalRounding(num: int, den: int)
    requires den > 0
    ensures RatioAsPercent(num, den) == DivideAtScale(num, den, 4)
  {
  }
}
