/** Exact decimal numbers in the shape of java.math.BigDecimal: an unscaled
    integer and a scale, standing for unscaled * 10^-scale. The ledger keeps
    every balance at scale 2 (whole cents) and rounds half-up to it. */
module Decimals {

  /** 10^n. */
  function Pow10(n: nat): (r: nat)
    ensures r >= 1
  {
    if n == 0 then 1 else 10 * Pow10(n - 1)
  }

  lemma {:induction false} Pow10Add(i: nat, j: nat)
    ensures Pow10(i + j) == Pow10(i) * Pow10(j)
  {
    if j > 0 {
      calc {
        Pow10(i + j);
        10 * Pow10(i + j - 1);
        { Pow10Add(i, j - 1); }
        10 * (Pow10(i) * Pow10(j - 1));
        Pow10(i) * (10 * Pow10(j - 1));
      }
    }
  }

  function Max(a: nat, b: nat): nat
  {
    if a < b then b else a
  }

  /** The value unscaled * 10^-scale. */
  datatype Decimal = Decimal(unscaled: int, scale: nat)

  /** An amount of whole cents, i.e. a decimal at scale 2. */
  function Cents(c: int): Decimal
  {
    Decimal(c, 2)
  }

  /** The unscaled value of d once it is written at the finer scale s. */
  function Aligned(d: Decimal, s: nat): int
    requires d.scale <= s
  {
    d.unscaled * Pow10(s - d.scale)
  }

  /** Kept apart from AlignedRescale, whose context makes the solver slow
      to find this step on its own. */
  lemma MulAssoc(x: int, y: int, z: int)
    ensures x * (y * z) == (x * y) * z
  {
  }

  /** Writing a number at a scale t steps finer multiplies by 10^t. */
  lemma AlignedRescale(d: Decimal, s: nat, t: nat)
    requires d.scale <= s
    ensures Aligned(d, s + t) == Aligned(d, s) * Pow10(t)
  {
    var i := s - d.scale;
    assert s + t - d.scale == i + t;
    Pow10Add(i, t);
    MulAssoc(d.unscaled, Pow10(i), Pow10(t));
  }

  /** BigDecimal.add: exact (see AddExact), at the larger of the two
      scales. */
  function Add(a: Decimal, b: Decimal): (r: Decimal)
    ensures r.scale == Max(a.scale, b.scale)
  {
    var s := Max(a.scale, b.scale);
    Decimal(Aligned(a, s) + Aligned(b, s), s)
  }

  /** BigDecimal.negate: at the same scale; NegIsInverse shows it is the
      additive inverse. */
  function Neg(d: Decimal): (r: Decimal)
    ensures r.scale == d.scale
  {
    Decimal(-d.unscaled, d.scale)
  }

  /** BigDecimal.subtract: at the larger of the two scales; SubAddRoundTrip
      shows it is exact. */
  function Sub(a: Decimal, b: Decimal): (r: Decimal)
    ensures r.scale == Max(a.scale, b.scale)
  {
    Add(a, Neg(b))
  }

  /** d + (-d) is zero, at d's scale. */
  lemma NegIsInverse(d: Decimal)
    ensures Add(d, Neg(d)) == Decimal(0, d.scale)
  {
  }

  /** Subtracting b and adding it back gives a's value again. */
  lemma SubAddRoundTrip(a: Decimal, b: Decimal)
    ensures var r := Sub(a, b); Aligned(Add(r, b), r.scale) == Aligned(a, r.scale)
  {
    var s := Max(a.scale, b.scale);
    assert Aligned(Neg(b), s) == -Aligned(b, s);
  }

  /** The sum loses nothing: compared at any scale at least as fine as
      both operands, it is the sum of the two operands. */
  lemma AddExact(a: Decimal, b: Decimal, s: nat)
    requires a.scale <= s && b.scale <= s
    ensures Add(a, b).scale <= s
    ensures Aligned(Add(a, b), s) == Aligned(a, s) + Aligned(b, s)
  {
    var m := Max(a.scale, b.scale);
    AlignedRescale(a, m, s - m);
    AlignedRescale(b, m, s - m);
    AlignedRescale(Add(a, b), m, s - m);
    assert m + (s - m) == s;
  }

  /** compareTo(ZERO) > 0. */
  predicate IsPositive(d: Decimal)
  {
    d.unscaled > 0
  }

  /** a.compareTo(b) > 0: the comparison is on values, not on scales. */
  predicate Exceeds(a: Decimal, b: Decimal)
  {
    var s := Max(a.scale, b.scale);
    Aligned(a, s) > Aligned(b, s)
  }

  lemma MulPositiveMono(x: int, y: int, k: int)
    requires k >= 1
    ensures x > y <==> x * k > y * k
  {
    if x > y {
      assert x * k - y * k == (x - y) * k;
    } else {
      assert y * k - x * k == (y - x) * k;
    }
  }

  /** The comparison gives the same answer at every common scale. */
  lemma ExceedsAtAnyScale(a: Decimal, b: Decimal, s: nat)
    requires a.scale <= s && b.scale <= s
    ensures Exceeds(a, b) <==> Aligned(a, s) > Aligned(b, s)
  {
    var m := Max(a.scale, b.scale);
    AlignedRescale(a, m, s - m);
    AlignedRescale(b, m, s - m);
    assert m + (s - m) == s;
    MulPositiveMono(Aligned(a, m), Aligned(b, m), Pow10(s - m));
  }

  /** a exceeds b exactly when a - b is positive. */
  lemma ExceedsMeansPositiveDifference(a: Decimal, b: Decimal)
    ensures Exceeds(a, b) <==> IsPositive(Sub(a, b))
  {
    var s := Max(a.scale, b.scale);
    assert Aligned(Neg(b), s) == -Aligned(b, s);
  }

  /** compareTo(ZERO) > 0 is the comparison with zero, whatever zero's
      scale (ZERO or 0.00). */
  lemma PositiveMeansAboveZero(d: Decimal, z: nat)
    ensures IsPositive(d) <==> Exceeds(d, Decimal(0, z))
  {
    var s := Max(d.scale, z);
    MulPositiveMono(d.unscaled, 0, Pow10(s - d.scale));
  }

  /** The scale at which rounding d to cents is judged: the finer of 2 and
      d's own scale. */
  function RoundingScale(d: Decimal): nat
  {
    Max(2, d.scale)
  }

  /** c (in cents) is d rounded to 2 decimal places, half-up: c is within
      half a cent of d, and when d lies exactly half-way between two cents
      c is the one farther from zero. Twice the rounding error is measured
      in units of 10^-s, where half a cent is q units. */
  predicate RoundsHalfUpTo(d: Decimal, c: int)
  {
    var s := RoundingScale(d);
    var q: int := Pow10(s - 2);
    var e := 2 * (Aligned(Cents(c), s) - Aligned(d, s));
    if d.unscaled >= 0 then -q < e <= q else -q <= e < q
  }

  lemma HalfUpQuotient(m: nat, q: int)
    requires q >= 1
    ensures -q < 2 * ((2 * m + q) / (2 * q) * q - m) <= q
  {
    var c := (2 * m + q) / (2 * q);
    var r := (2 * m + q) % (2 * q);
    assert 2 * m + q == 2 * q * c + r && 0 <= r < 2 * q;
    assert 2 * (c * q - m) == q - r;
  }

  /** BigDecimal.setScale(2, RoundingMode.HALF_UP). */
  function SetScale2(d: Decimal): (r: Decimal)
    ensures r.scale == 2 && RoundsHalfUpTo(d, r.unscaled)
  {
    if d.scale <= 2 then
      Decimal(Aligned(d, 2), 2)
    else
      var q := Pow10(d.scale - 2);
      var m := if d.unscaled >= 0 then d.unscaled else -d.unscaled;
      HalfUpQuotient(m, q);
      var c := (2 * m + q) / (2 * q);
      Decimal(if d.unscaled >= 0 then c else -c, 2)
  }

  /** The gap between two cent amounts, written at a scale s >= 2, is at
      least a whole cent there (10^(s-2) units) unless they are equal. */
  lemma CentsApart(lo: int, hi: int, s: nat)
    requires 2 <= s && lo < hi
    ensures Aligned(Cents(hi), s) - Aligned(Cents(lo), s) >= Pow10(s - 2)
  {
    var q := Pow10(s - 2);
    assert hi * q - lo * q == (hi - lo) * q;
    MulPositiveMono(hi - lo, 1, q);
  }

  /** Cents that lie at or below d are never rounded past: d >= b implies
      round(d) >= b. */
  lemma RoundingAtLeast(d: Decimal, c: int, b: int)
    requires RoundsHalfUpTo(d, c)
    requires Aligned(d, RoundingScale(d)) >= Aligned(Cents(b), RoundingScale(d))
    ensures c >= b
  {
    if c < b {
      CentsApart(c, b, RoundingScale(d));
    }
  }

  /** Symmetrically, d <= b implies round(d) <= b. */
  lemma RoundingAtMost(d: Decimal, c: int, b: int)
    requires RoundsHalfUpTo(d, c)
    requires Aligned(d, RoundingScale(d)) <= Aligned(Cents(b), RoundingScale(d))
    ensures c <= b
  {
    if c > b {
      CentsApart(b, c, RoundingScale(d));
    }
  }

  /** A number that already has at most two decimals is left as it is. */
  lemma RoundingExact(d: Decimal, c: int)
    requires d.scale <= 2 && RoundsHalfUpTo(d, c)
    ensures c == Aligned(d, 2)
  {
    RoundingAtLeast(d, c, Aligned(d, 2));
    RoundingAtMost(d, c, Aligned(d, 2));
  }

  /** Half-up rounding to cents has exactly one answer. */
  lemma RoundingUnique(d: Decimal, c1: int, c2: int)
    requires RoundsHalfUpTo(d, c1) && RoundsHalfUpTo(d, c2)
    ensures c1 == c2
  {
    if c1 < c2 {
      CentsApart(c1, c2, RoundingScale(d));
    } else if c2 < c1 {
      CentsApart(c2, c1, RoundingScale(d));
    }
  }
}
