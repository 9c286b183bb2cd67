/** Integer facts about the rounding divisions the screens use. */
module Arith {

  lemma MulMonotone(x: int, y: int, d: int)
    requires d > 0 && x <= y
    ensures x * d <= y * d
  {
    assert y * d - x * d == (y - x) * d;
  }

  lemma MulCancel(x: int, y: int, d: int)
    requires d > 0 && x * d < y * d
    ensures x < y
  {
    if x >= y {
      MulMonotone(y, x, d);
    }
  }

  lemma DivMonotone(a: nat, b: nat, d: nat)
    requires a <= b && d > 0
    ensures a / d <= b / d
  {
    var qa, qb := a / d, b / d;
    assert qa * d <= a;
    assert b < (qb + 1) * d;
    MulCancel(qa, qb + 1, d);
  }

  /**
   * Integer division of naturals by repeated subtraction. The screens' rounding
   * is written with it rather than with `/`, so that a contract mentioning a
   * score does not bring a division by an unknown divisor into every proof
   * that merely passes the score along; `QuotientIsDivision` ties it to `/`.
   */
  function Quotient(x: nat, d: nat): nat
    requires d > 0
    decreases x
  {
    if x < d then 0 else 1 + Quotient(x - d, d)
  }

  lemma {:induction false} QuotientBounds(x: nat, d: nat)
    requires d > 0
    ensures Quotient(x, d) * d <= x < Quotient(x, d) * d + d
    decreases x
  {
    if x >= d {
      QuotientBounds(x - d, d);
      var q := Quotient(x - d, d);
      assert (1 + q) * d == q * d + d;
    }
  }

  /** The quotient is the one integer q with q * d <= x < q * d + d. */
  lemma QuotientUnique(x: int, d: int, q1: int, q2: int)
    requires d > 0
    requires q1 * d <= x < q1 * d + d
    requires q2 * d <= x < q2 * d + d
    ensures q1 == q2
  {
    if q1 < q2 {
      assert (q1 + 1) * d == q1 * d + d;
      MulMonotone(q1 + 1, q2, d);
    } else if q2 < q1 {
      assert (q2 + 1) * d == q2 * d + d;
      MulMonotone(q2 + 1, q1, d);
    }
  }

  lemma QuotientIsDivision(x: nat, d: nat)
    requires d > 0
    ensures Quotient(x, d) == x / d
  {
    QuotientBounds(x, d);
    QuotientUnique(x, d, Quotient(x, d), x / d);
  }

  /** `Math.round(x / d)` for a natural x and a positive d: (2x + d) div (2d). */
  function RoundedDiv(x: nat, d: nat): nat
    requires d > 0
  {
    Quotient(2 * x + d, 2 * d)
  }

  /** The rounded quotient is the integer nearest to x / d, halves rounded up. */
  lemma RoundHalfUp(x: nat, d: nat)
    requires d > 0
    ensures var q := RoundedDiv(x, d);
            2 * q * d - d <= 2 * x < 2 * q * d + d
  {
    var q := RoundedDiv(x, d);
    QuotientBounds(2 * x + d, 2 * d);
    assert q * (2 * d) <= 2 * x + d < q * (2 * d) + 2 * d;
    assert q * (2 * d) == 2 * q * d;
  }

  /** A whole multiple rounds to itself. */
  lemma RoundedDivWhole(k: nat, d: nat)
    requires d > 0
    ensures RoundedDiv(k * d, d) == k
  {
    var x := 2 * (k * d) + d;
    QuotientBounds(x, 2 * d);
    assert k * (2 * d) == 2 * (k * d);
    QuotientUnique(x, 2 * d, Quotient(x, 2 * d), k);
  }

  lemma QuotientMonotone(a: nat, b: nat, d: nat)
    requires a <= b && d > 0
    ensures Quotient(a, d) <= Quotient(b, d)
  {
    QuotientIsDivision(a, d);
    QuotientIsDivision(b, d);
    DivMonotone(a, b, d);
  }

  /** Rounding a larger numerator never gives a smaller result. */
  lemma RoundedDivMonotone(x: nat, y: nat, d: nat)
    requires x <= y && d > 0
    ensures RoundedDiv(x, d) <= RoundedDiv(y, d)
  {
    QuotientMonotone(2 * x + d, 2 * y + d, 2 * d);
  }

  /** Rounding a mean of values in [0, hi] stays at most hi. */
  lemma RoundedMeanBounds(x: nat, d: nat, hi: nat)
    requires d > 0 && x <= hi * d
    ensures RoundedDiv(x, d) <= hi
  {
    var q := RoundedDiv(x, d);
    RoundHalfUp(x, d);
    assert 2 * q * d < 2 * hi * d + 2 * d;
    assert q * (2 * d) < (hi + 1) * (2 * d);
    MulCancel(q, hi + 1, 2 * d);
  }
}
