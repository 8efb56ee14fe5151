/**
 * Exact decimal money arithmetic.  Python's `Decimal` values are modelled by
 * Dafny's `real` (exact rationals); `quantize(Decimal('0.01'),
 * rounding=ROUND_HALF_UP)` is QuantizeCents below.
 */
module Rounding {

  /** True when `x` is a whole number of cents. */
  predicate IsCents(x: real)
  {
    (x * 100.0).Floor as real == x * 100.0
  }

  /**
   * Rounds `x` to the nearest cent; a value exactly half-way between two cents
   * goes to the one farther from zero (ROUND_HALF_UP of Python's decimal
   * module, which is not round-half-even).  The two ensures clauses pin the
   * result down uniquely: the only cent in a half-open interval of width 0.01.
   */
  function QuantizeCents(x: real): (r: real)
    ensures IsCents(r)
    ensures x >= 0.0 ==> x - 0.005 < r <= x + 0.005
    ensures x < 0.0 ==> x - 0.005 <= r < x + 0.005
  {
    CentsToAmount(HalfUpCents(x))
  }

  /** The number of cents `x` rounds to, half-way cases away from zero. */
  function HalfUpCents(x: real): (k: int)
    ensures x >= 0.0 ==> x * 100.0 - 0.5 < k as real <= x * 100.0 + 0.5
    ensures x < 0.0 ==> x * 100.0 - 0.5 <= k as real < x * 100.0 + 0.5
  {
    if x >= 0.0 then (x * 100.0 + 0.5).Floor
    else -((-x) * 100.0 + 0.5).Floor
  }

  /** The amount of `cents` hundredths. */
  function CentsToAmount(cents: int): (r: real)
    ensures r * 100.0 == cents as real
    ensures IsCents(r)
  {
    cents as real / 100.0
  }

  /** An amount that is already whole cents is left as it is. */
  lemma QuantizeCentsOfCents(x: real)
    requires IsCents(x)
    ensures QuantizeCents(x) == x
  {
    var r := QuantizeCents(x);
    if r > x {
      CentsGap(r, x);
    } else if r < x {
      CentsGap(x, r);
    }
  }

  /** Rounding never reverses the order of two amounts. */
  lemma QuantizeCentsMonotone(x: real, y: real)
    requires x <= y
    ensures QuantizeCents(x) <= QuantizeCents(y)
  {
    var rx, ry := QuantizeCents(x), QuantizeCents(y);
    if rx > ry {
      CentsGap(rx, ry);
    }
  }

  /** Two different whole-cent amounts are at least a cent apart. */
  lemma CentsGap(a: real, b: real)
    requires IsCents(a) && IsCents(b) && a > b
    ensures a - b >= 0.01
  {
    var ka, kb := (a * 100.0).Floor, (b * 100.0).Floor;
    assert ka > kb;
  }
}
