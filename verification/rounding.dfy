/** Rounding of the final values to two decimals, half away from zero (BigDecimal's HALF_UP). */
module Rounding {

  /** `x` has at most two fractional decimal digits. */
  predicate IsCents(x: real) {
    (x * 100.0).Floor as real == x * 100.0
  }

  /** The number of cents nearest to a non-negative `y`, halves counted upwards. */
  function HalfUpCents(y: real): (k: int)
    requires y >= 0.0
    ensures k >= 0
    ensures k as real - 0.5 <= y * 100.0 < k as real + 0.5
  {
    (y * 100.0 + 0.5).Floor
  }

  /** The nearest amount of whole cents; a value exactly halfway is rounded away from zero. */
  function FormatValue(x: real): (r: real)
    ensures IsCents(r)
    ensures -0.005 <= r - x <= 0.005
    ensures r - x == 0.005 ==> x > 0.0
    ensures x - r == 0.005 ==> x < 0.0
  {
    var k := if x >= 0.0 then HalfUpCents(x) else -HalfUpCents(-x);
    WholeCents(k);
    k as real / 100.0
  }

  /** Any whole number of cents, read as an amount, is in whole cents. */
  lemma WholeCents(k: int)
    ensures IsCents(k as real / 100.0)
  {
  }

  /** The contract of FormatValue determines its result: no other amount of cents meets it. */
  lemma FormatValueUnique(x: real, c: real)
    requires IsCents(c)
    requires -0.005 <= c - x <= 0.005
    requires c - x == 0.005 ==> x > 0.0
    requires x - c == 0.005 ==> x < 0.0
    ensures c == FormatValue(x)
  {
    var r := FormatValue(x);
    var kc := (c * 100.0).Floor;
    var kr := (r * 100.0).Floor;
    assert kc as real == c * 100.0;
    assert kr as real == r * 100.0;
    assert -1 <= kc - kr <= 1;
  }

  /** Rounding an amount that is already in whole cents changes nothing. */
  lemma FormatValueOfCents(c: real)
    requires IsCents(c)
    ensures FormatValue(c) == c
  {
    FormatValueUnique(c, c);
  }

  /** Zero stays zero. */
  lemma FormatValueZero()
    ensures FormatValue(0.0) == 0.0
  {
    FormatValueOfCents(0.0);
  }

  /** Rounding twice is rounding once. */
  lemma FormatValueIdempotent(x: real)
    ensures FormatValue(FormatValue(x)) == FormatValue(x)
  {
    FormatValueOfCents(FormatValue(x));
  }

  /** Rounding preserves order. */
  lemma FormatValueMonotone(x: real, y: real)
    requires x <= y
    ensures FormatValue(x) <= FormatValue(y)
  {
    if 0.0 <= x {
      assert HalfUpCents(x) <= HalfUpCents(y);
    } else if y < 0.0 {
      assert HalfUpCents(-y) <= HalfUpCents(-x);
    }
  }

  /** Half-up rounding is symmetric about zero. */
  lemma FormatValueOdd(x: real)
    ensures FormatValue(-x) == -FormatValue(x)
  {
  }
}
