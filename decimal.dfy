/** Exact decimal arithmetic as `java.math.BigDecimal` does it, over `real`:
    values are rationals and `divide(d, places, RoundingMode.HALF_UP)` is the
    exact quotient followed by RoundHalfUp. */
module Decimal {

  function Pow10(n: nat): (r: nat)
    ensures r >= 1
  {
    if n == 0 then 1 else 10 * Pow10(n - 1)
  }

  /** 10^places as a real: how many units of the last place make one. */
  function Scale(places: nat): (s: real)
    ensures s >= 1.0
  {
    Pow10(places) as real
  }

  /** x is a whole number of 1/s units. */
  predicate WholeUnits(x: real, s: real) {
    (x * s).Floor as real == x * s
  }

  /** x has at most `places` digits after the decimal point. */
  predicate HasScale(x: real, places: nat) {
    WholeUnits(x, Scale(places))
  }

  /** The nearest integer to y, halves away from zero. */
  function RoundUnits(y: real): int {
    if y >= 0.0 then (y + 0.5).Floor else -((-y + 0.5).Floor)
  }

  /** x rounded to a whole number of 1/s units, halves away from zero. */
  function RoundAt(x: real, s: real): real
    requires s > 0.0
  {
    RoundUnits(x * s) as real / s
  }

  /** Round to `places` decimal digits, halves away from zero (HALF_UP). */
  function RoundHalfUp(x: real, places: nat): real {
    RoundAt(x, Scale(places))
  }

  lemma FloorBounds(y: real)
    ensures y.Floor as real <= y < y.Floor as real + 1.0
  {
  }

  /** RoundUnits is within one half of its argument. */
  lemma RoundUnitsBounds(y: real)
    ensures y - 0.5 <= RoundUnits(y) as real <= y + 0.5
  {
    if y >= 0.0 {
      FloorBounds(y + 0.5);
    } else {
      FloorBounds(-y + 0.5);
    }
  }

  /** RoundUnits keeps integers. */
  lemma RoundUnitsExact(n: int)
    ensures RoundUnits(n as real) == n
  {
    if n >= 0 {
      FloorBounds(n as real + 0.5);
    } else {
      FloorBounds((-n) as real + 0.5);
    }
  }

  lemma RoundAtBounds(x: real, s: real)
    requires s > 0.0
    ensures WholeUnits(RoundAt(x, s), s)
    ensures x - 0.5 / s <= RoundAt(x, s) <= x + 0.5 / s
  {
    RoundUnitsBounds(x * s);
    assert RoundAt(x, s) * s == RoundUnits(x * s) as real;
    assert (RoundUnits(x * s) as real).Floor == RoundUnits(x * s);
    assert RoundAt(x, s) - x == (RoundAt(x, s) * s - x * s) / s;
  }

  lemma RoundAtExact(x: real, s: real)
    requires s > 0.0
    requires WholeUnits(x, s)
    ensures RoundAt(x, s) == x
  {
    RoundUnitsExact((x * s).Floor);
  }

  /** The rounded value has the requested scale and lies within half a unit
      in the last place of the exact value. */
  lemma RoundHalfUpBounds(x: real, places: nat)
    ensures HasScale(RoundHalfUp(x, places), places)
    ensures x - 0.5 / Scale(places) <= RoundHalfUp(x, places) <= x + 0.5 / Scale(places)
  {
    RoundAtBounds(x, Scale(places));
  }

  /** Rounding an already-rounded value changes nothing. */
  lemma RoundHalfUpIdempotent(x: real, places: nat)
    requires HasScale(x, places)
    ensures RoundHalfUp(x, places) == x
  {
    RoundAtExact(x, Scale(places));
  }

  /** HALF_UP is symmetric about zero. */
  lemma RoundHalfUpOdd(x: real, places: nat)
    ensures RoundHalfUp(-x, places) == -RoundHalfUp(x, places)
  {
    var s := Scale(places);
    assert -x * s == -(x * s);
  }

  /** Ties go away from zero: 0.125 -> 0.13 and -0.125 -> -0.13 at two places. */
  lemma RoundHalfUpTies()
    ensures RoundHalfUp(0.125, 2) == 0.13
    ensures RoundHalfUp(-0.125, 2) == -0.13
    ensures RoundHalfUp(0.124, 2) == 0.12
  {
    assert Scale(2) == 100.0 by { assert Pow10(2) == 100; }
  }
}
