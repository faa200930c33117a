/**
 * Decimal rounding of exact amounts to a fixed number of places, as the
 * calculator applies it to every displayed column.
 *
 * Ties are broken towards an even last digit, the rule Python's `round`
 * applies to values that are exactly halfway. The tie rule is stated only for
 * `NearestInt`; every property proved about `RoundTo` (the half-unit error
 * bound, exactness on values already on the grid, idempotence and
 * monotonicity) holds for any round-to-nearest rule.
 */
module Rounding {

  /** 10 to the power n. */
  function Pow10(n: nat): (r: nat)
    ensures r >= 1
  {
    if n == 0 then 1 else 10 * Pow10(n - 1)
  }

  /** 10^places as a real scale factor. */
  function Scale(places: nat): (p: real)
    ensures p >= 1.0
  {
    Pow10(places) as real
  }

  /** Half a unit in the last kept place: 1/2 * 10^-places. */
  function HalfUnit(places: nat): (h: real)
    ensures h > 0.0
  {
    1.0 / (2.0 * Scale(places))
  }

  predicate IsInteger(y: real)
  {
    y.Floor as real == y
  }

  /** True when x has at most `places` decimal places. */
  predicate OnGrid(x: real, places: nat)
  {
    IsInteger(x * Scale(places))
  }

  /** The integer nearest to y, ties to the even neighbour. */
  function NearestInt(y: real): (k: int)
    ensures y - 0.5 <= k as real <= y + 0.5
    ensures k as real == y - 0.5 ==> k % 2 == 0
    ensures k as real == y + 0.5 ==> k % 2 == 0
  {
    if y - y.Floor as real > 0.5 then y.Floor + 1
    else if y - y.Floor as real < 0.5 then y.Floor
    else if y.Floor % 2 == 0 then y.Floor
    else y.Floor + 1
  }

  /** x rounded to `places` decimal places: move the decimal point one place to the right per
      kept place, round to the nearest integer, and move the point back. */
  function RoundTo(x: real, places: nat): (r: real)
    decreases places
    ensures -HalfUnit(places) <= r - x <= HalfUnit(places)
    ensures OnGrid(r, places)
  {
    if places == 0 then
      assert Scale(0) == 1.0;
      NearestInt(x) as real
    else
      var inner := RoundTo(x * 10.0, places - 1);
      ShiftBound(inner, x, places);
      ShiftGrid(inner, places);
      inner / 10.0
  }

  lemma ScaleStep(places: nat)
    requires places >= 1
    ensures Scale(places) == 10.0 * Scale(places - 1)
  {
  }

  /** The two scales the calculator displays with. */
  lemma ScaleValues()
    ensures Scale(1) == 10.0 && Scale(2) == 100.0
  {
  }

  /** An amount within half a unit of 10x at one place fewer is, shifted back, within half a unit of x. */
  lemma ShiftBound(inner: real, x: real, places: nat)
    requires places >= 1
    requires -HalfUnit(places - 1) <= inner - x * 10.0 <= HalfUnit(places - 1)
    ensures -HalfUnit(places) <= inner / 10.0 - x <= HalfUnit(places)
  {
    ScaleStep(places);
    var p := Scale(places - 1);
    assert HalfUnit(places) == HalfUnit(places - 1) / 10.0 by {
      assert 1.0 / (2.0 * (10.0 * p)) == (1.0 / (2.0 * p)) / 10.0;
    }
    assert inner / 10.0 - x == (inner - x * 10.0) / 10.0;
  }

  /** Shifting a grid point at one place fewer gives a grid point. */
  lemma ShiftGrid(inner: real, places: nat)
    requires places >= 1
    requires OnGrid(inner, places - 1)
    ensures OnGrid(inner / 10.0, places)
  {
    ScaleStep(places);
    SameInteger(inner * Scale(places - 1), (inner / 10.0) * Scale(places));
  }

  /** A grid point, shifted one decimal to the left, is a grid point at one place fewer. */
  lemma UnshiftGrid(x: real, places: nat)
    requires places >= 1
    requires OnGrid(x, places)
    ensures OnGrid(x * 10.0, places - 1)
  {
    ScaleStep(places);
    SameInteger(x * Scale(places), (x * 10.0) * Scale(places - 1));
  }

  lemma SameInteger(a: real, b: real)
    requires IsInteger(a) && a == b
    ensures IsInteger(b)
  {
  }

  /** Rounding leaves a value that already has `places` decimals unchanged. */
  lemma {:induction false} RoundToExact(x: real, places: nat)
    requires OnGrid(x, places)
    ensures RoundTo(x, places) == x
    decreases places
  {
    if places == 0 {
      assert Scale(0) == 1.0;
      SameInteger(x * Scale(0), x);
    } else {
      UnshiftGrid(x, places);
      RoundToExact(x * 10.0, places - 1);
      assert RoundTo(x, places) == (x * 10.0) / 10.0;
    }
  }

  /** A whole amount is kept as it is, whatever the number of places. */
  lemma WholeAmount(n: int, places: nat)
    ensures RoundTo(n as real, places) == n as real
  {
    WholeOnGrid(n, places);
    RoundToExact(n as real, places);
  }

  lemma WholeOnGrid(n: int, places: nat)
    ensures OnGrid(n as real, places)
  {
    var m := n * Pow10(places);
    assert m as real == n as real * Scale(places);
    assert (m as real).Floor == m;
    SameInteger(m as real, n as real * Scale(places));
  }

  /** Rounding twice is rounding once. */
  lemma RoundToIdempotent(x: real, places: nat)
    ensures RoundTo(RoundTo(x, places), places) == RoundTo(x, places)
  {
    RoundToExact(RoundTo(x, places), places);
  }

  /** Nearest-integer rounding is monotone. */
  lemma NearestIntMonotone(a: real, b: real)
    requires a <= b
    ensures NearestInt(a) <= NearestInt(b)
  {
    if a.Floor < b.Floor {
      assert NearestInt(a) <= a.Floor + 1 <= b.Floor <= NearestInt(b);
    }
  }

  /** Rounding is monotone: it never swaps the order of two amounts. */
  lemma {:induction false} RoundToMonotone(x: real, y: real, places: nat)
    requires x <= y
    ensures RoundTo(x, places) <= RoundTo(y, places)
    decreases places
  {
    if places == 0 {
      NearestIntMonotone(x, y);
    } else {
      RoundToMonotone(x * 10.0, y * 10.0, places - 1);
    }
  }

  /** Summing two rounded amounts drifts from the exact sum by at most one unit in the last place. */
  lemma SumOfRoundedBound(a: real, b: real, places: nat)
    ensures -2.0 * HalfUnit(places) <= RoundTo(a, places) + RoundTo(b, places) - (a + b) <= 2.0 * HalfUnit(places)
  {
  }

  /** Rounding a sum to cents and summing the two amounts rounded to cents differ by at most
      one cent. */
  lemma RoundedSumDrift(a: real, b: real)
    ensures -0.01 <= RoundTo(a + b, 2) - (RoundTo(a, 2) + RoundTo(b, 2)) <= 0.01
  {
    CentsDrift(RoundTo(a + b, 2), RoundTo(a, 2), RoundTo(b, 2), a, b);
  }

  /** Three whole-cent amounts, each within half a cent of a + b, a and b: the first is within
      one cent of the sum of the other two. */
  lemma CentsDrift(total: real, x: real, y: real, a: real, b: real)
    requires OnGrid(total, 2) && OnGrid(x, 2) && OnGrid(y, 2)
    requires -HalfUnit(2) <= total - (a + b) <= HalfUnit(2)
    requires -HalfUnit(2) <= x - a <= HalfUnit(2)
    requires -HalfUnit(2) <= y - b <= HalfUnit(2)
    ensures -0.01 <= total - (x + y) <= 0.01
  {
    ScaleValues();
    assert HalfUnit(2) == 0.005;
    var cents := WholeCents(total, x, y);
    assert -1.5 <= cents as real <= 1.5;
  }

  /** The difference between one whole-cent amount and the sum of two others is a whole number
      of cents. */
  lemma WholeCents(a: real, b: real, c: real) returns (cents: int)
    requires OnGrid(a, 2) && OnGrid(b, 2) && OnGrid(c, 2)
    ensures cents as real == (a - (b + c)) * 100.0
  {
    ScaleValues();
    SameInteger(a * Scale(2), a * 100.0);
    SameInteger(b * Scale(2), b * 100.0);
    SameInteger(c * Scale(2), c * 100.0);
    cents := (a * 100.0).Floor - (b * 100.0).Floor - (c * 100.0).Floor;
  }
}
