/** Python's `round(x, places)`. The source rounds every reported score, to
    3 places for case studies and to 4 for resource rows; the model rounds
    the exact real value to the nearest multiple of 10^-places, ties to even.
    The lemmas are stated for those two precisions. */
module Rounding {

  function Pow10(n: nat): (r: nat)
    ensures r >= 1
  {
    if n == 0 then 1 else 10 * Pow10(n - 1)
  }

  /** One unit of the last kept place is 1 / Scale(places). */
  function Scale(places: nat): (p: real)
    ensures p >= 1.0
  {
    Pow10(places) as real
  }

  /** The precisions the source rounds to. */
  predicate SourcePrecision(places: nat) {
    places == 3 || places == 4
  }

  /** The integer nearest to y; a tie goes to the even neighbour. */
  function RoundHalfEven(y: real): int {
    var n := y.Floor;
    var frac := y - n as real;
    if frac > 0.5 then n + 1
    else if frac < 0.5 then n
    else if n % 2 == 0 then n
    else n + 1
  }

  /** `round(x, places)`. */
  function Round(x: real, places: nat): real {
    RoundHalfEven(x * Scale(places)) as real / Scale(places)
  }

  lemma ScaleOf(places: nat)
    requires SourcePrecision(places)
    ensures Scale(places) == if places == 3 then 1000.0 else 10000.0
  {
    assert Pow10(1) == 10 && Pow10(2) == 100 && Pow10(3) == 1000;
  }

  /** RoundHalfEven(y) is an integer nearest to y, and the even one on a tie. */
  lemma RoundHalfEvenNearest(y: real)
    ensures -0.5 <= y - RoundHalfEven(y) as real <= 0.5
    ensures (y - RoundHalfEven(y) as real == 0.5 || y - RoundHalfEven(y) as real == -0.5) ==> RoundHalfEven(y) % 2 == 0
  {
  }

  lemma RoundHalfEvenMonotone(y: real, z: real)
    requires y <= z
    ensures RoundHalfEven(y) <= RoundHalfEven(z)
  {
    var ny, nz := y.Floor, z.Floor;
    if ny == nz {
      assert y - ny as real <= z - nz as real;
    } else {
      assert ny < nz;
    }
  }

  /** The rounded value is within half a unit of the last kept place. */
  lemma RoundNear(x: real, places: nat)
    requires SourcePrecision(places)
    ensures -0.5 / Scale(places) <= x - Round(x, places) <= 0.5 / Scale(places)
  {
    ScaleOf(places);
    RoundHalfEvenNearest(x * Scale(places));
  }

  /** Rounding never reverses the order of two values. */
  lemma RoundMonotone(x: real, y: real, places: nat)
    requires SourcePrecision(places)
    requires x <= y
    ensures Round(x, places) <= Round(y, places)
  {
    ScaleOf(places);
    RoundHalfEvenMonotone(x * Scale(places), y * Scale(places));
  }

  /** Rounding a rounded value again changes nothing. */
  lemma RoundIdempotent(x: real, places: nat)
    requires SourcePrecision(places)
    ensures Round(Round(x, places), places) == Round(x, places)
  {
    ScaleOf(places);
    var m := RoundHalfEven(x * Scale(places));
    assert RoundHalfEven(m as real) == m;
  }

  lemma RoundOfInt(n: int, places: nat)
    requires SourcePrecision(places)
    ensures Round(n as real, places) == n as real
  {
    ScaleOf(places);
    if places == 3 {
      assert RoundHalfEven((n * 1000) as real) == n * 1000;
    } else {
      assert RoundHalfEven((n * 10000) as real) == n * 10000;
    }
  }

  /** A value in [0, 1] is still in [0, 1] after rounding. */
  lemma RoundUnitRange(x: real, places: nat)
    requires SourcePrecision(places)
    requires 0.0 <= x <= 1.0
    ensures 0.0 <= Round(x, places) <= 1.0
  {
    RoundOfInt(0, places);
    RoundOfInt(1, places);
    RoundMonotone(0.0, x, places);
    RoundMonotone(x, 1.0, places);
  }
}
