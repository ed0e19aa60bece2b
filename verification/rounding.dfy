/**
 * Rounding a decimal to four fractional digits with
 * midpoints going to the even neighbour (MidpointRounding.ToEven, the default).
 * Decimals are modelled as exact reals.
 */
module Rounding {

  /** 10^4: four fractional digits. */
  const Scale: real := 10000.0

  /** `k` is the integer nearest to `y`, and when `y` lies exactly halfway, the even one. */
  ghost predicate IsNearestEven(y: real, k: int) {
    var e := k as real - y;
    (-0.5 < e < 0.5) || ((e == 0.5 || e == -0.5) && k % 2 == 0)
  }

  /** Banker's rounding of `y` to an integer. */
  function RoundHalfEven(y: real): (k: int)
    ensures IsNearestEven(y, k)
  {
    var f := y.Floor;
    var d := y - f as real;
    if d < 0.5 then f
    else if d > 0.5 then f + 1
    else if f % 2 == 0 then f
    else f + 1
  }

  /** There is only one nearest-even integer, so `RoundHalfEven` is the reference rounding. */
  lemma NearestEvenIsUnique(y: real, k: int)
    requires IsNearestEven(y, k)
    ensures k == RoundHalfEven(y)
  {
    // Two integers within 1/2 of y are equal unless both lie exactly 1/2 away,
    // and then they are neighbours and cannot both be even.
  }

  /** The rate as displayed: rounded half-even to four fractional digits. */
  function Round4(x: real): (r: real)
    ensures (r * Scale).Floor as real == r * Scale
    ensures -0.00005 <= r - x <= 0.00005
    ensures IsNearestEven(x * Scale, (r * Scale).Floor)
  {
    RoundHalfEven(x * Scale) as real / Scale
  }

  /** A value that already has at most four fractional digits is returned unchanged. */
  lemma {:induction false} Round4KeepsFourDigits(x: real)
    requires (x * Scale).Floor as real == x * Scale
    ensures Round4(x) == x
  {
    var k := (x * Scale).Floor;
    assert IsNearestEven(x * Scale, k);
    NearestEvenIsUnique(x * Scale, k);
  }

  /** Rounding twice is rounding once. */
  lemma Round4Idempotent(x: real)
    ensures Round4(Round4(x)) == Round4(x)
  {
    Round4KeepsFourDigits(Round4(x));
  }

  /** Rounding to the nearest integer preserves order. */
  lemma RoundHalfEvenMonotone(x: real, y: real)
    requires x <= y
    ensures RoundHalfEven(x) <= RoundHalfEven(y)
  {
    var kx, ky := RoundHalfEven(x), RoundHalfEven(y);
    if x == y {
    } else if kx > ky {
      // kx - ky < 1 + (x - y) < 1 for integers: impossible.
      assert false;
    }
  }

  /** Rounding to four digits preserves order: a larger rate never displays smaller. */
  lemma Round4Monotone(x: real, y: real)
    requires x <= y
    ensures Round4(x) <= Round4(y)
  {
    RoundHalfEvenMonotone(x * Scale, y * Scale);
  }

  /** The rate from the handler's rounding test: 0.7912345678 displays as 0.7912. */
  lemma Round4Example()
    ensures Round4(0.7912345678) == 0.7912
    ensures Round4(83.1234) == 83.1234
    ensures Round4(0.79) == 0.79
  {
    assert (0.7912345678 * Scale).Floor == 7912;
    assert (83.1234 * Scale).Floor == 831234;
    assert (0.79 * Scale).Floor == 7900;
  }

  /** Midpoints go to the even neighbour, in both directions. */
  lemma Round4MidpointExamples()
    ensures Round4(0.00005) == 0.0
    ensures Round4(0.00015) == 0.0002
    ensures Round4(-0.00005) == 0.0
  {
    assert (0.00005 * Scale).Floor == 0;
    assert (0.00015 * Scale).Floor == 1;
    assert (-0.00005 * Scale).Floor == -1;
  }
}
