/**
 * Python's `round(x, 2)`: the nearest multiple of 0.01, ties to the even
 * multiple, taken here on the exact real value of `x`.
 */
module Rounding {

  /** A whole number of hundredths. */
  predicate IsCents(x: real) {
    (x * 100.0).Floor as real == x * 100.0
  }

  function Round2(x: real): (r: real)
    ensures IsCents(r)
    ensures x - 0.005 <= r <= x + 0.005
    ensures x >= 0.0 ==> r >= 0.0
  {
    var scaled := x * 100.0;
    var whole := scaled.Floor;
    var fraction := scaled - whole as real;
    var cents :=
      if fraction > 0.5 then whole + 1
      else if fraction < 0.5 then whole
      else if whole % 2 == 0 then whole
      else whole + 1;
    assert (cents as real / 100.0) * 100.0 == cents as real;
    cents as real / 100.0
  }

  /** An amount already in whole hundredths is left as it is. */
  lemma Round2OfCents(x: real)
    requires IsCents(x)
    ensures Round2(x) == x
  {
    var scaled := x * 100.0;
    assert scaled.Floor as real == scaled;
    assert (scaled.Floor as real) / 100.0 == x;
  }

  function Abs(x: real): real {
    if x < 0.0 then -x else x
  }

  /** No multiple of 0.01 is nearer to `x` than `Round2(x)`. */
  lemma Round2Nearest(x: real, c: int)
    ensures Abs(Round2(x) - x) <= Abs(c as real / 100.0 - x)
  {
    var scaled := x * 100.0;
    var whole := scaled.Floor;
    var r := Round2(x);
    var cents := (r * 100.0).Floor;
    assert r * 100.0 == cents as real;
    assert cents == whole || cents == whole + 1;
    assert cents == whole ==> scaled - whole as real <= 0.5;
    assert cents == whole + 1 ==> scaled - whole as real >= 0.5;
    assert c <= whole || c >= whole + 1;
    assert Abs(r - x) * 100.0 == Abs(cents as real - scaled);
    assert Abs(c as real / 100.0 - x) * 100.0 == Abs(c as real - scaled);
  }

  /** Halfway between two multiples of 0.01, the even multiple wins. */
  lemma Round2Ties(x: real)
    requires x * 100.0 - (x * 100.0).Floor as real == 0.5
    ensures var cents := Round2(x) * 100.0;
            cents.Floor as real == cents && cents.Floor % 2 == 0
    ensures Round2(x) == x - 0.005 || Round2(x) == x + 0.005
  {
    var scaled := x * 100.0;
    var whole := scaled.Floor;
    var c := if whole % 2 == 0 then whole else whole + 1;
    assert Round2(x) == c as real / 100.0;
    assert (c as real / 100.0) * 100.0 == c as real;
  }

  /** Ties to even, in both directions and for negative amounts. */
  lemma Round2HalfEvenExamples()
    ensures Round2(0.125) == 0.12
    ensures Round2(0.135) == 0.14
    ensures Round2(-0.125) == -0.12
  {
    assert (0.125 * 100.0).Floor == 12;
    assert (0.135 * 100.0).Floor == 13;
    assert (-0.125 * 100.0).Floor == -13;
  }

  /** Rounding keeps the order of its arguments. */
  lemma Round2Monotone(x: real, y: real)
    requires x <= y
    ensures Round2(x) <= Round2(y)
  {
    var sx, sy := x * 100.0, y * 100.0;
    assert sx <= sy;
    assert sx.Floor <= sy.Floor;
  }
}
