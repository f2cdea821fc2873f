/** Rounding a score to two decimal places, as formatting it with two
    fractional digits and reading the text back does: the magnitude is rounded
    to the nearest hundredth, a tie going to the larger magnitude, and the sign
    is put back in front. Arithmetic is on exact reals. */
module Rounding {

  /** `x` lies on the grid of hundredths. */
  predicate OnCentGrid(x: real) {
    (x * 100.0).Floor as real == x * 100.0
  }

  /** The value of `n` hundredths. */
  function Hundredths(n: int): (r: real)
    ensures r * 100.0 == n as real
    ensures OnCentGrid(r)
  {
    n as real / 100.0
  }

  /** The number of hundredths nearest to a non-negative `x`, a tie going up. */
  function NearestCents(x: real): (n: int)
    requires x >= 0.0
    ensures n >= 0
    ensures x * 100.0 - 0.5 < n as real <= x * 100.0 + 0.5
  {
    (x * 100.0 + 0.5).Floor
  }

  /** `x` rounded to two decimal places: the magnitude goes to the nearest
      hundredth, a tie going away from zero, and the sign is kept. */
  function Round2(x: real): (r: real)
    ensures OnCentGrid(r)
    ensures x - 0.005 <= r <= x + 0.005
    ensures (x >= 0.0 ==> r >= 0.0) && (x <= 0.0 ==> r <= 0.0)
    ensures x >= 0.0 ==> x * 100.0 - 0.5 < r * 100.0 <= x * 100.0 + 0.5
    ensures x < 0.0 ==> x * 100.0 - 0.5 <= r * 100.0 < x * 100.0 + 0.5
  {
    if x < 0.0 then Hundredths(-NearestCents(-x)) else Hundredths(NearestCents(x))
  }

  /** A value already on the grid of hundredths is left as it is. */
  lemma Round2Exact(x: real)
    requires OnCentGrid(x)
    ensures Round2(x) == x
  {
    var r := Round2(x);
    var n := (x * 100.0).Floor;
    var m := (r * 100.0).Floor;
    assert x * 100.0 == n as real && r * 100.0 == m as real;
    assert m as real - 0.5 <= n as real <= m as real + 0.5;
    assert m == n;
  }

  /** Whole numbers are left as they are. */
  lemma Round2Integer(k: int)
    ensures Round2(k as real) == k as real
  {
    assert (k as real) * 100.0 == (k * 100) as real;
    Round2Exact(k as real);
  }

  /** Rounding never reverses the order of two values. */
  lemma Round2Monotone(x: real, y: real)
    requires x <= y
    ensures Round2(x) <= Round2(y)
  {
    if 0.0 <= x {
      assert NearestCents(x) <= NearestCents(y);
    } else if y < 0.0 {
      assert NearestCents(-y) <= NearestCents(-x);
    }
  }

  /** Ties go away from zero: 0.125 becomes 0.13 and -0.125 becomes -0.13. */
  lemma Round2Ties()
    ensures Round2(0.125) == 0.13
    ensures Round2(-0.125) == -0.13
  {
    assert NearestCents(0.125) == 13;
  }

  /** Two values at least a hundredth apart stay strictly ordered after rounding. */
  lemma Round2Separates(x: real, y: real)
    requires x + 0.01 <= y
    ensures Round2(x) < Round2(y)
  {
  }
}
