/** Money as exact decimals (`real`) and System.Math.Round(decimal, 2), which
    rounds to the nearest cent and breaks a tie towards the even cent
    (MidpointRounding.ToEven, the default when no mode is given). */
module Money {

  /** `x` is a whole number of cents. */
  predicate IsCents(x: real) {
    (x * 100.0).Floor as real == x * 100.0
  }

  /** `x` lies within half a cent of `y`. */
  predicate WithinHalfCent(x: real, y: real) {
    -0.005 <= x - y <= 0.005
  }

  /** The number of cents nearest to `x`, a tie going to the even number. */
  function RoundHalfEvenToCents(x: real): (c: int)
    ensures -0.5 <= c as real - x * 100.0 <= 0.5
    ensures (c as real - x * 100.0 == 0.5 || c as real - x * 100.0 == -0.5) ==> c % 2 == 0
  {
    var scaled := x * 100.0;
    var f := scaled.Floor;
    var frac := scaled - f as real;
    if frac < 0.5 then f
    else if frac > 0.5 then f + 1
    else if f % 2 == 0 then f
    else f + 1
  }

  /** Math.Round(x, 2) on a decimal. */
  function Round2(x: real): (r: real)
    ensures IsCents(r)
    ensures WithinHalfCent(r, x)
  {
    RoundHalfEvenToCents(x) as real / 100.0
  }

  /** The rounding is fully determined: the cent count strictly nearer than half a
      cent, or on a tie the even one of the two. */
  lemma RoundIsNearestEven(x: real, k: int)
    requires -0.5 < k as real - x * 100.0 < 0.5 ||
             ((k as real - x * 100.0 == 0.5 || k as real - x * 100.0 == -0.5) && k % 2 == 0)
    ensures RoundHalfEvenToCents(x) == k
    ensures Round2(x) == k as real / 100.0
  {
  }

  /** A tie is broken towards the even cent, not away from zero: 0.125 rounds to 0.12. */
  lemma TieGoesToEven()
    ensures Round2(0.125) == 0.12
    ensures Round2(0.135) == 0.14
    ensures Round2(-0.125) == -0.12
  {
    RoundIsNearestEven(0.125, 12);
    RoundIsNearestEven(0.135, 14);
    RoundIsNearestEven(-0.125, -12);
  }

  /** Anything more than half a cent rounds to at least a cent; exactly half a
      cent rounds to zero, the even neighbour. */
  lemma RoundPositive(x: real)
    ensures x > 0.005 ==> Round2(x) > 0.0
    ensures x == 0.005 ==> Round2(x) == 0.0
  {
    if x == 0.005 {
      RoundIsNearestEven(x, 0);
    }
  }

  /** Rounding an amount that is already whole cents leaves it unchanged. */
  lemma RoundWholeCents(x: real)
    requires IsCents(x)
    ensures Round2(x) == x
  {
    RoundIsNearestEven(x, (x * 100.0).Floor);
  }

  /** Whole cents are closed under subtraction. */
  lemma SubWholeCents(x: real, y: real)
    requires IsCents(x) && IsCents(y)
    ensures IsCents(x - y)
  {
    var kx, ky := (x * 100.0).Floor, (y * 100.0).Floor;
    assert (x - y) * 100.0 == (kx - ky) as real;
  }
}
