/** Python's built-in `round` on one argument, on exact reals: to the nearest integer,
    halves going to the even neighbour. */
module Rounding {

  /** `n` is a nearest integer to `r`, and the even one when `r` lies exactly halfway. */
  ghost predicate NearestHalfEven(r: real, n: int) {
    && -0.5 <= n as real - r <= 0.5
    && ((n as real - r == 0.5 || r - n as real == 0.5) ==> n % 2 == 0)
  }

  function RoundHalfEven(r: real): (n: int)
    ensures -0.5 <= n as real - r <= 0.5
    ensures (n as real - r == 0.5 || r - n as real == 0.5) ==> n % 2 == 0
  {
    var f := r.Floor;
    var frac := r - f as real;
    if frac < 0.5 then f
    else if frac > 0.5 then f + 1
    else if f % 2 == 0 then f
    else f + 1
  }

  /** Only one integer is nearest with halves to even, so the rounding is determined. */
  lemma RoundHalfEvenUnique(r: real, m: int)
    requires NearestHalfEven(r, m)
    ensures m == RoundHalfEven(r)
  {
  }

  /** Rounding a coordinate in [0, hi] stays in [0, hi] when hi is an integer. */
  lemma RoundStaysInRange(r: real, hi: int)
    requires 0.0 <= r <= hi as real
    ensures 0 <= RoundHalfEven(r) <= hi
  {
  }

  /** Integers round to themselves, so the (0, 0) fallback centroid stays at the origin. */
  lemma RoundIntegerIsIdentity(k: int)
    ensures RoundHalfEven(k as real) == k
  {
  }
}
