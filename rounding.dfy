/** `Math.round` applied to a quotient of integers, as in the average fuel
    level. */
module Rounding {

  /** `Math.round(num / den)` for `den > 0`: the integer nearest to the
      quotient, with halves rounded up (towards positive infinity). The
      result `r` satisfies r - 1/2 <= num/den < r + 1/2. */
  function RoundedQuotient(num: int, den: int): (r: int)
    requires den > 0
    ensures 2 * den * r - den <= 2 * num < 2 * den * r + den
  {
    var d := 2 * den;
    var q := (2 * num + den) / d;
    assert 2 * num + den == d * q + (2 * num + den) % d;
    assert 2 * den * q == d * q;
    q
  }

  /** Multiplying by a positive factor keeps the order. */
  lemma MulMonotone(n: int, a: int, b: int)
    requires n > 0
    ensures a <= b ==> n * a <= n * b
  {
    assert n * b - n * a == n * (b - a);
  }

  /** The bounds in the contract of RoundedQuotient pin the result down. */
  lemma RoundedQuotientUnique(num: int, den: int, r: int)
    requires den > 0
    requires 2 * den * r - den <= 2 * num < 2 * den * r + den
    ensures r == RoundedQuotient(num, den)
  {
    var q := RoundedQuotient(num, den);
    var d := 2 * den;
    assert d * (r + 1) == d * r + d && d * (q + 1) == d * q + d;
    assert 2 * den * r == d * r && 2 * den * q == d * q;
    MulMonotone(d, r + 1, q);
    MulMonotone(d, q + 1, r);
  }

  /** A quotient in [lo, hi] rounds to an integer in [lo, hi]. */
  lemma RoundedQuotientWithin(num: int, den: int, lo: int, hi: int)
    requires den > 0
    requires den * lo <= num <= den * hi
    ensures lo <= RoundedQuotient(num, den) <= hi
  {
    var r := RoundedQuotient(num, den);
    assert 2 * den * r == 2 * (den * r);
    assert den * (hi + 1) == den * hi + den && den * (r + 1) == den * r + den;
    MulMonotone(den, hi + 1, r);
    MulMonotone(den, r + 1, lo);
  }
}
