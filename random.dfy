/**
 * `Math.random()` as an injected value. A draw is a fraction `num / den` in
 * [0, 1); `Math.floor(Math.random() * k)` is then `num * k / den`.
 */
module Random {

  datatype Fraction = Fraction(num: nat, den: nat)

  /** A value `Math.random()` may return: at least 0 and below 1. */
  type Draw = f: Fraction | f.num < f.den witness Fraction(0, 1)

  /** `Math.floor(r * k)`: an integer in [0, k). */
  function FloorScaled(r: Draw, k: nat): (v: nat)
    requires k > 0
    ensures v < k
  {
    FloorScaledBound(r.num, r.den, k);
    r.num * k / r.den
  }

  lemma FloorScaledBound(n: nat, d: nat, k: nat)
    requires n < d && k > 0
    ensures n * k / d < k
  {
    var q := n * k / d;
    assert d * q <= n * k;
    assert n * k < d * k by {
      assert (d - n) * k > 0;
    }
    assert d * (k - q) > 0;
  }

  /** Every integer in [0, k) is `Math.floor(r * k)` for some draw r: the bound is exact. */
  lemma FloorScaledAttains(v: nat, k: nat)
    requires v < k
    ensures FloorScaled(Fraction(v, k), k) == v
  {
    var q := v * k / k;
    var r := v * k % k;
    assert q * k + r == v * k;
    MulCancel(v - q, k, r);
  }

  lemma MulCancel(a: int, k: int, r: int)
    requires k > 0 && 0 <= r < k && a * k == r
    ensures a == 0
  {
    MulMonotone(a, k);
    MulMonotone(-a, k);
  }

  lemma MulMonotone(a: int, k: int)
    requires k > 0
    ensures a >= 1 ==> a * k >= k
  {
    if a >= 1 {
      assert a * k == k + (a - 1) * k;
    }
  }
}
