/**
 * The sample parameters and the sample sequence shared by every `Steps`
 * sampler: the `k`-th of `n` samples is taken at `t = k / (n - 1)`
 * (src/curves/steps.rs, src/spline.rs, src/curve/curve.rs).
 */
module Sampling {

  /**
   * `self.i as f32 / (self.n - 1) as f32` for a counter `k` below `n`. The
   * case `n == 1` divides zero by zero (NaN in f32) and is excluded.
   */
  function Param(k: nat, n: nat): (t: real)
    requires k < n && n >= 2
    ensures 0.0 <= t <= 1.0
    ensures t == 0.0 <==> k == 0
    ensures t == 1.0 <==> k == n - 1
  {
    k as real / (n - 1) as real
  }

  /** A product with a positive factor is positive only if the other factor is. */
  lemma PositiveFactor(x: real, d: real)
    requires d > 0.0 && x * d > 0.0
    ensures x > 0.0
  {
  }

  /** Later samples are taken at strictly larger parameters. */
  lemma ParamIncreasing(j: nat, k: nat, n: nat)
    requires j < k < n && n >= 2
    ensures Param(j, n) < Param(k, n)
  {
    var d := (n - 1) as real;
    var gap := Param(k, n) - Param(j, n);
    assert gap * d == (k - j) as real > 0.0;
    assert gap > 0.0 by {
      PositiveFactor(gap, d);
    }
  }

  /**
   * What a fresh sampler of `n` steps over `curve` returns from its calls to
   * `next`, in order: `get(curve, k / (n - 1))` for `k = 0 .. n - 1`. `T` is
   * a point for a `Curve` and an optional point for a `Spline`.
   */
  function Samples<C, T>(curve: C, get: (C, real) -> T, n: nat): (ts: seq<T>)
    requires n != 1
    ensures |ts| == n
    ensures forall k :: 0 <= k < n ==> ts[k] == get(curve, Param(k, n))
  {
    seq(n, k requires 0 <= k < n => get(curve, Param(k, n)))
  }
}
