/**
 * The cubic Hermite curve with lenient evaluation and its conversion from a
 * Bezier curve (src/curves/hermite.rs).
 */
module HermiteCurve {
  import opened Vec
  import opened Cubic
  import BezierCurve

  /** Endpoints `p0`, `p1` and the tangent (velocity) vectors `v0`, `v1` at them. */
  datatype Hermite = Hermite(p0: Vec2, p1: Vec2, v0: Vec2, v1: Vec2)

  /** The factor of `t^3` in `get`: `2 p0 + v0 - 2 p1 + v1`. */
  function CubeFactor(h: Hermite): Vec2
  {
    Add(Sub(Add(ScalarMul(2.0, h.p0), h.v0), ScalarMul(2.0, h.p1)), h.v1)
  }

  /** The factor of `t^2` in `get`: `-3 p0 + 3 p1 - 2 v0 - v1`. */
  function SquareFactor(h: Hermite): Vec2
  {
    Sub(Sub(Add(ScalarMul(-3.0, h.p0), ScalarMul(3.0, h.p1)), ScalarMul(2.0, h.v0)), h.v1)
  }

  /** The four addends of `get`, in the order the source adds them. */
  function Terms(h: Hermite, t: real): seq<Vec2>
  {
    [MulScalar(CubeFactor(h), Cube(t)), MulScalar(SquareFactor(h), Sq(t)), MulScalar(h.v0, t), h.p0]
  }

  lemma TermsAtZero(h: Hermite)
    ensures Terms(h, 0.0) == [Zero, Zero, Zero, h.p0]
  {
  }

  lemma TermsAtOne(h: Hermite)
    ensures Terms(h, 1.0) == [CubeFactor(h), SquareFactor(h), h.v0, h.p0]
  {
    assert Cube(1.0) == 1.0 && Sq(1.0) == 1.0;
  }

  /** The four factors add up to the end point. */
  lemma FactorsSumToEnd(h: Hermite)
    ensures Add(Add(Add(CubeFactor(h), SquareFactor(h)), h.v0), h.p0) == h.p1
  {
  }

  /**
   * Lenient `Curve::get`: the Hermite polynomial, with the additions nested to
   * the left as Rust's `a + b + c + d` does. There is no domain check.
   */
  function Get(h: Hermite, t: real): (r: Vec2)
    ensures t == 0.0 ==> r == h.p0
    ensures t == 1.0 ==> r == h.p1
  {
    TermsAtZero(h);
    TermsAtOne(h);
    FactorsSumToEnd(h);
    var ts := Terms(h, t);
    Add(Add(Add(ts[0], ts[1]), ts[2]), ts[3])
  }

  /** The power-basis coefficients of the Hermite polynomial. */
  function PowerCoefficients(h: Hermite): Cubic
  {
    Cubic(h.p0, h.v0, SquareFactor(h), CubeFactor(h))
  }

  /** The Hermite curve is the cubic with coefficients `PowerCoefficients(h)`. */
  lemma GetInPowerBasis(h: Hermite, t: real)
    ensures Get(h, t) == Eval(PowerCoefficients(h), t)
  {
  }

  /**
   * `Hermite::from(&Bezier)`: same endpoints, tangents three times the
   * first and last control-polygon legs. The conversion keeps the polynomial.
   */
  function FromBezier(b: BezierCurve.Bezier): (h: Hermite)
    ensures h.p0 == b.p0 && h.p1 == b.p3
    ensures PowerCoefficients(h) == BezierCurve.PowerCoefficients(b)
  {
    Hermite(b.p0, b.p3, MulScalar(Sub(b.p1, b.p0), 3.0), MulScalar(Sub(b.p2, b.p3), -3.0))
  }

  /** The converted curve evaluates to the same point as the Bezier at every `t`. */
  lemma FromBezierAgrees(b: BezierCurve.Bezier, t: real)
    ensures Get(FromBezier(b), t) == BezierCurve.Get(b, t)
  {
    GetInPowerBasis(FromBezier(b), t);
    BezierCurve.GetInPowerBasis(b, t);
  }

  /** The curve used by the unit tests: p0 (0,0), p1 (4,1), v0 (1,1), v1 (1,-1). */
  function TestHermite(): Hermite
  {
    Hermite(Vec2(0.0, 0.0), Vec2(4.0, 1.0), Vec2(1.0, 1.0), Vec2(1.0, -1.0))
  }
}

/** Strict evaluation of the Hermite curve, rejecting `t` outside [0, 1] (src/hermite.rs). */
module StrictHermite {
  import opened Options
  import opened Vec
  import HermiteCurve

  /** `a + b + ... + z` nested to the left, as Rust parses a chain of `+`. */
  function SumLeft(vs: seq<Vec2>): Vec2
    requires |vs| >= 1
  {
    if |vs| == 1 then vs[0] else Add(SumLeft(vs[..|vs| - 1]), vs[|vs| - 1])
  }

  /** Peeling the first addend off a left-nested sum. */
  lemma {:induction false} SumLeftCons(vs: seq<Vec2>)
    requires |vs| >= 2
    ensures SumLeft(vs) == Add(vs[0], SumLeft(vs[1..]))
  {
    var m := |vs| - 1;
    if |vs| > 2 {
      SumLeftCons(vs[..m]);
      assert vs[..m][1..] == vs[1..][..m - 1];
      assert vs[..m][0] == vs[0];
      assert vs[1..][m - 1] == vs[m];
    } else {
      assert vs[1..] == [vs[1]];
    }
  }

  /**
   * The `sum!` macro: `a + (b + (c + ... z))`, nested to the right. It is
   * the same vector as the left-nested sum.
   */
  function SumRight(vs: seq<Vec2>): (r: Vec2)
    requires |vs| >= 1
    ensures r == SumLeft(vs)
  {
    if |vs| == 1 then vs[0]
    else
      SumLeftCons(vs);
      Add(vs[0], SumRight(vs[1..]))
  }

  /** The lenient evaluation is the left-nested sum of the four addends. */
  lemma LenientIsLeftSum(h: HermiteCurve.Hermite, t: real)
    ensures HermiteCurve.Get(h, t) == SumLeft(HermiteCurve.Terms(h, t))
  {
    var ts := HermiteCurve.Terms(h, t);
    assert SumLeft(ts[..1]) == ts[0];
    assert ts[..2][..1] == ts[..1];
    assert SumLeft(ts[..2]) == Add(ts[0], ts[1]);
    assert ts[..3][..2] == ts[..2];
    assert SumLeft(ts[..3]) == Add(Add(ts[0], ts[1]), ts[2]);
    assert ts[..4] == ts;
  }

  /**
   * `Spline::get`: `None` when `t < 0` or `t > 1`, otherwise the Hermite
   * polynomial summed with `sum!`.
   */
  function Get(h: HermiteCurve.Hermite, t: real): (r: Option<Vec2>)
    ensures r.None? <==> (t < 0.0 || t > 1.0)
    ensures r.Some? ==> r.value == HermiteCurve.Get(h, t)
  {
    if t < 0.0 || t > 1.0 then None
    else
      LenientIsLeftSum(h, t);
      Some(SumRight(HermiteCurve.Terms(h, t)))
  }

  /** `Spline::p0`: the start point, where the curve is at `t = 0`. */
  function P0(h: HermiteCurve.Hermite): (r: Vec2)
    ensures Get(h, 0.0) == Some(r)
  {
    h.p0
  }

  /** `Spline::p1`: the end point, where the curve is at `t = 1`. */
  function P1(h: HermiteCurve.Hermite): (r: Vec2)
    ensures Get(h, 1.0) == Some(r)
  {
    h.p1
  }

  /** The endpoints the unit tests of src/hermite.rs compare on the test curve. */
  lemma TestHermiteEndpoints()
    ensures Get(HermiteCurve.TestHermite(), 0.0) == Some(Vec2(0.0, 0.0))
    ensures Get(HermiteCurve.TestHermite(), 1.0) == Some(Vec2(4.0, 1.0))
  {
    var h := HermiteCurve.TestHermite();
    var start, end := P0(h), P1(h);
    assert start == Vec2(0.0, 0.0) && end == Vec2(4.0, 1.0);
  }

  /** The parameters just outside [0, 1] that the unit tests try are rejected, on any curve. */
  lemma RejectsTestParameters(h: HermiteCurve.Hermite)
    ensures Get(h, -0.001) == None
    ensures Get(h, 1.001) == None
  {
  }
}
