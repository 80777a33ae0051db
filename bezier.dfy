/**
 * A cubic polynomial curve in the power basis, `c0 + c1 t + c2 t^2 + c3 t^3`.
 * It is the reference both curve representations are compared against.
 */
module Cubic {
  import opened Vec

  datatype Cubic = Cubic(c0: Vec2, c1: Vec2, c2: Vec2, c3: Vec2)

  /** One component of the cubic: `k0 + k1 t + k2 t^2 + k3 t^3`. */
  function Power(k0: real, k1: real, k2: real, k3: real, t: real): real
  {
    k0 + k1 * t + k2 * Sq(t) + k3 * Cube(t)
  }

  function Eval(c: Cubic, t: real): Vec2
  {
    Vec2(Power(c.c0.x, c.c1.x, c.c2.x, c.c3.x, t), Power(c.c0.y, c.c1.y, c.c2.y, c.c3.y, t))
  }
}

/** The cubic Bezier curve (src/curves/bezier.rs). */
module BezierCurve {
  import opened Vec
  import opened Cubic

  /** `p0` and `p3` are the endpoints, `p1` and `p2` the off-curve control points. */
  datatype Bezier = Bezier(p0: Vec2, p1: Vec2, p2: Vec2, p3: Vec2)

  /**
   * `Curve::get`: the Bernstein blend of the four control points, evaluated as
   * the source writes it. There is no domain check; any `t` extrapolates.
   */
  function Get(b: Bezier, t: real): (r: Vec2)
    ensures t == 0.0 ==> r == b.p0
    ensures t == 1.0 ==> r == b.p3
  {
    Add(Add(Add(ScalarMul(Cube(1.0 - t), b.p0),
                ScalarMul(3.0 * Sq(1.0 - t) * t, b.p1)),
            ScalarMul(3.0 * (1.0 - t) * Sq(t), b.p2)),
        ScalarMul(Cube(t), b.p3))
  }

  /** The power-basis coefficients of the Bezier polynomial. */
  function PowerCoefficients(b: Bezier): Cubic
  {
    Cubic(b.p0,
          ScalarMul(3.0, Sub(b.p1, b.p0)),
          ScalarMul(3.0, Add(Sub(b.p0, ScalarMul(2.0, b.p1)), b.p2)),
          Add(Sub(b.p3, b.p0), ScalarMul(3.0, Sub(b.p1, b.p2))))
  }

  /** One component of the Bernstein blend. */
  function Blend(a0: real, a1: real, a2: real, a3: real, t: real): real
  {
    Cube(1.0 - t) * a0 + 3.0 * Sq(1.0 - t) * t * a1 + 3.0 * (1.0 - t) * Sq(t) * a2 + Cube(t) * a3
  }

  /** Each component of `get(t)` is the blend of the same component of the control points. */
  lemma GetComponentwise(b: Bezier, t: real)
    ensures Get(b, t).x == Blend(b.p0.x, b.p1.x, b.p2.x, b.p3.x, t)
    ensures Get(b, t).y == Blend(b.p0.y, b.p1.y, b.p2.y, b.p3.y, t)
  {
    var w0, w1, w2, w3 := Cube(1.0 - t), 3.0 * Sq(1.0 - t) * t, 3.0 * (1.0 - t) * Sq(t), Cube(t);
    assert Get(b, t) == Vec2(w0 * b.p0.x + w1 * b.p1.x + w2 * b.p2.x + w3 * b.p3.x,
                             w0 * b.p0.y + w1 * b.p1.y + w2 * b.p2.y + w3 * b.p3.y);
  }

  /** One component of the Bernstein blend, rewritten in the power basis. */
  lemma BlendInPowerBasis(a0: real, a1: real, a2: real, a3: real, t: real, k1: real, k2: real, k3: real)
    requires k1 == 3.0 * (a1 - a0)
    requires k2 == 3.0 * (a0 - 2.0 * a1 + a2)
    requires k3 == a3 - a0 + 3.0 * (a1 - a2)
    ensures Blend(a0, a1, a2, a3, t) == Power(a0, k1, k2, k3, t)
  {
    assert Cube(1.0 - t) == 1.0 - 3.0 * t + 3.0 * Sq(t) - Cube(t);
    assert Sq(1.0 - t) * t == t - 2.0 * Sq(t) + Cube(t);
    assert (1.0 - t) * Sq(t) == Sq(t) - Cube(t);
  }

  /** The power-basis coefficients, component by component. */
  lemma PowerCoefficientsComponents(b: Bezier)
    ensures PowerCoefficients(b).c1 == Vec2(3.0 * (b.p1.x - b.p0.x), 3.0 * (b.p1.y - b.p0.y))
    ensures PowerCoefficients(b).c2
         == Vec2(3.0 * (b.p0.x - 2.0 * b.p1.x + b.p2.x), 3.0 * (b.p0.y - 2.0 * b.p1.y + b.p2.y))
    ensures PowerCoefficients(b).c3
         == Vec2(b.p3.x - b.p0.x + 3.0 * (b.p1.x - b.p2.x), b.p3.y - b.p0.y + 3.0 * (b.p1.y - b.p2.y))
  {
  }

  lemma GetInPowerBasisX(b: Bezier, t: real)
    ensures Get(b, t).x == Eval(PowerCoefficients(b), t).x
  {
    var c := PowerCoefficients(b);
    PowerCoefficientsComponents(b);
    GetComponentwise(b, t);
    BlendInPowerBasis(b.p0.x, b.p1.x, b.p2.x, b.p3.x, t, c.c1.x, c.c2.x, c.c3.x);
  }

  lemma GetInPowerBasisY(b: Bezier, t: real)
    ensures Get(b, t).y == Eval(PowerCoefficients(b), t).y
  {
    var c := PowerCoefficients(b);
    PowerCoefficientsComponents(b);
    GetComponentwise(b, t);
    BlendInPowerBasis(b.p0.y, b.p1.y, b.p2.y, b.p3.y, t, c.c1.y, c.c2.y, c.c3.y);
  }

  /** The Bezier curve is the cubic with coefficients `PowerCoefficients(b)`. */
  lemma GetInPowerBasis(b: Bezier, t: real)
    ensures Get(b, t) == Eval(PowerCoefficients(b), t)
  {
    GetInPowerBasisX(b, t);
    GetInPowerBasisY(b, t);
  }

  /** The curve used by the unit tests: (1,1), (5,4), (3,5.5), (4,1). */
  function TestBezier(): Bezier
  {
    Bezier(Vec2(1.0, 1.0), Vec2(5.0, 4.0), Vec2(3.0, 5.5), Vec2(4.0, 1.0))
  }

  lemma TestBezierEndpoints()
    ensures Get(TestBezier(), 0.0) == Vec2(1.0, 1.0)
    ensures Get(TestBezier(), 1.0) == Vec2(4.0, 1.0)
  {
  }
}
