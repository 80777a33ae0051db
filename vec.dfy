/** Values shared by every module: the optional result of a fallible operation. */
module Options {
  datatype Option<T> = None | Some(value: T)
}

/**
 * The 2D vector value type and its operators (src/vec.rs). Components are
 * modelled as reals; every operator builds a new value from its operands.
 */
module Vec {

  datatype Vec2 = Vec2(x: real, y: real)

  const Zero: Vec2 := Vec2(0.0, 0.0)

  /** `x.powi(2)` and `x.powi(3)` over the reals. */
  function Sq(x: real): real { x * x }
  function Cube(x: real): real { x * x * x }

  /** `-v`: the additive inverse of `v`. */
  function Neg(v: Vec2): (r: Vec2)
    ensures Add(v, r) == Zero
  {
    Vec2(-v.x, -v.y)
  }

  /** `v + n` for a scalar `n`: the same as adding the vector `(n, n)`. */
  function AddScalar(v: Vec2, n: real): (r: Vec2)
    ensures r == Add(v, Vec2(n, n))
    ensures n == 0.0 <==> r == v
  {
    Vec2(v.x + n, v.y + n)
  }

  /** `v - n` for a scalar `n`: undone by adding `n` back. */
  function SubScalar(v: Vec2, n: real): (r: Vec2)
    ensures AddScalar(r, n) == v
  {
    Vec2(v.x - n, v.y - n)
  }

  /** `v * n` for a scalar `n`: 1 keeps `v`, 0 gives `Zero`. */
  function MulScalar(v: Vec2, n: real): (r: Vec2)
    ensures n == 1.0 ==> r == v
    ensures n == 0.0 ==> r == Zero
  {
    Vec2(v.x * n, v.y * n)
  }

  /** `v / n` for a nonzero scalar `n`: undone by multiplying by `n`. */
  function DivScalar(v: Vec2, n: real): (r: Vec2)
    requires n != 0.0
    ensures MulScalar(r, n) == v
  {
    Vec2(v.x / n, v.y / n)
  }

  /** `n + v`, the scalar on the left: the same vector as `v + n`. */
  function ScalarAdd(n: real, v: Vec2): (r: Vec2)
    ensures r == AddScalar(v, n)
  {
    Vec2(n + v.x, n + v.y)
  }

  /** `n * v`, the scalar on the left: the same vector as `v * n`. */
  function ScalarMul(n: real, v: Vec2): (r: Vec2)
    ensures r == MulScalar(v, n)
  {
    Vec2(n * v.x, n * v.y)
  }

  /** `u + v`, component-wise: subtracting `v` from each component gives back `u`. */
  function Add(u: Vec2, v: Vec2): (r: Vec2)
    ensures r.x - v.x == u.x && r.y - v.y == u.y
  {
    Vec2(u.x + v.x, u.y + v.y)
  }

  /** `u - v`, component-wise: undone by adding `v` back. */
  function Sub(u: Vec2, v: Vec2): (r: Vec2)
    ensures Add(r, v) == u
  {
    Vec2(u.x - v.x, u.y - v.y)
  }

  /** `r` is the Euclidean norm `sqrt(x^2 + y^2)` of `v`. */
  ghost predicate IsNorm(v: Vec2, r: real)
  {
    r >= 0.0 && r * r == v.x * v.x + v.y * v.y
  }

  /** `norm` computes the Euclidean norm of every vector. */
  ghost predicate IsEuclideanNorm(norm: Vec2 -> real)
  {
    forall v :: IsNorm(v, norm(v))
  }

  lemma NegFlipsSign(v: Vec2)
    ensures Neg(v) == ScalarMul(-1.0, v)
    ensures Neg(Neg(v)) == v
  {
  }

  lemma ScalarShiftInverse(v: Vec2, n: real)
    ensures SubScalar(AddScalar(v, n), n) == v
    ensures AddScalar(v, n).x - v.x == n && AddScalar(v, n).y - v.y == n
  {
  }

  lemma ScaleDivInverse(v: Vec2, n: real)
    requires n != 0.0
    ensures DivScalar(MulScalar(v, n), n) == v
    ensures MulScalar(v, n) == ScalarMul(n, v)
  {
  }

  lemma AddSubComponentwise(u: Vec2, v: Vec2)
    ensures Sub(Add(u, v), v) == u
    ensures Add(u, v) == Add(v, u)
    ensures Sub(u, v) == Add(u, Neg(v))
  {
  }

  /** The values the unit tests of src/vec.rs compare. */
  lemma OperatorExamples()
    ensures AddScalar(Vec2(1.0, 4.0), 3.0) == Vec2(4.0, 7.0)
    ensures SubScalar(Vec2(6.0, 4.0), 3.0) == Vec2(3.0, 1.0)
    ensures MulScalar(Vec2(3.0, 2.0), 2.0) == Vec2(6.0, 4.0)
    ensures DivScalar(Vec2(8.0, 6.0), 2.0) == Vec2(4.0, 3.0)
    ensures Add(Vec2(1.0, 4.0), Vec2(6.0, 2.0)) == Vec2(7.0, 6.0)
    ensures Sub(Vec2(6.0, 4.0), Vec2(4.0, 2.0)) == Vec2(2.0, 2.0)
  {
  }

  /** Squaring is strictly increasing on the nonnegative reals. */
  lemma SquareStrictlyIncreasing(a: real, b: real)
    requires 0.0 <= a < b
    ensures a * a < b * b
  {
    calc {
      a * a;
    <= a * b;
    < b * b;
    }
  }

  /** Only zero squares to zero. */
  lemma SquareZero(a: real)
    ensures a * a == 0.0 <==> a == 0.0
  {
    if a > 0.0 {
      SquareStrictlyIncreasing(0.0, a);
    } else if a < 0.0 {
      SquareStrictlyIncreasing(0.0, -a);
      assert (-a) * (-a) == a * a;
    }
  }

  /** The norm is determined by the vector: at most one nonnegative square root. */
  lemma NormUnique(v: Vec2, r: real, s: real)
    requires IsNorm(v, r) && IsNorm(v, s)
    ensures r == s
  {
    if r < s {
      SquareStrictlyIncreasing(r, s);
    } else if s < r {
      SquareStrictlyIncreasing(s, r);
    }
  }

  /** `Vec2(3, 4).norm() == 5`. */
  lemma NormOfThreeFour(r: real)
    ensures IsNorm(Vec2(3.0, 4.0), r) <==> r == 5.0
  {
    if IsNorm(Vec2(3.0, 4.0), r) {
      NormUnique(Vec2(3.0, 4.0), r, 5.0);
    }
  }

  /** The norm vanishes exactly on the zero vector. */
  lemma NormZeroIff(v: Vec2, r: real)
    requires IsNorm(v, r)
    ensures r == 0.0 <==> v == Zero
  {
    SquareZero(r);
    SquareZero(v.x);
    SquareZero(v.y);
    assert v.x * v.x >= 0.0 && v.y * v.y >= 0.0;
  }
}
