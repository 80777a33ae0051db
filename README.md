# curvegen in Dafny

A model of the curve core of `curvegen`, a small Rust library of 2D parametric
curves. It covers these parts:

- the `Vec2` value type and its operators;
- the cubic Bezier curve, evaluated as a Bernstein blend;
- the cubic Hermite curve in two variants. The lenient one extrapolates outside
  [0, 1]. The strict `Spline` one rejects such parameters with `None`;
- the conversion of a Bezier curve into a Hermite curve;
- the `Steps` samplers, which yield the curve at `t = i / (n - 1)` for
  `i = 0 .. n - 1`. The `Spline` sampler also estimates arc length.

Arithmetic is over Dafny's `real`. The f32 operations of the source become exact
operations. Curve kinds are values (`datatype`). The samplers, whose `next`
advances a counter in place, are classes whose methods change `i` under
`modifies this`. The samplers are generic over the curve kind, as the Rust
`Steps<'a, C: Curve>` and `Steps<'a, S: Spline>` are. The kind's `get` is passed
in as a function value, which plays the role of the trait bound.

Files and modules:

- `vec.dfy`:
  - `Options`: the `Option` type.
  - `Vec`: `Vec2`, its operators, and the Euclidean norm as a relation.
- `bezier.dfy`:
  - `Cubic`: the power-basis reference polynomial.
  - `BezierCurve`: the Bezier curve.
- `hermite.dfy`:
  - `HermiteCurve`: the lenient Hermite curve and `From<&Bezier>`.
  - `StrictHermite`: the `Spline` implementation with the `sum!` macro.
- `sampling.dfy`: `Sampling`, the sample parameter `i / (n - 1)` and the sequence of samples.
- `curves.dfy`: `Curves`, the `Curve` trait's implementers and the `Steps`
  sampler of src/curves/steps.rs. src/curve/curve.rs:17-39 is a second copy of
  the same `Steps::new` and `next`, with the same code, and is modelled by the
  same class.
- `spline.dfy`: `Spline`, the `Steps` sampler of src/spline.rs, its `collect`
  and `arc_len`, and the strict Hermite as its spline.

Three points where the model keeps the code's behaviour as written:

- Conversion goes one way only: `Hermite::from(&Bezier)`. There is no conversion
  from a Hermite back to a Bezier.
- `arc_len` panics through `unwrap` when the sampler yields no first point. It
  has no defined empty-input result.
- The `Spline` sampler's `collect` and `arc_len` stop at the first `None` that
  `get` returns.

## Model

| member | source | states |
|---|---|---|
| Vec.Neg | src/vec.rs:15-17 | `-v` is the additive inverse: `v + (-v)` is the zero vector |
| Vec.NegFlipsSign | src/vec.rs:15-17 | negation is multiplication by -1 in each component, and it is an involution |
| Vec.AddScalar | src/vec.rs:20-26 | `v + n` is the vector sum `v + (n, n)`, and it leaves `v` unchanged exactly when `n == 0`; with `ScalarShiftInverse`, `v + n - n == v` |
| Vec.SubScalar | src/vec.rs:28-34 | `v - n` is undone by adding `n` back |
| Vec.ScalarShiftInverse | src/vec.rs:20-26 | `v + n` shifts each component by exactly `n`, and subtracting `n` restores `v` |
| Vec.MulScalar | src/vec.rs:36-42 | `v * 1 == v` and `v * 0` is the zero vector; with `ScaleDivInverse`, `(v * n) / n == v` for `n != 0` and `v * n == n * v` |
| Vec.DivScalar | src/vec.rs:44-50 | for `n != 0`, `v / n` is the vector that `* n` maps back to `v` |
| Vec.ScaleDivInverse | src/vec.rs:36-50 | for `n != 0`, `(v * n) / n == v`, and `v * n == n * v` |
| Vec.ScalarAdd | src/vec.rs:52-58 | `n + v` is the same vector as `v + n` |
| Vec.ScalarMul | src/vec.rs:60-66 | `n * v` is the same vector as `v * n` |
| Vec.Add | src/vec.rs:68-74 | subtracting `v` from each component of `u + v` gives back `u`; with `AddSubComponentwise`, `(u + v) - v == u` and `u + v == v + u` |
| Vec.Sub | src/vec.rs:76-82 | `u - v` is the vector that adding `v` maps back to `u` |
| Vec.AddSubComponentwise | src/vec.rs:68-82 | `(u + v) - v == u`, addition commutes, and `u - v == u + (-v)` |
| Vec.OperatorExamples | src/vec.rs:93-121 | the operator results the unit tests expect: (1,4)+3, (6,4)-3, (3,2)*2, (8,6)/2, (1,4)+(6,2), (6,4)-(4,2) |
| Vec.NormUnique | src/vec.rs:7-9 | `sqrt(x^2 + y^2)` is well defined: at most one nonnegative `r` has `r^2 == x^2 + y^2` |
| Vec.NormOfThreeFour | src/vec.rs:88-91 | the norm of (3,4) is 5, and no other value is |
| Vec.NormZeroIff | src/vec.rs:7-9 | the norm is 0 exactly for the zero vector |
| BezierCurve.Get | src/curves/bezier.rs:11-16 | the Bernstein blend is total in `t`, gives `p0` at `t = 0` and `p3` at `t = 1` |
| BezierCurve.GetComponentwise | src/curves/bezier.rs:12-15 | each component of `get(t)` is the blend of that component of the four control points only |
| BezierCurve.GetInPowerBasis | src/curves/bezier.rs:11-16 | `get(t)` equals the power-basis cubic with coefficients `p0`, `3(p1-p0)`, `3(p0-2p1+p2)`, `p3-p0+3(p1-p2)` at every `t` |
| BezierCurve.TestBezierEndpoints | src/curves/bezier.rs:24-35 | the test curve (1,1),(5,4),(3,5.5),(4,1) starts at (1,1) and ends at (4,1) |
| HermiteCurve.Get | src/curves/hermite.rs:15-20 | the lenient Hermite polynomial is total in `t`, gives `p0` at `t = 0` and `p1` at `t = 1` |
| HermiteCurve.FactorsSumToEnd | src/curves/hermite.rs:16-19 | the four coefficients of the Hermite polynomial add up to `p1` |
| HermiteCurve.GetInPowerBasis | src/curves/hermite.rs:15-20 | `get(t)` equals the power-basis cubic with coefficients `p0`, `v0`, the `t^2` factor and the `t^3` factor |
| HermiteCurve.FromBezier | src/curves/hermite.rs:23-32 | the conversion keeps the endpoints (`p0`, `p3` become `p0`, `p1`) and the power-basis coefficients of the Bezier polynomial |
| HermiteCurve.FromBezierAgrees | src/curves/hermite.rs:55-87 | the converted curve evaluates to the same point as the Bezier at every `t`, not only at the six tested parameters |
| StrictHermite.SumRight | src/hermite.rs:11-15 | the right-nested `sum!` expansion equals the left-nested sum of the same addends |
| StrictHermite.LenientIsLeftSum | src/curves/hermite.rs:16-19 | the lenient `get` is the left-nested sum of the four Hermite addends |
| StrictHermite.Get | src/hermite.rs:26-37 | `None` exactly when `t < 0` or `t > 1`; otherwise `Some` of the lenient Hermite polynomial at `t` |
| StrictHermite.P0 | src/hermite.rs:18-20 | `p0()` is the point the strict `get` returns at `t = 0` |
| StrictHermite.P1 | src/hermite.rs:22-24 | `p1()` is the point the strict `get` returns at `t = 1` |
| StrictHermite.TestHermiteEndpoints | src/hermite.rs:45-67 | on the test curve, `get(0) == Some((0,0))` and `get(1) == Some((4,1))` |
| StrictHermite.RejectsTestParameters | src/hermite.rs:69-91 | `get(-0.001)` and `get(1.001)` are `None`, on any curve |
| Sampling.Param | src/curves/steps.rs:27 | for `n >= 2`, `i / (n - 1)` lies in [0, 1], is 0 exactly for the first sample and 1 exactly for the last |
| Sampling.ParamIncreasing | src/spline.rs:52 | later samples are taken at strictly larger parameters |
| Curves.Get | src/curve/curve.rs:4 | the trait's `get` is total for both curve kinds, from the start point at 0 to the end point at 1 |
| Sampling.Samples | src/curves/steps.rs:22-30 | what a fresh sampler returns: exactly `n` items, the `k`-th being `get(k / (n - 1))`; a point for a `Curve`, an option for a `Spline` |
| Curves.SamplesSpanCurve | src/curves/steps.rs:50-62 | for `n >= 2` the first item is the curve's start and the last its end |
| Curves.Steps.constructor | src/curves/steps.rs:10-16 | `Steps::new` stores the curve and `n` and starts with `i = 0` and nothing yielded |
| Curves.Steps.Next | src/curves/steps.rs:22-30 | at `i >= n`: `None`, nothing changes; otherwise `Some(get(i / (n - 1)))` and `i` goes up by exactly one; what was yielded so far is always the prefix of the samples |
| Curves.Steps.Collect | src/curves/steps.rs:37-48 | draining yields exactly the items not yet yielded, in order, and leaves `i == n` |
| Curves.StepsOf | src/curve/curve.rs:6-8 | the default `steps(n)` is a fresh `Steps::new(self, n)` with `get` the curve's own |
| Curves.CollectTestBezierSteps | src/curves/steps.rs:37-62 | `steps(10).collect()` on the test Bezier has 10 points, from (1,1) to (4,1) |
| Spline.StrictHermiteDefinedOnUnitInterval | src/hermite.rs:26-29 | the strict Hermite returns a point for every parameter the sampler produces |
| Spline.SamplePoints | src/spline.rs:47-55 | when `get` accepts all of [0, 1], the samples are `n` points |
| Spline.SamplesSpanHermite | src/hermite.rs:107-120 | for `n >= 2` the samples of a strict Hermite run from `p0()` to `p1()` |
| Spline.PolylineLengthNonNegative | src/spline.rs:31-41 | the summed Euclidean distances between consecutive points are nonnegative |
| Spline.PolylineOfSegment | src/spline.rs:36 | the length of a two-point polyline is the norm of the difference of its points |
| Spline.PolylineAppend | src/spline.rs:35-38 | one more point adds the norm of the new segment to the sum |
| Spline.UntilNone | src/spline.rs:35 | the points taken before the first `None`: all of them are points of the input, in order, and the entry after them is `None` or the end |
| Spline.UntilNoneUnique | src/spline.rs:35 | a run of points that ends at a `None` or at the end is exactly `UntilNone` |
| Spline.UntilNoneStops | src/spline.rs:33-35 | a run that halts at a `None` or at the end has taken all of `UntilNone` |
| Spline.Consumed | src/spline.rs:47-55 | how many calls to `next` a loop that stops at the first `None` makes within range: at most the length, ending at a `None` unless it reaches the end |
| Spline.WalkStep | src/spline.rs:35-38 | a walk extends by the next entry when it is a point |
| Spline.WalkEnd | src/spline.rs:35-38 | a halted walk from `v0` is `v0` followed by every point before the first `None` |
| Spline.UntilNoneOfDefinedSamples | src/hermite.rs:93-105 | when `get` accepts all of [0, 1], nothing is cut off: the points before the first `None` are all the remaining samples |
| Spline.Steps.constructor | src/spline.rs:23-29 | `Steps::new` stores the spline and `n` and starts with `i = 0` and nothing returned |
| Spline.Steps.Next | src/spline.rs:47-55 | at `i >= n`: `None`, nothing changes; otherwise `get(i / (n - 1))` as returned by the spline, `Some` or `None`, and `i` goes up by one in both cases |
| Spline.Steps.Collect | src/spline.rs:44-55 | collecting returns the points before the first `None` of the remaining samples; `i` ends just past that `None`, or at `n` |
| Spline.Steps.ArcLen | src/spline.rs:31-41 | no first point (the `unwrap` panic) exactly when no point comes before the first `None`; otherwise the polyline length through those points, nonnegative, and 0 for a single point |
| Spline.Steps.Segments | src/spline.rs:35-38 | the `while let` loop adds the distance from `v0` through every following point before the first `None` |
| Spline.StepsOf | src/spline.rs:11-13 | the default `steps(n)` is a fresh `Steps::new(self, n)` with the strict Hermite's `get` |
| Spline.TestHermiteSampleEnds | src/hermite.rs:107-120 | ten samples of the test Hermite start at (0,0) and end at (4,1) |
| Spline.CollectHermiteSteps | src/hermite.rs:93-120 | `h.steps(n).collect()` for `n >= 2` gives all `n` samples, from `p0()` to `p1()` |
| Spline.CollectTestHermiteSteps | src/hermite.rs:93-120 | `steps(10).collect()` on the test Hermite has 10 points, from (0,0) to (4,1) |

## Left out

- f32 rounding is not modelled. All arithmetic is exact over the reals. The `assert_ulps_eq!` comparisons of src/curves/hermite.rs:81-86 become exact equalities, and they are proved for every `t`.
- `Vec2::norm` computes `sqrt`, which Dafny's reals lack. The norm is the relation `IsNorm(v, r)`, meaning `r >= 0 && r * r == x * x + y * y`. `arc_len` takes the norm as a function that satisfies this relation for every vector.
- Spline.Steps.ArcLen: returns `Option<real>`. `None` stands for the panic of `unwrap`, so the panic is not modelled as an abort.
- Curves.Steps.Next: requires `n != 1`. With `n == 1` the source computes `0.0 / 0.0`, which is NaN in f32, and the model has no NaN. The same holds for `Collect`, for the `Spline` sampler and for `Samples`.
- Spline.Steps.Next: requires `n != 1`, for the same NaN reason.
- Vec.DivScalar: requires a nonzero divisor. f32 division by zero gives an infinity or NaN, which the reals have no value for.
- The `u32` counters are natural numbers. `i` stays at most `n`, so the source's `i += 1` cannot overflow.
- `glam::Vec2`, used by src/curves/hermite.rs and src/curves/curve.rs, is unified with `crate::vec::Vec2` into one `Vec2`. The `Hermite` structs of src/hermite.rs and src/curves/hermite.rs are one datatype, evaluated leniently by `HermiteCurve.Get` and strictly by `StrictHermite.Get`.
- A Hermite-to-Bezier conversion is not part of this model. The source has none; only `From<&Bezier> for Hermite` exists.
- Lifetimes and borrowing (`&'a C`) are not modelled. The sampler holds the curve value.
- The `Curve` and `Spline` traits are not modelled as traits. The curve kind is a type parameter, and its `get` is a function value.
- `Steps::arc_len` is split into `ArcLen`, which covers the first `next().unwrap()`, and `Segments`, which covers the `while let` loop. Together they make the same calls to `next` in the same order.
- src/curves/mod.rs is not part of this model. It only wires the modules together.
