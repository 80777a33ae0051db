/**
 * The `Curve` contract and its `Steps` sampler (src/curves/curve.rs,
 * src/curves/steps.rs). src/curve/curve.rs holds a second copy of the same
 * trait and sampler, with the same code; both are modelled here once.
 */
module Curves {
  import opened Options
  import opened Vec
  import opened Sampling
  import BezierCurve
  import HermiteCurve

  /** The implementers of `Curve`: each has a total `get` returning a point. */
  datatype Curve = Bezier(b: BezierCurve.Bezier) | Hermite(h: HermiteCurve.Hermite)

  /** Where a curve starts: `p0` for both kinds. */
  function Start(c: Curve): Vec2
  {
    match c
    case Bezier(b) => b.p0
    case Hermite(h) => h.p0
  }

  /** Where a curve ends: `p3` of a Bezier, `p1` of a Hermite. */
  function End(c: Curve): Vec2
  {
    match c
    case Bezier(b) => b.p3
    case Hermite(h) => h.p1
  }

  /** `Curve::get`, dispatched to the implementer; defined for every `t`. */
  function Get(c: Curve, t: real): (r: Vec2)
    ensures t == 0.0 ==> r == Start(c)
    ensures t == 1.0 ==> r == End(c)
  {
    match c
    case Bezier(b) => BezierCurve.Get(b, t)
    case Hermite(h) => HermiteCurve.Get(h, t)
  }

  /** With two steps or more, the samples of a curve run from its start to its end. */
  lemma SamplesSpanCurve(c: Curve, n: nat)
    requires n >= 2
    ensures Samples(c, Get, n)[0] == Start(c)
    ensures Samples(c, Get, n)[n - 1] == End(c)
  {
    var ps := Samples(c, Get, n);
    assert ps[0] == Get(c, Param(0, n));
    assert ps[n - 1] == Get(c, Param(n - 1, n));
  }

  /**
   * The iterator over `n` evenly spaced points of `curve`. Generic over the
   * curve kind, as the source is over `C: Curve`: `get` is the kind's
   * `Curve::get`.
   */
  class Steps<C> {
    const curve: C
    const get: (C, real) -> Vec2
    const n: nat
    var i: nat
    /** The items yielded so far. */
    ghost var produced: seq<Vec2>

    ghost predicate Valid()
      reads this
    {
      && i <= n
      && if n == 1 then i == 0 && produced == [] else produced == Samples(curve, get, n)[..i]
    }

    /** The items still to come. */
    ghost function Remaining(): seq<Vec2>
      reads this
      requires Valid() && n != 1
    {
      Samples(curve, get, n)[i..]
    }

    /** `Steps::new`: nothing yielded yet. */
    constructor (curve: C, get: (C, real) -> Vec2, n: nat)
      ensures Valid()
      ensures this.curve == curve && this.get == get && this.n == n && i == 0 && produced == []
    {
      this.curve := curve;
      this.get := get;
      this.n := n;
      i := 0;
      produced := [];
    }

    /**
     * `Iterator::next`: `None`, with nothing changed, once `i` has reached
     * `n`; otherwise the curve at `i / (n - 1)`, and `i` moves up by one.
     */
    method Next() returns (r: Option<Vec2>)
      requires Valid() && n != 1
      modifies this
      ensures Valid()
      ensures old(i) >= n ==> r == None && i == old(i) && produced == old(produced)
      ensures old(i) < n ==> && r == Some(get(curve, Param(old(i), n)))
                             && i == old(i) + 1
                             && produced == old(produced) + [r.value]
    {
      if i >= n {
        return None;
      }
      var t := Param(i, n);
      i := i + 1;
      r := Some(get(curve, t));
      produced := produced + [r.value];
    }

    /** `Iterator::collect`: drains the sampler into a sequence. */
    method Collect() returns (ps: seq<Vec2>)
      requires Valid() && n != 1
      modifies this
      ensures Valid() && i == n
      ensures ps == old(Remaining())
    {
      ghost var all := Samples(curve, get, n);
      ps := [];
      var r := Next();
      while r.Some?
        invariant Valid() && old(i) <= i <= n
        invariant r.Some? ==> old(i) < i && ps + [r.value] == all[old(i)..i]
        invariant r.None? ==> i == n && ps == all[old(i)..i]
        decreases n - i + (if r.Some? then 1 else 0)
      {
        ps := ps + [r.value];
        r := Next();
      }
    }
  }

  /** The trait's default `steps(n)`: a fresh `Steps::new(self, n)`. */
  method StepsOf(c: Curve, n: nat) returns (s: Steps<Curve>)
    ensures fresh(s) && s.Valid()
    ensures s.curve == c && s.get == Get && s.n == n && s.i == 0 && s.produced == []
  {
    s := new Steps(c, Get, n);
  }

  /** `c.steps(10).collect()` on the test Bezier: ten points from (1,1) to (4,1). */
  method CollectTestBezierSteps() returns (p: seq<Vec2>)
    ensures |p| == 10
    ensures p[0] == Vec2(1.0, 1.0) && p[9] == Vec2(4.0, 1.0)
  {
    var c := Bezier(BezierCurve.TestBezier());
    var s := StepsOf(c, 10);
    p := s.Collect();
    SamplesSpanCurve(c, 10);
  }
}
