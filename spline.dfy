/**
 * The `Spline` contract, whose `get` may reject a parameter, and its `Steps`
 * sampler with the arc-length estimate (src/spline.rs). The strict Hermite
 * curve of src/hermite.rs is its implementer.
 */
module Spline {
  import opened Options
  import opened Vec
  import opened Sampling
  import HermiteCurve
  import StrictHermite

  /** `get` yields a point for every parameter in [0, 1]. */
  ghost predicate DefinedOnUnitInterval<S>(spline: S, get: (S, real) -> Option<Vec2>)
  {
    forall t :: 0.0 <= t <= 1.0 ==> get(spline, t).Some?
  }

  /** The strict Hermite curve never rejects a parameter the sampler produces. */
  lemma StrictHermiteDefinedOnUnitInterval(h: HermiteCurve.Hermite)
    ensures DefinedOnUnitInterval(h, StrictHermite.Get)
  {
    forall t | 0.0 <= t <= 1.0
      ensures StrictHermite.Get(h, t).Some?
    {
    }
  }

  /** The points of the samples, when `get` never rejects a parameter in [0, 1]. */
  function SamplePoints<S>(spline: S, get: (S, real) -> Option<Vec2>, n: nat): (ps: seq<Vec2>)
    requires n != 1 && DefinedOnUnitInterval(spline, get)
    ensures |ps| == n
    ensures forall k :: 0 <= k < n ==> Samples(spline, get, n)[k] == Some(ps[k])
  {
    seq(n, k requires 0 <= k < n => get(spline, Param(k, n)).value)
  }

  /** With two steps or more, the samples of a strict Hermite run from `p0()` to `p1()`. */
  lemma SamplesSpanHermite(h: HermiteCurve.Hermite, n: nat)
    requires n >= 2
    ensures DefinedOnUnitInterval(h, StrictHermite.Get)
    ensures SamplePoints(h, StrictHermite.Get, n)[0] == StrictHermite.P0(h)
    ensures SamplePoints(h, StrictHermite.Get, n)[n - 1] == StrictHermite.P1(h)
  {
    StrictHermiteDefinedOnUnitInterval(h);
    var os := Samples(h, StrictHermite.Get, n);
    var first, last := Param(0, n), Param(n - 1, n);
    assert first == 0.0 && last == 1.0;
    var p0, p1 := StrictHermite.P0(h), StrictHermite.P1(h);
    assert os[0] == Some(p0) && os[n - 1] == Some(p1);
  }

  /**
   * The length of the polyline through `ps` measured with `norm`: the sum,
   * over consecutive points, of the norm of their difference.
   */
  function PolylineLength(ps: seq<Vec2>, norm: Vec2 -> real): real
  {
    if |ps| <= 1 then 0.0
    else PolylineLength(ps[..|ps| - 1], norm) + norm(Sub(ps[|ps| - 1], ps[|ps| - 2]))
  }

  /** Measured with the Euclidean norm, a polyline has a nonnegative length. */
  lemma {:induction false} PolylineLengthNonNegative(ps: seq<Vec2>, norm: Vec2 -> real)
    requires IsEuclideanNorm(norm)
    ensures PolylineLength(ps, norm) >= 0.0
  {
    if |ps| > 1 {
      PolylineLengthNonNegative(ps[..|ps| - 1], norm);
      assert IsNorm(Sub(ps[|ps| - 1], ps[|ps| - 2]), norm(Sub(ps[|ps| - 1], ps[|ps| - 2])));
    }
  }

  /** The length of a single segment is the distance between its ends. */
  lemma {:induction false} PolylineOfSegment(p: Vec2, q: Vec2, norm: Vec2 -> real)
    requires IsEuclideanNorm(norm)
    ensures IsNorm(Sub(q, p), PolylineLength([p, q], norm))
  {
    assert [p, q][..1] == [p];
  }

  /** The last point of a nonempty polyline. */
  function Last(ps: seq<Vec2>): Vec2
    requires |ps| >= 1
  {
    ps[|ps| - 1]
  }

  /** A polyline of two points or more ends with the segment between its last two points. */
  lemma PolylineLastSegment(qs: seq<Vec2>, norm: Vec2 -> real)
    requires |qs| >= 2
    ensures PolylineLength(qs, norm)
         == PolylineLength(qs[..|qs| - 1], norm) + norm(Sub(qs[|qs| - 1], qs[|qs| - 2]))
  {
  }

  /** Appending a point to a polyline adds the length of the new segment. */
  lemma PolylineAppend(ps: seq<Vec2>, p: Vec2, norm: Vec2 -> real)
    requires |ps| >= 1
    ensures PolylineLength(ps + [p], norm) == PolylineLength(ps, norm) + norm(Sub(p, Last(ps)))
  {
    var qs := ps + [p];
    PolylineLastSegment(qs, norm);
    assert qs[..|qs| - 1] == ps;
    assert qs[|qs| - 1] == p && qs[|qs| - 2] == Last(ps);
  }

  /**
   * The points before the first `None`: what `collect` and `while let Some(..)`
   * take from an iterator of options, which stop at the first `None`.
   */
  function UntilNone(os: seq<Option<Vec2>>): (ps: seq<Vec2>)
    ensures |ps| <= |os|
    ensures forall k :: 0 <= k < |ps| ==> os[k] == Some(ps[k])
    ensures |ps| < |os| ==> os[|ps|].None?
  {
    if |os| == 0 || os[0].None? then [] else [os[0].value] + UntilNone(os[1..])
  }

  /** A run of points that reaches the end or a `None` is exactly `UntilNone`. */
  lemma UntilNoneUnique(os: seq<Option<Vec2>>, ps: seq<Vec2>)
    requires |ps| <= |os|
    requires forall k :: 0 <= k < |ps| ==> os[k] == Some(ps[k])
    requires |ps| < |os| ==> os[|ps|].None?
    ensures ps == UntilNone(os)
  {
    var u := UntilNone(os);
    assert |u| == |ps|;
  }

  /** A run of points that reaches the end or a `None` is all of `UntilNone`. */
  lemma UntilNoneStops(os: seq<Option<Vec2>>, m: nat)
    requires m <= |UntilNone(os)| && m <= |os|
    requires m < |os| ==> os[m].None?
    ensures m == |UntilNone(os)|
  {
  }

  /** `qs` starts at `v0` and goes on through the first `|qs| - 1` entries of `os`, all points. */
  ghost predicate Walk(os: seq<Option<Vec2>>, v0: Vec2, qs: seq<Vec2>)
  {
    && 1 <= |qs| <= |os| + 1 && qs[0] == v0
    && forall k :: 1 <= k < |qs| ==> os[k - 1] == Some(qs[k])
  }

  /** The walk `qs` has met the end of `os` or a `None`. */
  ghost predicate Halted(os: seq<Option<Vec2>>, qs: seq<Vec2>)
  {
    1 <= |qs| <= |os| + 1 && (|qs| <= |os| ==> os[|qs| - 1].None?)
  }

  /**
   * How many entries of `os` a consumer that stops at the first `None` draws:
   * the points before it and the `None` itself, or all of `os`.
   */
  function Consumed(os: seq<Option<Vec2>>): (c: nat)
    ensures c <= |os|
    ensures c == |os| || (1 <= c && os[c - 1].None?)
  {
    if |UntilNone(os)| < |os| then |UntilNone(os)| + 1 else |os|
  }

  /** A walk takes the next entry of `os` when it is a point. */
  lemma WalkStep(os: seq<Option<Vec2>>, v0: Vec2, qs: seq<Vec2>, p: Vec2)
    requires Walk(os, v0, qs) && |qs| <= |os| && os[|qs| - 1] == Some(p)
    ensures Walk(os, v0, qs + [p])
  {
  }

  /** A walk that has halted has taken every point before the first `None`. */
  lemma WalkEnd(os: seq<Option<Vec2>>, v0: Vec2, qs: seq<Vec2>)
    requires Walk(os, v0, qs) && Halted(os, qs)
    ensures qs == [v0] + UntilNone(os)
  {
    UntilNoneUnique(os, qs[1..]);
    assert qs == [v0] + qs[1..];
  }

  /** When `get` never rejects a parameter in [0, 1], nothing is cut off. */
  lemma UntilNoneOfDefinedSamples<S>(spline: S, get: (S, real) -> Option<Vec2>, n: nat, j: nat)
    requires n != 1 && DefinedOnUnitInterval(spline, get) && j <= n
    ensures UntilNone(Samples(spline, get, n)[j..]) == SamplePoints(spline, get, n)[j..]
  {
    var os, ps := Samples(spline, get, n)[j..], SamplePoints(spline, get, n)[j..];
    forall k | 0 <= k < |ps|
      ensures os[k] == Some(ps[k])
    {
      assert os[k] == Samples(spline, get, n)[j + k];
    }
    UntilNoneUnique(os, ps);
  }

  /**
   * The iterator over `n` evenly spaced parameters of `spline`. Generic over
   * the spline kind, as the source is over `S: Spline`: `get` is the kind's
   * `Spline::get`.
   */
  class Steps<S> {
    const spline: S
    const get: (S, real) -> Option<Vec2>
    const n: nat
    var i: nat
    /** What `next` has returned so far. */
    ghost var produced: seq<Option<Vec2>>

    ghost predicate Valid()
      reads this
    {
      && i <= n && |produced| == i
      && (n == 1 ==> i == 0)
      && forall k :: 0 <= k < i ==> produced[k] == get(spline, Param(k, n))
    }

    /** What the calls to `next` return from now until `i` reaches `n`. */
    ghost function Pending(): seq<Option<Vec2>>
      reads this
      requires Valid() && n != 1
    {
      Samples(spline, get, n)[i..]
    }

    /** `Steps::new`: nothing returned yet. */
    constructor (spline: S, get: (S, real) -> Option<Vec2>, n: nat)
      ensures Valid()
      ensures this.spline == spline && this.get == get && this.n == n && i == 0 && produced == []
    {
      this.spline := spline;
      this.get := get;
      this.n := n;
      i := 0;
      produced := [];
    }

    /**
     * `Iterator::next`: `None`, with nothing changed, once `i` has reached
     * `n`; otherwise whatever `get` returns at `i / (n - 1)`, and `i` moves
     * up by one even when that is `None`.
     */
    method Next() returns (r: Option<Vec2>)
      requires Valid() && n != 1
      modifies this
      ensures Valid()
      ensures old(i) >= n ==> r == None && i == old(i) && produced == old(produced)
      ensures old(i) < n ==> && r == get(spline, Param(old(i), n))
                             && i == old(i) + 1
                             && produced == old(produced) + [r]
      ensures old(i) < n ==> r == old(Pending())[0] && Pending() == old(Pending())[1..]
    {
      if i >= n {
        return None;
      }
      var t := Param(i, n);
      i := i + 1;
      r := get(spline, t);
      produced := produced + [r];
    }

    /**
     * `Iterator::collect` into a vector of points: drains the sampler up to
     * and including the first `None`, which ends the collection.
     */
    method Collect() returns (ps: seq<Vec2>)
      requires Valid() && n != 1
      modifies this
      ensures Valid()
      ensures ps == UntilNone(old(Pending()))
      ensures i == old(i) + Consumed(old(Pending()))
    {
      ghost var rest, from := Pending(), i;
      ps := [];
      var r := Next();
      while r.Some?
        invariant Valid() && from <= i <= n && |rest| == n - from
        invariant |ps| <= |rest| && forall k :: 0 <= k < |ps| ==> rest[k] == Some(ps[k])
        invariant r.Some? ==> i == from + |ps| + 1 && r == rest[|ps|]
        invariant r.None? ==> |ps| <= |rest| && (|ps| < |rest| ==> rest[|ps|].None? && i == from + |ps| + 1)
                              && (|ps| == |rest| ==> i == n)
        decreases n - i + (if r.Some? then 1 else 0)
      {
        ps := ps + [r.value];
        r := Next();
      }
      UntilNoneUnique(rest, ps);
    }

    /**
     * `Steps::arc_len`: the length of the polyline through the points
     * returned before the first `None`. `None` here stands for the panic of
     * `unwrap` when there is no first point; a single point gives 0.
     */
    method ArcLen(norm: Vec2 -> real) returns (len: Option<real>)
      requires Valid() && n != 1
      requires IsEuclideanNorm(norm)
      modifies this
      ensures Valid()
      ensures len.None? <==> |UntilNone(old(Pending()))| == 0
      ensures len.Some? ==> len.value == PolylineLength(UntilNone(old(Pending())), norm) && len.value >= 0.0
      ensures |UntilNone(old(Pending()))| == 1 ==> len == Some(0.0)
      ensures i == old(i) + Consumed(old(Pending()))
    {
      ghost var rest := Pending();
      var first := Next();
      if first.None? {
        UntilNoneStops(rest, 0);
        return None;
      }
      assert rest[1..] == Pending();
      var ds := Segments(first.value, norm);
      assert [first.value] + UntilNone(rest[1..]) == UntilNone(rest);
      PolylineLengthNonNegative(UntilNone(rest), norm);
      len := Some(ds);
    }

    /**
     * The `while let` loop of `arc_len`: starting from the point `v0`, adds
     * up the distances between consecutive points until `next` gives `None`.
     */
    method Segments(v0: Vec2, norm: Vec2 -> real) returns (ds: real)
      requires Valid() && n != 1
      modifies this
      ensures Valid()
      ensures ds == PolylineLength([v0] + UntilNone(old(Pending())), norm)
      ensures i == old(i) + Consumed(old(Pending()))
    {
      ghost var rest, from := Pending(), i;
      ghost var qs: seq<Vec2> := [v0];
      ds := 0.0;
      var last := v0;
      var next := Next();
      while next.Some?
        invariant Valid() && Walk(rest, v0, qs) && last == Last(qs) && ds == PolylineLength(qs, norm)
        invariant next.Some? ==> |qs| <= |rest| && next == rest[|qs| - 1] && i == from + |qs|
        invariant next.None? ==> Halted(rest, qs) && i == from + (if |qs| <= |rest| then |qs| else |rest|)
        decreases n - i + (if next.Some? then 1 else 0)
      {
        WalkStep(rest, v0, qs, next.value);
        PolylineAppend(qs, next.value, norm);
        ds := ds + norm(Sub(next.value, last));
        last := next.value;
        qs := qs + [last];
        next := Next();
      }
      WalkEnd(rest, v0, qs);
    }
  }

  /** The trait's default `steps(n)` for the strict Hermite: a fresh `Steps::new(self, n)`. */
  method StepsOf(h: HermiteCurve.Hermite, n: nat) returns (s: Steps<HermiteCurve.Hermite>)
    ensures fresh(s) && s.Valid()
    ensures s.spline == h && s.get == StrictHermite.Get && s.n == n && s.i == 0 && s.produced == []
  {
    s := new Steps(h, StrictHermite.Get, n);
  }

  /** The first and last of ten samples of the test Hermite are (0,0) and (4,1). */
  lemma TestHermiteSampleEnds()
    ensures DefinedOnUnitInterval(HermiteCurve.TestHermite(), StrictHermite.Get)
    ensures SamplePoints(HermiteCurve.TestHermite(), StrictHermite.Get, 10)[0] == Vec2(0.0, 0.0)
    ensures SamplePoints(HermiteCurve.TestHermite(), StrictHermite.Get, 10)[9] == Vec2(4.0, 1.0)
  {
    var h := HermiteCurve.TestHermite();
    SamplesSpanHermite(h, 10);
    var start, end := StrictHermite.P0(h), StrictHermite.P1(h);
    assert start == Vec2(0.0, 0.0) && end == Vec2(4.0, 1.0);
  }

  /** `h.steps(n).collect()`: the `n` samples, from `p0()` to `p1()`. */
  method CollectHermiteSteps(h: HermiteCurve.Hermite, n: nat) returns (p: seq<Vec2>)
    requires n >= 2
    ensures DefinedOnUnitInterval(h, StrictHermite.Get)
    ensures p == SamplePoints(h, StrictHermite.Get, n)
    ensures |p| == n && p[0] == StrictHermite.P0(h) && p[n - 1] == StrictHermite.P1(h)
  {
    var s := StepsOf(h, n);
    SamplesSpanHermite(h, n);
    UntilNoneOfDefinedSamples(h, StrictHermite.Get, n, 0);
    p := s.Collect();
  }

  /** `c.steps(10).collect()` on the test Hermite: ten points from (0,0) to (4,1). */
  method CollectTestHermiteSteps() returns (p: seq<Vec2>)
    ensures |p| == 10
    ensures p[0] == Vec2(0.0, 0.0) && p[9] == Vec2(4.0, 1.0)
  {
    p := CollectHermiteSteps(HermiteCurve.TestHermite(), 10);
    TestHermiteSampleEnds();
  }
}
