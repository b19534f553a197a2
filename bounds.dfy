/** Data limits: the smallest and largest x and y over a set of samples.
    Every Figure/Plot variant folds `std::min` / `std::max` over its samples
    starting from the sentinels `std::numeric_limits<double>::max()` (for the
    minima) and `std::numeric_limits<double>::lowest()` (for the maxima).
    Taking a minimum or maximum never rounds, so finite doubles are modelled
    exactly as reals bounded by the largest finite double. */
module Bounds {

  /** `std::numeric_limits<double>::max()`, (2^53 - 1) * 2^971, written out;
      `lowest()` is its negation. */
  const DoubleMax: real := 179769313486231570814527423731704356798070567525844996598917476803157260780028538760589558632766878171540458953514382464234321326889464182768467546703537516986049910576551282076245490090389328944075868508455133942304583236903222948165808559332123348274797826204144723168738177180919299881250404026184124858368.0

  /** A finite double value. */
  type Double = r: real | -DoubleMax <= r <= DoubleMax

  /** A data sample, `svg::Point{x, y}`. */
  datatype Point = Point(x: Double, y: Double)

  /** The samples `Point{x[i], y[i]}` for every index of `x`, as the
      `push_back` loops build them; `y` may be longer than `x`. */
  function Zip(x: seq<Double>, y: seq<Double>): (pts: seq<Point>)
    requires |x| <= |y|
    ensures |pts| == |x|
    ensures forall i :: 0 <= i < |x| ==> pts[i] == Point(x[i], y[i])
  {
    if x == [] then [] else Zip(x[..|x| - 1], y) + [Point(x[|x| - 1], y[|x| - 1])]
  }

  /** The four accumulators `x_min, x_max, y_min, y_max`. */
  datatype Bounds = Bounds(xMin: Double, xMax: Double, yMin: Double, yMax: Double)

  /** The accumulators before any sample is seen. */
  const Sentinel: Bounds := Bounds(DoubleMax, -DoubleMax, DoubleMax, -DoubleMax)

  /** `std::min(a, b)`: `b` if `b < a`, else `a`. */
  function Min(a: Double, b: Double): (m: Double)
    ensures m <= a && m <= b
    ensures m == a || m == b
  {
    if b < a then b else a
  }

  /** `std::max(a, b)`: `b` if `a < b`, else `a`. */
  function Max(a: Double, b: Double): (m: Double)
    ensures a <= m && b <= m
    ensures m == a || m == b
  {
    if a < b then b else a
  }

  /** One loop step: widen the accumulators to take in one sample. */
  function Widen(b: Bounds, p: Point): (c: Bounds)
    ensures c.xMin <= p.x <= c.xMax && c.yMin <= p.y <= c.yMax
    ensures c.xMin <= b.xMin && b.xMax <= c.xMax && c.yMin <= b.yMin && b.yMax <= c.yMax
  {
    Bounds(Min(b.xMin, p.x), Max(b.xMax, p.x), Min(b.yMin, p.y), Max(b.yMax, p.y))
  }

  /** Combine two sets of accumulators, as the outer loop over curves does. */
  function Join(b: Bounds, c: Bounds): (j: Bounds)
    ensures j.xMin <= b.xMin && j.xMin <= c.xMin && j.yMin <= b.yMin && j.yMin <= c.yMin
    ensures b.xMax <= j.xMax && c.xMax <= j.xMax && b.yMax <= j.yMax && c.yMax <= j.yMax
    ensures (j.xMin == b.xMin || j.xMin == c.xMin) && (j.xMax == b.xMax || j.xMax == c.xMax)
    ensures (j.yMin == b.yMin || j.yMin == c.yMin) && (j.yMax == b.yMax || j.yMax == c.yMax)
  {
    Bounds(Min(b.xMin, c.xMin), Max(b.xMax, c.xMax), Min(b.yMin, c.yMin), Max(b.yMax, c.yMax))
  }

  /** The accumulators after the loop has seen `pts` in order. */
  function BoundsOf(pts: seq<Point>): (b: Bounds)
    ensures pts == [] ==> b == Sentinel
    ensures |pts| == 1 ==> b == Bounds(pts[0].x, pts[0].x, pts[0].y, pts[0].y)
  {
    if pts == [] then Sentinel else Widen(BoundsOf(pts[..|pts| - 1]), pts[|pts| - 1])
  }

  /** Every sample lies within the bounds. */
  predicate Encloses(b: Bounds, pts: seq<Point>)
  {
    forall i :: 0 <= i < |pts| ==>
      b.xMin <= pts[i].x <= b.xMax && b.yMin <= pts[i].y <= b.yMax
  }

  /** Each of the four bounds is the coordinate of some sample. */
  predicate Attained(b: Bounds, pts: seq<Point>)
  {
    && (exists i :: 0 <= i < |pts| && pts[i].x == b.xMin)
    && (exists i :: 0 <= i < |pts| && pts[i].x == b.xMax)
    && (exists i :: 0 <= i < |pts| && pts[i].y == b.yMin)
    && (exists i :: 0 <= i < |pts| && pts[i].y == b.yMax)
  }

  lemma {:induction false} BoundsOfEncloses(pts: seq<Point>)
    ensures Encloses(BoundsOf(pts), pts)
  {
    if pts != [] {
      var init := pts[..|pts| - 1];
      BoundsOfEncloses(init);
      assert forall i :: 0 <= i < |init| ==> pts[i] == init[i];
    }
  }

  lemma {:induction false} BoundsOfAttained(pts: seq<Point>)
    requires |pts| > 0
    ensures Attained(BoundsOf(pts), pts)
  {
    var n := |pts| - 1;
    var init := pts[..n];
    if n == 0 {
      assert pts[0].x == BoundsOf(pts).xMin;
      assert pts[0].x == BoundsOf(pts).xMax;
      assert pts[0].y == BoundsOf(pts).yMin;
      assert pts[0].y == BoundsOf(pts).yMax;
    } else {
      BoundsOfAttained(init);
      var b, c := BoundsOf(init), BoundsOf(pts);
      assert forall i :: 0 <= i < |init| ==> pts[i] == init[i];
      if c.xMin == b.xMin {
        var i :| 0 <= i < n && init[i].x == b.xMin;
        assert pts[i].x == c.xMin;
      } else {
        assert pts[n].x == c.xMin;
      }
      if c.xMax == b.xMax {
        var i :| 0 <= i < n && init[i].x == b.xMax;
        assert pts[i].x == c.xMax;
      } else {
        assert pts[n].x == c.xMax;
      }
      if c.yMin == b.yMin {
        var i :| 0 <= i < n && init[i].y == b.yMin;
        assert pts[i].y == c.yMin;
      } else {
        assert pts[n].y == c.yMin;
      }
      if c.yMax == b.yMax {
        var i :| 0 <= i < n && init[i].y == b.yMax;
        assert pts[i].y == c.yMax;
      } else {
        assert pts[n].y == c.yMax;
      }
    }
  }

  /** Folding a concatenation is joining the folds of its parts: the limits
      of all curves together are the min/max of the per-curve limits. */
  lemma {:induction false} BoundsOfConcat(a: seq<Point>, b: seq<Point>)
    ensures BoundsOf(a + b) == Join(BoundsOf(a), BoundsOf(b))
  {
    if b == [] {
      assert a + b == a;
    } else {
      var n := |b| - 1;
      BoundsOfConcat(a, b[..n]);
      assert (a + b)[..|a + b| - 1] == a + b[..n];
      assert (a + b)[|a + b| - 1] == b[n];
    }
  }

  /** The loop the source writes out each time: one pass over the samples,
      widening the four accumulators. */
  method ScanBounds(pts: seq<Point>) returns (b: Bounds)
    ensures b == BoundsOf(pts)
    ensures Encloses(b, pts)
    ensures pts == [] ==> b == Sentinel
    ensures pts != [] ==> Attained(b, pts)
  {
    b := Sentinel;
    var i := 0;
    while i < |pts|
      invariant 0 <= i <= |pts|
      invariant b == BoundsOf(pts[..i])
    {
      assert pts[..i + 1][..i] == pts[..i];
      b := Widen(b, pts[i]);
      i := i + 1;
    }
    assert pts[..i] == pts;
    BoundsOfEncloses(pts);
    if pts != [] {
      BoundsOfAttained(pts);
    }
  }

  /** All samples of several curves, one curve after the other. */
  function ConcatAll(curves: seq<seq<Point>>): seq<Point>
  {
    if curves == [] then [] else ConcatAll(curves[..|curves| - 1]) + curves[|curves| - 1]
  }

  /** The outer accumulators after joining the per-curve bounds in order. */
  function JoinAll(curves: seq<seq<Point>>): (b: Bounds)
    ensures curves == [] ==> b == Sentinel
    ensures |curves| == 1 ==> b == BoundsOf(curves[0])
  {
    if curves == [] then Sentinel else Join(JoinAll(curves[..|curves| - 1]), BoundsOf(curves[|curves| - 1]))
  }

  /** Joining per-curve bounds gives the bounds of all samples together. */
  lemma {:induction false} JoinAllIsBoundsOfAll(curves: seq<seq<Point>>)
    ensures JoinAll(curves) == BoundsOf(ConcatAll(curves))
  {
    if curves != [] {
      var n := |curves| - 1;
      JoinAllIsBoundsOfAll(curves[..n]);
      BoundsOfConcat(ConcatAll(curves[..n]), curves[n]);
    }
  }

  /** `*std::min_element(s.begin(), s.end())` on a non-empty range. */
  function MinElement(s: seq<Double>): (m: Double)
    requires |s| > 0
    ensures m in s
    ensures forall i :: 0 <= i < |s| ==> m <= s[i]
  {
    if |s| == 1 then s[0] else Min(s[0], MinElement(s[1..]))
  }

  /** `*std::max_element(s.begin(), s.end())` on a non-empty range. */
  function MaxElement(s: seq<Double>): (m: Double)
    requires |s| > 0
    ensures m in s
    ensures forall i :: 0 <= i < |s| ==> s[i] <= m
  {
    if |s| == 1 then s[0] else Max(s[0], MaxElement(s[1..]))
  }
}
