/** `Plot` of plot.cpp (fields, palette and defaults declared in plot.h): one
    chart that accumulates line and scatter series.  The data limits persist
    across calls and only ever widen; each call draws its own series at once,
    with the limits in force at that moment, and `draw_axes` adds the axes
    and ticks with the limits in force when it runs. */
module PlotCpp {
  import opened Errors
  import opened Bounds
  import opened Ticks

  /** The colour palette of plot.h, picked by series count. */
  const Palette: seq<string> := ["blue", "red", "green", "purple", "orange"]

  /** `num_x_ticks` and `num_y_ticks` of `draw_axes`. */
  const TickIntervals: int := 5

  const LengthMismatch: Error := InvalidArgument("X and Y vectors must be same length")

  datatype Axis = XAxis | YAxis

  /** One element added to the plot area.  Samples are kept in data space
      together with the limits that scaled them to pixels. */
  datatype Mark =
    | Segment(color: string, from: Point, to: Point, scale: Bounds)  // SVG::Line of `plot`
    | Dot(color: string, at: Point, scale: Bounds)                   // SVG::Circle of `scatter`
    | AxisLine(x1: int, x2: int, y1: int, y2: int)                   // SVG::Line(x1, x2, y1, y2) of `draw_axes`
    | TickLine(axis: Axis, value: real)
    | TickLabel(axis: Axis, value: real)

  /** The colour a series is drawn in: the argument, or for an empty argument
      `colors[x_data.size() % colors.size()]`, where `seriesCount` already
      counts the new series. */
  function ChooseColor(requested: string, seriesCount: nat): (c: string)
    ensures requested != "" ==> c == requested
    ensures requested == "" ==> c in Palette && c == Palette[seriesCount % |Palette|]
  {
    if requested == "" then Palette[seriesCount % |Palette|] else requested
  }

  /** The palette index is taken after the series is stored, and it counts
      the series given a colour too; so a first series drawn without a colour
      gets "red", not the palette's first entry. */
  lemma FirstDefaultIsRed()
    ensures ChooseColor("", 1) == "red"
  {
  }

  /** Default colours repeat every five series. */
  lemma DefaultColorsCycle(n: nat)
    ensures ChooseColor("", n + |Palette|) == ChooseColor("", n)
  {
  }

  /** `v` is one of the stored samples. */
  ghost predicate Stored(data: seq<seq<Double>>, v: Double)
  {
    exists k, j :: 0 <= k < |data| && 0 <= j < |data[k]| && data[k][j] == v
  }

  /** Every stored sample lies within `[lo, hi]`. */
  ghost predicate Within(data: seq<seq<Double>>, lo: Double, hi: Double)
  {
    forall k, j :: 0 <= k < |data| && 0 <= j < |data[k]| ==> lo <= data[k][j] <= hi
  }

  class Plot {
    var xData: seq<seq<Double>>
    var yData: seq<seq<Double>>
    var xMin: Double
    var xMax: Double
    var yMin: Double
    var yMax: Double
    const width: int
    const height: int
    const padding: int
    /** The children of `plot_area`, in the order they were added. */
    var marks: seq<Mark>

    /** Series come in pairs of equal, non-empty length; before the first
        series the limits are the sentinels; afterwards they enclose every
        stored sample and each is one of them. */
    ghost predicate Valid()
      reads this
    {
      && |xData| == |yData|
      && (forall k :: 0 <= k < |xData| ==> |xData[k]| == |yData[k]| && |xData[k]| > 0)
      && (xData == [] ==> Limits() == Sentinel)
      && Within(xData, xMin, xMax) && Within(yData, yMin, yMax)
      && (xData != [] ==> Stored(xData, xMin) && Stored(xData, xMax) && Stored(yData, yMin) && Stored(yData, yMax))
    }

    function Limits(): Bounds
      reads this
    {
      Bounds(xMin, xMax, yMin, yMax)
    }

    /** The constructor: no series, sentinel limits, an empty plot area. */
    constructor (w: int, h: int, pad: int)
      ensures Valid()
      ensures width == w && height == h && padding == pad
      ensures xData == [] && yData == [] && marks == []
      ensures Limits() == Sentinel
    {
      xMin, xMax, yMin, yMax := DoubleMax, -DoubleMax, DoubleMax, -DoubleMax;
      width, height, padding := w, h, pad;
      xData, yData := [], [];
      marks := [];
    }

    /** `update_limits`: on the first series the limits become its exact
        minima and maxima; later they widen to take it in.  The series are
        non-empty: `*std::min_element` of an empty range is undefined. */
    method UpdateLimits(x: seq<Double>, y: seq<Double>)
      requires |x| > 0 && |y| > 0
      modifies this`xMin, this`xMax, this`yMin, this`yMax
      ensures xData == [] ==>
        xMin == MinElement(x) && xMax == MaxElement(x) && yMin == MinElement(y) && yMax == MaxElement(y)
      ensures xData != [] ==>
        && xMin == Min(old(xMin), MinElement(x)) && xMax == Max(old(xMax), MaxElement(x))
        && yMin == Min(old(yMin), MinElement(y)) && yMax == Max(old(yMax), MaxElement(y))
    {
      if xData == [] {
        xMin := MinElement(x);
        xMax := MaxElement(x);
        yMin := MinElement(y);
        yMax := MaxElement(y);
      } else {
        xMin := Min(xMin, MinElement(x));
        xMax := Max(xMax, MaxElement(x));
        yMin := Min(yMin, MinElement(y));
        yMax := Max(yMax, MaxElement(y));
      }
    }

    /** What `plot` and `scatter` share before drawing: reject series of
        different lengths without touching anything, else update the limits,
        store the series and choose its colour.  The limits never shrink and
        keep enclosing every stored sample. */
    method AddSeries(x: seq<Double>, y: seq<Double>, color: string) returns (outcome: Outcome, chosen: string)
      requires Valid()
      requires |x| != |y| || |x| > 0
      modifies this`xData, this`yData, this`xMin, this`xMax, this`yMin, this`yMax
      ensures Valid()
      ensures |x| != |y| ==> outcome == Fail(LengthMismatch) && xData == old(xData) && yData == old(yData) && Limits() == old(Limits())
      ensures |x| == |y| ==> outcome == Pass && SeriesStored(x, y) && chosen == ChooseColor(color, |xData|)
      ensures xMin <= old(xMin) && old(xMax) <= xMax && yMin <= old(yMin) && old(yMax) <= yMax
    {
      chosen := color;
      if |x| != |y| {
        return Fail(LengthMismatch), chosen;
      }
      ghost var oldX, oldY := xData, yData;
      UpdateLimits(x, y);
      xData := xData + [x];
      yData := yData + [y];
      if chosen == "" {
        chosen := Palette[|xData| % |Palette|];
      }
      outcome := Pass;
      StoredLimitsInvariant(oldX, oldY, old(Limits()), x, y, Limits());
    }

    /** The series was appended to both lists and the limits were updated as
        `update_limits` does. */
    twostate predicate SeriesStored(x: seq<Double>, y: seq<Double>)
      reads this
    {
      && |x| > 0 && |y| > 0
      && xData == old(xData) + [x] && yData == old(yData) + [y]
      && (old(xData) == [] ==>
            Limits() == Bounds(MinElement(x), MaxElement(x), MinElement(y), MaxElement(y)))
      && (old(xData) != [] ==>
            Limits() == Bounds(Min(old(xMin), MinElement(x)), Max(old(xMax), MaxElement(x)),
                               Min(old(yMin), MinElement(y)), Max(old(yMax), MaxElement(y))))
    }

    /** `plot`: rejects series of different lengths before touching the
        limits, the data or the drawing; otherwise stores the series and draws
        `|x| - 1` segments between consecutive samples, in order, in the
        chosen colour and with the updated limits.  Empty series are undefined
        behaviour in the source (`x.size() - 1` wraps around). */
    method Plot(x: seq<Double>, y: seq<Double>, color: string) returns (outcome: Outcome)
      requires Valid()
      requires |x| != |y| || |x| > 0
      modifies this
      ensures Valid()
      ensures |x| != |y| ==>
        && outcome == Fail(LengthMismatch)
        && xData == old(xData) && yData == old(yData) && Limits() == old(Limits()) && marks == old(marks)
      ensures |x| == |y| ==> outcome == Pass && SeriesStored(x, y)
      ensures |x| == |y| ==>
        && |marks| == |old(marks)| + |x| - 1
        && marks == old(marks) + Segments(ChooseColor(color, |xData|), x, y, Limits(), |x| - 1)
      ensures xMin <= old(xMin) && old(xMax) <= xMax && yMin <= old(yMin) && old(yMax) <= yMax
    {
      var chosen;
      outcome, chosen := AddSeries(x, y, color);
      if outcome.Fail? {
        return;
      }
      DrawSegments(x, y, chosen);
    }

    /** The segment loop of `plot`, with the limits in force. */
    method DrawSegments(x: seq<Double>, y: seq<Double>, color: string)
      requires 0 < |x| == |y|
      modifies this`marks
      ensures marks == old(marks) + Segments(color, x, y, Limits(), |x| - 1)
    {
      ghost var before := marks;
      var i := 0;
      while i + 1 < |x|
        invariant i < |x|
        invariant marks == before + Segments(color, x, y, Limits(), i)
      {
        marks := marks + [Segment(color, Point(x[i], y[i]), Point(x[i + 1], y[i + 1]), Limits())];
        i := i + 1;
      }
    }

    /** `scatter`: rejects series of different lengths before touching
        anything; otherwise stores the series and draws one point per sample,
        in order, in the chosen colour and with the updated limits.  Empty
        series are undefined behaviour in the source (`update_limits`). */
    method Scatter(x: seq<Double>, y: seq<Double>, color: string) returns (outcome: Outcome)
      requires Valid()
      requires |x| != |y| || |x| > 0
      modifies this
      ensures Valid()
      ensures |x| != |y| ==>
        && outcome == Fail(LengthMismatch)
        && xData == old(xData) && yData == old(yData) && Limits() == old(Limits()) && marks == old(marks)
      ensures |x| == |y| ==> outcome == Pass && SeriesStored(x, y)
      ensures |x| == |y| ==>
        && |marks| == |old(marks)| + |x|
        && marks == old(marks) + Dots(ChooseColor(color, |xData|), x, y, Limits(), |x|)
      ensures xMin <= old(xMin) && old(xMax) <= xMax && yMin <= old(yMin) && old(yMax) <= yMax
    {
      var chosen;
      outcome, chosen := AddSeries(x, y, color);
      if outcome.Fail? {
        return;
      }
      DrawDots(x, y, chosen);
    }

    /** The point loop of `scatter`, with the limits in force. */
    method DrawDots(x: seq<Double>, y: seq<Double>, color: string)
      requires |x| == |y|
      modifies this`marks
      ensures marks == old(marks) + Dots(color, x, y, Limits(), |x|)
    {
      ghost var before := marks;
      var i := 0;
      while i < |x|
        invariant 0 <= i <= |x|
        invariant marks == before + Dots(color, x, y, Limits(), i)
      {
        marks := marks + [Dot(color, Point(x[i], y[i]), Limits())];
        i := i + 1;
      }
    }

    /** `draw_axes`: the x axis along the bottom edge, the y axis along the
        left edge, then six ticks on each axis from the low limit to the high
        one, each a tick line followed by its label. */
    method DrawAxes()
      modifies this`marks
      ensures marks == old(marks) + AxisLines(width, height, padding)
                       + AxisTickMarks(XAxis, xMin, xMax, TickIntervals + 1)
                       + AxisTickMarks(YAxis, yMin, yMax, TickIntervals + 1)
      ensures |marks| == |old(marks)| + 2 + 2 * 6 + 2 * 6
    {
      marks := marks + [AxisLine(padding, width - padding, height - padding, height - padding)];
      marks := marks + [AxisLine(padding, padding, height - padding, padding)];
      DrawTicks(XAxis, xMin, xMax);
      DrawTicks(YAxis, yMin, yMax);
    }

    /** One tick loop of `draw_axes`: `i` from 0 to 5, a tick line and its
        label at `lo + (hi - lo) * i / 5`. */
    method DrawTicks(axis: Axis, lo: real, hi: real)
      modifies this`marks
      ensures marks == old(marks) + AxisTickMarks(axis, lo, hi, TickIntervals + 1)
    {
      ghost var before := marks;
      var i := 0;
      while i <= TickIntervals
        invariant 0 <= i <= TickIntervals + 1
        invariant marks == before + AxisTickMarks(axis, lo, hi, i)
      {
        var value := TickValue(lo, hi, i, TickIntervals);
        marks := marks + [TickLine(axis, value), TickLabel(axis, value)];
        i := i + 1;
      }
    }
  }

  /** The first `m` segments `plot` draws, segment `i` joining sample `i`
      to sample `i + 1`. */
  function Segments(color: string, x: seq<Double>, y: seq<Double>, scale: Bounds, m: nat): (s: seq<Mark>)
    requires m < |x| == |y|
    ensures |s| == m
    ensures forall i :: 0 <= i < m ==> s[i] == Segment(color, Point(x[i], y[i]), Point(x[i + 1], y[i + 1]), scale)
  {
    if m == 0 then [] else Segments(color, x, y, scale, m - 1) + [Segment(color, Point(x[m - 1], y[m - 1]), Point(x[m], y[m]), scale)]
  }

  /** The first `m` points `scatter` draws, one per sample. */
  function Dots(color: string, x: seq<Double>, y: seq<Double>, scale: Bounds, m: nat): (s: seq<Mark>)
    requires m <= |x| == |y|
    ensures |s| == m
    ensures forall i :: 0 <= i < m ==> s[i] == Dot(color, Point(x[i], y[i]), scale)
  {
    if m == 0 then [] else Dots(color, x, y, scale, m - 1) + [Dot(color, Point(x[m - 1], y[m - 1]), scale)]
  }

  /** The x axis and the y axis lines of `draw_axes`, in pixels. */
  function AxisLines(width: int, height: int, padding: int): (s: seq<Mark>)
    ensures |s| == 2 && s[0].AxisLine? && s[1].AxisLine?
    ensures s[0].y1 == s[0].y2 == height - padding && s[0].x1 == padding && s[0].x2 == width - padding
    ensures s[1].x1 == s[1].x2 == padding && s[1].y1 == height - padding && s[1].y2 == padding
  {
    [AxisLine(padding, width - padding, height - padding, height - padding),
     AxisLine(padding, padding, height - padding, padding)]
  }

  /** The first `m` ticks of one axis, each a tick line and then its label,
      at the values `TickValue(lo, hi, i, 5)`. */
  function AxisTickMarks(axis: Axis, lo: real, hi: real, m: nat): (s: seq<Mark>)
    ensures |s| == 2 * m
    ensures forall i :: 0 <= i < m ==>
      s[2 * i] == TickLine(axis, TickValue(lo, hi, i, TickIntervals)) && s[2 * i + 1] == TickLabel(axis, TickValue(lo, hi, i, TickIntervals))
  {
    if m == 0 then []
    else AxisTickMarks(axis, lo, hi, m - 1)
         + [TickLine(axis, TickValue(lo, hi, m - 1, TickIntervals)), TickLabel(axis, TickValue(lo, hi, m - 1, TickIntervals))]
  }

  /** The six ticks of an axis run from the low limit to the high one. */
  lemma AxisTicksSpanLimits(axis: Axis, lo: real, hi: real)
    ensures var s := AxisTickMarks(axis, lo, hi, TickIntervals + 1);
      s[0] == TickLine(axis, lo) && s[2 * TickIntervals] == TickLine(axis, hi)
  {
    TickValueEnds(lo, hi, TickIntervals);
  }

  /** The invariant survives storing one more series: the stored samples of
      the old lists lie within the old limits, which the new ones include,
      and the new series lies within its own minima and maxima. */
  lemma StoredLimitsInvariant(xs: seq<seq<Double>>, ys: seq<seq<Double>>, was: Bounds,
                              x: seq<Double>, y: seq<Double>, now: Bounds)
    requires |xs| == |ys| && |x| == |y| > 0
    requires Within(xs, was.xMin, was.xMax) && Within(ys, was.yMin, was.yMax)
    requires xs != [] ==> Stored(xs, was.xMin) && Stored(xs, was.xMax) && Stored(ys, was.yMin) && Stored(ys, was.yMax)
    requires xs == [] ==> now == Bounds(MinElement(x), MaxElement(x), MinElement(y), MaxElement(y))
    requires xs != [] ==> now == Bounds(Min(was.xMin, MinElement(x)), Max(was.xMax, MaxElement(x)),
                                        Min(was.yMin, MinElement(y)), Max(was.yMax, MaxElement(y)))
    ensures Within(xs + [x], now.xMin, now.xMax) && Within(ys + [y], now.yMin, now.yMax)
    ensures Stored(xs + [x], now.xMin) && Stored(xs + [x], now.xMax)
    ensures Stored(ys + [y], now.yMin) && Stored(ys + [y], now.yMax)
  {
    CoordinateInvariant(xs, was.xMin, was.xMax, x, now.xMin, now.xMax);
    CoordinateInvariant(ys, was.yMin, was.yMax, y, now.yMin, now.yMax);
  }

  /** The same for one coordinate: the new limits are the old ones widened by
      the new series, or the new series' own extremes when nothing was stored. */
  lemma CoordinateInvariant(xs: seq<seq<Double>>, wasLo: Double, wasHi: Double, x: seq<Double>, lo: Double, hi: Double)
    requires |x| > 0
    requires Within(xs, wasLo, wasHi)
    requires xs != [] ==> Stored(xs, wasLo) && Stored(xs, wasHi)
    requires xs == [] ==> lo == MinElement(x) && hi == MaxElement(x)
    requires xs != [] ==> lo == Min(wasLo, MinElement(x)) && hi == Max(wasHi, MaxElement(x))
    ensures Within(xs + [x], lo, hi)
    ensures Stored(xs + [x], lo) && Stored(xs + [x], hi)
  {
    var xs' := xs + [x];
    var n := |xs|;
    assert lo <= MinElement(x) && MaxElement(x) <= hi;
    assert xs != [] ==> lo <= wasLo && wasHi <= hi;
    forall k, j | 0 <= k < |xs'| && 0 <= j < |xs'[k]|
      ensures lo <= xs'[k][j] <= hi
    {
      if k < n {
        assert xs'[k] == xs[k];
        assert wasLo <= xs[k][j] <= wasHi;
      } else {
        assert xs'[k] == x;
      }
    }
    if xs == [] {
      StoredIn(xs, x, lo);
      StoredIn(xs, x, hi);
    } else {
      if lo == wasLo { StoredKept(xs, x, lo); } else { StoredIn(xs, x, lo); }
      if hi == wasHi { StoredKept(xs, x, hi); } else { StoredIn(xs, x, hi); }
    }
  }

  /** A sample of the new series is stored once the series is appended. */
  lemma StoredIn(xs: seq<seq<Double>>, x: seq<Double>, v: Double)
    requires v in x
    ensures Stored(xs + [x], v)
  {
    var j :| 0 <= j < |x| && x[j] == v;
    assert (xs + [x])[|xs|][j] == v;
  }

  /** A stored sample stays stored when another series is appended. */
  lemma StoredKept(xs: seq<seq<Double>>, x: seq<Double>, v: Double)
    requires Stored(xs, v)
    ensures Stored(xs + [x], v)
  {
    var k, j :| 0 <= k < |xs| && 0 <= j < |xs[k]| && xs[k][j] == v;
    assert (xs + [x])[k][j] == v;
  }
}
