/** `MSPlot` of src/msplot.hpp: a figure of subplot frames, each frame a list
    of curves.  `addSubplot` checks the position against `rows * cols` and
    flips the row, so position 0 gets the largest y; `plot` validates its input and appends one
    curve to the last frame. */
module SrcMsplotHpp {
  import opened Errors
  import opened Bounds
  import opened Grid
  import opened Ticks

  /** A colour of the SVG library, by name. */
  type Color = string

  const SizeMismatch: Error := InvalidArgument("X and Y vectors must have same size")
  const EmptyData: Error := InvalidArgument("Data vectors cannot be empty")
  const NoSubplot: Error := RuntimeError("No subplot available. Call addSubplot first.")
  const PositionOutOfRange: Error := OutOfRange("Subplot position exceeds grid size")

  /** `SubplotFrame::CurveData`: the samples of one curve, its label and colour. */
  datatype CurveData = CurveData(data: seq<Point>, labelText: string, color: Color)

  /** `SubplotFrame`: the curves drawn in one frame and the frame's placement. */
  datatype SubplotFrame = SubplotFrame(curves: seq<CurveData>, xPos: int, yPos: int, fullWidth: int, fullHeight: int)

  /** A fresh frame placed on a grid cell, with no curves yet. */
  function FrameAt(c: Cell): (f: SubplotFrame)
    ensures f.curves == []
    ensures Cell(f.xPos, f.yPos, f.fullWidth, f.fullHeight) == c
  {
    SubplotFrame([], c.x, c.y, c.width, c.height)
  }

  /** The `CurveData` constructor: rejects vectors of different sizes, then
      empty vectors, and otherwise pairs `x[i]` with `y[i]` in order. */
  method NewCurveData(x: seq<Double>, y: seq<Double>, labelText: string, color: Color) returns (r: Result<CurveData>)
    ensures |x| != |y| ==> r == Err(SizeMismatch)
    ensures |x| == |y| && x == [] ==> r == Err(EmptyData)
    ensures |x| == |y| && x != [] ==> r.Ok? && r.value.labelText == labelText && r.value.color == color
    ensures r.Ok? ==> |r.value.data| == |x| > 0
    ensures r.Ok? ==> forall i :: 0 <= i < |x| ==> r.value.data[i] == Point(x[i], y[i])
  {
    if |x| != |y| {
      return Err(SizeMismatch);
    }
    if x == [] {
      return Err(EmptyData);
    }
    var data: seq<Point> := [];
    var i := 0;
    while i < |x|
      invariant 0 <= i <= |x|
      invariant data == Zip(x[..i], y)
    {
      assert x[..i + 1][..i] == x[..i];
      data := data + [Point(x[i], y[i])];
      i := i + 1;
    }
    assert x[..i] == x;
    r := Ok(CurveData(data, labelText, color));
  }

  /** The samples of every curve, curve by curve. */
  function CurveSamples(curves: seq<CurveData>): (s: seq<seq<Point>>)
    ensures |s| == |curves|
    ensures forall i :: 0 <= i < |curves| ==> s[i] == curves[i].data
  {
    seq(|curves|, i requires 0 <= i < |curves| => curves[i].data)
  }

  /** The limits `Plot::group` computes: `getMinMax` of every curve, combined
      with `std::min` / `std::max`.  They are the bounds of all samples of all
      curves together, enclose every sample and, when there is a sample, each
      is attained; with no curves the sentinels remain. */
  method GroupLimits(curves: seq<CurveData>) returns (b: Bounds)
    ensures b == JoinAll(CurveSamples(curves))
    ensures b == BoundsOf(ConcatAll(CurveSamples(curves)))
    ensures Encloses(b, ConcatAll(CurveSamples(curves)))
    ensures ConcatAll(CurveSamples(curves)) != [] ==> Attained(b, ConcatAll(CurveSamples(curves)))
    ensures curves == [] ==> b == Sentinel
    ensures curves != [] && (forall k :: 0 <= k < |curves| ==> curves[k].data != []) ==>
      Attained(b, ConcatAll(CurveSamples(curves)))
  {
    ghost var samples := CurveSamples(curves);
    b := Sentinel;
    var i := 0;
    while i < |curves|
      invariant 0 <= i <= |curves|
      invariant b == JoinAll(samples[..i])
    {
      var curveBounds := ScanBounds(curves[i].data);
      assert samples[..i + 1][..i] == samples[..i];
      b := Join(b, curveBounds);
      i := i + 1;
    }
    assert samples[..i] == samples;
    JoinAllIsBoundsOfAll(samples);
    if curves != [] && (forall k :: 0 <= k < |curves| ==> curves[k].data != []) {
      assert ConcatAll(samples) == ConcatAll(samples[..|samples| - 1]) + curves[|curves| - 1].data;
    }
    BoundsOfEncloses(ConcatAll(samples));
    if ConcatAll(samples) != [] {
      BoundsOfAttained(ConcatAll(samples));
    }
  }

  const Margin: int := 40
  const LeftMargin: int := 80

  /** The `Plot` constructor: the plotting area inside a frame at `(x, y)` of
      size `w` x `h` keeps 80 pixels on the left and 40 on the other sides. */
  function PlotArea(x: int, y: int, w: int, h: int): (area: Cell)
    ensures area.x - x == LeftMargin && (x + w) - (area.x + area.width) == Margin
    ensures area.y - y == Margin && (y + h) - (area.y + area.height) == Margin
  {
    Cell(x + LeftMargin, y + Margin, w - LeftMargin - Margin, h - 2 * Margin)
  }

  /** A frame large enough for the margins holds its plotting area. */
  lemma PlotAreaInsideFrame(x: int, y: int, w: int, h: int)
    requires w >= LeftMargin + Margin && h >= 2 * Margin
    ensures var a := PlotArea(x, y, w, h);
      a.width >= 0 && a.height >= 0 && x <= a.x && a.x + a.width <= x + w && y <= a.y && a.y + a.height <= y + h
  {
  }

  /** `xAxisTicks`: `n = 5`, so six ticks from `x_min` to `x_max` along the
      edge `y = y_pos` of the plotting area, at pixel `x_pos + width * i / 5`. */
  method XAxisTicks(area: Cell, xMin: real, xMax: real) returns (ticks: seq<Tick>)
    ensures |ticks| == 6
    ensures forall i :: 0 <= i < 6 ==> ticks[i] == Tick(TickValue(xMin, xMax, i, 5), TickPixel(area.x, area.width, i, 5))
    ensures ticks[0] == Tick(xMin, area.x) && ticks[5] == Tick(xMax, area.x + area.width)
  {
    ticks := AxisTicks(xMin, xMax, area.x, area.width, 5);
    TickValueEnds(xMin, xMax, 5);
    TickPixelEnds(area.x, area.width, 0, 5);
  }

  /** `yAxisTicks`: `n = 2`, so three ticks from `y_min` to `y_max` at the
      edge `x = x_pos` of the plotting area, at pixels from `y_pos` to
      `y_pos + height`: pixel `y_pos + height * i / 2`. */
  method YAxisTicks(area: Cell, yMin: real, yMax: real) returns (ticks: seq<Tick>)
    ensures |ticks| == 3
    ensures forall i :: 0 <= i < 3 ==> ticks[i] == Tick(TickValue(yMin, yMax, i, 2), TickPixel(area.y, area.height, i, 2))
    ensures ticks[0] == Tick(yMin, area.y) && ticks[2] == Tick(yMax, area.y + area.height)
  {
    ticks := AxisTicks(yMin, yMax, area.y, area.height, 2);
    TickValueEnds(yMin, yMax, 2);
    TickPixelEnds(area.y, area.height, 0, 2);
  }

  /** `MSPlot::Figure`. */
  class Figure {
    var subplots: seq<SubplotFrame>
    const width: int
    const height: int

    /** Every stored curve has at least one sample, as the `CurveData`
        constructor guarantees; so the limits `GroupLimits` computes for a
        frame holding a curve are attained (its last `ensures`). */
    ghost predicate Valid()
      reads this
    {
      forall i, j :: 0 <= i < |subplots| && 0 <= j < |subplots[i].curves| ==> |subplots[i].curves[j].data| > 0
    }

    constructor (w: int, h: int)
      ensures Valid()
      ensures width == w && height == h && subplots == []
    {
      width, height := w, h;
      subplots := [];
    }

    /** `getCurrentSubplot`: the most recently added frame (`back()` is
        undefined on an empty vector). */
    function CurrentSubplot(): (f: SubplotFrame)
      reads this
      requires subplots != []
      ensures f == subplots[|subplots| - 1]
    {
      subplots[|subplots| - 1]
    }

    /** `addSubplot`: a position at or beyond `rows * cols` throws
        out_of_range and changes nothing; otherwise one frame is appended on
        the grid cell of `position`, its row flipped to
        `rows - 1 - position / cols`, so position 0 gets the largest y.  C++
        division by zero is undefined, so a position that passes the check
        needs non-zero `rows` and `cols`. */
    method AddSubplot(rows: int, cols: int, position: int) returns (outcome: Outcome)
      requires Valid()
      requires position >= rows * cols || (rows != 0 && cols != 0)
      modifies this
      ensures Valid()
      ensures position >= rows * cols ==> outcome == Fail(PositionOutOfRange) && subplots == old(subplots)
      ensures position < rows * cols ==>
        && outcome == Pass
        && subplots == old(subplots) + [FrameAt(GridCell(width, height, rows, cols, position, true))]
        && CurrentSubplot() == FrameAt(GridCell(width, height, rows, cols, position, true))
      ensures outcome == Pass && 0 <= position && rows > 0 && cols > 0 && width >= 0 && height >= 0 ==>
        var f := CurrentSubplot(); Inside(Cell(f.xPos, f.yPos, f.fullWidth, f.fullHeight), width, height)
    {
      if position >= rows * cols {
        return Fail(PositionOutOfRange);
      }
      var subplot := FrameAt(GridCell(width, height, rows, cols, position, true));
      subplots := subplots + [subplot];
      outcome := Pass;
      if 0 <= position && rows > 0 && cols > 0 && width >= 0 && height >= 0 {
        CellInsideFigure(width, height, rows, cols, position, true);
      }
    }

    /** `plot`: throws runtime_error without a frame, then invalid_argument
        on vectors of different sizes, then on empty vectors, changing
        nothing; otherwise appends one curve to the last frame and leaves
        every other frame, and the earlier curves, as they were. */
    method Plot(x: seq<Double>, y: seq<Double>, labelText: string, color: Color) returns (outcome: Outcome)
      requires Valid()
      modifies this
      ensures Valid()
      ensures old(subplots) == [] ==> outcome == Fail(NoSubplot)
      ensures old(subplots) != [] && |x| != |y| ==> outcome == Fail(SizeMismatch)
      ensures old(subplots) != [] && |x| == |y| && x == [] ==> outcome == Fail(EmptyData)
      ensures outcome.Fail? ==> subplots == old(subplots)
      ensures old(subplots) != [] && |x| == |y| && x != [] ==>
        && outcome == Pass
        && |subplots| == |old(subplots)|
        && subplots[..|subplots| - 1] == old(subplots)[..|subplots| - 1]
        && CurrentSubplot() == old(CurrentSubplot()).(curves := old(CurrentSubplot()).curves + [CurveData(Zip(x, y), labelText, color)])
    {
      if subplots == [] {
        return Fail(NoSubplot);
      }
      if |x| != |y| {
        return Fail(SizeMismatch);
      }
      if x == [] {
        return Fail(EmptyData);
      }
      var subplot := CurrentSubplot();
      var curveData := NewCurveData(x, y, labelText, color);
      assert curveData.value.data == Zip(x, y);
      subplots := subplots[..|subplots| - 1] + [subplot.(curves := subplot.curves + [curveData.value])];
      outcome := Pass;
    }
  }
}
