/** `MSPlot` of msplot.hpp: every subplot frame holds one data series.
    `addSubplot` checks the position against `rows * cols` and counts rows
    from y = 0; `plot` validates its input, then clears the last frame's
    samples and refills them, overwriting its label and colour. */
module MsplotHpp {
  import opened Errors
  import opened Bounds
  import opened Grid
  import opened Ticks

  /** A colour of the SVG library, by name. */
  type Color = string

  /** The colour a default-constructed frame holds before its first `plot`. */
  const UnsetColor: Color := ""

  const SizeMismatch: Error := InvalidArgument("X and Y vectors must have same size")
  const EmptyData: Error := InvalidArgument("Data vectors cannot be empty")
  const NoSubplot: Error := RuntimeError("No subplot available. Call addSubplot first.")
  const PositionOutOfRange: Error := OutOfRange("Subplot position exceeds grid size")

  /** `SubplotFrame`: one series with its label and colour, and the frame's
      placement. */
  datatype SubplotFrame = SubplotFrame(data: seq<Point>, labelText: string, color: Color,
                                       xPos: int, yPos: int, fullWidth: int, fullHeight: int)

  /** A frame placed on a grid cell, before anything is plotted in it. */
  function FrameAt(c: Cell): (f: SubplotFrame)
    ensures f.data == [] && f.labelText == "" && f.color == UnsetColor
    ensures Cell(f.xPos, f.yPos, f.fullWidth, f.fullHeight) == c
  {
    SubplotFrame([], "", UnsetColor, c.x, c.y, c.width, c.height)
  }

  const Margin: int := 40

  /** `SubplotFrame::render`: the plotting area keeps a 40-pixel margin on
      every side of the frame. */
  function PlotArea(f: SubplotFrame): (area: Cell)
    ensures area.x - f.xPos == Margin && (f.xPos + f.fullWidth) - (area.x + area.width) == Margin
    ensures area.y - f.yPos == Margin && (f.yPos + f.fullHeight) - (area.y + area.height) == Margin
  {
    Cell(f.xPos + Margin, f.yPos + Margin, f.fullWidth - 2 * Margin, f.fullHeight - 2 * Margin)
  }

  /** A frame at least 80 pixels wide and high holds its plotting area. */
  lemma PlotAreaInsideFrame(f: SubplotFrame)
    requires f.fullWidth >= 2 * Margin && f.fullHeight >= 2 * Margin
    ensures var a := PlotArea(f);
      && a.width >= 0 && a.height >= 0
      && f.xPos <= a.x && a.x + a.width <= f.xPos + f.fullWidth
      && f.yPos <= a.y && a.y + a.height <= f.yPos + f.fullHeight
  {
  }

  /** The limits `Plot::render` folds over the frame's samples: they enclose
      every sample and, when there is one, each is attained; an empty frame
      keeps the sentinels. */
  method RenderLimits(f: SubplotFrame) returns (b: Bounds)
    ensures Encloses(b, f.data)
    ensures f.data != [] ==> Attained(b, f.data)
    ensures f.data == [] ==> b == Sentinel
  {
    b := ScanBounds(f.data);
  }

  /** The x-axis tick loop of `Plot::render`: `n = 5`, so six ticks from
      `x_min` to `x_max` along the edge `y = y_pos + height` of the plotting area, at pixel
      `x_pos + width * i / 5`. */
  method RenderXTicks(area: Cell, xMin: real, xMax: real) returns (ticks: seq<Tick>)
    ensures |ticks| == 6
    ensures forall i :: 0 <= i < 6 ==> ticks[i] == Tick(TickValue(xMin, xMax, i, 5), TickPixel(area.x, area.width, i, 5))
    ensures ticks[0] == Tick(xMin, area.x) && ticks[5] == Tick(xMax, area.x + area.width)
  {
    ticks := AxisTicks(xMin, xMax, area.x, area.width, 5);
    TickValueEnds(xMin, xMax, 5);
    TickPixelEnds(area.x, area.width, 0, 5);
  }

  /** `MSPlot::Figure`. */
  class Figure {
    var subplots: seq<SubplotFrame>
    const width: int
    const height: int

    constructor (w: int, h: int)
      ensures width == w && height == h && subplots == []
    {
      width, height := w, h;
      subplots := [];
    }

    /** `getCurrentSubplot`: the most recently added frame (`back()` is
        undefined on an empty vector). */
    function CurrentSubplot(): (f: SubplotFrame)
      reads this
      requires subplots != []
      ensures f == subplots[|subplots| - 1]
    {
      subplots[|subplots| - 1]
    }

    /** `addSubplot`: a position at or beyond `rows * cols` throws
        out_of_range and changes nothing; otherwise one frame is appended on
        the grid cell of `position`, row `position / cols` counted from y = 0.  C++ division
        by zero is undefined, so a position that passes the check needs
        non-zero `rows` and `cols`. */
    method AddSubplot(rows: int, cols: int, position: int) returns (outcome: Outcome)
      requires position >= rows * cols || (rows != 0 && cols != 0)
      modifies this
      ensures position >= rows * cols ==> outcome == Fail(PositionOutOfRange) && subplots == old(subplots)
      ensures position < rows * cols ==>
        && outcome == Pass
        && subplots == old(subplots) + [FrameAt(GridCell(width, height, rows, cols, position, false))]
      ensures outcome == Pass && 0 <= position && rows > 0 && cols > 0 && width >= 0 && height >= 0 ==>
        var f := CurrentSubplot(); Inside(Cell(f.xPos, f.yPos, f.fullWidth, f.fullHeight), width, height)
    {
      if position >= rows * cols {
        return Fail(PositionOutOfRange);
      }
      var plot := FrameAt(GridCell(width, height, rows, cols, position, false));
      subplots := subplots + [plot];
      outcome := Pass;
      if 0 <= position && rows > 0 && cols > 0 && width >= 0 && height >= 0 {
        CellInsideFigure(width, height, rows, cols, position, false);
      }
    }

    /** `plot`: throws runtime_error without a frame, then invalid_argument
        on vectors of different sizes, then on empty vectors, changing
        nothing; otherwise the last frame's samples become exactly the pairs
        `(x[i], y[i])`, its label and colour the arguments, and every other
        frame stays as it was. */
    method Plot(x: seq<Double>, y: seq<Double>, labelText: string, color: Color) returns (outcome: Outcome)
      modifies this
      ensures old(subplots) == [] ==> outcome == Fail(NoSubplot)
      ensures old(subplots) != [] && |x| != |y| ==> outcome == Fail(SizeMismatch)
      ensures old(subplots) != [] && |x| == |y| && x == [] ==> outcome == Fail(EmptyData)
      ensures outcome.Fail? ==> subplots == old(subplots)
      ensures old(subplots) != [] && |x| == |y| && x != [] ==>
        && outcome == Pass
        && |subplots| == |old(subplots)|
        && subplots[..|subplots| - 1] == old(subplots)[..|subplots| - 1]
        && CurrentSubplot() == old(CurrentSubplot()).(data := Zip(x, y), labelText := labelText, color := color)
    {
      if subplots == [] {
        return Fail(NoSubplot);
      }
      if |x| != |y| {
        return Fail(SizeMismatch);
      }
      if x == [] {
        return Fail(EmptyData);
      }
      var subplot := CurrentSubplot();
      var data: seq<Point> := [];
      var i := 0;
      while i < |x|
        invariant 0 <= i <= |x|
        invariant data == Zip(x[..i], y)
      {
        assert x[..i + 1][..i] == x[..i];
        data := data + [Point(x[i], y[i])];
        i := i + 1;
      }
      assert x[..i] == x;
      subplots := subplots[..|subplots| - 1] + [subplot.(data := data, labelText := labelText, color := color)];
      outcome := Pass;
    }
  }
}
