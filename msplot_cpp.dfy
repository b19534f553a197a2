/** `Plot` of msplot.cpp: frames accumulate samples across calls.
    `addSubplot` has no bounds check; `plot` validates nothing, appends the
    pairs `(x[i], y[i])` to the last frame's samples and overwrites its label
    and colour. */
module MsplotCpp {
  import opened Bounds
  import opened Grid

  /** `Subplot`: samples, label, colour and placement. */
  datatype Subplot = Subplot(data: seq<Point>, labelText: string, color: string,
                             xPos: int, yPos: int, width: int, height: int)

  /** A default-constructed frame placed on a grid cell. */
  function SubplotAt(c: Cell): (s: Subplot)
    ensures s.data == [] && s.labelText == "" && s.color == ""
    ensures Cell(s.xPos, s.yPos, s.width, s.height) == c
  {
    Subplot([], "", "", c.x, c.y, c.width, c.height)
  }

  /** `Plot::Figure`. */
  class Figure {
    var subplots: seq<Subplot>
    const width: int
    const height: int

    constructor (w: int, h: int)
      ensures width == w && height == h && subplots == []
    {
      width, height := w, h;
      subplots := [];
    }

    /** `addSubplot`: no bounds check, every call appends exactly one frame on
        the grid cell of `position`, row `position / cols`
        counted from y = 0, and leaves the
        earlier frames as they were.  C++ division by zero is undefined, so
        `rows` and `cols` must be non-zero. */
    method AddSubplot(rows: int, cols: int, position: int)
      requires rows != 0 && cols != 0
      modifies this
      ensures subplots == old(subplots) + [SubplotAt(GridCell(width, height, rows, cols, position, false))]
      ensures 0 <= position < rows * cols && rows > 0 && cols > 0 && width >= 0 && height >= 0 ==>
        var s := CurrentSubplot(); Inside(Cell(s.xPos, s.yPos, s.width, s.height), width, height)
    {
      var plot := SubplotAt(GridCell(width, height, rows, cols, position, false));
      subplots := subplots + [plot];
      if 0 <= position < rows * cols && rows > 0 && cols > 0 && width >= 0 && height >= 0 {
        CellInsideFigure(width, height, rows, cols, position, false);
      }
    }

    /** `getCurrentSubplot`: the most recently added frame (`back()` is
        undefined on an empty vector). */
    function CurrentSubplot(): (s: Subplot)
      reads this
      requires subplots != []
      ensures s == subplots[|subplots| - 1]
    {
      subplots[|subplots| - 1]
    }

    /** `plot`: keeps the last frame's earlier samples and appends
        `(x[i], y[i])` for every index of `x`, then overwrites its label and
        colour; every other frame stays as it was.  Nothing is checked:
        `back()` on no frame and reading `y` past its end are undefined, so a
        frame must exist and `y` must be at least as long as `x`. */
    method Plot(x: seq<Double>, y: seq<Double>, labelText: string, color: string)
      requires subplots != []
      requires |y| >= |x|
      modifies this
      ensures |subplots| == |old(subplots)|
      ensures subplots[..|subplots| - 1] == old(subplots)[..|subplots| - 1]
      ensures CurrentSubplot() == old(CurrentSubplot()).(data := old(CurrentSubplot()).data + Zip(x, y),
                                                         labelText := labelText, color := color)
    {
      var subplot := CurrentSubplot();
      ghost var before := subplot.data;
      var i := 0;
      while i < |x|
        invariant 0 <= i <= |x|
        invariant subplot == old(CurrentSubplot()).(data := before + Zip(x[..i], y))
      {
        assert x[..i + 1][..i] == x[..i];
        subplot := subplot.(data := subplot.data + [Point(x[i], y[i])]);
        i := i + 1;
      }
      assert x[..i] == x;
      subplot := subplot.(labelText := labelText, color := color);
      subplots := subplots[..|subplots| - 1] + [subplot];
    }
  }
}
