/** `MSPlot` of msplot.h: an early draft whose frames only carry placement,
    label and colour.  `addSubplot` has no bounds check. */
module MsplotH {
  import opened Grid

  /** `Subplot`: label, colour and placement (the data field is commented
      out in this draft). */
  datatype Subplot = Subplot(labelText: string, color: string, xPos: int, yPos: int, width: int, height: int)

  /** A default-constructed frame placed on a grid cell. */
  function SubplotAt(c: Cell): (s: Subplot)
    ensures s.labelText == "" && s.color == ""
    ensures Cell(s.xPos, s.yPos, s.width, s.height) == c
  {
    Subplot("", "", c.x, c.y, c.width, c.height)
  }

  /** `MSPlot::Figure`. */
  class Figure {
    var subplots: seq<Subplot>
    const width: int
    const height: int

    constructor (w: int, h: int)
      ensures width == w && height == h && subplots == []
    {
      width, height := w, h;
      subplots := [];
    }

    /** `addSubplot`: no bounds check, every call appends exactly one frame on
        the grid cell of `position`, row `position / cols`
        counted from y = 0, and leaves the
        earlier frames as they were.  C++ division by zero is undefined, so
        `rows` and `cols` must be non-zero. */
    method AddSubplot(rows: int, cols: int, position: int)
      requires rows != 0 && cols != 0
      modifies this
      ensures subplots == old(subplots) + [SubplotAt(GridCell(width, height, rows, cols, position, false))]
      ensures 0 <= position < rows * cols && rows > 0 && cols > 0 && width >= 0 && height >= 0 ==>
        var s := CurrentSubplot(); Inside(Cell(s.xPos, s.yPos, s.width, s.height), width, height)
    {
      var plot := SubplotAt(GridCell(width, height, rows, cols, position, false));
      subplots := subplots + [plot];
      if 0 <= position < rows * cols && rows > 0 && cols > 0 && width >= 0 && height >= 0 {
        CellInsideFigure(width, height, rows, cols, position, false);
      }
    }

    /** `getCurrentSubplot`: the most recently added frame (`back()` is
        undefined on an empty vector). */
    function CurrentSubplot(): (s: Subplot)
      reads this
      requires subplots != []
      ensures s == subplots[|subplots| - 1]
    {
      subplots[|subplots| - 1]
    }
  }
}
