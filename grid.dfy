/** The subplot grid formula shared by every `Figure::addSubplot`.
    A figure of `width` x `height` pixels is cut into `rows` x `cols` cells;
    `position` numbers the cells row by row.  Each cell is
    `width / cols` wide and `height / rows` high (C++ integer division), its
    column is `position % cols` and its row `position / cols`.  One variant
    flips the row, `rows - 1 - row`, so position 0 gets the largest y (`flipRows`). */
module Grid {
  import opened CppInt

  /** Placement of one subplot frame: origin and size in figure pixels. */
  datatype Cell = Cell(x: int, y: int, width: int, height: int)

  function GridCell(width: int, height: int, rows: int, cols: int, position: int, flipRows: bool): (c: Cell)
    requires rows != 0 && cols != 0
    ensures rows > 0 && cols > 0 && width >= 0 && height >= 0 ==>
      0 <= c.width && cols * c.width <= width && 0 <= c.height && rows * c.height <= height
  {
    var w := Div(width, cols);
    var h := Div(height, rows);
    var row := Div(position, cols);
    var c := Cell(Mod(position, cols) * w, (if flipRows then rows - 1 - row else row) * h, w, h);
    if rows > 0 && cols > 0 && width >= 0 && height >= 0 then
      CellsFit(width, cols, 1);
      CellsFit(width, cols, cols);
      CellsFit(height, rows, 1);
      CellsFit(height, rows, rows);
      c
    else
      c
  }

  /** The cell lies within `[0, width] x [0, height]`. */
  predicate Inside(c: Cell, width: int, height: int)
  {
    0 <= c.x && c.x + c.width <= width && 0 <= c.y && c.y + c.height <= height
  }

  /** The two cells share no interior point. */
  predicate Disjoint(c: Cell, d: Cell)
  {
    c.x + c.width <= d.x || d.x + d.width <= c.x || c.y + c.height <= d.y || d.y + d.height <= c.y
  }

  /** Cells `i < j` of size `s` along one axis do not overlap. */
  lemma Separated(i: int, j: int, s: int)
    requires i < j && s >= 0
    ensures i * s + s <= j * s
  {
    MulMonotone(i + 1, j, s);
    assert (i + 1) * s == i * s + s;
  }

  /** `k` whole cells of size `extent / count` fit into `extent`. */
  lemma CellsFit(extent: int, count: int, k: int)
    requires extent >= 0 && count > 0 && 0 <= k <= count
    ensures 0 <= k * Div(extent, count) <= extent
  {
    var s := Div(extent, count);
    DivModNonNegative(extent, count);
    assert s == extent / count;
    assert count * s <= extent;
    assert 0 <= s by { if s < 0 { MulMonotone(s, -1, count); } }
    MulMonotone(0, k, s);
    MulMonotone(k, count, s);
  }

  /** Row and column of an in-range position stay inside the grid. */
  lemma RowAndColumn(rows: int, cols: int, position: int)
    requires rows > 0 && cols > 0 && 0 <= position < rows * cols
    ensures 0 <= Mod(position, cols) < cols
    ensures 0 <= Div(position, cols) < rows
    ensures position == Div(position, cols) * cols + Mod(position, cols)
  {
    DivModNonNegative(position, cols);
    var q, r := position / cols, position % cols;
    assert position == q * cols + r && 0 <= r < cols;
    assert 0 <= q by {
      if q < 0 { MulMonotone(q, -1, cols); }
    }
    assert q < rows by {
      if q >= rows { MulMonotone(rows, q, cols); }
    }
  }

  /** Cell `k` of `count` along an axis of length `extent` ends within it. */
  lemma CellOnAxis(extent: int, count: int, k: int)
    requires extent >= 0 && count > 0 && 0 <= k < count
    ensures 0 <= k * Div(extent, count)
    ensures k * Div(extent, count) + Div(extent, count) <= extent
  {
    var s := Div(extent, count);
    CellsFit(extent, count, k);
    CellsFit(extent, count, k + 1);
    assert (k + 1) * s == k * s + s;
  }

  /** An in-range position on a grid of positive size gives a cell inside the
      figure, whether the row is `position / cols` or flipped to
      `rows - 1 - position / cols`. */
  lemma {:induction false} CellInsideFigure(width: int, height: int, rows: int, cols: int, position: int, flipRows: bool)
    requires rows > 0 && cols > 0 && width >= 0 && height >= 0
    requires 0 <= position < rows * cols
    ensures Inside(GridCell(width, height, rows, cols, position, flipRows), width, height)
  {
    RowAndColumn(rows, cols, position);
    var row := Div(position, cols);
    var r := if flipRows then rows - 1 - row else row;
    CellOnAxis(width, cols, Mod(position, cols));
    CellOnAxis(height, rows, r);
  }

  /** Two cells of the same grid at different in-range positions never overlap,
      provided each cell is at least one pixel wide and high. */
  lemma {:induction false} CellsDisjoint(width: int, height: int, rows: int, cols: int, p: int, q: int, flipRows: bool)
    requires rows > 0 && cols > 0 && width >= cols && height >= rows
    requires 0 <= p < rows * cols && 0 <= q < rows * cols && p != q
    ensures Disjoint(GridCell(width, height, rows, cols, p, flipRows), GridCell(width, height, rows, cols, q, flipRows))
  {
    RowAndColumn(rows, cols, p);
    RowAndColumn(rows, cols, q);
    DivModNonNegative(width, cols);
    DivModNonNegative(height, rows);
    var w, h := Div(width, cols), Div(height, rows);
    CellsFit(width, cols, 0);
    CellsFit(height, rows, 0);
    assert w >= 1 by { if w < 1 { MulMonotone(w, 0, cols); } }
    assert h >= 1 by { if h < 1 { MulMonotone(h, 0, rows); } }
    var cp, cq := Mod(p, cols), Mod(q, cols);
    var rp, rq := Div(p, cols), Div(q, cols);
    if cp < cq {
      Separated(cp, cq, w);
    } else if cq < cp {
      Separated(cq, cp, w);
    } else {
      assert rp != rq;
      var fp := if flipRows then rows - 1 - rp else rp;
      var fq := if flipRows then rows - 1 - rq else rq;
      if fp < fq {
        Separated(fp, fq, h);
      } else {
        Separated(fq, fp, h);
      }
    }
  }

  /** A negative position is below `rows * cols`, so the bounds check that
      only tests the upper end lets it through; the resulting cell is not
      inside the figure when each cell is at least one pixel (`width >= cols`
      and `height >= rows`).  Then, with the row unflipped, every negative
      position escapes; with the row flipped every one that is not a
      multiple of `cols` does.  With narrower figures the cell can have zero
      width and stay inside. */
  lemma {:induction false} NegativePositionEscapes(width: int, height: int, rows: int, cols: int, position: int, flipRows: bool)
    requires rows > 0 && cols > 0 && width >= cols && height >= rows
    requires position < 0
    requires flipRows ==> Mod(position, cols) != 0
    ensures position < rows * cols
    ensures !Inside(GridCell(width, height, rows, cols, position, flipRows), width, height)
  {
    DivModNonNegative(width, cols);
    DivModNonNegative(height, rows);
    var w, h := Div(width, cols), Div(height, rows);
    CellsFit(width, cols, 0);
    CellsFit(height, rows, 0);
    assert w >= 1 by { if w < 1 { MulMonotone(w, 0, cols); } }
    assert h >= 1 by { if h < 1 { MulMonotone(h, 0, rows); } }
    var col, row := Mod(position, cols), Div(position, cols);
    assert col <= 0;
    if col < 0 {
      assert col * w < 0;
    } else {
      assert position == row * cols;
      assert row < 0;
      assert !flipRows;
      assert row * h < 0;
    }
  }
}
