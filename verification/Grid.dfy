/** Row-major offsets of rectangles in flat buffers. */
module Grid {
  /** Offset of row y, column x in a matrix of the given width. */
  function Cell(y: nat, x: nat, width: nat): nat { y * width + x }

  function Area(rows: nat, cols: nat): nat { rows * cols }

  lemma MulSum(a: nat, b: nat, c: nat)
    ensures (a + b) * c == a * c + b * c
  {
  }

  lemma MulAtLeast(a: nat, c: nat)
    requires a >= 1
    ensures a * c >= c
  {
  }

  lemma CellBound(rows: nat, cols: nat, y: nat, x: nat)
    requires y < rows && x < cols
    ensures Cell(y, x, cols) < Area(rows, cols)
    ensures Cell(y, 0, cols) + cols <= Area(rows, cols)
  {
    MulSum(y, rows - y, cols);
    MulAtLeast(rows - y, cols);
  }

  lemma CellBounds(rows: nat, cols: nat)
    ensures forall y: nat, x: nat :: y < rows && x < cols ==> Cell(y, x, cols) < Area(rows, cols)
  {
    hide Cell, Area;
    forall y: nat, x: nat | y < rows && x < cols ensures Cell(y, x, cols) < Area(rows, cols) {
      CellBound(rows, cols, y, x);
    }
  }

  lemma CellDistinct(cols: nat, y: nat, x: nat, y': nat, x': nat)
    requires x < cols && x' < cols && y < y'
    ensures Cell(y, x, cols) < Cell(y', x', cols)
  {
    MulSum(y, y' - y, cols);
    MulAtLeast(y' - y, cols);
  }

  /** The cells other than (y, x). */
  lemma OtherCells(cols: nat, y: nat, x: nat)
    requires x < cols
    ensures forall y': nat, x': nat :: x' < cols && (y' != y || x' != x) ==> Cell(y', x', cols) != Cell(y, x, cols)
  {
    hide Cell;
    forall y': nat, x': nat | x' < cols && (y' != y || x' != x) ensures Cell(y', x', cols) != Cell(y, x, cols) {
      if y' < y {
        CellDistinct(cols, y', x', y, x);
      } else if y < y' {
        CellDistinct(cols, y, x, y', x');
      } else {
        CellInRow(y, x, cols);
        CellInRow(y, x', cols);
      }
    }
  }

  lemma CellNextRow(y: nat, x: nat, cols: nat)
    ensures Cell(y + 1, x, cols) == Cell(y, x, cols) + cols
  {
    MulSum(y, 1, cols);
  }

  lemma CellInRow(y: nat, x: nat, cols: nat)
    ensures Cell(y, x, cols) == Cell(y, 0, cols) + x
  {
  }

  lemma AreaZero(cols: nat)
    ensures Area(0, cols) == 0 && Cell(0, 0, cols) == 0
  {
  }

  lemma AreaNext(rows: nat, cols: nat)
    ensures Area(rows + 1, cols) == Area(rows, cols) + cols && Area(rows, cols) == Cell(rows, 0, cols)
  {
    MulSum(rows, 1, cols);
  }

  lemma RowsFit(rows: nat, cols: nat)
    ensures forall y: nat :: y < rows ==> Cell(y, 0, cols) + cols <= Area(rows, cols)
    ensures forall y: nat, x: nat :: y < rows && x < cols ==>
              Cell(y, x, cols) == Cell(y, 0, cols) + x < Area(rows, cols)
  {
    hide Cell, Area;
    forall y: nat | y < rows ensures Cell(y, 0, cols) + cols <= Area(rows, cols) {
      if cols > 0 { CellBound(rows, cols, y, 0); } else { CellFlat(rows, y); }
    }
    forall y: nat, x: nat | y < rows && x < cols ensures Cell(y, x, cols) == Cell(y, 0, cols) + x < Area(rows, cols) {
      CellBound(rows, cols, y, x);
      CellInRow(y, x, cols);
    }
  }

  lemma CellFlat(rows: nat, y: nat)
    ensures Cell(y, 0, 0) == 0 == Area(rows, 0)
  {
  }

  lemma AreaFour(w: nat)
    ensures Area(2 * w, 2 * w) == 4 * Area(w, w) && Area(w, 2 * w) == 2 * Area(w, w)
  {
  }

  lemma CellOrder(y: nat, z: nat, cols: nat)
    requires y < z
    ensures Cell(y, 0, cols) + cols <= Cell(z, 0, cols)
  {
    MulSum(y, z - y, cols);
    MulAtLeast(z - y, cols);
  }

  lemma FindCell(rows: nat, cols: nat, i: nat) returns (y: nat, x: nat)
    requires i < Area(rows, cols)
    ensures y < rows && x < cols && i == Cell(y, x, cols)
  {
    assert cols != 0;
    y, x := i / cols, i % cols;
    DivMod(i, cols);
    assert y >= rows ==> y * cols >= rows * cols by {
      if y >= rows { MulSum(rows, y - rows, cols); }
    }
  }

  lemma DivMod(i: nat, c: nat)
    requires c > 0
    ensures i == (i / c) * c + i % c && i / c >= 0 && i % c < c
  {
  }
}
