/** Rows of equal length laid end to end: the arithmetic of one index for two. */
module Grid {
  lemma Grows(a: nat, b: nat, c: nat)
    requires a <= b
    ensures a * c <= b * c
  {
  }

  /** A cell's index is its row times the row length plus its place in the row, and only so. */
  lemma CellOf(row: nat, col: nat, rows: nat, cols: nat)
    requires col < cols
    ensures (row * cols + col) / cols == row && (row * cols + col) % cols == col
    ensures row < rows ==> row * cols + col < rows * cols
  {
    var i := row * cols + col;
    assert i == cols * (i / cols) + i % cols;
    if i / cols < row {
      Grows(i / cols + 1, row, cols);
    } else if i / cols > row {
      Grows(row + 1, i / cols, cols);
    }
    if row < rows {
      Grows(row + 1, rows, cols);
    }
  }

  lemma CellExists(i: nat, rows: nat, cols: nat)
    requires i < rows * cols
    ensures cols > 0 && i / cols < rows && i == (i / cols) * cols + i % cols
  {
    assert i == cols * (i / cols) + i % cols;
    if i / cols >= rows {
      Grows(rows, i / cols, cols);
    }
  }
}
