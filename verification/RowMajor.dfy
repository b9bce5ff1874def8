/** Row-major positions: facts about row * width + column. */
module RowMajor {

  lemma {:induction false} SmallMultipleIsZero(x: int, width: int)
    requires -width < x * width < width
    ensures x == 0
  {
    if x >= 1 {
      MulMonotone(1, x, width);
    } else if x <= -1 {
      MulMonotone(x, -1, width);
    }
  }

  lemma {:induction false} MulMonotone(a: int, b: int, width: int)
    requires a <= b && 0 <= width
    ensures a * width <= b * width
  {
    assert b * width == a * width + (b - a) * width;
  }

  /** A row ends before any later row starts. */
  lemma {:induction false} RowsApart(stride: nat, i: nat, j: nat)
    requires i < j
    ensures i * stride + stride <= j * stride
  {
    MulMonotone(i + 1, j, stride);
    assert (i + 1) * stride == i * stride + stride;
  }

  /** Two positions in the same buffer are equal only if row and column are. */
  lemma {:induction false} PositionsApart(width: nat, r: int, k: nat, r': int, k': nat)
    requires k < width && k' < width && r * width + k == r' * width + k'
    ensures r == r' && k == k'
  {
    assert (r - r') * width == k' - k;
    SmallMultipleIsZero(r - r', width);
  }

  lemma {:induction false} DivMod(row: nat, width: nat, k: nat)
    requires k < width
    ensures (row * width + k) / width == row && (row * width + k) % width == k
  {
    var n := row * width + k;
    PositionsApart(width, row, k, n / width, n % width);
  }

  lemma {:induction false} Below(row: nat, rows: nat, width: nat, k: nat)
    requires row < rows && k < width
    ensures row * width + k < rows * width
  {
    MulMonotone(row + 1, rows, width);
    assert (row + 1) * width == row * width + width;
  }

  /** Splitting a position into row and column. */
  lemma {:induction false} Split(n: nat, rows: nat, width: nat)
    requires n < rows * width
    ensures 0 < width && n / width < rows && n % width < width && n == (n / width) * width + n % width
  {
    if width == 0 {
      assert false;
    }
    if n / width >= rows {
      MulMonotone(rows, n / width, width);
    }
  }
}
