/**
  Row-major flattening of a two-dimensional index.

  The same map `(row, col) |-> row * width + col` addresses neuron rows in the
  structure-of-arrays layer, image pixels when MNIST images are flattened, and
  the (epoch, example) steps of training.
 */
module Indexing {

  /** The row-major position of `(row, col)` in a buffer of rows of `width` cells. */
  function FlatIndex(row: int, col: int, width: int): int
  {
    row * width + col
  }

  /** A row-major view: the `width` cells of row `row`. */
  function Row<T>(flat: seq<T>, row: nat, width: nat): (r: seq<T>)
    requires row * width + width <= |flat|
    ensures |r| == width
  {
    flat[row * width .. row * width + width]
  }

  /** Cell `col` of row `row` is the buffer cell at the row-major position of `(row, col)`. */
  lemma RowCell<T>(flat: seq<T>, row: nat, width: nat, col: nat)
    requires row * width + width <= |flat| && col < width
    ensures FlatIndex(row, col, width) < |flat|
    ensures Row(flat, row, width)[col] == flat[FlatIndex(row, col, width)]
  {
  }

  lemma MulMonotone(a: nat, b: nat, c: nat)
    requires a <= b
    ensures a * c <= b * c
  {
    assert b * c == a * c + (b - a) * c;
  }

  /** Row `row` of a `rows x width` buffer lies inside the buffer. */
  lemma RowWithin(row: nat, rows: nat, width: nat)
    requires row < rows
    ensures row * width + width <= rows * width
  {
    MulMonotone(row + 1, rows, width);
    assert (row + 1) * width == row * width + width;
  }

  /** Every in-range `(row, col)` lands inside `[0, rows * width)`. */
  lemma FlatIndexBounds(row: nat, col: nat, rows: nat, width: nat)
    requires row < rows && col < width
    ensures 0 <= FlatIndex(row, col, width) < rows * width
  {
    RowWithin(row, rows, width);
  }

  /** A cell in an earlier row precedes every cell of a later row. */
  lemma FlatIndexOrdered(row1: nat, col1: nat, row2: nat, col2: nat, width: nat)
    requires row1 < row2 && col1 < width
    ensures FlatIndex(row1, col1, width) < FlatIndex(row2, col2, width)
  {
    RowWithin(row1, row2, width);
  }

  /** No two in-range index pairs share a position. */
  lemma FlatIndexInjective(row1: nat, col1: nat, row2: nat, col2: nat, width: nat)
    requires col1 < width && col2 < width
    requires FlatIndex(row1, col1, width) == FlatIndex(row2, col2, width)
    ensures row1 == row2 && col1 == col2
  {
    if row1 < row2 {
      FlatIndexOrdered(row1, col1, row2, col2, width);
    } else if row2 < row1 {
      FlatIndexOrdered(row2, col2, row1, col1, width);
    }
  }

  /** Every position of `[0, rows * width)` is reached, by `(k / width, k % width)`. */
  lemma FlatIndexSurjective(k: nat, rows: nat, width: nat)
    requires k < rows * width
    ensures width > 0
    ensures 0 <= k / width < rows && 0 <= k % width < width
    ensures FlatIndex(k / width, k % width, width) == k
  {
    assert k == (k / width) * width + k % width;
    if k / width >= rows {
      MulMonotone(rows, k / width, width);
    }
  }

  /**
    The rows of a `rows x width` buffer are pairwise disjoint and inside it:
    distinct rows never share a cell.
   */
  lemma RowsDisjoint(row1: nat, row2: nat, rows: nat, width: nat)
    requires row1 < rows && row2 < rows && row1 != row2
    ensures row1 * width + width <= rows * width && row2 * width + width <= rows * width
    ensures forall c1, c2 :: 0 <= c1 < width && 0 <= c2 < width ==>
              FlatIndex(row1, c1, width) != FlatIndex(row2, c2, width)
  {
    RowWithin(row1, rows, width);
    RowWithin(row2, rows, width);
    forall c1, c2 | 0 <= c1 < width && 0 <= c2 < width
      ensures FlatIndex(row1, c1, width) != FlatIndex(row2, c2, width)
    {
      if FlatIndex(row1, c1, width) == FlatIndex(row2, c2, width) {
        FlatIndexInjective(row1, c1, row2, c2, width);
      }
    }
  }
}
