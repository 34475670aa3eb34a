/**
 * The integer arithmetic of `Canvas::draw`: the canvas is resized to a square
 * of `width` cells of 20 units, and one cell is painted at the head's column
 * and row. The canvas calls themselves are not modelled; `Draw` returns what
 * they are given.
 */
module Geometry {
  import opened Usize

  const CELL_SIZE: nat := 20

  /** The arguments of one frame: side of the square canvas, top-left corner of the head cell, its side. */
  datatype Frame = Frame(side: nat, x: nat, y: nat, cell: nat)

  /**
   * What `draw` needs to run without a panic: `head % width` divides by `width`,
   * and the three products are computed on `u32`.
   */
  predicate DrawFits(width: nat, head: int) {
    0 <= head && 0 < width
    && width * CELL_SIZE <= U32_MAX
    && (head / width) * CELL_SIZE <= U32_MAX
  }

  lemma MulMonotone(a: nat, b: nat, c: nat)
    requires a <= b
    ensures a * c <= b * c
  {
  }

  /** The head's row `head / width` lies on the grid exactly when `head` is below `width * width`. */
  lemma {:induction false} RowOnGrid(width: nat, head: nat)
    requires 0 < width
    ensures head / width < width <==> head < width * width
  {
    var q, r := head / width, head % width;
    assert head == q * width + r && r < width;
    if q < width {
      MulMonotone(q + 1, width, width);
      assert (q + 1) * width == q * width + width;
    } else {
      MulMonotone(width, q, width);
    }
  }

  /**
   * The frame `draw` paints for a head index. The head cell's column and row,
   * read back from its corner, recover the index in row-major order; the cell
   * always fits horizontally, and fits vertically exactly when the index is on
   * the grid.
   */
  function Draw(width: nat, head: nat): (f: Frame)
    requires DrawFits(width, head)
    ensures f.cell == CELL_SIZE && f.side == width * CELL_SIZE
    ensures f.side <= U32_MAX && f.x <= U32_MAX && f.y <= U32_MAX
    ensures f.x % CELL_SIZE == 0 && f.y % CELL_SIZE == 0
    ensures f.x / CELL_SIZE < width
    ensures (f.y / CELL_SIZE) * width + f.x / CELL_SIZE == head
    ensures f.x + f.cell <= f.side
    ensures f.y + f.cell <= f.side <==> head < width * width
  {
    RowOnGrid(width, head);
    var side := width * CELL_SIZE;
    var x := (head % width) * CELL_SIZE;
    var y := (head / width) * CELL_SIZE;
    Frame(side, x, y, CELL_SIZE)
  }

  /** The first frame of a fresh game: width 16, head 10. */
  lemma SpawnFrame()
    ensures Draw(16, 10) == Frame(320, 200, 0, 20)
  {
  }
}
