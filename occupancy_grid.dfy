/**
 * The merged occupancy grid and the pass of `composeGrids` that clears each robot's
 * footprint to free space.
 */
module OccupancyGrids {

  /** The merged `nav_msgs::OccupancyGrid`: metadata and one cell value per pixel, row by row. */
  class OccupancyGrid {
    var width: nat
    var height: nat
    var resolution: real
    var originX: real
    var originY: real
    var data: array<int>

    constructor (width: nat, height: nat, resolution: real, cells: seq<int>)
      ensures this.width == width && this.height == height && this.resolution == resolution
      ensures originX == 0.0 && originY == 0.0
      ensures fresh(data) && data[..] == cells
    {
      this.width, this.height, this.resolution := width, height, resolution;
      originX, originY := 0.0, 0.0;
      data := new int[|cells|](i requires 0 <= i < |cells| => cells[i]);
    }
  }

  /** A robot's position in whole pixels of the merged grid. */
  datatype Pixel = Pixel(x: int, y: int)

  /** The cell value for free space. */
  const Free: int := 0

  /** The window cleared around a robot covers offsets -Half .. Half-1 on each axis. */
  const Half: int := 3

  /**
   * Whether the masking pass may write cell (col, row): the source's bounds test, whose lower
   * bounds are strict, so row 0 and column 0 are never written.
   */
  predicate Writable(width: nat, height: nat, col: int, row: int) {
    0 < col < width && 0 < row < height
  }

  /** Whether offset (col - p.x, row - p.y) lies in the 6x6 window around p. */
  predicate InWindow(p: Pixel, col: int, row: int) {
    p.x - Half <= col < p.x + Half && p.y - Half <= row < p.y + Half
  }

  /** Whether the masking pass for robot p clears cell number idx of a width x height grid. */
  predicate InFootprint(p: Pixel, width: nat, height: nat, idx: int) {
    width > 0 && InWindow(p, idx % width, idx / width) && Writable(width, height, idx % width, idx / width)
  }

  /** Whether any of the first n robots clears cell number idx. */
  predicate Covered(robots: seq<Pixel>, n: nat, width: nat, height: nat, idx: int)
    requires n <= |robots|
  {
    n > 0 && (Covered(robots, n - 1, width, height, idx) || InFootprint(robots[n - 1], width, height, idx))
  }

  /**
   * A cell is cleared exactly when it lies in the window of one of the robots and passes the
   * bounds test for that window.
   */
  lemma {:induction false} CoveredByRobot(robots: seq<Pixel>, n: nat, width: nat, height: nat, idx: int)
    requires n <= |robots|
    ensures Covered(robots, n, width, height, idx) <==>
      exists r :: 0 <= r < n && InFootprint(robots[r], width, height, idx)
  {
    if n > 0 {
      CoveredByRobot(robots, n - 1, width, height, idx);
    }
  }

  /**
   * A cleared cell lies in the grid, is neither in row 0 nor in column 0, and is within the
   * window [px-3, px+2] x [py-3, py+2] of some robot.
   */
  lemma CoveredCells(robots: seq<Pixel>, width: nat, height: nat, idx: int)
    requires 0 <= idx < width * height
    requires Covered(robots, |robots|, width, height, idx)
    ensures var col, row := idx % width, idx / width;
      0 < col < width && 0 < row < height &&
      exists r :: 0 <= r < |robots| &&
        robots[r].x - 3 <= col <= robots[r].x + 2 && robots[r].y - 3 <= row <= robots[r].y + 2
  {
    CoveredByRobot(robots, |robots|, width, height, idx);
  }

  /**
   * Whether the loops for robot p have cleared cell idx before reaching offset (dx, dy):
   * all columns left of dx, and the rows above dy in column dx.
   */
  predicate SweptBefore(p: Pixel, dx: int, dy: int, width: nat, height: nat, idx: int) {
    width > 0 &&
    var col, row := idx % width, idx / width;
    Writable(width, height, col, row) && p.y - Half <= row < p.y + Half &&
    (p.x - Half <= col < p.x + dx || (col == p.x + dx && row < p.y + dy))
  }

  /** Cell (col, row) has number row * width + col, which lies inside the grid's data. */
  lemma CellIndex(width: nat, height: nat, col: int, row: int)
    requires 0 <= col < width && 0 <= row < height
    ensures 0 <= row * width + col < width * height
    ensures (row * width + col) % width == col && (row * width + col) / width == row
  {
    RowsFit(width, height, row);
    DivModUnique(width, row * width + col, row, col);
  }

  lemma RowsFit(width: nat, height: nat, row: int)
    requires 0 <= row < height
    ensures 0 <= row * width && (row + 1) * width <= height * width
  {
    MulMonotone(0, row, width);
    MulMonotone(row + 1, height, width);
  }

  lemma {:induction false} MulMonotone(a: int, b: int, c: nat)
    requires a <= b
    ensures a * c <= b * c
    decreases b - a
  {
    if a < b {
      MulMonotone(a, b - 1, c);
      assert b * c == (b - 1) * c + c;
    }
  }

  /** Euclidean division by a positive width has a unique quotient and remainder. */
  lemma DivModUnique(width: nat, idx: int, q: int, m: int)
    requires 0 <= m < width && idx == q * width + m
    ensures idx / width == q && idx % width == m
  {
    var q', m' := idx / width, idx % width;
    CellOfIndex(width, idx);
    assert q' * width - q * width == m - m';
    assert (q' - q) * width == m - m';
    if q' > q {
      MulMonotone(1, q' - q, width);
    } else if q' < q {
      MulMonotone(1, q - q', width);
    }
  }

  /** Every cell number is some column and row: idx == (idx / width) * width + idx % width. */
  lemma CellOfIndex(width: nat, idx: int)
    requires width > 0
    ensures idx == (idx / width) * width + idx % width
  {
  }

  /**
   * Sets every cell in each robot's footprint to free space, in place. For each robot at
   * (px, py) the cells written are those with column in [px-3, px+2] and row in [py-3, py+2]
   * that pass the bounds test; every other cell keeps its value.
   */
  method ClearRobotFootprints(grid: OccupancyGrid, robots: seq<Pixel>)
    requires grid.data.Length == grid.width * grid.height
    modifies grid.data
    ensures forall idx :: 0 <= idx < grid.data.Length ==>
      grid.data[idx] == if Covered(robots, |robots|, grid.width, grid.height, idx) then Free else old(grid.data[idx])
  {
    var w, h := grid.width, grid.height;
    var r := 0;
    while r < |robots|
      invariant 0 <= r <= |robots|
      invariant forall idx :: 0 <= idx < grid.data.Length ==>
        grid.data[idx] == if Covered(robots, r, w, h, idx) then Free else old(grid.data[idx])
    {
      var p := robots[r];
      var x := -Half;
      while x < Half
        invariant -Half <= x <= Half
        invariant forall idx :: 0 <= idx < grid.data.Length ==>
          grid.data[idx] == if Covered(robots, r, w, h, idx) || SweptBefore(p, x, -Half, w, h, idx)
                            then Free else old(grid.data[idx])
      {
        var y := -Half;
        while y < Half
          invariant -Half <= y <= Half
          invariant forall idx :: 0 <= idx < grid.data.Length ==>
            grid.data[idx] == if Covered(robots, r, w, h, idx) || SweptBefore(p, x, y, w, h, idx)
                              then Free else old(grid.data[idx])
        {
          // The source compares the signed coordinate with the unsigned size, so a negative
          // coordinate already fails the upper-bound test; together with the strict lower
          // bounds this is exactly Writable.
          if p.y + y < h && p.x + x < w && p.y + y > 0 && p.x + x > 0 {
            CellIndex(w, h, p.x + x, p.y + y);
            forall idx | 0 <= idx < grid.data.Length
              ensures idx % w == p.x + x && idx / w == p.y + y ==> idx == (p.y + y) * w + (p.x + x)
            {
              CellOfIndex(w, idx);
            }
            grid.data[(p.y + y) * w + (p.x + x)] := Free;
          }
          y := y + 1;
        }
        x := x + 1;
      }
      r := r + 1;
    }
  }
}
