/** Board geometry shared by the rules engine and the graph encoder:
    cells of an n-by-n rhombus board and its six-direction adjacency. */
module Axial {

  /** A (row, column) coordinate. */
  type Cell = (int, int)

  /** The six neighbour offsets, in direction order NE, E, SE, SW, W, NW. */
  const Offsets: seq<(int, int)> := [(-1, 0), (0, 1), (1, 1), (1, 0), (0, -1), (-1, -1)]

  predicate InBoard(n: int, i: int, j: int) {
    0 <= i < n && 0 <= j < n
  }

  /** The cell one step from `c` in direction `d`. */
  function Step(c: Cell, d: int): Cell
    requires 0 <= d < 6
  {
    (c.0 + Offsets[d].0, c.1 + Offsets[d].1)
  }

  /** `b` lies on the board and one step from `a` in some direction. */
  predicate Adjacent(n: int, a: Cell, b: Cell) {
    InBoard(n, b.0, b.1) && exists d :: 0 <= d < 6 && Step(a, d) == b
  }

  /** Direction d and direction (d + 3) mod 6 are opposite. */
  lemma OppositeDirections(d: int)
    requires 0 <= d < 6
    ensures Offsets[(d + 3) % 6] == (-Offsets[d].0, -Offsets[d].1)
  {
  }

  /** Taking a step and then the opposite step returns to the start. */
  lemma StepBack(c: Cell, d: int)
    requires 0 <= d < 6
    ensures Step(Step(c, d), (d + 3) % 6) == c
  {
    OppositeDirections(d);
  }

  /** All cells of an n-by-n board. */
  ghost function Grid(n: nat): set<Cell> {
    set i, j | 0 <= i < n && 0 <= j < n :: (i, j)
  }

  ghost function RowCells(i: int, width: nat): set<Cell> {
    set j | 0 <= j < width :: (i, j)
  }

  ghost function Rows(height: nat, width: nat): set<Cell> {
    set i, j | 0 <= i < height && 0 <= j < width :: (i, j)
  }

  lemma {:induction false} RowCellsCard(i: int, width: nat)
    ensures |RowCells(i, width)| == width
  {
    if width > 0 {
      assert RowCells(i, width) == RowCells(i, width - 1) + {(i, width - 1)};
      RowCellsCard(i, width - 1);
    }
  }

  /** The first height rows are the first height - 1 rows and the last
      one, which share no cell. */
  lemma RowsSplit(height: nat, width: nat)
    requires height > 0
    ensures Rows(height, width) == Rows(height - 1, width) + RowCells(height - 1, width)
    ensures Rows(height - 1, width) !! RowCells(height - 1, width)
  {
    var top, last := Rows(height - 1, width), RowCells(height - 1, width);
    forall c | c in Rows(height, width) ensures c in top + last {
      if c.0 < height - 1 { assert c in top; } else { assert c in last; }
    }
  }

  lemma {:induction false} RowsCard(height: nat, width: nat)
    ensures |Rows(height, width)| == height * width
  {
    if height > 0 {
      RowsSplit(height, width);
      RowsCard(height - 1, width);
      RowCellsCard(height - 1, width);
      assert (height - 1) * width + width == height * width;
    }
  }

  /** The board has exactly n * n cells. */
  lemma GridCard(n: nat)
    ensures |Grid(n)| == n * n
  {
    assert Grid(n) == Rows(n, n);
    RowsCard(n, n);
  }
}
