/** The placement rule of main.go (`isNumValid`) and what `CheckProgress`
    counts with it. */
module Rules {
  import opened Grids

  /** Top-left corner of the box holding line `x`. */
  function BoxStart(x: int): int {
    (x / 3) * 3
  }

  /** The three scans of `isNumValid`: `num` appears nowhere in row `row`,
      nowhere in column `col` and nowhere in the box of the cell. The cell
      itself is part of all three scans. */
  predicate NumValid(g: Grid, row: int, col: int, num: int)
    requires IsGrid(g) && InBounds(row, col)
  {
    (forall i :: 0 <= i < Size ==> g[row][i] != num) &&
    (forall i :: 0 <= i < Size ==> g[i][col] != num) &&
    forall r, c :: BoxStart(row) <= r < BoxStart(row) + 3 && BoxStart(col) <= c < BoxStart(col) + 3 ==> g[r][c] != num
  }

  lemma BoxOf(row: int, r: int)
    requires 0 <= row < Size && 0 <= r < Size
    ensures BoxStart(row) <= r < BoxStart(row) + 3 <==> r / 3 == row / 3
  {
  }

  /** The three scans together look at exactly the cells that share a unit
      with the target cell: `num` is valid iff none of them holds it. */
  lemma NumValidIffUnitFree(g: Grid, row: int, col: int, num: int)
    requires IsGrid(g) && InBounds(row, col)
    ensures NumValid(g, row, col, num) <==>
      forall r, c :: InBounds(r, c) && SameUnit(row, col, r, c) ==> g[r][c] != num
  {
    if NumValid(g, row, col, num) {
      forall r, c | InBounds(r, c) && SameUnit(row, col, r, c) ensures g[r][c] != num {
        BoxOf(row, r);
        BoxOf(col, c);
      }
    } else {
      forall r, c | BoxStart(row) <= r < BoxStart(row) + 3 && BoxStart(col) <= c < BoxStart(col) + 3
        ensures InBounds(r, c) && SameUnit(row, col, r, c)
      {
        BoxOf(row, r);
        BoxOf(col, c);
      }
    }
  }

  /** Because the scans include the cell itself, a value already in the cell
      is never valid there: in particular 0 is never valid on an empty cell. */
  lemma SelfScanRejects(g: Grid, row: int, col: int)
    requires IsGrid(g) && InBounds(row, col)
    ensures !NumValid(g, row, col, g[row][col])
  {
  }

  /** Writing a valid digit into a grid without repeats leaves it without
      repeats, whatever the cell held before. */
  lemma ValidPlacementKeepsConsistent(g: Grid, row: int, col: int, num: int)
    requires IsGrid(g) && InBounds(row, col) && Consistent(g) && NumValid(g, row, col, num)
    ensures Consistent(SetCell(g, row, col, num))
  {
    var h := SetCell(g, row, col, num);
    NumValidIffUnitFree(g, row, col, num);
    forall r1, c1, r2, c2 |
      InBounds(r1, c1) && InBounds(r2, c2) && (r1, c1) != (r2, c2) &&
      SameUnit(r1, c1, r2, c2) && h[r1][c1] != 0
      ensures h[r1][c1] != h[r2][c2]
    {
      if (r1, c1) == (row, col) {
        assert h[r2][c2] == g[r2][c2];
      } else if (r2, c2) == (row, col) {
        assert SameUnit(row, col, r1, c1);
        assert h[r1][c1] == g[r1][c1];
      } else {
        assert h[r1][c1] == g[r1][c1] && h[r2][c2] == g[r2][c2];
      }
    }
  }

  /** Cells visited by the row-major double loop before cell (i, j). */
  predicate Visited(r: int, c: int, i: int, j: int) {
    r < i || (r == i && c < j)
  }

  /** The empty cells the loop has counted before (i, j). */
  function EmptyBefore(g: Grid, i: int, j: int): set<(int, int)>
    requires IsGrid(g)
  {
    set r, c | 0 <= r < Size && 0 <= c < Size && Visited(r, c, i, j) && g[r][c] == 0 :: (r, c)
  }

  /** A filled cell whose own value fails `isNumValid`. */
  predicate Invalid(g: Grid, r: int, c: int)
    requires IsGrid(g) && InBounds(r, c)
  {
    g[r][c] != 0 && !NumValid(g, r, c, g[r][c])
  }

  /** The filled cells the loop has counted as invalid before (i, j). */
  function InvalidBefore(g: Grid, i: int, j: int): set<(int, int)>
    requires IsGrid(g)
  {
    set r, c | 0 <= r < Size && 0 <= c < Size && Visited(r, c, i, j) && Invalid(g, r, c) :: (r, c)
  }

  /** All filled cells that fail `isNumValid` on their own value. */
  function InvalidCells(g: Grid): set<(int, int)>
    requires IsGrid(g)
  {
    set r, c | 0 <= r < Size && 0 <= c < Size && Invalid(g, r, c) :: (r, c)
  }

  /** One step of the counting loop adds cell (i, j) to at most one of the counts. */
  lemma CountStep(g: Grid, i: int, j: int)
    requires IsGrid(g) && InBounds(i, j)
    ensures |EmptyBefore(g, i, j + 1)| == |EmptyBefore(g, i, j)| + (if g[i][j] == 0 then 1 else 0)
    ensures |InvalidBefore(g, i, j + 1)| == |InvalidBefore(g, i, j)| + (if Invalid(g, i, j) then 1 else 0)
  {
    assert (i, j) !in EmptyBefore(g, i, j) && (i, j) !in InvalidBefore(g, i, j);
    if g[i][j] == 0 {
      assert EmptyBefore(g, i, j + 1) == EmptyBefore(g, i, j) + {(i, j)};
    } else {
      assert EmptyBefore(g, i, j + 1) == EmptyBefore(g, i, j);
    }
    if Invalid(g, i, j) {
      assert InvalidBefore(g, i, j + 1) == InvalidBefore(g, i, j) + {(i, j)};
    } else {
      assert InvalidBefore(g, i, j + 1) == InvalidBefore(g, i, j);
    }
  }

  lemma CountRow(g: Grid, i: int)
    requires IsGrid(g)
    ensures EmptyBefore(g, i, Size) == EmptyBefore(g, i + 1, 0)
    ensures InvalidBefore(g, i, Size) == InvalidBefore(g, i + 1, 0)
  {
  }

  lemma CountAll(g: Grid)
    requires IsGrid(g)
    ensures EmptyBefore(g, Size, 0) == ZeroCells(g)
    ensures InvalidBefore(g, Size, 0) == InvalidCells(g)
    ensures EmptyBefore(g, 0, 0) == {} && InvalidBefore(g, 0, 0) == {}
  {
  }

  /** Every filled cell fails the self-scan, so the invalid cells are
      exactly the filled ones. */
  lemma InvalidIsFilled(g: Grid)
    requires IsGrid(g)
    ensures InvalidCells(g) == NonZeroCells(g)
  {
    forall r, c | InBounds(r, c) && g[r][c] != 0 ensures Invalid(g, r, c) {
      SelfScanRejects(g, r, c);
    }
  }
}
