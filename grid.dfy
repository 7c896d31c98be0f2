/** The 9x9 Sudoku grid shared by the puzzle engine and the game controller.
    The program keeps a grid as a `[9][9]int`; mutating code here works on an
    `array2<int>` of that shape and specifications read it as a value. */
module Grids {

  /** Number of rows and columns (`gridSize`). */
  const Size := 9

  /** A grid as a value: row-major, `g[row][col]`, 0 is an empty cell. */
  type Grid = seq<seq<int>>

  predicate IsGrid(g: Grid) {
    |g| == Size && forall r :: 0 <= r < Size ==> |g[r]| == Size
  }

  predicate InBounds(row: int, col: int) {
    0 <= row < Size && 0 <= col < Size
  }

  /** A grid whose every cell holds 0 (empty) or a digit 1..9. */
  predicate IsPuzzle(g: Grid) {
    IsGrid(g) && forall r, c :: 0 <= r < Size && 0 <= c < Size ==> 0 <= g[r][c] <= 9
  }

  predicate Is9x9(a: array2<int>) {
    a.Length0 == Size && a.Length1 == Size
  }

  /** The value currently held by a grid array. */
  function Cells(a: array2<int>): (g: Grid)
    reads a
    requires Is9x9(a)
    ensures IsGrid(g)
    ensures forall r, c :: InBounds(r, c) ==> g[r][c] == a[r, c]
  {
    seq(Size, r reads a requires 0 <= r < Size =>
      seq(Size, c reads a requires 0 <= c < Size => a[r, c]))
  }

  /** The grid with one cell replaced. */
  function SetCell(g: Grid, row: int, col: int, v: int): (h: Grid)
    requires IsGrid(g) && InBounds(row, col)
    ensures IsGrid(h) && h[row][col] == v
    ensures forall r, c :: InBounds(r, c) && (r, c) != (row, col) ==> h[r][c] == g[r][c]
  {
    g[row := g[row][col := v]]
  }

  /** Two grids that agree on every cell are the same grid. */
  lemma GridExt(g: Grid, h: Grid)
    requires IsGrid(g) && IsGrid(h)
    requires forall r, c :: InBounds(r, c) ==> g[r][c] == h[r][c]
    ensures g == h
  {
    forall r | 0 <= r < Size ensures g[r] == h[r] {
      assert forall c :: 0 <= c < Size ==> g[r][c] == h[r][c];
    }
  }

  /** Clearing a filled cell moves exactly that cell from the clues to the blanks. */
  lemma ClearCell(g: Grid, row: int, col: int)
    requires IsGrid(g) && InBounds(row, col) && g[row][col] != 0
    ensures NonZeroCells(SetCell(g, row, col, 0)) == NonZeroCells(g) - {(row, col)}
    ensures ZeroCells(SetCell(g, row, col, 0)) == ZeroCells(g) + {(row, col)}
  {
  }

  /** The empty cells (the blanks of a puzzle). */
  function ZeroCells(g: Grid): set<(int, int)>
    requires IsGrid(g)
  {
    set r, c | 0 <= r < Size && 0 <= c < Size && g[r][c] == 0 :: (r, c)
  }

  /** The filled cells (the clues of a puzzle). */
  function NonZeroCells(g: Grid): set<(int, int)>
    requires IsGrid(g)
  {
    set r, c | 0 <= r < Size && 0 <= c < Size && g[r][c] != 0 :: (r, c)
  }

  /** Every cell is either empty or filled, so both counts add up to 81. */
  lemma {:induction false} CellsPartition(g: Grid)
    requires IsGrid(g)
    ensures |ZeroCells(g)| + |NonZeroCells(g)| == Size * Size
  {
    var all := set r, c | 0 <= r < Size && 0 <= c < Size :: (r, c);
    assert ZeroCells(g) !! NonZeroCells(g);
    assert ZeroCells(g) + NonZeroCells(g) == all;
    AllCellsCount();
  }

  lemma AllCellsCount()
    ensures |set r, c | 0 <= r < Size && 0 <= c < Size :: (r, c)| == Size * Size
  {
    assert (set r, c | 0 <= r < Size && 0 <= c < Size :: (r, c)) == Product(Size);
    ProductCount(Size);
  }

  function Product(n: nat): set<(int, int)>
  {
    set r, c | 0 <= r < n && 0 <= c < Size :: (r, c)
  }

  function RowCells(r: int, n: int): set<(int, int)>
  {
    set c | 0 <= c < n :: (r, c)
  }

  lemma {:induction false} RowCellsCount(r: int, n: nat)
    ensures |RowCells(r, n)| == n
  {
    if n > 0 {
      RowCellsCount(r, n - 1);
      assert RowCells(r, n) == RowCells(r, n - 1) + {(r, n - 1)};
    }
  }

  lemma {:induction false} ProductCount(n: nat)
    ensures |Product(n)| == n * Size
  {
    if n > 0 {
      ProductCount(n - 1);
      assert Product(n) == Product(n - 1) + RowCells(n - 1, Size);
      assert Product(n - 1) !! RowCells(n - 1, Size);
      RowCellsCount(n - 1, Size);
    }
  }

  /** Two positions share a row, a column or a 3x3 box. */
  predicate SameUnit(r1: int, c1: int, r2: int, c2: int) {
    r1 == r2 || c1 == c2 || (r1 / 3 == r2 / 3 && c1 / 3 == c2 / 3)
  }

  /** No digit is repeated within a row, a column or a box (blanks aside). */
  ghost predicate Consistent(g: Grid)
    requires IsGrid(g)
  {
    forall r1, c1, r2, c2 ::
      (InBounds(r1, c1) && InBounds(r2, c2) && (r1, c1) != (r2, c2) &&
       SameUnit(r1, c1, r2, c2) && g[r1][c1] != 0) ==> g[r1][c1] != g[r2][c2]
  }

  /** A completely and correctly filled grid. */
  ghost predicate Solved(g: Grid) {
    IsPuzzle(g) && ZeroCells(g) == {} && Consistent(g)
  }

  /** `p` is a permutation of 0..n-1, as `rand.Perm(n)` returns. */
  predicate IsPerm(p: seq<int>, n: int) {
    |p| == n && (forall i :: 0 <= i < n ==> 0 <= p[i] < n) &&
    forall i, j :: 0 <= i < j < n ==> p[i] != p[j]
  }
}
