/** The puzzle transformer of logic/puzlogic.go: picking a seed puzzle,
    `ShuffleAsh` with its row and column shuffles, and the blank-carving loop
    `RemoveNumbersFromGrid`. The random draws of `math/rand` are parameters. */
module Transform {
  import opened Grids

  /** `GetRandomPuzzle`: `pick` is the draw behind `rand.Intn(len(puzzles))`.
      An empty pool has no puzzle to give (`rand.Intn(0)` panics). */
  function GetRandomPuzzle(puzzles: seq<Grid>, pick: nat): (g: Grid)
    requires |puzzles| > 0
    ensures g in puzzles
  {
    puzzles[pick % |puzzles|]
  }

  /** Three draws in 0..2, such as `rand.Perm(3)` returns. */
  predicate Draws3(p: seq<int>) {
    |p| == 3 && forall j :: 0 <= j < 3 ==> 0 <= p[j] < 3
  }

  /** The relabelling of one cell: `numbers[v-1] + 1`, and 0 stays 0. */
  function Relabel(numbers: seq<int>, v: int): (w: int)
    requires IsPerm(numbers, 9) && 0 <= v <= 9
    ensures w == 0 <==> v == 0
    ensures 0 <= w <= 9
  {
    if v == 0 then 0 else numbers[v - 1] + 1
  }

  /** Relabelling is one-to-one: two cells are equal after it iff they were before. */
  lemma RelabelInjective(numbers: seq<int>, u: int, v: int)
    requires IsPerm(numbers, 9) && 0 <= u <= 9 && 0 <= v <= 9
    ensures Relabel(numbers, u) == Relabel(numbers, v) <==> u == v
  {
  }

  function Swapped(order: seq<int>, i: int, j: int): (o: seq<int>)
    requires 0 <= i < |order| && 0 <= j < |order|
    ensures |o| == |order|
  {
    order[i := order[j]][j := order[i]]
  }

  /** After the first k swaps `i <-> picks[i]` of a band (or stack), position
      `p` of the band holds the line that started at position `SwapOrder(picks, k)[p]`. */
  function SwapOrder(picks: seq<int>, k: nat): (order: seq<int>)
    requires Draws3(picks) && k <= 3
    ensures |order| == 3 && forall p :: 0 <= p < 3 ==> 0 <= order[p] < 3
  {
    if k == 0 then [0, 1, 2] else Swapped(SwapOrder(picks, k - 1), k - 1, picks[k - 1])
  }

  /** Swapping two entries of a permutation gives a permutation. */
  lemma SwappedIsPerm(order: seq<int>, i: int, j: int)
    requires IsPerm(order, |order|) && 0 <= i < |order| && 0 <= j < |order|
    ensures IsPerm(Swapped(order, i, j), |order|)
  {
    var o := Swapped(order, i, j);
    forall a, b | 0 <= a < b < |order| ensures o[a] != o[b] {
      var a' := if a == i then j else if a == j then i else a;
      var b' := if b == i then j else if b == j then i else b;
      assert o[a] == order[a'] && o[b] == order[b'];
    }
  }

  /** Whatever the draws, the swaps only reorder the three lines of a band. */
  lemma {:induction false} SwapOrderIsPerm(picks: seq<int>, k: nat)
    requires Draws3(picks) && k <= 3
    ensures IsPerm(SwapOrder(picks, k), 3)
  {
    if k > 0 {
      SwapOrderIsPerm(picks, k - 1);
      SwappedIsPerm(SwapOrder(picks, k - 1), k - 1, picks[k - 1]);
    }
  }

  /** The line that line `x` of the whole grid is taken from, when the band
      (or stack) starting at `blockStart` is reordered by `order`. */
  function BandSource(blockStart: int, order: seq<int>, x: int): int
    requires |order| == 3
  {
    if blockStart <= x < blockStart + 3 then blockStart + order[x - blockStart] else x
  }

  /** Where line `x` comes from when lines `i` and `j` trade places. */
  function Exchange(i: int, j: int, x: int): int {
    if x == i then j else if x == j then i else x
  }

  /** One more swap of the band: the new source of a line is the old source
      of the line it was exchanged with. */
  lemma BandSourceStep(blockStart: int, picks: seq<int>, i: nat, x: int)
    requires Draws3(picks) && i < 3
    ensures BandSource(blockStart, SwapOrder(picks, i + 1), x) ==
      BandSource(blockStart, SwapOrder(picks, i), Exchange(blockStart + i, blockStart + picks[i], x))
  {
  }

  /** A band shuffle moves lines only within the band, and sends its three
      lines to three different places: the band ends as a permutation of
      its original lines and every other line stays put. */
  lemma BandSourceIsBandPermutation(blockStart: int, picks: seq<int>)
    requires Draws3(picks)
    ensures forall x :: !(blockStart <= x < blockStart + 3) ==> BandSource(blockStart, SwapOrder(picks, 3), x) == x
    ensures forall x :: blockStart <= x < blockStart + 3 ==>
      blockStart <= BandSource(blockStart, SwapOrder(picks, 3), x) < blockStart + 3
    ensures forall x, y :: blockStart <= x < y < blockStart + 3 ==>
      BandSource(blockStart, SwapOrder(picks, 3), x) != BandSource(blockStart, SwapOrder(picks, 3), y)
  {
    SwapOrderIsPerm(picks, 3);
  }

  predicate IsBlockStart(b: int) {
    b == 0 || b == 3 || b == 6
  }

  /** Row copy `grid[x], grid[y] = grid[y], grid[x]` through a temporary. */
  method SwapRows(grid: array2<int>, x: int, y: int)
    requires Is9x9(grid) && 0 <= x < Size && 0 <= y < Size
    modifies grid
    ensures forall r, c :: InBounds(r, c) ==> grid[r, c] == old(grid[Exchange(x, y, r), c])
  {
    for c := 0 to Size
      invariant forall r, c' :: InBounds(r, c') ==>
        grid[r, c'] == if c' < c then old(grid[Exchange(x, y, r), c']) else old(grid[r, c'])
    {
      var temp := grid[x, c];
      grid[x, c] := grid[y, c];
      grid[y, c] := temp;
    }
  }

  /** `shuffleRowsInBlock`: `rows` is the draw of `rand.Perm(3)`; step i swaps
      row `blockStart+i` with row `blockStart+rows[i]`. */
  method ShuffleRowsInBlock(grid: array2<int>, blockStart: int, rows: seq<int>)
    requires Is9x9(grid) && IsBlockStart(blockStart) && Draws3(rows)
    modifies grid
    ensures forall r, c :: InBounds(r, c) ==>
      grid[r, c] == old(grid[BandSource(blockStart, SwapOrder(rows, 3), r), c])
  {
    for i := 0 to 3
      invariant forall r, c :: InBounds(r, c) ==>
        grid[r, c] == old(grid[BandSource(blockStart, SwapOrder(rows, i), r), c])
    {
      label Before:
      SwapRows(grid, blockStart + i, blockStart + rows[i]);
      forall r, c | InBounds(r, c)
        ensures grid[r, c] == old(grid[BandSource(blockStart, SwapOrder(rows, i + 1), r), c])
      {
        BandSourceStep(blockStart, rows, i, r);
        assert grid[r, c] == old@Before(grid[Exchange(blockStart + i, blockStart + rows[i], r), c]);
      }
    }
  }

  /** The inner loop of `shuffleColsInBlock`: swap columns x and y cell by
      cell, `grid[row][x], grid[row][y] = grid[row][y], grid[row][x]`. */
  method SwapCols(grid: array2<int>, x: int, y: int)
    requires Is9x9(grid) && 0 <= x < Size && 0 <= y < Size
    modifies grid
    ensures forall r, c :: InBounds(r, c) ==> grid[r, c] == old(grid[r, Exchange(x, y, c)])
    ensures forall r :: 0 <= r < Size ==> multiset(Cells(grid)[r]) == multiset(old(Cells(grid))[r])
  {
    ghost var g0 := Cells(grid);
    for row := 0 to Size
      invariant forall r, c :: InBounds(r, c) ==>
        grid[r, c] == if r < row then old(grid[r, Exchange(x, y, c)]) else old(grid[r, c])
    {
      var temp := grid[row, x];
      grid[row, x] := grid[row, y];
      grid[row, y] := temp;
    }
    forall r | 0 <= r < Size ensures multiset(Cells(grid)[r]) == multiset(g0[r]) {
      assert Cells(grid)[r] == Swapped(g0[r], x, y);
      SwappedMultiset(g0[r], x, y);
    }
  }

  /** A swap keeps the values of a line. */
  lemma SwappedMultiset(s: seq<int>, i: int, j: int)
    requires 0 <= i < |s| && 0 <= j < |s|
    ensures multiset(Swapped(s, i, j)) == multiset(s)
  {
  }

  /** The draws `shuffleColsInBlock` uses: step i draws a fresh `rand.Perm(3)`
      and only reads its element i. */
  function ColPicks(cols: seq<seq<int>>): (picks: seq<int>)
    requires |cols| == 3 && forall i :: 0 <= i < 3 ==> Draws3(cols[i])
    ensures Draws3(picks)
  {
    assert Draws3(cols[0]) && Draws3(cols[1]) && Draws3(cols[2]);
    [cols[0][0], cols[1][1], cols[2][2]]
  }

  /** `shuffleColsInBlock`: step i swaps column `blockStart+i` with column
      `blockStart+cols[i][i]`, cell by cell down the nine rows. */
  method ShuffleColsInBlock(grid: array2<int>, blockStart: int, cols: seq<seq<int>>)
    requires Is9x9(grid) && IsBlockStart(blockStart)
    requires |cols| == 3 && forall i :: 0 <= i < 3 ==> Draws3(cols[i])
    modifies grid
    ensures forall r, c :: InBounds(r, c) ==>
      grid[r, c] == old(grid[r, BandSource(blockStart, SwapOrder(ColPicks(cols), 3), c)])
    ensures forall r :: 0 <= r < Size ==> multiset(Cells(grid)[r]) == multiset(old(Cells(grid))[r])
  {
    ghost var picks := ColPicks(cols);
    ghost var g0 := Cells(grid);
    for i := 0 to 3
      invariant forall r, c :: InBounds(r, c) ==>
        grid[r, c] == old(grid[r, BandSource(blockStart, SwapOrder(picks, i), c)])
      invariant forall r :: 0 <= r < Size ==> multiset(Cells(grid)[r]) == multiset(g0[r])
    {
      var perm := cols[i];
      assert Draws3(perm) && perm[i] == picks[i];
      label Before:
      SwapCols(grid, blockStart + i, blockStart + perm[i]);
      assert forall r, c :: InBounds(r, c) ==>
        grid[r, c] == old@Before(grid[r, Exchange(blockStart + i, blockStart + picks[i], c)]);
      forall r, c | InBounds(r, c)
        ensures grid[r, c] == old(grid[r, BandSource(blockStart, SwapOrder(picks, i + 1), c)])
      {
        BandSourceStep(blockStart, picks, i, c);
      }
    }
  }

  /** All random draws of one `ShuffleAsh` call. */
  datatype Shuffle = Shuffle(numbers: seq<int>, rowDraws: seq<seq<int>>, colDraws: seq<seq<seq<int>>>)

  predicate WellFormed(sh: Shuffle) {
    IsPerm(sh.numbers, 9) &&
    |sh.rowDraws| == 3 && (forall b :: 0 <= b < 3 ==> Draws3(sh.rowDraws[b])) &&
    |sh.colDraws| == 3 &&
    forall b :: 0 <= b < 3 ==>
      |sh.colDraws[b]| == 3 && forall i :: 0 <= i < 3 ==> Draws3(sh.colDraws[b][i])
  }

  /** Row r of the shuffled grid is row `RowSource(sh)[r]` of the input. */
  function RowSource(sh: Shuffle): (src: seq<int>)
    requires WellFormed(sh)
    ensures |src| == Size
  {
    seq(Size, r requires 0 <= r < Size => BandSource(3 * (r / 3), SwapOrder(sh.rowDraws[r / 3], 3), r))
  }

  /** Column c of the shuffled grid is column `ColSource(sh)[c]` of the input. */
  function ColSource(sh: Shuffle): (src: seq<int>)
    requires WellFormed(sh)
    ensures |src| == Size
  {
    seq(Size, c requires 0 <= c < Size =>
      BandSource(3 * (c / 3), SwapOrder(ColPicks(sh.colDraws[c / 3]), 3), c))
  }

  lemma SourcesInRange(sh: Shuffle)
    requires WellFormed(sh)
    ensures forall x :: 0 <= x < Size ==> 0 <= RowSource(sh)[x] < Size && RowSource(sh)[x] / 3 == x / 3
    ensures forall x :: 0 <= x < Size ==> 0 <= ColSource(sh)[x] < Size && ColSource(sh)[x] / 3 == x / 3
  {
    forall b | 0 <= b < 3 ensures IsPerm(SwapOrder(sh.rowDraws[b], 3), 3) && IsPerm(SwapOrder(ColPicks(sh.colDraws[b]), 3), 3) {
      SwapOrderIsPerm(sh.rowDraws[b], 3);
      SwapOrderIsPerm(ColPicks(sh.colDraws[b]), 3);
    }
  }

  /** The grid `ShuffleAsh` makes of `g`: relabel every digit, then read rows
      and columns from their shuffled sources. */
  function Shuffled(g: Grid, sh: Shuffle): (h: Grid)
    requires IsPuzzle(g) && WellFormed(sh)
    ensures IsPuzzle(h)
  {
    SourcesInRange(sh);
    seq(Size, r requires 0 <= r < Size =>
      seq(Size, c requires 0 <= c < Size => Relabel(sh.numbers, g[RowSource(sh)[r]][ColSource(sh)[c]])))
  }

  /** Inside band (or stack) `b`, the whole-grid source of a line is the
      source the band's own shuffle gives it. */
  lemma SourceInBand(sh: Shuffle, b: int, x: int)
    requires WellFormed(sh) && IsBlockStart(b) && b <= x < b + 3
    ensures RowSource(sh)[x] == BandSource(b, SwapOrder(sh.rowDraws[b / 3], 3), x)
    ensures ColSource(sh)[x] == BandSource(b, SwapOrder(ColPicks(sh.colDraws[b / 3]), 3), x)
  {
    assert x / 3 == b / 3 && 3 * (x / 3) == b;
  }

  /** The grid with every digit relabelled. */
  function RelabelGrid(g: Grid, numbers: seq<int>): (h: Grid)
    requires IsPuzzle(g) && IsPerm(numbers, 9)
    ensures IsPuzzle(h)
    ensures forall r, c :: InBounds(r, c) ==> h[r][c] == Relabel(numbers, g[r][c])
  {
    seq(Size, r requires 0 <= r < Size =>
      seq(Size, c requires 0 <= c < Size => Relabel(numbers, g[r][c])))
  }

  /** The first loop nest of `ShuffleAsh`: every non-zero digit d becomes
      `numbers[d-1] + 1`. */
  method RelabelDigits(grid: array2<int>, numbers: seq<int>)
    requires Is9x9(grid) && IsPuzzle(Cells(grid)) && IsPerm(numbers, 9)
    modifies grid
    ensures Cells(grid) == RelabelGrid(old(Cells(grid)), numbers)
  {
    ghost var g0 := Cells(grid);
    for row := 0 to Size
      invariant forall r, c :: InBounds(r, c) ==>
        grid[r, c] == if r < row then Relabel(numbers, g0[r][c]) else g0[r][c]
    {
      for col := 0 to Size
        invariant forall r, c :: InBounds(r, c) ==>
          grid[r, c] == if r < row || (r == row && c < col) then Relabel(numbers, g0[r][c]) else g0[r][c]
      {
        if grid[row, col] != 0 {
          grid[row, col] := numbers[grid[row, col] - 1] + 1;
        }
      }
    }
    GridExt(Cells(grid), RelabelGrid(g0, numbers));
  }

  /** `ShuffleAsh`: relabel the digits through `rand.Perm(9)`, then shuffle the
      rows of each band top to bottom, then the columns of each stack left to right. */
  method ShuffleAsh(grid: array2<int>, sh: Shuffle)
    requires Is9x9(grid) && IsPuzzle(Cells(grid)) && WellFormed(sh)
    modifies grid
    ensures Cells(grid) == Shuffled(old(Cells(grid)), sh)
  {
    ghost var g0 := Cells(grid);
    RelabelDigits(grid, sh.numbers);
    ghost var g1 := Cells(grid);
    SourcesInRange(sh);

    var i := 0;
    while i < 9
      invariant i == 0 || i == 3 || i == 6 || i == 9
      invariant forall r, c :: InBounds(r, c) ==>
        grid[r, c] == g1[if r < i then RowSource(sh)[r] else r][c]
    {
      ShuffleRowsInBlock(grid, i, sh.rowDraws[i / 3]);
      forall x | i <= x < i + 3 {
        SourceInBand(sh, i, x);
      }
      i := i + 3;
    }
    ghost var g2 := Cells(grid);

    i := 0;
    while i < 9
      invariant i == 0 || i == 3 || i == 6 || i == 9
      invariant forall r, c :: InBounds(r, c) ==>
        grid[r, c] == g2[r][if c < i then ColSource(sh)[c] else c]
    {
      ShuffleColsInBlock(grid, i, sh.colDraws[i / 3]);
      forall x | i <= x < i + 3 {
        SourceInBand(sh, i, x);
      }
      i := i + 3;
    }
    GridExt(Cells(grid), Shuffled(g0, sh));
  }

  /** The number of cells `RemoveNumbersFromGrid` clears for a difficulty rank. */
  function Blanks(difficulty: int): int {
    20 + difficulty * 10
  }

  /** `RemoveNumbersFromGrid`: clear filled cells until `Blanks(difficulty)`
      of them have been cleared. Each iteration stands for the first draw of
      `rand.Intn(9)` twice that lands on a filled cell; draws that land on an
      empty cell change nothing. */
  method RemoveNumbersFromGrid(grid: array2<int>, difficulty: int)
    requires Is9x9(grid)
    requires Blanks(difficulty) <= |NonZeroCells(Cells(grid))|
    modifies grid
    ensures forall r, c :: InBounds(r, c) ==> grid[r, c] == old(grid[r, c]) || grid[r, c] == 0
    ensures NonZeroCells(Cells(grid)) <= old(NonZeroCells(Cells(grid)))
    ensures var cleared := if Blanks(difficulty) > 0 then Blanks(difficulty) else 0;
      |NonZeroCells(Cells(grid))| == old(|NonZeroCells(Cells(grid))|) - cleared &&
      |ZeroCells(Cells(grid))| == old(|ZeroCells(Cells(grid))|) + cleared
  {
    ghost var g0 := Cells(grid);
    var blanks := 20 + difficulty * 10;
    ghost var target := if blanks > 0 then blanks else 0;
    while blanks > 0
      invariant 0 <= target - (if blanks > 0 then blanks else 0) <= target
      invariant (if blanks > 0 then blanks else 0) <= |NonZeroCells(Cells(grid))|
      invariant forall r, c :: InBounds(r, c) ==> grid[r, c] == g0[r][c] || grid[r, c] == 0
      invariant NonZeroCells(Cells(grid)) <= NonZeroCells(g0)
      invariant |NonZeroCells(Cells(grid))| == |NonZeroCells(g0)| - (target - (if blanks > 0 then blanks else 0))
      invariant |ZeroCells(Cells(grid))| == |ZeroCells(g0)| + (target - (if blanks > 0 then blanks else 0))
      decreases blanks
    {
      ghost var before := Cells(grid);
      var cell :| cell in NonZeroCells(Cells(grid));
      var row, col := cell.0, cell.1;
      grid[row, col] := 0;
      blanks := blanks - 1;
      GridExt(Cells(grid), SetCell(before, row, col, 0));
      ClearCell(before, row, col);
    }
  }
}
