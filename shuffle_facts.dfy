/** Why the generator keeps a puzzle a Sudoku: the line shuffles are
    permutations that keep bands and stacks together, relabelling is
    one-to-one, and carving only empties cells. */
module ShuffleFacts {
  import opened Grids
  import opened Transform

  /** Row and column sources are permutations of 0..8 that never leave their
      band or stack. */
  lemma SourcesArePerms(sh: Shuffle)
    requires WellFormed(sh)
    ensures IsPerm(RowSource(sh), Size) && IsPerm(ColSource(sh), Size)
    ensures forall x :: 0 <= x < Size ==> RowSource(sh)[x] / 3 == x / 3 && ColSource(sh)[x] / 3 == x / 3
  {
    SourcesInRange(sh);
    forall x, y | 0 <= x < y < Size
      ensures RowSource(sh)[x] != RowSource(sh)[y] && ColSource(sh)[x] != ColSource(sh)[y]
    {
      if x / 3 == y / 3 {
        var b := 3 * (x / 3);
        assert IsBlockStart(b) && b <= x < b + 3 && b <= y < b + 3;
        SourceInBand(sh, b, x);
        SourceInBand(sh, b, y);
        SwapOrderIsPerm(sh.rowDraws[b / 3], 3);
        SwapOrderIsPerm(ColPicks(sh.colDraws[b / 3]), 3);
      }
    }
  }

  /** Two positions in the same row, column or box keep sharing one after
      their lines are moved within bands and stacks. */
  lemma SameUnitKept(r1: int, c1: int, r2: int, c2: int, s1: int, t1: int, s2: int, t2: int)
    requires SameUnit(r1, c1, r2, c2)
    requires r1 == r2 ==> s1 == s2
    requires c1 == c2 ==> t1 == t2
    requires s1 / 3 == r1 / 3 && s2 / 3 == r2 / 3 && t1 / 3 == c1 / 3 && t2 / 3 == c2 / 3
    ensures SameUnit(s1, t1, s2, t2)
  {
  }

  /** The shuffled grid of a grid without repeats has no repeats either. */
  lemma ShufflePreservesConsistent(g: Grid, sh: Shuffle)
    requires IsPuzzle(g) && WellFormed(sh) && Consistent(g)
    ensures Consistent(Shuffled(g, sh))
  {
    var h := Shuffled(g, sh);
    var rs, cs := RowSource(sh), ColSource(sh);
    SourcesArePerms(sh);
    forall r1, c1, r2, c2 |
      InBounds(r1, c1) && InBounds(r2, c2) && (r1, c1) != (r2, c2) &&
      SameUnit(r1, c1, r2, c2) && h[r1][c1] != 0
      ensures h[r1][c1] != h[r2][c2]
    {
      var s1, t1, s2, t2 := rs[r1], cs[c1], rs[r2], cs[c2];
      if r1 != r2 { PermDistinct(rs, r1, r2); }
      if c1 != c2 { PermDistinct(cs, c1, c2); }
      SameUnitKept(r1, c1, r2, c2, s1, t1, s2, t2);
      assert h[r1][c1] == Relabel(sh.numbers, g[s1][t1]) && h[r2][c2] == Relabel(sh.numbers, g[s2][t2]);
      ConsistentAt(g, s1, t1, s2, t2);
      RelabelInjective(sh.numbers, g[s1][t1], g[s2][t2]);
    }
  }

  lemma ConsistentAt(g: Grid, r1: int, c1: int, r2: int, c2: int)
    requires IsGrid(g) && Consistent(g)
    requires InBounds(r1, c1) && InBounds(r2, c2) && (r1, c1) != (r2, c2)
    requires SameUnit(r1, c1, r2, c2) && g[r1][c1] != 0
    ensures g[r1][c1] != g[r2][c2]
  {
  }

  /** A solved grid stays solved. */
  lemma ShufflePreservesSolved(g: Grid, sh: Shuffle)
    requires WellFormed(sh) && Solved(g)
    ensures Solved(Shuffled(g, sh))
  {
    ShufflePreservesConsistent(g, sh);
    var h := Shuffled(g, sh);
    SourcesArePerms(sh);
    forall r, c | InBounds(r, c) ensures h[r][c] != 0 {
      assert (RowSource(sh)[r], ColSource(sh)[c]) !in ZeroCells(g);
    }
    assert ZeroCells(h) == {};
  }

  /** The positions a set of cells comes from. */
  function Image(cells: set<(int, int)>, rs: seq<int>, cs: seq<int>): set<(int, int)>
    requires |rs| == Size && |cs| == Size
    requires forall p :: p in cells ==> InBounds(p.0, p.1)
  {
    set p | p in cells && InBounds(p.0, p.1) :: (rs[p.0], cs[p.1])
  }

  /** Moving cells through two one-to-one line maps keeps their number. */
  lemma {:induction false} ImageCount(cells: set<(int, int)>, rs: seq<int>, cs: seq<int>)
    requires IsPerm(rs, Size) && IsPerm(cs, Size)
    requires forall p :: p in cells ==> InBounds(p.0, p.1)
    ensures |Image(cells, rs, cs)| == |cells|
    decreases |cells|
  {
    if cells != {} {
      var p :| p in cells;
      var rest := cells - {p};
      ImageCount(rest, rs, cs);
      assert Image(cells, rs, cs) == Image(rest, rs, cs) + {(rs[p.0], cs[p.1])};
      forall q | q in rest ensures (rs[q.0], cs[q.1]) != (rs[p.0], cs[p.1]) {
        if q.0 != p.0 {
          PermDistinct(rs, q.0, p.0);
        } else {
          PermDistinct(cs, q.1, p.1);
        }
      }
    }
  }

  lemma PermDistinct(p: seq<int>, a: int, b: int)
    requires IsPerm(p, |p|) && 0 <= a < |p| && 0 <= b < |p| && a != b
    ensures p[a] != p[b]
  {
    if b < a {
      assert p[b] != p[a];
    }
  }

  /** Shuffling keeps the number of clues (and so the number of blanks). */
  lemma ShuffleKeepsClueCount(g: Grid, sh: Shuffle)
    requires IsPuzzle(g) && WellFormed(sh)
    ensures |NonZeroCells(Shuffled(g, sh))| == |NonZeroCells(g)|
    ensures |ZeroCells(Shuffled(g, sh))| == |ZeroCells(g)|
  {
    var h := Shuffled(g, sh);
    var rs, cs := RowSource(sh), ColSource(sh);
    SourcesArePerms(sh);
    ImageCount(NonZeroCells(h), rs, cs);
    ImageCount(ZeroCells(h), rs, cs);
    assert Image(NonZeroCells(h), rs, cs) <= NonZeroCells(g);
    assert Image(ZeroCells(h), rs, cs) <= ZeroCells(g);
    SubsetCount(Image(NonZeroCells(h), rs, cs), NonZeroCells(g));
    SubsetCount(Image(ZeroCells(h), rs, cs), ZeroCells(g));
    CellsPartition(g);
    CellsPartition(h);
  }

  lemma SubsetCount(a: set<(int, int)>, b: set<(int, int)>)
    requires a <= b
    ensures |a| <= |b|
  {
    assert b == a + (b - a);
  }

  /** `h` is `g` with some filled cells emptied, as carving leaves it. */
  predicate Carved(g: Grid, h: Grid)
    requires IsGrid(g) && IsGrid(h)
  {
    forall r, c :: 0 <= r < Size && 0 <= c < Size ==> h[r][c] == g[r][c] || h[r][c] == 0
  }

  /** Emptying cells introduces no repeat. */
  lemma CarvePreservesConsistent(g: Grid, h: Grid)
    requires IsGrid(g) && IsGrid(h) && Carved(g, h) && Consistent(g)
    ensures Consistent(h)
  {
    forall r1, c1, r2, c2 |
      InBounds(r1, c1) && InBounds(r2, c2) && (r1, c1) != (r2, c2) &&
      SameUnit(r1, c1, r2, c2) && h[r1][c1] != 0
      ensures h[r1][c1] != h[r2][c2]
    {
      assert g[r1][c1] != g[r2][c2];
    }
  }

  /** `sol` is a solution of puzzle `p`: solved, and agreeing on every clue. */
  ghost predicate SolutionOf(sol: Grid, p: Grid)
    requires IsGrid(p)
  {
    Solved(sol) && Carved(sol, p)
  }

  /** A puzzle generated from a solved seed has a solution: the shuffled seed. */
  lemma GeneratedHasSolution(seed: Grid, sh: Shuffle, p: Grid)
    requires WellFormed(sh) && Solved(seed) && IsGrid(p) && Carved(Shuffled(seed, sh), p)
    ensures SolutionOf(Shuffled(seed, sh), p)
    ensures Consistent(p)
  {
    ShufflePreservesSolved(seed, sh);
    CarvePreservesConsistent(Shuffled(seed, sh), p);
  }
}
