/** One frame of `handlePlayingInput` (main.go) as a function of the playing
    fields of `Game`: status countdown, progress check, cursor, digit entry,
    undo, win-banner countdown and the Space status check. */
module Play {
  import opened Grids
  import opened Rules
  import opened Ledger
  import opened Status
  import opened Keys

  /** `logic.InProgress`, `logic.Completed`, `logic.Invalid`. */
  datatype GameStatus = InProgress | Completed | Invalid

  /** `IsGridFull`, `IsGridValid` and `GetGameStatus` of `GameLogic`, which
      are not part of this model: the frame is specified for any of them. */
  datatype Judge = Judge(isFull: Grid -> bool, isValid: Grid -> bool, status: Grid -> GameStatus)

  /** `showWinMessage` and `messageTimer`. */
  datatype Banner = Banner(show: bool, timer: int)

  /** The banner as set by a win (`showWinMessage = true; messageTimer = 180`). */
  const WinBanner := Banner(true, WinFrames)

  /** The playing fields of `Game`: cursor, puzzle with move stack, win
      banner and status line. */
  datatype PlayState = PlayState(cursorX: int, cursorY: int, board: Snapshot, banner: Banner, status: StatusMessage)

  predicate OnBoard(x: int, y: int) {
    0 <= x < Size && 0 <= y < Size
  }

  predicate ValidPlay(p: PlayState) {
    OnBoard(p.cursorX, p.cursorY) && WellFormedSnapshot(p.board)
  }

  /** What `CheckProgress` reports for a grid: the number of filled cells
      failing `isNumValid` takes priority over the number of empty cells;
      only a grid with neither is judged by `IsGridValid`. */
  function Progress(p: PlayState, judge: Judge): (q: PlayState)
    requires ValidPlay(p)
    ensures ValidPlay(q) && q.board == p.board
  {
    var g := p.board.grid;
    var invalid, empty := |InvalidCells(g)|, |ZeroCells(g)|;
    if invalid > 0 then p.(status := Show(Incorrect(invalid)))
    else if empty > 0 then p.(status := Show(CellsLeft(empty)))
    else if judge.isValid(g) then p.(status := Show(CompletedCorrectly), banner := WinBanner)
    else p
  }

  /** Since every filled cell fails its own self-scan, `CheckProgress` counts
      all filled cells as incorrect, reports "cells left" only on an empty
      grid, and never reaches its completed branch. */
  lemma ProgressReport(p: PlayState, judge: Judge)
    requires ValidPlay(p)
    ensures var g := p.board.grid;
      Progress(p, judge) == p.(status := Show(
        if NonZeroCells(g) != {} then Incorrect(|NonZeroCells(g)|) else CellsLeft(Size * Size)))
  {
    var g := p.board.grid;
    InvalidIsFilled(g);
    CellsPartition(g);
    if NonZeroCells(g) == {} {
      assert |ZeroCells(g)| == Size * Size;
    }
  }

  /** The four cursor keys, each with its letter alternative, clamped to the board. */
  function MoveCursor(x: int, y: int, keys: set<Key>): (c: (int, int))
    ensures OnBoard(x, y) ==> OnBoard(c.0, c.1)
  {
    var y1 := if (ArrowUp in keys || W in keys) && y > 0 then y - 1 else y;
    var y2 := if (ArrowDown in keys || S in keys) && y1 < Size - 1 then y1 + 1 else y1;
    var x1 := if (ArrowLeft in keys || A in keys) && x > 0 then x - 1 else x;
    var x2 := if (ArrowRight in keys || D in keys) && x1 < Size - 1 then x1 + 1 else x1;
    (x2, y2)
  }

  /** What the digit loop keeps between keys: the board and the banner. */
  datatype Entry = Entry(board: Snapshot, banner: Banner)

  /** Key `Digit(d)` in the digit loop on cell (row, col): a valid digit is
      written and pushed with old value 0; after any pressed digit a full
      and valid grid raises the win banner. */
  function DigitStep(e: Entry, keys: set<Key>, row: int, col: int, judge: Judge, d: int): (e': Entry)
    requires WellFormedSnapshot(e.board) && InBounds(row, col)
    ensures WellFormedSnapshot(e'.board)
  {
    if Digit(d) !in keys then e
    else
      var g := e.board.grid;
      var board :=
        if NumValid(g, row, col, d) then Snapshot(SetCell(g, row, col, d), e.board.stack + [Action(row, col, 0, d)])
        else e.board;
      if judge.isFull(board.grid) && judge.isValid(board.grid) then Entry(board, WinBanner)
      else Entry(board, e.banner)
  }

  /** The digit loop from key `Digit(d)` up to `Digit(9)`. */
  function EnterDigits(e: Entry, keys: set<Key>, row: int, col: int, judge: Judge, d: int): (e': Entry)
    requires WellFormedSnapshot(e.board) && InBounds(row, col) && d <= 10
    ensures WellFormedSnapshot(e'.board)
    decreases 10 - d
  {
    if d == 10 then e else EnterDigits(DigitStep(e, keys, row, col, judge, d), keys, row, col, judge, d + 1)
  }

  /** The status countdown, then the P key (`CheckProgress`). */
  function StatusStage(p: PlayState, keys: set<Key>, judge: Judge): (q: PlayState)
    requires ValidPlay(p)
    ensures ValidPlay(q)
  {
    var p1 := p.(status := UpdateStatus(p.status));
    if P in keys then Progress(p1, judge) else p1
  }

  /** The cursor keys. */
  function CursorStage(p: PlayState, keys: set<Key>): (q: PlayState)
    requires ValidPlay(p)
    ensures ValidPlay(q)
  {
    var (x, y) := MoveCursor(p.cursorX, p.cursorY, keys);
    p.(cursorX := x, cursorY := y)
  }

  /** The digit keys, only when the cursor cell is empty. */
  function DigitStage(p: PlayState, keys: set<Key>, judge: Judge): (q: PlayState)
    requires ValidPlay(p)
    ensures ValidPlay(q)
  {
    if p.board.grid[p.cursorY][p.cursorX] == 0 then
      var e := EnterDigits(Entry(p.board, p.banner), keys, p.cursorY, p.cursorX, judge, 0);
      p.(board := e.board, banner := e.banner)
    else p
  }

  /** Z or Backspace undoes the last move. */
  function UndoStage(p: PlayState, keys: set<Key>): (q: PlayState)
    requires ValidPlay(p)
    ensures ValidPlay(q)
  {
    if Z in keys || Backspace in keys then p.(board := Undo(p.board)) else p
  }

  /** The win-banner countdown, then the Space status check. */
  function BannerStage(p: PlayState, keys: set<Key>, judge: Judge): (q: PlayState)
    requires ValidPlay(p)
    ensures ValidPlay(q)
  {
    var (show, timer) := Countdown(p.banner.show, p.banner.timer);
    var p1 := p.(banner := Banner(show, timer));
    if Space in keys && judge.status(p1.board.grid) == Completed then p1.(banner := WinBanner) else p1
  }

  /** `handlePlayingInput`: its five blocks in order. */
  function PlayFrame(p: PlayState, keys: set<Key>, judge: Judge): (q: PlayState)
    requires ValidPlay(p)
    ensures ValidPlay(q)
  {
    BannerStage(UndoStage(DigitStage(CursorStage(StatusStage(p, keys, judge), keys), keys, judge), keys), keys, judge)
  }

  /** Digit entry never introduces a repeated digit into a row, column or box. */
  lemma {:induction false} DigitsKeepConsistent(e: Entry, keys: set<Key>, row: int, col: int, judge: Judge, d: int)
    requires WellFormedSnapshot(e.board) && InBounds(row, col) && d <= 10
    requires Consistent(e.board.grid)
    ensures Consistent(EnterDigits(e, keys, row, col, judge, d).board.grid)
    decreases 10 - d
  {
    if d < 10 {
      var e' := DigitStep(e, keys, row, col, judge, d);
      if Digit(d) in keys && NumValid(e.board.grid, row, col, d) {
        ValidPlacementKeepsConsistent(e.board.grid, row, col, d);
      }
      DigitsKeepConsistent(e', keys, row, col, judge, d + 1);
    }
  }

  /** The digit loop only ever adds actions to the stack, each for the cursor
      cell with a valid digit and old value 0, at most one per digit key. */
  lemma {:induction false} DigitsOnlyPush(e: Entry, keys: set<Key>, row: int, col: int, judge: Judge, d: int)
    requires WellFormedSnapshot(e.board) && InBounds(row, col) && 0 <= d <= 10
    requires d == 0 ==> e.board.grid[row][col] == 0
    ensures var s := EnterDigits(e, keys, row, col, judge, d).board.stack;
      |e.board.stack| <= |s| <= |e.board.stack| + 10 - d && s[..|e.board.stack|] == e.board.stack &&
      forall k :: |e.board.stack| <= k < |s| ==>
        s[k].row == row && s[k].col == col && s[k].oldValue == 0 && 1 <= s[k].newValue <= 9
    decreases 10 - d
  {
    if d < 10 {
      var e' := DigitStep(e, keys, row, col, judge, d);
      if d == 0 {
        SelfScanRejects(e.board.grid, row, col);
      }
      DigitsOnlyPush(e', keys, row, col, judge, d + 1);
    }
  }

  /** With no digit key from `d` on, the loop changes nothing. */
  lemma {:induction false} NoDigitNoChange(e: Entry, keys: set<Key>, row: int, col: int, judge: Judge, d: int)
    requires WellFormedSnapshot(e.board) && InBounds(row, col) && d <= 10
    requires forall k :: d <= k < 10 ==> Digit(k) !in keys
    ensures EnterDigits(e, keys, row, col, judge, d) == e
    decreases 10 - d
  {
    if d < 10 {
      NoDigitNoChange(e, keys, row, col, judge, d + 1);
    }
  }

  /** One digit key on an empty cell: a valid digit is written and exactly one
      action `{row, col, 0, d}` is pushed; an invalid one (0 is always
      invalid on an empty cell) leaves the grid and the stack unchanged. */
  lemma SingleDigitEntry(e: Entry, keys: set<Key>, row: int, col: int, judge: Judge, d: int)
    requires WellFormedSnapshot(e.board) && InBounds(row, col) && 0 <= d <= 9
    requires e.board.grid[row][col] == 0
    requires Digit(d) in keys && forall k :: 0 <= k < 10 && k != d ==> Digit(k) !in keys
    ensures var b := EnterDigits(Entry(e.board, e.banner), keys, row, col, judge, 0).board;
      if d != 0 && NumValid(e.board.grid, row, col, d)
      then b == Snapshot(SetCell(e.board.grid, row, col, d), e.board.stack + [Action(row, col, 0, d)])
      else b == e.board
  {
    BeforeDigit(e, keys, row, col, judge, 0, d);
    if d == 0 {
      SelfScanRejects(e.board.grid, row, col);
    }
    NoDigitNoChange(DigitStep(e, keys, row, col, judge, d), keys, row, col, judge, d + 1);
  }

  /** With no digit key below `d`, running the loop from `lo` reaches key `d`
      with the entry unchanged. */
  lemma {:induction false} BeforeDigit(e: Entry, keys: set<Key>, row: int, col: int, judge: Judge, lo: int, d: int)
    requires WellFormedSnapshot(e.board) && InBounds(row, col) && lo <= d < 10
    requires forall k :: lo <= k < d ==> Digit(k) !in keys
    ensures EnterDigits(e, keys, row, col, judge, lo) == EnterDigits(e, keys, row, col, judge, d)
    decreases d - lo
  {
    if lo < d {
      BeforeDigit(e, keys, row, col, judge, lo + 1, d);
    }
  }

  /** Two digit keys in one frame on an empty cell: the second overwrites the
      first, and both actions record old value 0, so one undo empties the
      cell instead of bringing the first digit back. */
  lemma TwoDigitsInOneFrame(e: Entry, keys: set<Key>, row: int, col: int, judge: Judge, d1: int, d2: int)
    requires WellFormedSnapshot(e.board) && InBounds(row, col) && 1 <= d1 < d2 <= 9
    requires e.board.grid[row][col] == 0
    requires forall k :: 0 <= k < 10 ==> (Digit(k) in keys <==> k == d1 || k == d2)
    requires NumValid(e.board.grid, row, col, d1)
    requires NumValid(SetCell(e.board.grid, row, col, d1), row, col, d2)
    ensures var b := EnterDigits(e, keys, row, col, judge, 0).board;
      b.grid[row][col] == d2 &&
      b.stack == e.board.stack + [Action(row, col, 0, d1), Action(row, col, 0, d2)] &&
      Undo(b).grid[row][col] == 0
  {
    BeforeDigit(e, keys, row, col, judge, 0, d1);
    var e1 := DigitStep(e, keys, row, col, judge, d1);
    BeforeDigit(e1, keys, row, col, judge, d1 + 1, d2);
    var e2 := DigitStep(e1, keys, row, col, judge, d2);
    NoDigitNoChange(e2, keys, row, col, judge, d2 + 1);
    assert e1.board.stack + [Action(row, col, 0, d2)] == e.board.stack + [Action(row, col, 0, d1), Action(row, col, 0, d2)];
  }

  /** Only the cursor keys move the cursor, and by at most one cell along
      each axis per frame; without any of them it stays where it was. */
  lemma CursorMovesOneStep(p: PlayState, keys: set<Key>, judge: Judge)
    requires ValidPlay(p)
    ensures var q := PlayFrame(p, keys, judge);
      -1 <= q.cursorX - p.cursorX <= 1 && -1 <= q.cursorY - p.cursorY <= 1
    ensures var q := PlayFrame(p, keys, judge);
      ArrowLeft !in keys && A !in keys && ArrowRight !in keys && D !in keys ==> q.cursorX == p.cursorX
    ensures var q := PlayFrame(p, keys, judge);
      ArrowUp !in keys && W !in keys && ArrowDown !in keys && S !in keys ==> q.cursorY == p.cursorY
  {
  }
}
