/** The move history of a game in progress (`GameLogic` in logic/puzlogic.go):
    the puzzle being played and the stack of moves made on it. */
module Ledger {
  import opened Grids

  /** One recorded move: the cell, the value it held before and the value written. */
  datatype Action = Action(row: int, col: int, oldValue: int, newValue: int)

  /** The puzzle and the move stack as values. */
  datatype Snapshot = Snapshot(grid: Grid, stack: seq<Action>)

  /** Every move on the stack names a cell of the grid. */
  predicate MovesInBounds(stack: seq<Action>) {
    forall k :: 0 <= k < |stack| ==> InBounds(stack[k].row, stack[k].col)
  }

  predicate WellFormedSnapshot(s: Snapshot) {
    IsGrid(s.grid) && MovesInBounds(s.stack)
  }

  /** What `AddMove(row, col, _, v)` does: push the move with the cell's
      current value, then write `v`. */
  function Record(s: Snapshot, row: int, col: int, v: int): (t: Snapshot)
    requires WellFormedSnapshot(s) && InBounds(row, col)
    ensures WellFormedSnapshot(t)
  {
    Snapshot(SetCell(s.grid, row, col, v), s.stack + [Action(row, col, s.grid[row][col], v)])
  }

  /** What `UndoMove` does: pop the last move and put its old value back;
      nothing at all on an empty stack. */
  function Undo(s: Snapshot): (t: Snapshot)
    requires WellFormedSnapshot(s)
    ensures WellFormedSnapshot(t)
  {
    if s.stack == [] then s
    else
      var last := s.stack[|s.stack| - 1];
      Snapshot(SetCell(s.grid, last.row, last.col, last.oldValue), s.stack[..|s.stack| - 1])
  }

  /** A move followed by its undo restores both the grid and the stack. */
  lemma UndoRecord(s: Snapshot, row: int, col: int, v: int)
    requires WellFormedSnapshot(s) && InBounds(row, col)
    ensures Undo(Record(s, row, col, v)) == s
  {
    var t := Undo(Record(s, row, col, v));
    assert (s.stack + [Action(row, col, s.grid[row][col], v)])[..|s.stack|] == s.stack;
    GridExt(t.grid, s.grid);
  }

  /** A sequence of moves, each a cell and the value written there. */
  datatype Move = Move(row: int, col: int, value: int)

  predicate MovesOk(moves: seq<Move>) {
    forall k :: 0 <= k < |moves| ==> InBounds(moves[k].row, moves[k].col)
  }

  /** The snapshot after the moves are recorded in order. */
  function RecordAll(s: Snapshot, moves: seq<Move>): (t: Snapshot)
    requires WellFormedSnapshot(s) && MovesOk(moves)
    ensures WellFormedSnapshot(t)
    decreases |moves|
  {
    if moves == [] then s
    else
      var m := moves[|moves| - 1];
      Record(RecordAll(s, moves[..|moves| - 1]), m.row, m.col, m.value)
  }

  /** The snapshot after `n` undos. */
  function UndoTimes(s: Snapshot, n: nat): (t: Snapshot)
    requires WellFormedSnapshot(s)
    ensures WellFormedSnapshot(t)
  {
    if n == 0 then s else Undo(UndoTimes(s, n - 1))
  }

  lemma {:induction false} UndoTimesStep(s: Snapshot, n: nat)
    requires WellFormedSnapshot(s)
    ensures UndoTimes(s, n + 1) == UndoTimes(Undo(s), n)
  {
    if n > 0 {
      UndoTimesStep(s, n - 1);
    }
  }

  /** Recording moves pushes exactly one action per move. */
  lemma {:induction false} RecordAllStack(s: Snapshot, moves: seq<Move>)
    requires WellFormedSnapshot(s) && MovesOk(moves)
    ensures |RecordAll(s, moves).stack| == |s.stack| + |moves|
    ensures RecordAll(s, moves).stack[..|s.stack|] == s.stack
    decreases |moves|
  {
    if moves != [] {
      RecordAllStack(s, moves[..|moves| - 1]);
    }
  }

  /** Undoing as many times as moves were recorded brings back the snapshot
      the moves started from. */
  lemma {:induction false} UndoAll(s: Snapshot, moves: seq<Move>)
    requires WellFormedSnapshot(s) && MovesOk(moves)
    ensures UndoTimes(RecordAll(s, moves), |moves|) == s
    decreases |moves|
  {
    if moves != [] {
      var front, m := moves[..|moves| - 1], moves[|moves| - 1];
      assert MovesOk(front);
      var before := RecordAll(s, front);
      calc {
        UndoTimes(RecordAll(s, moves), |moves|);
      ==
        UndoTimes(Record(before, m.row, m.col, m.value), |front| + 1);
      == { UndoTimesStep(Record(before, m.row, m.col, m.value), |front|); }
        UndoTimes(Undo(Record(before, m.row, m.col, m.value)), |front|);
      == { UndoRecord(before, m.row, m.col, m.value); }
        UndoTimes(before, |front|);
      == { UndoAll(s, front); }
        s;
      }
    }
  }

  /** Undo with nothing recorded changes nothing, however often it is pressed. */
  lemma {:induction false} UndoEmptyStack(s: Snapshot, n: nat)
    requires WellFormedSnapshot(s) && s.stack == []
    ensures UndoTimes(s, n) == s
  {
    if n > 0 {
      UndoEmptyStack(s, n - 1);
    }
  }

  /** `GameLogic`: the puzzle being played and its move stack. */
  class GameLogic {
    var puzzle: array2<int>
    var moveStack: seq<Action>

    predicate Valid()
      reads this
    {
      Is9x9(puzzle) && MovesInBounds(moveStack)
    }

    /** The state as a value. */
    function State(): (s: Snapshot)
      reads this, puzzle
      requires Valid()
      ensures WellFormedSnapshot(s)
    {
      Snapshot(Cells(puzzle), moveStack)
    }

    /** `&GameLogic{Puzzle: p, MoveStack: []Action{}}` */
    constructor(p: array2<int>)
      requires Is9x9(p)
      ensures Valid() && puzzle == p && moveStack == []
    {
      puzzle := p;
      moveStack := [];
    }

    /** `AddMove`: the `oldValue` argument is ignored; the action records the
        value the cell holds now. */
    method AddMove(row: int, col: int, oldValue: int, newValue: int)
      requires Valid() && InBounds(row, col)
      modifies this, puzzle
      ensures Valid() && puzzle == old(puzzle)
      ensures State() == Record(old(State()), row, col, newValue)
    {
      var oldmove := puzzle[row, col];
      var action := Action(row, col, oldmove, newValue);
      moveStack := moveStack + [action];
      puzzle[row, col] := newValue;
      GridExt(Cells(puzzle), Record(old(State()), row, col, newValue).grid);
    }

    /** `UndoMove`: pop the last action and restore its old value. */
    method UndoMove()
      requires Valid()
      modifies this, puzzle
      ensures Valid() && puzzle == old(puzzle)
      ensures State() == Undo(old(State()))
    {
      if |moveStack| == 0 {
        return;
      }
      var lastMove := moveStack[|moveStack| - 1];
      moveStack := moveStack[..|moveStack| - 1];
      puzzle[lastMove.row, lastMove.col] := lastMove.oldValue;
      GridExt(Cells(puzzle), Undo(old(State())).grid);
    }
  }
}
