/** The `Game` object of main.go and its per-frame methods. Key polling,
    the seed file and the random draws come in as parameters; the unseen
    `IsGridFull`, `IsGridValid` and `GetGameStatus` come in as a `Judge`. */
module GameLoop {
  import opened Grids
  import opened Loader
  import opened LoaderFacts
  import opened Transform
  import opened ShuffleFacts
  import opened Rules
  import opened Ledger
  import opened Status
  import opened Keys
  import opened Menus
  import opened Play

  /** Why `startGame` does not produce a game. */
  datatype Failure =
    | LoadFailed(error: LoadError)   // `log.Fatalf` on a load error
    | NoPuzzles                      // `rand.Intn(0)` panics on an empty pool
    | CarveNeverEnds                 // too few clues: the carving loop never ends

  /** What one call of `Update` tells the game loop. */
  datatype Frame = Continue | Terminate | Crash(failure: Failure)

  /** What `startGame` reads from outside: the lines of the seed file and the
      random draws of `GetRandomPuzzle` and `ShuffleAsh`. */
  datatype Env = Env(lines: seq<string>, pick: nat, shuffle: Shuffle)

  /** The removal rank `startGame` passes for each difficulty. */
  function Rank(difficulty: int): (rank: int)
    requires Easy <= difficulty <= Hard
    ensures Blanks(rank) == (if difficulty == Easy then 30 else if difficulty == Medium then 50 else 70)
  {
    if difficulty == Easy then 1 else if difficulty == Medium then 3 else 5
  }

  /** Why `startGame` fails for these inputs, if it does. */
  function StartFailure(env: Env, difficulty: int): Option<Failure>
    requires Easy <= difficulty <= Hard
  {
    match Parse(env.lines)
    case Err(e) => Some(LoadFailed(e))
    case Ok(pool) =>
      if pool == [] then Some(NoPuzzles)
      else
        ParseYieldsPuzzles(env.lines);
        if |NonZeroCells(GetRandomPuzzle(pool, env.pick))| < Blanks(Rank(difficulty)) then Some(CarveNeverEnds)
        else None
  }

  /** The seed puzzle `startGame` picks. */
  function Seed(env: Env): (g: Grid)
    requires Parse(env.lines).Ok? && Parse(env.lines).value != []
    ensures IsPuzzle(g)
  {
    ParseYieldsPuzzles(env.lines);
    GetRandomPuzzle(Parse(env.lines).value, env.pick)
  }

  /** `p` is a puzzle `startGame` can produce: the shuffled seed with exactly
      `Blanks(Rank(difficulty))` more of its cells emptied. */
  ghost predicate Generated(env: Env, difficulty: int, p: Grid)
    requires Easy <= difficulty <= Hard && WellFormed(env.shuffle)
    requires Parse(env.lines).Ok? && Parse(env.lines).value != []
  {
    CarvedFrom(Shuffled(Seed(env), env.shuffle), p, Rank(difficulty))
  }

  /** `p` is `full` with exactly `Blanks(rank)` of its clues emptied. */
  ghost predicate CarvedFrom(full: Grid, p: Grid, rank: int)
    requires IsGrid(full)
  {
    IsGrid(p) && Carved(full, p) && NonZeroCells(p) <= NonZeroCells(full) &&
    |ZeroCells(p)| == |ZeroCells(full)| + Blanks(rank)
  }

  /** A started puzzle has the seed's blanks plus 30, 50 or 70 more; from a
      solved seed it has a solution and no repeated digit. */
  lemma GeneratedPuzzle(env: Env, difficulty: int, p: Grid)
    requires Easy <= difficulty <= Hard && WellFormed(env.shuffle)
    requires Parse(env.lines).Ok? && Parse(env.lines).value != []
    requires Generated(env, difficulty, p)
    ensures |ZeroCells(p)| == |ZeroCells(Seed(env))| + Blanks(Rank(difficulty))
    ensures Solved(Seed(env)) ==> SolutionOf(Shuffled(Seed(env), env.shuffle), p) && Consistent(p)
  {
    ShuffleKeepsClueCount(Seed(env), env.shuffle);
    if Solved(Seed(env)) {
      GeneratedHasSolution(Seed(env), env.shuffle, p);
    }
  }

  /** `Game` (the unused `Puzzle` field and the drawer aside). */
  class Game {
    var cursorX: int
    var cursorY: int
    var logic: GameLogic?
    var state: GameState
    var difficulty: int
    var selected: int
    var shouldExit: bool
    var showWinMessage: bool
    var messageTimer: int
    var statusMessage: StatusMessage

    ghost predicate Valid()
      reads this, logic
    {
      OnBoard(cursorX, cursorY) && ValidMenu(MenuOf()) &&
      (state == Playing ==> logic != null) &&
      (logic != null ==> logic.Valid())
    }

    /** The objects a frame may change. */
    ghost function Footprint(): set<object?>
      reads this, logic
    {
      if logic == null then {this} else {this, logic, logic.puzzle}
    }

    function MenuOf(): Menu
      reads this
    {
      Menu(state, selected, difficulty, shouldExit)
    }

    /** The playing fields a menu frame leaves alone: cursor, banner, status line. */
    function Hud(): (int, int, bool, int, StatusMessage)
      reads this
    {
      (cursorX, cursorY, showWinMessage, messageTimer, statusMessage)
    }

    function PlayOf(): (p: PlayState)
      reads this, logic, logic.puzzle
      requires logic != null && logic.Valid()
    {
      PlayState(cursorX, cursorY, logic.State(), Banner(showWinMessage, messageTimer), statusMessage)
    }

    /** `NewGame`: cursor in the centre, main menu, no game yet. */
    constructor()
      ensures Valid() && MenuOf() == Menu(MainMenu, 0, Easy, false)
      ensures cursorX == 4 && cursorY == 4 && logic == null
      ensures !showWinMessage && messageTimer == 0 && statusMessage == Hidden
    {
      cursorX := Size / 2;
      cursorY := Size / 2;
      logic := null;
      state := MainMenu;
      difficulty := Easy;
      selected := 0;
      shouldExit := false;
      showWinMessage := false;
      messageTimer := 0;
      statusMessage := Hidden;
    }

    /** `showStatus` */
    method ShowStatus(n: Notice)
      modifies this
      ensures statusMessage == Show(n)
      ensures MenuOf() == old(MenuOf()) && logic == old(logic)
      ensures cursorX == old(cursorX) && cursorY == old(cursorY)
      ensures showWinMessage == old(showWinMessage) && messageTimer == old(messageTimer)
    {
      statusMessage := StatusMessage(n, StatusFrames, true);
    }

    /** `updateStatusMessage` */
    method UpdateStatusMessage()
      modifies this
      ensures statusMessage == UpdateStatus(old(statusMessage))
      ensures MenuOf() == old(MenuOf()) && logic == old(logic)
      ensures cursorX == old(cursorX) && cursorY == old(cursorY)
      ensures showWinMessage == old(showWinMessage) && messageTimer == old(messageTimer)
    {
      if statusMessage.isVisible {
        statusMessage := statusMessage.(timer := statusMessage.timer - 1);
        if statusMessage.timer <= 0 {
          statusMessage := statusMessage.(isVisible := false);
        }
      }
    }

    /** `isNumValid`: the row, column and box scans; false without a game. */
    method IsNumValid(row: int, col: int, num: int) returns (ok: bool)
      requires InBounds(row, col) && (logic != null ==> logic.Valid())
      ensures ok <==> logic != null && NumValid(Cells(logic.puzzle), row, col, num)
    {
      if logic == null {
        return false;
      }
      var puzzle := logic.puzzle;
      for i := 0 to Size
        invariant forall k :: 0 <= k < i ==> puzzle[row, k] != num
      {
        if puzzle[row, i] == num {
          return false;
        }
      }
      for i := 0 to Size
        invariant forall k :: 0 <= k < i ==> puzzle[k, col] != num
      {
        if puzzle[i, col] == num {
          return false;
        }
      }
      var subGridRowStart := (row / 3) * 3;
      var subGridColStart := (col / 3) * 3;
      for r := subGridRowStart to subGridRowStart + 3
        invariant forall r', c :: subGridRowStart <= r' < r && subGridColStart <= c < subGridColStart + 3 ==>
          puzzle[r', c] != num
      {
        for c := subGridColStart to subGridColStart + 3
          invariant forall r', c' ::
            ((subGridRowStart <= r' < r && subGridColStart <= c' < subGridColStart + 3) || (r' == r && subGridColStart <= c' < c))
            ==> puzzle[r', c'] != num
        {
          if puzzle[r, c] == num {
            return false;
          }
        }
      }
      return true;
    }

    /** `CheckProgress`: count empty cells and filled cells failing
      `isNumValid`, then report. */
    method CheckProgress(judge: Judge)
      requires logic != null ==> logic.Valid() && OnBoard(cursorX, cursorY)
      modifies this
      ensures MenuOf() == old(MenuOf()) && logic == old(logic)
      ensures old(logic) == null ==> unchanged(this)
      ensures old(logic) != null ==> PlayOf() == Progress(old(PlayOf()), judge)
    {
      if logic == null {
        return;
      }
      var lg: GameLogic := logic;
      ghost var g := Cells(lg.puzzle);
      var emptyCount := 0;
      var invalidCount := 0;
      for i := 0 to Size
        invariant unchanged(this) && logic == lg && Cells(lg.puzzle) == g
        invariant emptyCount == |EmptyBefore(g, i, 0)| && invalidCount == |InvalidBefore(g, i, 0)|
      {
        for j := 0 to Size
          invariant unchanged(this) && logic == lg && Cells(lg.puzzle) == g
          invariant emptyCount == |EmptyBefore(g, i, j)| && invalidCount == |InvalidBefore(g, i, j)|
        {
          CountStep(g, i, j);
          if lg.puzzle[i, j] == 0 {
            emptyCount := emptyCount + 1;
          } else {
            var ok := IsNumValid(i, j, lg.puzzle[i, j]);
            if !ok {
              invalidCount := invalidCount + 1;
            }
          }
        }
        CountRow(g, i);
      }
      CountAll(g);
      if invalidCount > 0 {
        ShowStatus(Incorrect(invalidCount));
      } else if emptyCount > 0 {
        ShowStatus(CellsLeft(emptyCount));
      } else if judge.isValid(Cells(logic.puzzle)) {
        ShowStatus(CompletedCorrectly);
        showWinMessage := true;
        messageTimer := WinFrames;
      }
    }

    /** The digit-key loop of `handlePlayingInput` on the cursor cell. */
    method EnterDigitKeys(keys: set<Key>, judge: Judge)
      requires logic != null && logic.Valid() && OnBoard(cursorX, cursorY)
      modifies this, logic, logic.puzzle
      ensures logic == old(logic) && logic.puzzle == old(logic.puzzle) && logic.Valid()
      ensures MenuOf() == old(MenuOf()) && statusMessage == old(statusMessage)
      ensures cursorX == old(cursorX) && cursorY == old(cursorY)
      ensures Entry(logic.State(), Banner(showWinMessage, messageTimer)) ==
        EnterDigits(Entry(old(logic.State()), Banner(old(showWinMessage), old(messageTimer))), keys, cursorY, cursorX, judge, 0)
    {
      ghost var start := Entry(logic.State(), Banner(showWinMessage, messageTimer));
      for d := 0 to 10
        invariant logic == old(logic) && logic.puzzle == old(logic.puzzle) && logic.Valid()
        invariant MenuOf() == old(MenuOf()) && statusMessage == old(statusMessage)
        invariant cursorX == old(cursorX) && cursorY == old(cursorY)
        invariant EnterDigits(Entry(logic.State(), Banner(showWinMessage, messageTimer)), keys, cursorY, cursorX, judge, d) ==
          EnterDigits(start, keys, cursorY, cursorX, judge, 0)
      {
        EnterDigitKey(d, keys, judge);
      }
    }

    /** One pass of the digit-key loop: key `d`, if pressed, is checked,
        written and recorded, and the win condition is tested. */
    method EnterDigitKey(d: int, keys: set<Key>, judge: Judge)
      requires logic != null && logic.Valid() && OnBoard(cursorX, cursorY)
      modifies this, logic, logic.puzzle
      ensures logic == old(logic) && logic.puzzle == old(logic.puzzle) && logic.Valid()
      ensures MenuOf() == old(MenuOf()) && statusMessage == old(statusMessage)
      ensures cursorX == old(cursorX) && cursorY == old(cursorY)
      ensures Entry(logic.State(), Banner(showWinMessage, messageTimer)) ==
        DigitStep(Entry(old(logic.State()), Banner(old(showWinMessage), old(messageTimer))), keys, cursorY, cursorX, judge, d)
    {
      ghost var before := Entry(logic.State(), Banner(showWinMessage, messageTimer));
      if Digit(d) in keys {
        var ok := IsNumValid(cursorY, cursorX, d);
        if ok {
          logic.puzzle[cursorY, cursorX] := d;
          logic.moveStack := logic.moveStack + [Action(cursorY, cursorX, 0, d)];
          GridExt(Cells(logic.puzzle), SetCell(before.board.grid, cursorY, cursorX, d));
        }
        if judge.isFull(Cells(logic.puzzle)) && judge.isValid(Cells(logic.puzzle)) {
          showWinMessage := true;
          messageTimer := WinFrames;
        }
      }
    }

    /** The cursor block of `handlePlayingInput`. */
    method MoveCursorKeys(keys: set<Key>)
      requires logic != null && logic.Valid() && OnBoard(cursorX, cursorY)
      modifies this
      ensures MenuOf() == old(MenuOf()) && logic == old(logic)
      ensures PlayOf() == CursorStage(old(PlayOf()), keys)
    {
      if ArrowUp in keys || W in keys {
        if cursorY > 0 {
          cursorY := cursorY - 1;
        }
      }
      if ArrowDown in keys || S in keys {
        if cursorY < Size - 1 {
          cursorY := cursorY + 1;
        }
      }
      if ArrowLeft in keys || A in keys {
        if cursorX > 0 {
          cursorX := cursorX - 1;
        }
      }
      if ArrowRight in keys || D in keys {
        if cursorX < Size - 1 {
          cursorX := cursorX + 1;
        }
      }
    }

    /** The status countdown and the P key that open `handlePlayingInput`. */
    method StatusKeys(keys: set<Key>, judge: Judge)
      requires logic != null && logic.Valid() && OnBoard(cursorX, cursorY)
      modifies this
      ensures MenuOf() == old(MenuOf()) && logic == old(logic)
      ensures PlayOf() == StatusStage(old(PlayOf()), keys, judge)
    {
      UpdateStatusMessage();
      if P in keys {
        CheckProgress(judge);
      }
    }

    /** The digit block of `handlePlayingInput`. */
    method DigitKeys(keys: set<Key>, judge: Judge)
      requires logic != null && logic.Valid() && OnBoard(cursorX, cursorY)
      modifies this, logic, logic.puzzle
      ensures logic == old(logic) && logic.puzzle == old(logic.puzzle) && logic.Valid()
      ensures MenuOf() == old(MenuOf())
      ensures PlayOf() == DigitStage(old(PlayOf()), keys, judge)
    {
      if logic.puzzle[cursorY, cursorX] == 0 {
        EnterDigitKeys(keys, judge);
      }
    }

    /** The undo block of `handlePlayingInput`. */
    method UndoKeys(keys: set<Key>)
      requires logic != null && logic.Valid() && OnBoard(cursorX, cursorY)
      modifies this, logic, logic.puzzle
      ensures logic == old(logic) && logic.puzzle == old(logic.puzzle) && logic.Valid()
      ensures MenuOf() == old(MenuOf())
      ensures PlayOf() == UndoStage(old(PlayOf()), keys)
    {
      if Z in keys || Backspace in keys {
        logic.UndoMove();
      }
    }

    /** The win-banner countdown and the Space status check that end
      `handlePlayingInput`. */
    method BannerKeys(keys: set<Key>, judge: Judge)
      requires logic != null && logic.Valid() && OnBoard(cursorX, cursorY)
      modifies this
      ensures MenuOf() == old(MenuOf()) && logic == old(logic)
      ensures PlayOf() == BannerStage(old(PlayOf()), keys, judge)
    {
      if showWinMessage {
        messageTimer := messageTimer - 1;
        if messageTimer <= 0 {
          showWinMessage := false;
        }
      }
      if Space in keys {
        var status := judge.status(Cells(logic.puzzle));
        match status {
          case InProgress =>
          case Completed =>
            showWinMessage := true;
            messageTimer := WinFrames;
          case Invalid =>
        }
      }
    }

    /** `handlePlayingInput` */
    method HandlePlayingInput(keys: set<Key>, judge: Judge)
      requires Valid() && logic != null
      modifies this, logic, logic.puzzle
      ensures Valid() && logic == old(logic) && logic.puzzle == old(logic.puzzle)
      ensures MenuOf() == old(MenuOf())
      ensures PlayOf() == PlayFrame(old(PlayOf()), keys, judge)
    {
      StatusKeys(keys, judge);
      MoveCursorKeys(keys);
      DigitKeys(keys, judge);
      UndoKeys(keys);
      BannerKeys(keys, judge);
    }

    /** The part of `startGame` that builds the puzzle: load the seed file,
      pick a seed, shuffle it, carve blanks for the difficulty rank. */
    static method MakePuzzle(env: Env, difficulty: int) returns (failure: Option<Failure>, grid: array2<int>)
      requires Easy <= difficulty <= Hard && WellFormed(env.shuffle)
      ensures failure == StartFailure(env, difficulty)
      ensures failure.None? ==> fresh(grid) && Is9x9(grid) && Generated(env, difficulty, Cells(grid))
    {
      grid := new int[Size, Size];
      var loaded := LoadPuzzles(env.lines);
      if loaded.Err? {
        return Some(LoadFailed(loaded.error)), grid;
      }
      var puzzles := loaded.value;
      if |puzzles| == 0 {
        return Some(NoPuzzles), grid;
      }
      ParseYieldsPuzzles(env.lines);
      var seed := GetRandomPuzzle(puzzles, env.pick);
      var tooFew;
      tooFew, grid := ShapePuzzle(seed, env.shuffle, Rank(difficulty));
      if tooFew {
        return Some(CarveNeverEnds), grid;
      }
      return None, grid;
    }

    /** The rest of `startGame`'s puzzle building: copy the seed, shuffle it,
      carve it. `tooFew` is the case where carving would never end. */
    static method ShapePuzzle(seed: Grid, sh: Shuffle, rank: int) returns (tooFew: bool, grid: array2<int>)
      requires IsPuzzle(seed) && WellFormed(sh) && rank > 0
      ensures tooFew <==> |NonZeroCells(seed)| < Blanks(rank)
      ensures !tooFew ==> fresh(grid) && Is9x9(grid) && CarvedFrom(Shuffled(seed, sh), Cells(grid), rank)
    {
      grid := new int[Size, Size]((r, c) requires 0 <= r < Size && 0 <= c < Size => seed[r][c]);
      GridExt(Cells(grid), seed);
      ShuffleAsh(grid, sh);
      ShuffleKeepsClueCount(seed, sh);
      if |NonZeroCells(Cells(grid))| < Blanks(rank) {
        return true, grid;
      }
      ghost var full := Cells(grid);
      RemoveNumbersFromGrid(grid, rank);
      assert Carved(full, Cells(grid));
      return false, grid;
    }

    /** `startGame`: build a puzzle and install a fresh `GameLogic` in the
      Playing state. The cursor, banner and status line are not reset. */
    method StartGame(env: Env) returns (failure: Option<Failure>)
      requires Valid() && WellFormed(env.shuffle)
      modifies this
      ensures failure == StartFailure(env, old(difficulty))
      ensures failure.Some? ==> unchanged(this)
      ensures failure.None? ==>
        Valid() && fresh(logic) && logic.moveStack == [] && state == Playing &&
        Generated(env, difficulty, Cells(logic.puzzle)) &&
        selected == old(selected) && difficulty == old(difficulty) && shouldExit == old(shouldExit) &&
        Hud() == old(Hud())
    {
      var grid;
      failure, grid := MakePuzzle(env, difficulty);
      if failure.Some? {
        return;
      }
      logic := new GameLogic(grid);
      state := Playing;
    }

    /** `handleMainMenu` */
    method HandleMainMenu(keys: set<Key>, env: Env) returns (failure: Option<Failure>)
      requires Valid() && state == MainMenu && !shouldExit && WellFormed(env.shuffle)
      modifies this
      ensures failure == (if StartsGame(old(MenuOf()), keys) then StartFailure(env, old(difficulty)) else None)
      ensures failure.None? ==> Valid() && MenuOf() == MainMenuKeys(old(MenuOf()), keys)
      ensures failure.None? && StartsGame(old(MenuOf()), keys) ==> fresh(logic)
      ensures failure.None? ==> HandledBy(old(logic), keys, env, StartsGame(old(MenuOf()), keys)) && Hud() == old(Hud())
    {
      failure := None;
      if ArrowDown in keys {
        selected := (selected + 1) % 3;
      } else if ArrowUp in keys {
        selected := selected - 1;
        if selected < 0 {
          selected := 2;
        }
      } else if Enter in keys {
        match selected {
          case 0 =>
            if difficulty == Easy {
              state := DifficultyMenu;
              selected := 0;
            } else {
              failure := StartGame(env);
            }
          case 1 =>
            state := DifficultyMenu;
            selected := 0;
          case 2 =>
            shouldExit := true;
          case _ =>
        }
      }
    }

    /** What a menu handler leaves in the playing fields: a fresh game from
      the seed file if it started one, the old game otherwise. */
    ghost predicate HandledBy(oldLogic: GameLogic?, keys: set<Key>, env: Env, started: bool)
      reads this, logic, if logic != null then {logic.puzzle} else {}
      requires Valid() && WellFormed(env.shuffle)
    {
      if started then
        logic != null && logic != oldLogic && logic.moveStack == [] &&
        StartFailure(env, difficulty).None? && Generated(env, difficulty, Cells(logic.puzzle))
      else logic == oldLogic
    }

    /** `handleDifficultyMenu` */
    method HandleDifficultyMenu(keys: set<Key>, env: Env) returns (failure: Option<Failure>)
      requires Valid() && state == DifficultyMenu && !shouldExit && WellFormed(env.shuffle)
      modifies this
      ensures failure == (if StartsGame(old(MenuOf()), keys) then StartFailure(env, old(selected)) else None)
      ensures failure.None? ==> Valid() && MenuOf() == DifficultyMenuKeys(old(MenuOf()), keys)
      ensures failure.None? && StartsGame(old(MenuOf()), keys) ==> fresh(logic)
      ensures failure.None? ==> HandledBy(old(logic), keys, env, StartsGame(old(MenuOf()), keys)) && Hud() == old(Hud())
    {
      failure := None;
      if ArrowDown in keys {
        selected := (selected + 1) % 3;
      } else if ArrowUp in keys {
        selected := selected - 1;
        if selected < 0 {
          selected := 2;
        }
      } else if Enter in keys {
        difficulty := selected;
        failure := StartGame(env);
      } else if Escape in keys {
        state := MainMenu;
        selected := 1;
      }
    }

    /** `Update`: stop once exiting, dispatch on the state, then the global
      Escape check on the state the handler left. */
    method Update(keys: set<Key>, env: Env, judge: Judge) returns (frame: Frame)
      requires Valid() && WellFormed(env.shuffle)
      modifies Footprint()
      ensures old(shouldExit) ==> frame == Terminate && unchanged(this)
      ensures !old(shouldExit) ==> frame != Terminate
      ensures frame.Crash? <==> (!old(shouldExit) && StartsGame(old(MenuOf()), keys) &&
        StartFailure(env, MenuFrame(old(MenuOf()), keys).difficulty).Some?)
      ensures frame.Crash? ==> Some(frame.failure) == StartFailure(env, MenuFrame(old(MenuOf()), keys).difficulty)
      ensures frame == Continue ==> Valid() && MenuOf() == MenuFrame(old(MenuOf()), keys)
      ensures frame == Continue && old(state) == Playing ==>
        logic == old(logic) && PlayOf() == PlayFrame(old(PlayOf()), keys, judge)
      ensures frame == Continue && old(state) != Playing ==>
        HandledBy(old(logic), keys, env, StartsGame(old(MenuOf()), keys)) && Hud() == old(Hud())
      ensures frame == Continue && old(state) != Playing && StartsGame(old(MenuOf()), keys) ==> fresh(logic)
      ensures old(state) != Playing && old(logic) != null ==> unchanged(old(logic), old(logic.puzzle))
      ensures frame == Continue && old(state) != Playing && old(logic) != null && !StartsGame(old(MenuOf()), keys) ==>
        logic.puzzle == old(logic.puzzle) && logic.State() == old(logic.State())
    {
      if shouldExit {
        return Terminate;
      }
      var failure: Option<Failure> := None;
      match state {
        case MainMenu =>
          failure := HandleMainMenu(keys, env);
        case DifficultyMenu =>
          failure := HandleDifficultyMenu(keys, env);
        case Playing =>
          if logic != null {
            HandlePlayingInput(keys, judge);
          }
      }
      if failure.Some? {
        return Crash(failure.value);
      }
      if Escape in keys {
        match state {
          case Playing =>
            state := MainMenu;
            selected := 0;
          case DifficultyMenu =>
            state := MainMenu;
            selected := 1;
          case MainMenu =>
            shouldExit := true;
        }
      }
      return Continue;
    }
  }
}
