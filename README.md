# Sudoku game core (afroash/mygame), modelled in Dafny

This project models the playable core of a small Sudoku game written in Go
on top of the ebiten engine. It covers two source files.

- `logic/puzlogic.go` builds puzzles and keeps the move history:
  - it loads 9x9 puzzles from a text file (nine digit rows per record, blank lines between records);
  - it picks one at random;
  - it shuffles the puzzle by relabelling its digits, then swapping rows within each band and columns within each stack;
  - it blanks out 20 + 10·d cells;
  - `GameLogic` records moves on an undo stack and undoes the last one.
- `main.go` holds the `Game` object that ebiten calls every frame:
  - the main menu and the difficulty menu;
  - the global Escape handling;
  - cursor movement;
  - digit entry checked by `isNumValid`;
  - undo;
  - the progress check (`CheckProgress`) with its timed status line;
  - the win banner;
  - `startGame`, which loads, shuffles and carves a new puzzle.

Code that changes state in place is modelled in the same form:
- `GameLogic` and `Game` are classes with the source's fields;
- the shuffles and the carving work on an `array2<int>`;
- the loops are `while` loops with invariants.

Each method is proved against a function on values:
- `Cells(grid)` is the value view of a grid;
- `Snapshot` is the value view of a `GameLogic`;
- `MenuOf`/`PlayOf` are the value views of a `Game`.

The properties are lemmas about those functions.

Inputs the program gets from its surroundings become parameters:
- The lines of `sample.txt` are `Env.lines`.
- The draws of `GetRandomPuzzle` and `ShuffleAsh` are parameters, part of `Env`:
  - `pick` chooses the puzzle;
  - the `Shuffle` permutations drive the shuffle.
- The carving's draws are replaced by a choice of any filled cell.
- The keys reported as just pressed in a frame are a `set<Key>`.
- `IsGridFull`, `IsGridValid` and `GetGameStatus` are methods of `GameLogic` that are called but whose definition is not part of this model. They are a `Judge` of three functions on the grid.

Two behaviours of the source show up in the proofs:
- **Every filled cell is reported as incorrect.** `isNumValid` scans the target cell itself. A filled cell therefore always fails its own check (`Rules.SelfScanRejects`). So `CheckProgress` reports every filled cell as incorrect, and never reaches its "completed" branch (`Play.ProgressReport`).
- **Two digits in one frame leave a wrong undo entry.** The digit loop checks that the cell is empty only once per frame. Two digit keys pressed together therefore both get written, when each passes `isNumValid` in turn (the second one is checked against the grid holding the first). Each is recorded with old value 0, so one undo empties the cell (`Play.TwoDigitsInOneFrame`).

## Model

| member | source | states |
|---|---|---|
| Loader.LoadPuzzles | logic/puzlogic.go:25-71 | the loop over the lines returns exactly `Parse(lines)`: the puzzle list, or the first row-length, character or row-overflow error |
| Loader.ReadLine | logic/puzlogic.go:38-58 | one pass of the loop does what `ScanLine` says: closes a complete record on a blank line, or stores the next row, or fails with the length, character or overflow error |
| Loader.StoreRow | logic/puzlogic.go:51-56 | writes the nine digits into buffer row `row`, or fails with the first non-digit character, or with the row overflow when `row` is 9 and the line starts with a digit; earlier buffer rows are kept |
| Loader.TrimLeftSuffix | logic/puzlogic.go:38 | trimming the front removes only a run of white space and keeps the rest of the line as it is |
| Loader.TrimRightPrefix | logic/puzlogic.go:38 | trimming the back removes only a run of white space and keeps the rest of the line as it is |
| Loader.TrimSpace | logic/puzlogic.go:38 | the result is a contiguous part of the line with only white space before and after it, and it neither starts nor ends with white space |
| Loader.FirstNonDigit | logic/puzlogic.go:51-54 | every character before the returned index is a digit, and the one at it is not |
| LoaderFacts.ParseYieldsPuzzles | logic/puzlogic.go:51-56 | every loaded puzzle is 9x9 with cells 0..9 |
| LoaderFacts.ParseRejectsMalformed | logic/puzlogic.go:47-54 | a non-blank line that is not nine digits after trimming fails the whole load |
| LoaderFacts.WellFormedScan | logic/puzlogic.go:37-59 | when every line is blank or nine digits after trimming, the scanning loop fails only by a tenth row |
| LoaderFacts.ParseAcceptsWellFormed | logic/puzlogic.go:47-58 | a file of well-formed lines loads, unless a record runs to a tenth row: the length and character checks are the only other failures |
| LoaderFacts.ParseRender | logic/puzlogic.go:37-64 | loading the text rendering of any list of puzzles gives that list back |
| LoaderFacts.LastRecordWithoutBlank | logic/puzlogic.go:61-64 | a final record of nine rows with no trailing blank line is still added |
| LoaderFacts.PartialRecordDropped | logic/puzlogic.go:39-45 | trailing rows fewer than nine are dropped without error |
| LoaderFacts.BlankInsideRecord | logic/puzlogic.go:39-45 | a blank line in the middle of a record does not restart it |
| LoaderFacts.TenthRowOverflows | logic/puzlogic.go:51-58 | a tenth row with no blank line before it overflows the buffer and fails the load |
| Transform.GetRandomPuzzle | logic/puzlogic.go:74-77 | the chosen puzzle is one of the loaded ones |
| Transform.Relabel | logic/puzlogic.go:84-86 | 0 stays 0 and a digit 1..9 maps to a digit 1..9 |
| Transform.RelabelInjective | logic/puzlogic.go:81-86 | two cell values are equal after relabelling iff they were before |
| Transform.RelabelDigits | logic/puzlogic.go:81-88 | the double loop relabels every cell of the grid |
| Transform.SwapOrderIsPerm | logic/puzlogic.go:104-109 | the three swaps driven by a `rand.Perm(3)` leave a permutation of the band |
| Transform.BandSourceIsBandPermutation | logic/puzlogic.go:103-110 | a band shuffle sends the band's three lines to three different lines of the band and leaves all other lines in place |
| Transform.SwapRows | logic/puzlogic.go:106-108 | after one swap, row `x` holds the old row `y` and the reverse; all other rows are unchanged |
| Transform.ShuffleRowsInBlock | logic/puzlogic.go:103-110 | every row of the result is the old row the band permutation names, and every row outside the band is unchanged |
| Transform.SwapCols | logic/puzlogic.go:116-120 | two columns are exchanged in every row, and each row keeps its multiset of values |
| Transform.ShuffleColsInBlock | logic/puzlogic.go:113-122 | columns move within the stack as the permutation built from `cols[i][i]` says, and every row keeps its multiset |
| Transform.ShuffleAsh | logic/puzlogic.go:80-100 | the new grid is the relabelled old grid with rows and columns taken from the row and column sources |
| Transform.RemoveNumbersFromGrid | logic/puzlogic.go:125-135 | only cells are cleared, and exactly `20 + 10·difficulty` filled cells become empty |
| ShuffleFacts.SourcesArePerms | logic/puzlogic.go:90-98 | the row and column sources are permutations of 0..8 that keep each line in its band or stack |
| ShuffleFacts.ShufflePreservesConsistent | logic/puzlogic.go:80-100 | a grid without a repeat in any row, column or box has none after the shuffle |
| ShuffleFacts.ShufflePreservesSolved | logic/puzlogic.go:80-100 | a solved grid stays solved |
| ShuffleFacts.ImageCount | logic/puzlogic.go:90-98 | moving rows and columns by permutations keeps the number of cells in a set |
| ShuffleFacts.ShuffleKeepsClueCount | logic/puzlogic.go:80-100 | the shuffle keeps the number of filled and of empty cells |
| ShuffleFacts.CarvePreservesConsistent | logic/puzlogic.go:125-135 | clearing cells keeps a grid without repeats |
| ShuffleFacts.GeneratedHasSolution | logic/puzlogic.go:125-135 | a carved puzzle from a solved, shuffled seed has that seed as a solution and has no repeats |
| Ledger.Record | logic/puzlogic.go:138-148 | recording a move keeps every move on the board |
| Ledger.UndoRecord | logic/puzlogic.go:138-158 | undo right after a move restores grid and stack exactly |
| Ledger.UndoAll | logic/puzlogic.go:138-158 | undoing `n` times after `n` recorded moves gives the starting state back |
| Ledger.UndoEmptyStack | logic/puzlogic.go:152-154 | undo on an empty stack changes nothing, however often it is repeated |
| Ledger.RecordAllStack | logic/puzlogic.go:146 | moves only push onto the stack: the old stack is a prefix and grows by one per move |
| Ledger.GameLogic.constructor | main.go:344-347 | a new `GameLogic` holds the given puzzle and an empty stack |
| Ledger.GameLogic.AddMove | logic/puzlogic.go:138-148 | pushes an action holding the cell's current value, whatever `oldValue` is passed, then writes the new value |
| Ledger.GameLogic.UndoMove | logic/puzlogic.go:151-158 | pops the last action and writes its old value back; no-op on an empty stack |
| Rules.NumValidIffUnitFree | main.go:352-383 | `isNumValid` holds iff no cell sharing a row, column or box with the target, the target included, holds the number |
| Rules.SelfScanRejects | main.go:357-380 | the value already in a cell never passes `isNumValid` there |
| Rules.ValidPlacementKeepsConsistent | main.go:228-239 | writing a number that passes `isNumValid` keeps a grid without repeats |
| Rules.CountStep | main.go:292-300 | each cell visited adds one to the empty count or to the invalid count, or to neither |
| Rules.InvalidIsFilled | main.go:294-298 | the cells counted as invalid are exactly the filled cells |
| Status.Show | main.go:94-101 | a shown message carries its text, is visible and has 120 frames on its timer |
| Status.UpdateStatus | main.go:103-110 | one countdown frame keeps the text |
| Status.VisibleForTimer | main.go:103-110 | a message with timer `n` stays visible for exactly `n - 1` countdown frames, and its timer then stays at 0 |
| Status.StatusLineLasts | main.go:94-110 | a status line is hidden from its 120th frame on |
| Menus.MenuFrame | main.go:112-147 | one frame keeps the selection in 0..2 and the difficulty in Easy..Hard; once exit is set nothing changes |
| Menus.SelectionWraps | main.go:151-157 | Down moves to the next entry and Up to the previous one, both wrapping around |
| Menus.EscapeFromPlaying | main.go:130-135 | Escape in play returns to the main menu on New Game |
| Menus.EscapeFromMainMenu | main.go:140-143 | Escape on the main menu sets the exit flag |
| Menus.EscapeFromDifficultyMenuExits | main.go:189-192 | Escape on the difficulty menu returns to the main menu and the global check then also sets the exit flag, in the same frame |
| Menus.NewGameOnEasyAsksAgain | main.go:158-168 | with difficulty Easy (0), New Game opens the difficulty menu and never starts a game |
| Menus.PickDifficulty | main.go:186-188 | Enter on the difficulty menu stores the selected entry as the difficulty and starts a game |
| Menus.StartEndsInPlaying | main.go:112-147 | a game is started only from a menu, and the frame ends in Playing unless Escape is also pressed |
| Play.Progress | main.go:284-321 | the progress check never changes the board or the move stack, and keeps the play state valid |
| Play.ProgressReport | main.go:284-321 | the report is "N incorrect", N being the number of filled cells, or "81 cells left" on an empty grid |
| Play.MoveCursor | main.go:206-225 | the cursor stays on the board |
| Play.DigitsOnlyPush | main.go:228-252 | digit entry only pushes actions for the cursor cell with old value 0 and a digit 1..9, at most one per key |
| Play.DigitsKeepConsistent | main.go:228-252 | digit entry keeps a grid without repeats |
| Play.SingleDigitEntry | main.go:228-252 | one digit key on an empty cell writes the digit and pushes one action iff the digit is 1..9 and passes `isNumValid`; otherwise nothing changes |
| Play.NoDigitNoChange | main.go:229-230 | with no digit key pressed the loop changes nothing |
| Play.TwoDigitsInOneFrame | main.go:228-252 | with two digit keys the second overwrites the first; both actions record old value 0, so one undo empties the cell |
| Play.CursorMovesOneStep | main.go:205-225 | only the cursor keys move the cursor, by at most one cell along each axis per frame |
| Play.PlayFrame | main.go:196-281 | a playing frame keeps the cursor on the board, and keeps every recorded move on the board |
| GameLoop.Rank | main.go:334-341 | Easy, Medium and Hard blank 30, 50 and 70 cells |
| GameLoop.GeneratedPuzzle | main.go:324-349 | a new puzzle has exactly `Blanks` more empty cells than the loaded one; from a solved seed it has no repeats and has a solution |
| GameLoop.Game.constructor | main.go:77-86 | a new game starts on the main menu with cursor (4, 4), no logic, a hidden status line and no banner |
| GameLoop.Game.ShowStatus | main.go:94-101 | sets the status line to `Show(n)` and changes nothing else |
| GameLoop.Game.UpdateStatusMessage | main.go:103-110 | counts the status line down by one frame and changes nothing else |
| GameLoop.Game.IsNumValid | main.go:352-383 | returns true iff a puzzle is loaded and the number passes the row, column and box scans |
| GameLoop.Game.CheckProgress | main.go:284-321 | without a puzzle nothing changes; otherwise the new state is `Progress` of the old one |
| GameLoop.Game.EnterDigitKeys | main.go:228-253 | the digit loop leaves board and banner as `EnterDigits` says |
| GameLoop.Game.EnterDigitKey | main.go:230-250 | one pass for key `d`: the state moves as `DigitStep` says |
| GameLoop.Game.MoveCursorKeys | main.go:205-225 | the cursor moves as `CursorStage` says |
| GameLoop.Game.StatusKeys | main.go:197-204 | the status countdown and P key act as `StatusStage` says |
| GameLoop.Game.DigitKeys | main.go:227-253 | the digit entry acts as `DigitStage` says |
| GameLoop.Game.UndoKeys | main.go:255-258 | Z or Backspace undoes as `UndoStage` says |
| GameLoop.Game.BannerKeys | main.go:260-280 | the banner countdown and Space key act as `BannerStage` says |
| GameLoop.Game.HandlePlayingInput | main.go:196-281 | the new play state is `PlayFrame` of the old one; menu fields are unchanged |
| GameLoop.Game.MakePuzzle | main.go:324-341 | fails exactly as `StartFailure` says; otherwise returns a fresh grid generated from the environment |
| GameLoop.Game.ShapePuzzle | logic/puzlogic.go:80-135 | reports too few filled cells to carve, or returns the shuffled seed carved by `Blanks(rank)` cells |
| GameLoop.Game.StartGame | main.go:324-349 | fails exactly as `StartFailure` says; otherwise installs a fresh `GameLogic` with an empty stack and a generated puzzle, and enters Playing |
| GameLoop.Game.HandleMainMenu | main.go:149-176 | the menu fields change as `MainMenuKeys` says; a game is started, with a fresh `GameLogic`, exactly when `StartsGame` holds; cursor, banner and status line are untouched |
| GameLoop.Game.HandleDifficultyMenu | main.go:178-193 | the menu fields change as `DifficultyMenuKeys` says; Enter starts a game, with a fresh `GameLogic`, at the selected difficulty; cursor, banner and status line are untouched |
| GameLoop.Game.Update | main.go:112-147 | terminates iff exit was set; crashes iff the started game cannot be built, as `StartFailure` says: a load error, an empty pool (`rand.Intn(0)` panics), or too few filled cells to carve (an endless loop in the source, see ## Left out); otherwise menus follow `MenuFrame` and play follows `PlayFrame`; a menu frame never touches the old game's board or move stack, and a started game is fresh |

## Left out

- Drawing (`Draw`, `Layout`, `drawing.go`), fonts and the ebiten run loop are not modelled. The `drawer` field and the unused `Game.Puzzle` field are not modelled either.
- Files and the operating system are not modelled:
  - opening `sample.txt` and `scanner.Err()` are not modelled; the file is taken as its list of lines;
  - a failed open or read would reach `log.Fatalf`, as any other load error does;
  - `log.Fatalf` itself is the `Crash` frame outcome.
- `bufio.Scanner`'s 64 KiB line limit is not modelled.
- `Loader.TrimSpace` trims the ASCII and Latin-1 white space that `strings.TrimSpace` trims. Other Unicode spaces are not trimmed.
- `Loader.LoadPuzzles` measures length in characters. Go's `len(line)` counts bytes, so the two agree only for ASCII lines. A non-ASCII character is rejected in both models, possibly with a different error.
- `math/rand` is not modelled. The draws of `GetRandomPuzzle` and `ShuffleAsh` are parameters; the carving's draws are replaced by a choice of any filled cell:
  - Draws on an already-empty cell in `RemoveNumbersFromGrid` change nothing, so they are left out; the carving loop picks any filled cell.
  - `Transform.RemoveNumbersFromGrid`: requires at least `20 + 10·difficulty` filled cells. With fewer, the Go loop never ends. `StartGame` reports that case as `CarveNeverEnds` instead of looping.
- `IsGridFull`, `IsGridValid` and `GetGameStatus` are not part of this model; they are the `Judge` parameter.
- `fmt.Println("Invalid number")` is not modelled.
- The status line's text and colour are not modelled. It is one of the `Notice` kinds, which fixes both.
- `GameLogic.Puzzle` is a Go array value, copied on assignment. The model keeps it as an `array2` owned by one `GameLogic`; no aliasing is modelled.
- Key polling (`inpututil.IsKeyJustPressed`) is the `keys` set of one frame:
  - `KeyUp`, `KeyDown`, `KeyLeft` and `KeyRight` are ebiten aliases of the arrow keys, so each pair is one `Key`;
  - key repeat and key release are not modelled.
