/** The screen state machine of main.go (`Update`, `handleMainMenu`,
    `handleDifficultyMenu`) over one frame of input, as a function of the
    menu fields of `Game`. */
module Menus {
  import opened Keys

  datatype GameState = MainMenu | DifficultyMenu | Playing

  /** `DifficultyLevel`: Easy, Medium, Hard are 0, 1, 2. */
  const Easy := 0
  const Medium := 1
  const Hard := 2

  /** The fields of `Game` the menus read and write: `state`, `selected`,
      `difficulty` and `shoudlExit`. */
  datatype Menu = Menu(state: GameState, selected: int, difficulty: int, exit: bool)

  predicate ValidMenu(m: Menu) {
    0 <= m.selected < 3 && Easy <= m.difficulty <= Hard
  }

  /** Up and down in a three-entry menu: Down wins over Up, both wrap around. */
  function MoveSelection(selected: int, keys: set<Key>): int {
    if ArrowDown in keys then (selected + 1) % 3
    else if selected - 1 < 0 then 2
    else selected - 1
  }

  /** `handleMainMenu`. Entry 0 is New Game, 1 is Difficulty, 2 is Exit.
      A game is started (and the state becomes Playing) only for New Game
      with a difficulty other than Easy. */
  function MainMenuKeys(m: Menu, keys: set<Key>): Menu {
    if ArrowDown in keys || ArrowUp in keys then m.(selected := MoveSelection(m.selected, keys))
    else if Enter in keys then
      if m.selected == 0 then
        if m.difficulty == Easy then m.(state := DifficultyMenu, selected := 0)
        else m.(state := Playing)
      else if m.selected == 1 then m.(state := DifficultyMenu, selected := 0)
      else if m.selected == 2 then m.(exit := true)
      else m
    else m
  }

  /** `handleDifficultyMenu`: Enter takes the selected entry as the difficulty
      and starts a game; Escape returns to the main menu on Difficulty. */
  function DifficultyMenuKeys(m: Menu, keys: set<Key>): Menu {
    if ArrowDown in keys || ArrowUp in keys then m.(selected := MoveSelection(m.selected, keys))
    else if Enter in keys then m.(difficulty := m.selected, state := Playing)
    else if Escape in keys then m.(state := MainMenu, selected := 1)
    else m
  }

  /** Whether the frame's menu handler calls `startGame`. */
  predicate StartsGame(m: Menu, keys: set<Key>) {
    !m.exit && ArrowDown !in keys && ArrowUp !in keys && Enter in keys &&
    match m.state
    case MainMenu => m.selected == 0 && m.difficulty != Easy
    case DifficultyMenu => true
    case Playing => false
  }

  /** The handler `Update` dispatches to. Playing input leaves the menu
      fields alone. */
  function Handle(m: Menu, keys: set<Key>): Menu {
    match m.state
    case MainMenu => MainMenuKeys(m, keys)
    case DifficultyMenu => DifficultyMenuKeys(m, keys)
    case Playing => m
  }

  /** The global Escape check at the end of `Update`, on the state the
      handler left. */
  function GlobalEscape(m: Menu, keys: set<Key>): Menu {
    if Escape !in keys then m
    else match m.state
      case Playing => m.(state := MainMenu, selected := 0)
      case DifficultyMenu => m.(state := MainMenu, selected := 1)
      case MainMenu => m.(exit := true)
  }

  /** One call of `Update` on the menu fields (with `startGame` succeeding).
      Once `shoudlExit` is set, `Update` returns at once. */
  function MenuFrame(m: Menu, keys: set<Key>): (m': Menu)
    ensures ValidMenu(m) ==> ValidMenu(m')
    ensures m.exit ==> m' == m
  {
    if m.exit then m else GlobalEscape(Handle(m, keys), keys)
  }

  /** Down moves to the next entry and wraps from the last to the first; Up
      moves to the previous one and wraps from the first to the last. */
  lemma SelectionWraps(m: Menu, keys: set<Key>)
    requires ValidMenu(m) && !m.exit && m.state != Playing && Escape !in keys
    requires ArrowDown in keys || ArrowUp in keys
    ensures ArrowDown in keys ==> MenuFrame(m, keys).selected == (m.selected + 1) % 3
    ensures ArrowDown !in keys ==> MenuFrame(m, keys).selected == (m.selected + 2) % 3
    ensures MenuFrame(m, keys).state == m.state
  {
  }

  /** Escape during play returns to the main menu on New Game. */
  lemma EscapeFromPlaying(m: Menu, keys: set<Key>)
    requires !m.exit && m.state == Playing && Escape in keys
    ensures MenuFrame(m, keys) == m.(state := MainMenu, selected := 0)
  {
  }

  /** Escape on the main menu ends the game, unless a navigation key or
      Enter is handled first in the same frame. */
  lemma EscapeFromMainMenu(m: Menu, keys: set<Key>)
    requires !m.exit && m.state == MainMenu && Escape in keys
    requires ArrowDown !in keys && ArrowUp !in keys && Enter !in keys
    ensures MenuFrame(m, keys) == m.(exit := true)
  {
  }

  /** Escape on the difficulty menu is handled twice in one frame: the menu
      handler goes back to the main menu, and the global check then sees the
      main menu and ends the game. */
  lemma EscapeFromDifficultyMenuExits(m: Menu, keys: set<Key>)
    requires !m.exit && m.state == DifficultyMenu && Escape in keys
    requires ArrowDown !in keys && ArrowUp !in keys && Enter !in keys
    ensures MenuFrame(m, keys) == m.(state := MainMenu, selected := 1, exit := true)
  {
  }

  /** Choosing Easy stores difficulty 0, which New Game reads as "not yet
      chosen": with difficulty Easy, New Game always opens the difficulty
      menu and never starts a game itself. */
  lemma NewGameOnEasyAsksAgain(m: Menu, keys: set<Key>)
    requires !m.exit && m.state == MainMenu && m.selected == 0 && m.difficulty == Easy
    requires Enter in keys && ArrowDown !in keys && ArrowUp !in keys && Escape !in keys
    ensures MenuFrame(m, keys) == m.(state := DifficultyMenu, selected := 0)
    ensures !StartsGame(m, keys)
  {
  }

  /** Picking entry `d` on the difficulty menu starts a game at difficulty
      `d`; picking Easy leaves the difficulty looking unset. */
  lemma PickDifficulty(m: Menu, keys: set<Key>)
    requires ValidMenu(m) && !m.exit && m.state == DifficultyMenu
    requires Enter in keys && ArrowDown !in keys && ArrowUp !in keys && Escape !in keys
    ensures StartsGame(m, keys)
    ensures MenuFrame(m, keys) == m.(difficulty := m.selected, state := Playing)
  {
  }

  /** A game is started only from a menu, and the frame then ends in Playing
      unless Escape is also pressed. */
  lemma StartEndsInPlaying(m: Menu, keys: set<Key>)
    requires StartsGame(m, keys)
    ensures m.state != Playing
    ensures Escape !in keys ==> MenuFrame(m, keys).state == Playing
    ensures Escape in keys ==> MenuFrame(m, keys).state == MainMenu && MenuFrame(m, keys).selected == 0
  {
  }
}
