/** The input of one frame: the keys ebiten reports as just pressed
    (`inpututil.IsKeyJustPressed`), read by the menus and by play alike. */
module Keys {

  /** The keys a frame can report as just pressed. `KeyUp`/`KeyDown`/
      `KeyLeft`/`KeyRight` are the arrow keys under other names. */
  datatype Key =
    | ArrowUp | ArrowDown | ArrowLeft | ArrowRight
    | W | A | S | D
    | Enter | Escape | Space | P | Z | Backspace
    | Digit(n: int)
}
