/**
 * The emulation core's control surface as main.cpp uses it. The core itself
 * (vecx_emu, vecx_reset, vecx_load, vecx_save, load_cart) is not part of this
 * model: each call into it is recorded, and vecx_input is a write into a map
 * from control to value.
 */
module Core {
  import opened Wrappers

  /** The controller inputs main.cpp writes with vecx_input. */
  datatype Control = Button1 | Button2 | Button3 | Button4 | PadX | PadY

  /** The save-state file of the F1 and F2 keys. */
  const SAVE_FILE: string := "q.save"

  /** One recorded call into the core; LoadCart stands for load_cart() with the cart path it reads. */
  datatype CoreCall =
    | Emulate(cycles: int)
    | Reset
    | LoadCart(path: Option<string>)
    | LoadSnapshot(file: string)
    | SaveSnapshot(file: string)

  /** The value of a released button (0) or a centred axis (0x80). */
  function Rest(c: Control): int
  {
    if c == PadX || c == PadY then 0x80 else 0
  }
}
