/** The key-state map the game reads; a key missing from the map reads as released. */
module Input {
  datatype KeyState = KeyState(space: bool, arrowUp: bool, arrowDown: bool, r: bool)
  {
    /** Space or the up arrow asks for a jump. */
    predicate JumpPressed() { space || arrowUp }
  }

  /** No key pressed, the state before any input event. */
  const NoKeys: KeyState := KeyState(false, false, false, false)
}
