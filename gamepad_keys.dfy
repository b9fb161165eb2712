/** The gamepad key table and the A/B, X/Y button remap of the view's
    gamepad helper (gamepad/GamepadsManager.kt). */
module GamepadKeys {
  import opened AndroidKeys

  /** The key codes the view treats as gamepad keys. */
  const GAMEPAD_KEYS: set<int> := {
    KEYCODE_DPAD_UP, KEYCODE_DPAD_DOWN, KEYCODE_DPAD_RIGHT, KEYCODE_DPAD_LEFT,
    KEYCODE_DPAD_DOWN_RIGHT, KEYCODE_DPAD_DOWN_LEFT, KEYCODE_DPAD_UP_LEFT, KEYCODE_DPAD_UP_RIGHT,
    KEYCODE_BUTTON_SELECT, KEYCODE_BUTTON_START,
    KEYCODE_BUTTON_A, KEYCODE_BUTTON_X, KEYCODE_BUTTON_Y, KEYCODE_BUTTON_B,
    KEYCODE_BUTTON_L1, KEYCODE_BUTTON_L2, KEYCODE_BUTTON_R1, KEYCODE_BUTTON_R2,
    KEYCODE_BUTTON_THUMBL, KEYCODE_BUTTON_THUMBR
  }

  /** The face buttons whose Android layout is mirrored against the RetroPad. */
  predicate IsFaceButton(keyCode: int)
  {
    keyCode == KEYCODE_BUTTON_A || keyCode == KEYCODE_BUTTON_B ||
    keyCode == KEYCODE_BUTTON_X || keyCode == KEYCODE_BUTTON_Y
  }

  /** BUTTON_A and BUTTON_B trade places, as do BUTTON_X and BUTTON_Y; every
      other code passes through. */
  function GetGamepadKeyEvent(keyCode: int): (r: int)
    ensures r != keyCode <==> IsFaceButton(keyCode)
    ensures IsFaceButton(r) <==> IsFaceButton(keyCode)
    ensures keyCode == KEYCODE_BUTTON_A <==> r == KEYCODE_BUTTON_B
    ensures keyCode == KEYCODE_BUTTON_X <==> r == KEYCODE_BUTTON_Y
  {
    if keyCode == KEYCODE_BUTTON_B then KEYCODE_BUTTON_A
    else if keyCode == KEYCODE_BUTTON_A then KEYCODE_BUTTON_B
    else if keyCode == KEYCODE_BUTTON_X then KEYCODE_BUTTON_Y
    else if keyCode == KEYCODE_BUTTON_Y then KEYCODE_BUTTON_X
    else keyCode
  }

  /** Remapping twice gives the original code back. */
  lemma {:induction false} RemapInvolution(keyCode: int)
    ensures GetGamepadKeyEvent(GetGamepadKeyEvent(keyCode)) == keyCode
  {
  }

  /** The remap keeps gamepad keys gamepad keys and other codes other codes. */
  lemma {:induction false} RemapPreservesGamepadKeys(keyCode: int)
    ensures GetGamepadKeyEvent(keyCode) in GAMEPAD_KEYS <==> keyCode in GAMEPAD_KEYS
  {
  }

  /** The four face buttons are gamepad keys; the letter keys are not. */
  lemma {:induction false} FaceButtonsAreGamepadKeys(keyCode: int)
    ensures IsFaceButton(keyCode) ==> keyCode in GAMEPAD_KEYS
    ensures keyCode in {KEYCODE_A, KEYCODE_B, KEYCODE_X, KEYCODE_Y} ==> keyCode !in GAMEPAD_KEYS
  {
  }
}
