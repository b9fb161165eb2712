/** The Android key event actions, key codes and input-device source bits
    the frontend reads (android.view.KeyEvent, android.view.InputDevice).
    The values are the ones the Android SDK defines. */
module AndroidKeys {
  const ACTION_DOWN: int := 0
  const ACTION_UP: int := 1

  const KEYCODE_DPAD_UP: int := 19
  const KEYCODE_DPAD_DOWN: int := 20
  const KEYCODE_DPAD_LEFT: int := 21
  const KEYCODE_DPAD_RIGHT: int := 22
  const KEYCODE_A: int := 29
  const KEYCODE_B: int := 30
  const KEYCODE_X: int := 52
  const KEYCODE_Y: int := 53
  const KEYCODE_BUTTON_A: int := 96
  const KEYCODE_BUTTON_B: int := 97
  const KEYCODE_BUTTON_X: int := 99
  const KEYCODE_BUTTON_Y: int := 100
  const KEYCODE_BUTTON_L1: int := 102
  const KEYCODE_BUTTON_R1: int := 103
  const KEYCODE_BUTTON_L2: int := 104
  const KEYCODE_BUTTON_R2: int := 105
  const KEYCODE_BUTTON_THUMBL: int := 106
  const KEYCODE_BUTTON_THUMBR: int := 107
  const KEYCODE_BUTTON_START: int := 108
  const KEYCODE_BUTTON_SELECT: int := 109
  const KEYCODE_DPAD_UP_LEFT: int := 268
  const KEYCODE_DPAD_DOWN_LEFT: int := 269
  const KEYCODE_DPAD_UP_RIGHT: int := 270
  const KEYCODE_DPAD_DOWN_RIGHT: int := 271

  const SOURCE_GAMEPAD: bv32 := 0x0000_0401
  const SOURCE_JOYSTICK: bv32 := 0x0100_0010
}
