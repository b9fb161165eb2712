/** Per-port gamepad state and the answers to the core's input polls
    (input.h, input.cpp). Each of the four ports holds the set of pressed
    libretro button ids, the d-pad axes, both analog sticks and the pointer. */
module Input {
  import opened Libretro
  import opened AndroidKeys

  // Sources of a motion event (Input::MOTION_SOURCE_*).
  const MOTION_SOURCE_DPAD: int := 0
  const MOTION_SOURCE_ANALOG_LEFT: int := 1
  const MOTION_SOURCE_ANALOG_RIGHT: int := 2
  const MOTION_SOURCE_POINTER: int := 3

  /** Full scale of an analog reading: an axis of 1.0 reads as 0x7fff. */
  const MAX_RANGE_MOTION: int := 0x7fff

  // Key ids the libretro API does not define; only UNKNOWN is ever produced.
  const VIRTUAL_KEY_UNKNOWN: int := -1
  const VIRTUAL_KEY_DPAD_UP_LEFT: int := -2
  const VIRTUAL_KEY_DPAD_UP_RIGHT: int := -3
  const VIRTUAL_KEY_DPAD_DOWN_LEFT: int := -4
  const VIRTUAL_KEY_DPAD_DOWN_RIGHT: int := -5

  /** The twelve Android button codes the translation table knows. */
  const ANDROID_BUTTONS: set<int> := {
    KEYCODE_BUTTON_START, KEYCODE_BUTTON_SELECT, KEYCODE_BUTTON_A, KEYCODE_BUTTON_X,
    KEYCODE_BUTTON_Y, KEYCODE_BUTTON_B, KEYCODE_BUTTON_L1, KEYCODE_BUTTON_L2,
    KEYCODE_BUTTON_R1, KEYCODE_BUTTON_R2, KEYCODE_BUTTON_THUMBL, KEYCODE_BUTTON_THUMBR }

  /** The libretro joypad ids that are buttons rather than d-pad directions. */
  const RETRO_BUTTONS: set<int> := {
    JOYPAD_B, JOYPAD_Y, JOYPAD_SELECT, JOYPAD_START, JOYPAD_A, JOYPAD_X,
    JOYPAD_L, JOYPAD_R, JOYPAD_L2, JOYPAD_R2, JOYPAD_L3, JOYPAD_R3 }

  /** One port's state; floats are modelled as reals. */
  datatype GamePadState = GamePadState(
    pressedKeys: set<int>,
    dpadXAxis: int, dpadYAxis: int,
    joypadLeftXAxis: real, joypadLeftYAxis: real,
    joypadRightXAxis: real, joypadRightYAxis: real,
    pointerScreenXAxis: real, pointerScreenYAxis: real)

  /** The field initialisers: nothing pressed, sticks centred, pointer off screen. */
  const FRESH_PAD: GamePadState :=
    GamePadState({}, 0, 0, 0.0, 0.0, 0.0, 0.0, -1.0, -1.0)

  /** A C cast from floating point to integer: truncation toward zero. */
  function Truncate(x: real): (n: int)
    ensures x >= 0.0 ==> n as real <= x < n as real + 1.0
    ensures x < 0.0 ==> n as real - 1.0 < x <= n as real
  {
    if x >= 0.0 then x.Floor else -((-x).Floor)
  }

  /** C `round`: to the nearest integer, halfway cases away from zero. */
  function Round(x: real): (n: int)
    ensures x >= 0.0 ==> n as real - 0.5 <= x < n as real + 0.5
    ensures x < 0.0 ==> n as real - 0.5 < x <= n as real + 0.5
  {
    if x >= 0.0 then (x + 0.5).Floor else -((-x + 0.5).Floor)
  }

  /** A stick axis in [-1, 1] scaled to the int16 range. */
  function AnalogReading(axis: real): (r: int)
    ensures -1.0 <= axis <= 1.0 ==> -MAX_RANGE_MOTION <= r <= MAX_RANGE_MOTION
    ensures axis >= 0.0 ==> r >= 0
    ensures axis <= 0.0 ==> r <= 0
  {
    Truncate(axis * MAX_RANGE_MOTION as real)
  }

  /** A screen coordinate in [0, 1] mapped to [-0x7fff, 0x7fff]. */
  function PointerReading(axis: real): (r: int)
    ensures 0.0 <= axis <= 1.0 ==> -MAX_RANGE_MOTION <= r <= MAX_RANGE_MOTION
    ensures axis >= 0.5 ==> r >= 0
    ensures axis <= 0.5 ==> r <= 0
  {
    Truncate(2.0 * (axis - 0.5) * MAX_RANGE_MOTION as real)
  }

  /** getInputState for a port that exists. */
  function PadInputState(pad: GamePadState, device: nat, index: nat, id: nat): (r: int)
    ensures device == DEVICE_JOYPAD ==> r == 0 || r == 1
    ensures device != DEVICE_JOYPAD && device != DEVICE_ANALOG && device != DEVICE_POINTER ==> r == 0
  {
    if device == DEVICE_JOYPAD then
      if id == JOYPAD_LEFT then (if pad.dpadXAxis == -1 then 1 else 0)
      else if id == JOYPAD_RIGHT then (if pad.dpadXAxis == 1 then 1 else 0)
      else if id == JOYPAD_UP then (if pad.dpadYAxis == -1 then 1 else 0)
      else if id == JOYPAD_DOWN then (if pad.dpadYAxis == 1 then 1 else 0)
      else if id in pad.pressedKeys then 1 else 0
    else if device == DEVICE_ANALOG then
      if index == ANALOG_INDEX_LEFT then
        if id == ANALOG_X then AnalogReading(pad.joypadLeftXAxis)
        else if id == ANALOG_Y then AnalogReading(pad.joypadLeftYAxis)
        else 0
      else if index == ANALOG_INDEX_RIGHT then
        if id == ANALOG_X then AnalogReading(pad.joypadRightXAxis)
        else if id == ANALOG_Y then AnalogReading(pad.joypadRightYAxis)
        else 0
      else 0
    else if device == DEVICE_POINTER then
      if index > 0 then 0
      else if id == POINTER_PRESSED then
        (if pad.pointerScreenXAxis >= 0.0 && pad.pointerScreenYAxis >= 0.0 then 1 else 0)
      else if id == POINTER_X then PointerReading(pad.pointerScreenXAxis)
      else if id == POINTER_Y then PointerReading(pad.pointerScreenYAxis)
      else 0
    else 0
  }

  /** The d-pad directions read from the axes, each direction exactly when its
      axis holds the matching unit value. */
  lemma {:induction false} DpadReadsAxes(pad: GamePadState)
    ensures PadInputState(pad, DEVICE_JOYPAD, 0, JOYPAD_LEFT as nat) == 1 <==> pad.dpadXAxis == -1
    ensures PadInputState(pad, DEVICE_JOYPAD, 0, JOYPAD_RIGHT as nat) == 1 <==> pad.dpadXAxis == 1
    ensures PadInputState(pad, DEVICE_JOYPAD, 0, JOYPAD_UP as nat) == 1 <==> pad.dpadYAxis == -1
    ensures PadInputState(pad, DEVICE_JOYPAD, 0, JOYPAD_DOWN as nat) == 1 <==> pad.dpadYAxis == 1
  {
  }

  /** Any other joypad id reads 1 exactly when it is in the pressed set, whatever the index. */
  lemma ButtonReadsPressedSet(pad: GamePadState, index: nat, id: nat)
    requires id !in {JOYPAD_LEFT, JOYPAD_RIGHT, JOYPAD_UP, JOYPAD_DOWN}
    ensures PadInputState(pad, DEVICE_JOYPAD, index, id) == 1 <==> id in pad.pressedKeys
  {
  }

  /** Only the first pointer exists; it reads as pressed exactly when both axes are on screen. */
  lemma PointerPressedReadsAxes(pad: GamePadState, index: nat, id: nat)
    ensures index > 0 ==> PadInputState(pad, DEVICE_POINTER, index, id) == 0
    ensures PadInputState(pad, DEVICE_POINTER, 0, POINTER_PRESSED) == 1 <==>
      pad.pointerScreenXAxis >= 0.0 && pad.pointerScreenYAxis >= 0.0
  {
  }

  /** Analog polls with an unknown stick or axis read 0. */
  lemma UnknownAnalogReadsZero(pad: GamePadState, index: nat, id: nat)
    requires index > ANALOG_INDEX_RIGHT || id > ANALOG_Y
    ensures PadInputState(pad, DEVICE_ANALOG, index, id) == 0
  {
  }

  /** A fresh pad reports no button, no direction and no pointer press, and
      both sticks centred. */
  lemma FreshPadIsIdle(index: nat, id: nat)
    ensures PadInputState(FRESH_PAD, DEVICE_JOYPAD, index, id) == 0
    ensures PadInputState(FRESH_PAD, DEVICE_ANALOG, index, id) == 0
    ensures PadInputState(FRESH_PAD, DEVICE_POINTER, index, POINTER_PRESSED) == 0
  {
  }

  /** The Android→libretro button table. */
  function ConvertAndroidToLibretroKey(keyCode: int): (r: int)
    ensures keyCode in ANDROID_BUTTONS <==> r != VIRTUAL_KEY_UNKNOWN
    ensures r != VIRTUAL_KEY_UNKNOWN ==> r in RETRO_BUTTONS
  {
    if keyCode == KEYCODE_BUTTON_START then JOYPAD_START
    else if keyCode == KEYCODE_BUTTON_SELECT then JOYPAD_SELECT
    else if keyCode == KEYCODE_BUTTON_A then JOYPAD_A
    else if keyCode == KEYCODE_BUTTON_X then JOYPAD_X
    else if keyCode == KEYCODE_BUTTON_Y then JOYPAD_Y
    else if keyCode == KEYCODE_BUTTON_B then JOYPAD_B
    else if keyCode == KEYCODE_BUTTON_L1 then JOYPAD_L
    else if keyCode == KEYCODE_BUTTON_L2 then JOYPAD_L2
    else if keyCode == KEYCODE_BUTTON_R1 then JOYPAD_R
    else if keyCode == KEYCODE_BUTTON_R2 then JOYPAD_R2
    else if keyCode == KEYCODE_BUTTON_THUMBL then JOYPAD_L3
    else if keyCode == KEYCODE_BUTTON_THUMBR then JOYPAD_R3
    else VIRTUAL_KEY_UNKNOWN
  }

  /** The table is one-to-one on the twelve buttons. */
  lemma ConvertIsBijective(a: int, b: int)
    requires a in ANDROID_BUTTONS && b in ANDROID_BUTTONS && a != b
    ensures ConvertAndroidToLibretroKey(a) != ConvertAndroidToLibretroKey(b)
  {
  }

  /** The table is onto the twelve non-direction joypad ids. */
  lemma ConvertIsOnto(id: int)
    requires id in RETRO_BUTTONS
    ensures exists a :: a in ANDROID_BUTTONS && ConvertAndroidToLibretroKey(a) == id
  {
    var a :=
      if id == JOYPAD_START then KEYCODE_BUTTON_START
      else if id == JOYPAD_SELECT then KEYCODE_BUTTON_SELECT
      else if id == JOYPAD_A then KEYCODE_BUTTON_A
      else if id == JOYPAD_X then KEYCODE_BUTTON_X
      else if id == JOYPAD_Y then KEYCODE_BUTTON_Y
      else if id == JOYPAD_B then KEYCODE_BUTTON_B
      else if id == JOYPAD_L then KEYCODE_BUTTON_L1
      else if id == JOYPAD_L2 then KEYCODE_BUTTON_L2
      else if id == JOYPAD_R then KEYCODE_BUTTON_R1
      else if id == JOYPAD_R2 then KEYCODE_BUTTON_R2
      else if id == JOYPAD_L3 then KEYCODE_BUTTON_THUMBL
      else KEYCODE_BUTTON_THUMBR;
    assert a in ANDROID_BUTTONS && ConvertAndroidToLibretroKey(a) == id;
  }

  /** onKeyEvent on one pad: DOWN adds the translated id, UP removes it, any
      other action or an unknown key leaves the pad as it was. */
  function KeyEventPad(pad: GamePadState, action: int, keyCode: int): (r: GamePadState)
    ensures r == pad.(pressedKeys := r.pressedKeys)
    ensures var id := ConvertAndroidToLibretroKey(keyCode);
      r.pressedKeys ==
        if id == VIRTUAL_KEY_UNKNOWN then pad.pressedKeys
        else if action == ACTION_DOWN then pad.pressedKeys + {id}
        else if action == ACTION_UP then pad.pressedKeys - {id}
        else pad.pressedKeys
  {
    var id := ConvertAndroidToLibretroKey(keyCode);
    if id == VIRTUAL_KEY_UNKNOWN then pad
    else if action == ACTION_DOWN then pad.(pressedKeys := pad.pressedKeys + {id})
    else if action == ACTION_UP then pad.(pressedKeys := pad.pressedKeys - {id})
    else pad
  }

  /** A known button pressed is then reported pressed; released, reported not pressed. */
  lemma {:induction false} KeyEventThenPoll(pad: GamePadState, keyCode: int, index: nat)
    requires keyCode in ANDROID_BUTTONS
    ensures var id := ConvertAndroidToLibretroKey(keyCode);
      PadInputState(KeyEventPad(pad, ACTION_DOWN, keyCode), DEVICE_JOYPAD, index, id as nat) == 1 &&
      PadInputState(KeyEventPad(pad, ACTION_UP, keyCode), DEVICE_JOYPAD, index, id as nat) == 0
  {
    var id := ConvertAndroidToLibretroKey(keyCode);
    assert id in RETRO_BUTTONS;
    ButtonReadsPressedSet(KeyEventPad(pad, ACTION_DOWN, keyCode), index, id as nat);
    ButtonReadsPressedSet(KeyEventPad(pad, ACTION_UP, keyCode), index, id as nat);
  }

  /** onMotionEvent on one pad: only the axis pair chosen by the source changes;
      d-pad values are rounded; an unknown source changes nothing. */
  function MotionEventPad(pad: GamePadState, motionSource: int, xAxis: real, yAxis: real): (r: GamePadState)
    ensures motionSource == MOTION_SOURCE_DPAD ==>
      r == pad.(dpadXAxis := Round(xAxis), dpadYAxis := Round(yAxis))
    ensures motionSource == MOTION_SOURCE_ANALOG_LEFT ==>
      r == pad.(joypadLeftXAxis := xAxis, joypadLeftYAxis := yAxis)
    ensures motionSource == MOTION_SOURCE_ANALOG_RIGHT ==>
      r == pad.(joypadRightXAxis := xAxis, joypadRightYAxis := yAxis)
    ensures motionSource == MOTION_SOURCE_POINTER ==>
      r == pad.(pointerScreenXAxis := xAxis, pointerScreenYAxis := yAxis)
    ensures !(0 <= motionSource <= 3) ==> r == pad
    ensures r.pressedKeys == pad.pressedKeys
  {
    if motionSource == MOTION_SOURCE_DPAD then
      pad.(dpadXAxis := Round(xAxis), dpadYAxis := Round(yAxis))
    else if motionSource == MOTION_SOURCE_ANALOG_LEFT then
      pad.(joypadLeftXAxis := xAxis, joypadLeftYAxis := yAxis)
    else if motionSource == MOTION_SOURCE_ANALOG_RIGHT then
      pad.(joypadRightXAxis := xAxis, joypadRightYAxis := yAxis)
    else if motionSource == MOTION_SOURCE_POINTER then
      pad.(pointerScreenXAxis := xAxis, pointerScreenYAxis := yAxis)
    else pad
  }

  /** A d-pad motion read back: a hat pushed past half way toward -1 or 1 on
      either axis is reported as that direction. */
  lemma {:induction false} DpadMotionThenPoll(pad: GamePadState, xAxis: real, yAxis: real)
    ensures var p := MotionEventPad(pad, MOTION_SOURCE_DPAD, xAxis, yAxis);
      (PadInputState(p, DEVICE_JOYPAD, 0, JOYPAD_LEFT as nat) == 1 <==> -1.5 < xAxis <= -0.5) &&
      (PadInputState(p, DEVICE_JOYPAD, 0, JOYPAD_RIGHT as nat) == 1 <==> 0.5 <= xAxis < 1.5) &&
      (PadInputState(p, DEVICE_JOYPAD, 0, JOYPAD_UP as nat) == 1 <==> -1.5 < yAxis <= -0.5) &&
      (PadInputState(p, DEVICE_JOYPAD, 0, JOYPAD_DOWN as nat) == 1 <==> 0.5 <= yAxis < 1.5)
  {
    var p := MotionEventPad(pad, MOTION_SOURCE_DPAD, xAxis, yAxis);
    DpadReadsAxes(p);
  }

  /** The number of pads, one per port. */
  const PAD_COUNT: nat := 4

  /** A key event applied to the pads with the bounds check getInputState
      has: a port outside the pads changes nothing, a port inside changes
      only its own pad. */
  function PadsAfterKeyEvent(pads: seq<GamePadState>, port: int, action: int, keyCode: int): (r: seq<GamePadState>)
    requires |pads| == PAD_COUNT
    ensures |r| == PAD_COUNT
    ensures forall p :: 0 <= p < PAD_COUNT && p != port ==> r[p] == pads[p]
    ensures 0 <= port < PAD_COUNT ==> r[port] == KeyEventPad(pads[port], action, keyCode)
    ensures !(0 <= port < PAD_COUNT) ==> r == pads
  {
    if 0 <= port < PAD_COUNT then pads[port := KeyEventPad(pads[port], action, keyCode)] else pads
  }

  /** The four pads, one per port. */
  class InputState {
    var pads: array<GamePadState>

    ghost predicate Valid()
      reads this
    {
      pads.Length == PAD_COUNT
    }

    constructor ()
      ensures Valid() && fresh(pads)
      ensures pads[..] == [FRESH_PAD, FRESH_PAD, FRESH_PAD, FRESH_PAD]
    {
      pads := new GamePadState[4](_ => FRESH_PAD);
    }

    /** getInputState: ports beyond the fourth read 0. */
    function GetInputState(port: nat, device: nat, index: nat, id: nat): (r: int)
      reads this, pads
      requires Valid()
      ensures port >= 4 ==> r == 0
      ensures port < 4 ==> r == PadInputState(pads[port], device, index, id)
    {
      if port >= 4 then 0 else PadInputState(pads[port], device, index, id)
    }

    /** onKeyEvent: indexes pads[port] without a bounds check, so callers
        must pass a port below 4. */
    method OnKeyEvent(port: nat, action: int, keyCode: int)
      requires Valid() && port < 4
      modifies pads
      ensures Valid()
      ensures pads[..] == old(pads[..])[port := KeyEventPad(old(pads[port]), action, keyCode)]
    {
      var retroKeyCode := ConvertAndroidToLibretroKey(keyCode);
      if retroKeyCode == VIRTUAL_KEY_UNKNOWN {
        return;
      }
      if action == ACTION_DOWN {
        pads[port] := pads[port].(pressedKeys := pads[port].pressedKeys + {retroKeyCode});
      } else if action == ACTION_UP {
        pads[port] := pads[port].(pressedKeys := pads[port].pressedKeys - {retroKeyCode});
      }
    }

    /** onKeyEvent with the bounds check it lacks: any port, including the
        ones the view computes for a fifth controller, is accepted, and only
        a port inside the pads is written. */
    method OnKeyEventChecked(port: int, action: int, keyCode: int)
      requires Valid()
      modifies pads
      ensures Valid()
      ensures pads[..] == PadsAfterKeyEvent(old(pads[..]), port, action, keyCode)
    {
      if 0 <= port < PAD_COUNT {
        OnKeyEvent(port, action, keyCode);
      }
    }

    /** onMotionEvent: like onKeyEvent, needs a port below 4. */
    method OnMotionEvent(port: nat, motionSource: int, xAxis: real, yAxis: real)
      requires Valid() && port < 4
      modifies pads
      ensures Valid()
      ensures pads[..] == old(pads[..])[port := MotionEventPad(old(pads[port]), motionSource, xAxis, yAxis)]
    {
      if motionSource == MOTION_SOURCE_DPAD {
        pads[port] := pads[port].(dpadXAxis := Round(xAxis), dpadYAxis := Round(yAxis));
      } else if motionSource == MOTION_SOURCE_ANALOG_LEFT {
        pads[port] := pads[port].(joypadLeftXAxis := xAxis, joypadLeftYAxis := yAxis);
      } else if motionSource == MOTION_SOURCE_ANALOG_RIGHT {
        pads[port] := pads[port].(joypadRightXAxis := xAxis, joypadRightYAxis := yAxis);
      } else if motionSource == MOTION_SOURCE_POINTER {
        pads[port] := pads[port].(pointerScreenXAxis := xAxis, pointerScreenYAxis := yAxis);
      }
    }
  }
}
