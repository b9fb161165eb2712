/** The parts of the libretro API (libretro.h) that the frontend reads:
    device and button ids, pixel formats, rumble effects, languages and the
    environment commands a core sends to the frontend. The numeric values are
    the ones the libretro API defines; libretro.h itself is not part of this model. */
module Libretro {
  import opened Wrappers

  // Input devices (RETRO_DEVICE_*).
  const DEVICE_JOYPAD: nat := 1
  const DEVICE_ANALOG: nat := 5
  const DEVICE_POINTER: nat := 6

  // Joypad button ids (RETRO_DEVICE_ID_JOYPAD_*).
  const JOYPAD_B: int := 0
  const JOYPAD_Y: int := 1
  const JOYPAD_SELECT: int := 2
  const JOYPAD_START: int := 3
  const JOYPAD_UP: int := 4
  const JOYPAD_DOWN: int := 5
  const JOYPAD_LEFT: int := 6
  const JOYPAD_RIGHT: int := 7
  const JOYPAD_A: int := 8
  const JOYPAD_X: int := 9
  const JOYPAD_L: int := 10
  const JOYPAD_R: int := 11
  const JOYPAD_L2: int := 12
  const JOYPAD_R2: int := 13
  const JOYPAD_L3: int := 14
  const JOYPAD_R3: int := 15

  // Analog stick indices and axes, pointer axes.
  const ANALOG_INDEX_LEFT: nat := 0
  const ANALOG_INDEX_RIGHT: nat := 1
  const ANALOG_X: nat := 0
  const ANALOG_Y: nat := 1
  const POINTER_X: nat := 0
  const POINTER_Y: nat := 1
  const POINTER_PRESSED: nat := 2

  // Pixel formats (enum retro_pixel_format).
  const PIXEL_FORMAT_0RGB1555: int := 0
  const PIXEL_FORMAT_XRGB8888: int := 1
  const PIXEL_FORMAT_RGB565: int := 2

  // Rumble motors (enum retro_rumble_effect).
  const RUMBLE_STRONG: nat := 0
  const RUMBLE_WEAK: nat := 1

  // Hardware context types (enum retro_hw_context_type).
  const HW_CONTEXT_OPENGLES3: nat := 4

  // Languages (enum retro_language).
  const LANGUAGE_ENGLISH: nat := 0
  const LANGUAGE_JAPANESE: nat := 1
  const LANGUAGE_FRENCH: nat := 2
  const LANGUAGE_SPANISH: nat := 3
  const LANGUAGE_GERMAN: nat := 4
  const LANGUAGE_ITALIAN: nat := 5
  const LANGUAGE_DUTCH: nat := 6
  const LANGUAGE_PORTUGUESE_PORTUGAL: nat := 8
  const LANGUAGE_RUSSIAN: nat := 9
  const LANGUAGE_KOREAN: nat := 10
  const LANGUAGE_CHINESE_TRADITIONAL: nat := 11
  const LANGUAGE_ESPERANTO: nat := 13
  const LANGUAGE_POLISH: nat := 14
  const LANGUAGE_VIETNAMESE: nat := 15
  const LANGUAGE_ARABIC: nat := 16
  const LANGUAGE_GREEK: nat := 17
  const LANGUAGE_TURKISH: nat := 18

  /** One entry of a `retro_variable` array. A `None` key is the terminator
      that ends the array; `value` is `"Description; opt1|opt2|..."`. */
  datatype RetroVariable = RetroVariable(key: Option<string>, value: string)

  /** One entry of a `retro_controller_description` array; a `None` desc ends it. */
  datatype ControllerDescription = ControllerDescription(desc: Option<string>, id: nat)

  /** One entry of a `retro_controller_info` array; `None` types is the terminator. */
  datatype ControllerInfo = ControllerInfo(types: Option<seq<ControllerDescription>>, numTypes: nat)

  datatype Geometry = Geometry(baseWidth: nat, baseHeight: nat, aspectRatio: real)

  /** The fields of `retro_hw_render_callback` the frontend reads; the two
      `has...` flags say whether the core gave non-null context callbacks. */
  datatype HwRenderRequest = HwRenderRequest(
    depth: bool, stencil: bool, bottomLeftOrigin: bool,
    hasContextReset: bool, hasContextDestroy: bool)

  /** An environment call: the command together with what its `data` pointer
      carries in. `Unlisted` stands for every command none of the frontends'
      switch statements names. */
  datatype EnvCommand =
    | GetCanDupe
    | SetPixelFormat(format: int)
    | SetInputDescriptors
    | GetVariable(key: string)
    | SetVariables(entries: seq<RetroVariable>)
    | GetVariableUpdate
    | GetPreferredHwRender
    | SetHwRender(request: HwRenderRequest)
    | GetRumbleInterface
    | GetLogInterface
    | GetSaveDirectory
    | GetSystemDirectory
    | SetRotation(index: nat)
    | SetDiskControlInterface
    | GetPerfInterface
    | SetSystemAvInfo(geometry: Geometry)
    | SetGeometry(geometry: Geometry)
    | SetControllerInfo(players: seq<ControllerInfo>)
    | GetAudioVideoEnable
    | GetLanguage
    | GetVfsInterface
    | GetMicrophoneInterface
    | Unlisted(cmd: nat)

  /** What a handler writes back through the command's `data` pointer. */
  datatype EnvOutput =
    | NoOutput
    | BoolOutput(b: bool)
    | NatOutput(n: nat)
    | StringOutput(s: string)
    | NullString
    | CallbackInstalled

  /** What an environment call hands back: the boolean result and what was
      written through `data`. */
  datatype Reply = Reply(ok: bool, output: EnvOutput)

  /** The entries before the first null key; a terminator must exist. */
  predicate Terminated(entries: seq<RetroVariable>)
  {
    exists i :: 0 <= i < |entries| && entries[i].key.None?
  }

  /** The index of the null-key terminator. */
  function TerminatorIndex(entries: seq<RetroVariable>): (n: nat)
    requires Terminated(entries)
    ensures n < |entries| && entries[n].key.None?
    ensures forall i :: 0 <= i < n ==> entries[i].key.Some?
  {
    if entries[0].key.None? then 0
    else
      assert Terminated(entries[1..]) by {
        var i :| 0 <= i < |entries| && entries[i].key.None?;
        assert entries[1..][i - 1] == entries[i];
      }
      1 + TerminatorIndex(entries[1..])
  }

  /** The (key, declaration) pairs the loop processes. */
  function Declarations(entries: seq<RetroVariable>): (r: seq<(string, string)>)
    requires Terminated(entries)
    ensures |r| == TerminatorIndex(entries)
    ensures forall i :: 0 <= i < |r| ==> r[i] == (entries[i].key.value, entries[i].value)
  {
    seq(TerminatorIndex(entries), i requires 0 <= i < TerminatorIndex(entries) =>
      (entries[i].key.value, entries[i].value))
  }
}
