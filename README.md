# LibretroDroid core, modelled in Dafny

LibretroDroid is an Android front-end for libretro emulator cores. A native
library loads a core, answers the core's environment, input, audio and video
callbacks, and exposes a JNI surface to a Kotlin `GLRetroView`. This project
models the parts of that system that keep state or make decisions, and proves
what they promise:

- the audio ring buffer (`CircularBuffer`): an array with read and write
  indices that wrap around a capped capacity;
- the gamepad input state (`Input`): four pad records, the Android-to-RetroPad
  key table, key and motion updates, and the answers to the core's polls;
- the environment store (`Environment`, `VariableParsing`): core options
  parsed from `"Description; first|second|..."` declarations, user overrides
  with a dirty flag, the sorted option listing, controller descriptions,
  per-port rumble, the language table, and the environment-command dispatch;
- three older copies of the option store and environment callback: the
  single-file native library (`LegacyStores`, `LegacyFrontend`), the sample
  app's native prototype (`PrototypeFrontend`) and its first GL prototype
  (`GlPrototype`);
- the pixel-format conversions (`PixelConversion`, `BaseImageRenderer`,
  `ImageRendererES2`): 0RGB1555 to RGB565 words in place, and the red/blue
  byte swap of XRGB8888 frames;
- the rumble change detector (`Rumble`);
- the two Kotlin gamepad managers: the face-button remap (`GamepadKeys`) and
  the device-to-port map (`DevicePorts`);
- the view's fault guard, one-shot game loading and key/motion port filter
  (`RetroView`);
- the JNI entry points' exception-to-error-code mapping and the flag handling
  after a frame step (`JniBridge`), over the error-code table (`ErrorCodes`).

Shared pieces: `Wrappers` (Option, Result), `Libretro` (libretro API
constants, the environment commands as a datatype, the NULL-key-terminated
option array), `AndroidKeys` (Android key, action and source constants) and
`GlFormats` (the GL enum values the renderers store).

Code that changes state step by step is modelled as classes with `modifies`
clauses and loops with invariants; each method's `ensures` ties the new state
to a specification function, and the properties of those functions are
proved as lemmas. Environment commands are a datatype; what the core passes
through `void *data` is a constructor argument and what the front-end writes
back is the reply's output. The emulator core, JNI, Android and the GPU are
outside the model: what they return or throw is a parameter.

Where the code does something its authors evidently did not intend, the model
keeps the code's behaviour (the operational classes use the as-written
definition) and places a corrected definition, with its intended property
proved, beside it; see "## Findings".

## Model

| member | source | states |
|---|---|---|
| CircularBuffer.Buffer.constructor | libretrodroid/src/main/cpp/circularbuffer.cpp:23-28 | capacity is min(requested size, 44000), both indices start at 0 |
| CircularBuffer.Available | libretrodroid/src/main/cpp/circularbuffer.cpp:30-32 | free space is below capacity and is exactly what carries the write index to one slot before the read index |
| CircularBuffer.Used | libretrodroid/src/main/cpp/circularbuffer.cpp:34-36 | usedSize as written lies in 1..capacity and reaches one slot past the write index, never 0 |
| CircularBuffer.Occupied | libretrodroid/src/main/cpp/circularbuffer.cpp:34-36 | the intended fill level: below capacity, carries the read index exactly to the write index, and is 0 iff the ring is empty |
| CircularBuffer.OccupiedPlusAvailable | libretrodroid/src/main/cpp/circularbuffer.cpp:30-36 | the intended fill level and the free space add up to capacity - 1 |
| CircularBuffer.UsedOverCounts | libretrodroid/src/main/cpp/circularbuffer.cpp:34-36 | usedSize as written is always one more than the bytes actually stored |
| CircularBuffer.EmptyRingReadsStaleByte | libretrodroid/src/main/cpp/circularbuffer.cpp:34-36 | on an empty ring usedSize is 1 while nothing is stored, and a full ring has no free space |
| CircularBuffer.Stored | libretrodroid/src/main/cpp/circularbuffer.cpp:38-54 | the cells after a wrapped copy keep the ring's length |
| CircularBuffer.Fetched | libretrodroid/src/main/cpp/circularbuffer.cpp:56-72 | a wrapped read yields exactly the requested number of bytes |
| CircularBuffer.FetchStored | libretrodroid/src/main/cpp/circularbuffer.cpp:38-72 | reading back from the write position returns exactly the bytes written |
| CircularBuffer.CopyInto | libretrodroid/src/main/cpp/circularbuffer.cpp:38-54 | one memcpy: the target range holds the source bytes, every other cell is unchanged |
| CircularBuffer.Buffer.Write | libretrodroid/src/main/cpp/circularbuffer.cpp:38-54 | writes min(bytes, available) bytes at the write index with wrap-around, advances only the write index modulo capacity, returns the count |
| CircularBuffer.Buffer.Read | libretrodroid/src/main/cpp/circularbuffer.cpp:56-72 | returns min(bytes, usedSize) bytes from the read index with wrap-around, advances only the read index, leaves data and write index alone |
| CircularBuffer.Buffer.Drop | libretrodroid/src/main/cpp/circularbuffer.cpp:74-82 | advances the read index by min(bytes, usedSize) but returns the requested count |
| Input.InputState.constructor | libretrodroid/src/main/cpp/input.h:74 | exactly four pads, each in the fresh state |
| Input.FreshPadIsIdle | libretrodroid/src/main/cpp/input.h:29-40 | a fresh pad reads 0 for every joypad and analog query and its pointer is not pressed |
| Input.PadInputState | libretrodroid/src/main/cpp/input.cpp:29-100 | joypad answers are 0 or 1, unknown devices answer 0 |
| Input.AnalogReading | libretrodroid/src/main/cpp/input.cpp:53-64 | a stick axis in [-1, 1] reads within ±0x7fff, with the sign of the axis |
| Input.PointerReading | libretrodroid/src/main/cpp/input.cpp:87-90 | a screen coordinate in [0, 1] reads within ±0x7fff, negative below the centre 0.5 and positive above it |
| Input.InputState.GetInputState | libretrodroid/src/main/cpp/input.cpp:29-100 | any port >= 4 answers 0, other ports answer from their own pad |
| Input.DpadReadsAxes | libretrodroid/src/main/cpp/input.cpp:29-100 | LEFT/RIGHT/UP/DOWN read 1 exactly when dpadX = -1 / dpadX = 1 / dpadY = -1 / dpadY = 1 |
| Input.ButtonReadsPressedSet | libretrodroid/src/main/cpp/input.cpp:29-100 | any other joypad id reads 1 iff it is in the pad's pressed set |
| Input.PointerPressedReadsAxes | libretrodroid/src/main/cpp/input.cpp:29-100 | pointer queries with index > 0 read 0; POINTER_PRESSED reads 1 iff both pointer axes are >= 0 |
| Input.UnknownAnalogReadsZero | libretrodroid/src/main/cpp/input.cpp:29-100 | unknown analog indices and ids read 0 |
| Input.ConvertAndroidToLibretroKey | libretrodroid/src/main/cpp/input.cpp:102-131 | the twelve Android button codes, and only they, map to libretro button ids; every other code maps to UNKNOWN |
| Input.ConvertIsBijective | libretrodroid/src/main/cpp/input.cpp:102-131 | distinct Android buttons map to distinct libretro ids |
| Input.ConvertIsOnto | libretrodroid/src/main/cpp/input.cpp:102-131 | every non-direction libretro joypad id is the image of one of the twelve Android buttons |
| Input.KeyEventPad | libretrodroid/src/main/cpp/input.cpp:133-144 | DOWN inserts and UP erases the translated id, unknown keys and other actions change nothing, and no other field changes |
| Input.KeyEventThenPoll | libretrodroid/src/main/cpp/input.cpp:29-144 | after DOWN the button polls as 1, after UP as 0 |
| Input.InputState.OnKeyEvent | libretrodroid/src/main/cpp/input.cpp:133-144 | only pads[port] changes, to the key-event update of its old value |
| Input.PadsAfterKeyEvent | libretrodroid/src/main/cpp/input.cpp:133-144 | corrected: a key event on a port outside the four pads changes nothing; inside, only that pad gets the key-event update |
| Input.InputState.OnKeyEventChecked | libretrodroid/src/main/cpp/input.cpp:133-144 | corrected: accepts any port and leaves the pads as PadsAfterKeyEvent says |
| Input.Round | libretrodroid/src/main/cpp/input.cpp:146-168 | the rounding of a d-pad axis lies within half a unit of the value |
| Input.MotionEventPad | libretrodroid/src/main/cpp/input.cpp:146-168 | each source updates only its own axis pair (d-pad values rounded), an unknown source changes nothing, pressed keys never change |
| Input.DpadMotionThenPoll | libretrodroid/src/main/cpp/input.cpp:29-168 | after a d-pad motion each direction polls 1 exactly for the axis range that rounds to it |
| Input.InputState.OnMotionEvent | libretrodroid/src/main/cpp/input.cpp:146-168 | only pads[port] changes, to the motion update of its old value |
| VariableParsing.IndexOf | libretrodroid/src/main/cpp/environment.cpp:90-91 | std::string::find: the first position at or after `from` holding the character, or none |
| VariableParsing.FirstOption | libretrodroid/src/main/cpp/environment.cpp:90-92 | the default is the '\|'-free substring starting two past the first ';'; an out-of-range start is an error |
| VariableParsing.FirstOptionOfDeclaration | libretrodroid/src/main/cpp/environment.cpp:90-92 | "Description; first\|rest" parses to `first` |
| VariableParsing.NoSemicolonSkipsOneChar | libretrodroid/src/main/cpp/environment.cpp:90 | without ';' the start wraps to 1, so only the empty declaration fails |
| VariableParsing.TrailingSemicolonThrows | libretrodroid/src/main/cpp/environment.cpp:90-92 | a declaration ending in ';' makes substr throw out_of_range |
| Environment.Lookup | libretrodroid/src/main/cpp/environment.cpp:111-121 | an option is found iff its key is stored |
| Environment.WithOverride | libretrodroid/src/main/cpp/environment.cpp:70-79 | the new value is stored, the dirty result is true iff it differs from the previous value (empty when absent), other keys are untouched |
| Environment.UpdateThenLookup | libretrodroid/src/main/cpp/environment.cpp:70-121 | after an override the option reads back as the new value |
| Environment.UpdateIsIdempotent | libretrodroid/src/main/cpp/environment.cpp:70-79 | repeating an override changes nothing and does not set the dirty flag |
| Environment.EnvironmentState.UpdateVariable | libretrodroid/src/main/cpp/environment.cpp:70-79 | the store becomes the override result and the dirty flag is raised only by a changed value |
| Environment.Declare | libretrodroid/src/main/cpp/environment.cpp:81-109 | one declaration records key and raw description and keeps a non-empty existing value, else stores the parsed default; other keys untouched |
| Environment.DeclareAllStops | libretrodroid/src/main/cpp/environment.cpp:81-109 | after a declaration throws, later ones are never processed |
| Environment.DeclareKeepsValues | libretrodroid/src/main/cpp/environment.cpp:98-100 | a non-empty user value survives any sequence of declarations |
| Environment.DeclareThenLookup | libretrodroid/src/main/cpp/environment.cpp:81-121 | a new option declared as "D; first\|..." reads back as `first` |
| Environment.EnvironmentState.SetVariables | libretrodroid/src/main/cpp/environment.cpp:81-109 | the loop up to the NULL key leaves the store of the declarations applied in order, or the parse error |
| Environment.EnvironmentState.GetVariable | libretrodroid/src/main/cpp/environment.cpp:111-121 | true with the stored value, false for an unknown key |
| Environment.InsertByKey | libretrodroid/src/main/cpp/environment.cpp:437-443 | insertion adds exactly the one element |
| Environment.InsertByKeySorted | libretrodroid/src/main/cpp/environment.cpp:437-443 | insertion keeps a list sorted by key |
| Environment.SortByKey | libretrodroid/src/main/cpp/environment.cpp:437-443 | the result is sorted by key and a permutation of the input |
| Environment.ListAlong | libretrodroid/src/main/cpp/environment.cpp:429-435 | one listed variable per enumerated key, in order |
| Environment.EnvironmentState.GetVariables | libretrodroid/src/main/cpp/environment.cpp:426-446 | every stored variable exactly once, sorted ascending by key |
| Environment.TypesCopied | libretrodroid/src/main/cpp/environment.cpp:123-146 | the type loop stops at num_types or at the first NULL description |
| Environment.PlayerCount | libretrodroid/src/main/cpp/environment.cpp:123-146 | the player loop stops at the first entry without types |
| Environment.PlayerControllers | libretrodroid/src/main/cpp/environment.cpp:123-146 | each player's controllers are the (id, description) pairs copied before that stop |
| Environment.EnvironmentState.SetControllerInfo | libretrodroid/src/main/cpp/environment.cpp:123-146 | one controller list per player, each the copied pairs; returns true |
| Environment.EnvironmentState.SetHwRender | libretrodroid/src/main/cpp/environment.cpp:148-160 | acceleration on, depth, stencil, origin and context callbacks copied from the request, returns true |
| Environment.SetRumbleState | libretrodroid/src/main/cpp/environment.cpp:210-221 | true iff port <= 3; STRONG sets only strengthStrong, WEAK only strengthWeak, other ports untouched |
| Environment.EnvironmentState.SetRumble | libretrodroid/src/main/cpp/environment.cpp:210-221 | the rumble array and the result follow the rumble-state function |
| Environment.LanguageFor | libretrodroid/src/main/cpp/environment.cpp:344-368 | a language is found iff the code is one of the seventeen listed |
| Environment.CodeOfLanguage | libretrodroid/src/main/cpp/environment.cpp:344-368 | the reverse table only yields listed codes |
| Environment.LanguageTableInjective | libretrodroid/src/main/cpp/environment.cpp:344-368 | distinct listed codes name distinct languages |
| Environment.LanguageRoundTrip | libretrodroid/src/main/cpp/environment.cpp:344-368 | a listed code maps to a language that maps back to it |
| Environment.EnvironmentState.SetLanguage | libretrodroid/src/main/cpp/environment.cpp:344-368 | the language changes only for a listed code |
| Environment.EnvironmentState.constructor | libretrodroid/src/main/cpp/environment.cpp:44-68 | the store starts empty with the values deinitialize restores |
| Environment.EnvironmentState.Initialize | libretrodroid/src/main/cpp/environment.cpp:34-42 | stores the two directories and the framebuffer callback |
| Environment.EnvironmentState.Deinitialize | libretrodroid/src/main/cpp/environment.cpp:44-68 | resets directories, language, pixel format, hardware flags, geometry, rotation and rumble; variables and controllers are not touched |
| Environment.EnvironmentState.SetGameGeometry | libretrodroid/src/main/cpp/environment.cpp:307-316 | stores the base size and aspect ratio and flags the update |
| Environment.EnvironmentState.SetEnableVirtualFileSystem | libretrodroid/src/main/cpp/environment.cpp:476-478 | stores the flag |
| Environment.EnvironmentState.SetEnableMicrophone | libretrodroid/src/main/cpp/environment.cpp:480-482 | stores the flag |
| Environment.EnvironmentState.QueryReply | libretrodroid/src/main/cpp/environment.cpp:227-342 | unlisted and refused commands answer false; GET_VARIABLE iff the key is stored; directories iff non-empty |
| Environment.EnvironmentState.HandleCallbackEnvironment | libretrodroid/src/main/cpp/environment.cpp:227-342 | each command's reply and state effect, GET_VARIABLE_UPDATE reporting and clearing the dirty flag, and which fields each command may change |
| PixelConversion.From0RGB1555 | libretrodroid/src/main/cpp/renderers/baseimagerenderer.cpp:58-60 | blue stays, green moves up one bit over a zero bit 5, red moves to the top, input bit 15 is dropped |
| PixelConversion.To0RGB1555 | libretrodroid/src/main/cpp/renderers/baseimagerenderer.cpp:58-60 | the inverse mapping never sets the unused top bit |
| PixelConversion.ConversionRoundTrip | libretrodroid/src/main/cpp/renderers/baseimagerenderer.cpp:58-60 | converting and converting back restores the word up to its unused top bit |
| PixelConversion.ConversionReachesEvenGreen | libretrodroid/src/main/cpp/renderers/baseimagerenderer.cpp:58-60 | every RGB565 word with bit 5 clear is the conversion of some 0RGB1555 word |
| PixelConversion.Convert0RGB1555Words | libretrodroid/src/main/cpp/renderers/baseimagerenderer.cpp:57-61 | the first count words are converted in place, later words are untouched |
| PixelConversion.RedBlueSwapped | libretrodroid/src/main/cpp/renderers/es2/imagerendereres2.cpp:64-72 | bytes i and i+2 of every pixel below the bound are exchanged |
| PixelConversion.RedBlueSwappedKeepsOthers | libretrodroid/src/main/cpp/renderers/es2/imagerendereres2.cpp:64-72 | green and alpha bytes and pixels at or past the bound are unchanged |
| PixelConversion.RedBlueSwapTwice | libretrodroid/src/main/cpp/renderers/es2/imagerendereres2.cpp:64-72 | swapping twice restores the frame |
| PixelConversion.SwapRedBlue | libretrodroid/src/main/cpp/renderers/es2/imagerendereres2.cpp:64-72 | the in-place loop leaves the swapped frame |
| PixelConversion.ConvertFromRGB8888 | libretrodroid/src/main/cpp/renderers/es2/imagerendereres2.cpp:64-73 | as written: pixels below size - 4 are swapped |
| PixelConversion.LastPixelSkipped | libretrodroid/src/main/cpp/renderers/es2/imagerendereres2.cpp:67 | a one-pixel frame is left unswapped by the written bound and swapped by the intended one |
| PixelConversion.LastPixelUnswapped | libretrodroid/src/main/cpp/renderers/es2/imagerendereres2.cpp:67 | for every whole-pixel frame the last pixel keeps its red byte as written |
| PixelConversion.ConvertFromRGB8888Fixed | libretrodroid/src/main/cpp/renderers/es2/imagerendereres2.cpp:64-73 | corrected: every whole pixel in the frame has red and blue exchanged |
| BaseImageRenderer.TextureFormatFor | libretrodroid/src/main/cpp/renderers/baseimagerenderer.cpp:28-50 | XRGB8888 gives 4 bytes per pixel with swap on; any other value 2 bytes, 5_6_5, no swap |
| BaseImageRenderer.OnlyTwoTextureFormats | libretrodroid/src/main/cpp/renderers/baseimagerenderer.cpp:40-48 | every pixel format yields one of two settings; 0RGB1555 and unknown values share RGB565's |
| BaseImageRenderer.BaseImageRenderer.GetFramebuffer | libretrodroid/src/main/cpp/renderers/baseimagerenderer.cpp:24-26 | always 0 |
| BaseImageRenderer.BaseImageRenderer.SetPixelFormat | libretrodroid/src/main/cpp/renderers/baseimagerenderer.cpp:28-50 | stores the format and the texture settings for it |
| BaseImageRenderer.BaseImageRenderer.ConvertDataFrom0RGB1555 | libretrodroid/src/main/cpp/renderers/baseimagerenderer.cpp:52-62 | exactly the first height*pitch/bytesPerPixel words are converted, later words untouched |
| ImageRendererES2.TextureSettingsFor | libretrodroid/src/main/cpp/renderers/es2/imagerendereres2.cpp:83-103 | XRGB8888 gives RGBA / unsigned byte / 4; every other value RGB / 5_6_5 / 2 |
| ImageRendererES2.ImageRendererES2.constructor | libretrodroid/src/main/cpp/renderers/es2/imagerendereres2.cpp:23-26 | keeps the generated texture, formats unset |
| ImageRendererES2.ImageRendererES2.GetTexture | libretrodroid/src/main/cpp/renderers/es2/imagerendereres2.cpp:75-77 | the current texture |
| ImageRendererES2.ImageRendererES2.GetFramebuffer | libretrodroid/src/main/cpp/renderers/es2/imagerendereres2.cpp:79-81 | always 0 |
| ImageRendererES2.ImageRendererES2.RendersInVideoCallback | libretrodroid/src/main/cpp/renderers/es2/imagerendereres2.cpp:117-119 | always false |
| ImageRendererES2.ImageRendererES2.SetShaders | libretrodroid/src/main/cpp/renderers/es2/imagerendereres2.cpp:121-123 | copies only linearTexture |
| ImageRendererES2.ImageRendererES2.SetPixelFormat | libretrodroid/src/main/cpp/renderers/es2/imagerendereres2.cpp:83-103 | stores the format and the settings for it |
| ImageRendererES2.ImageRendererES2.ConvertDataFrom0RGB1555 | libretrodroid/src/main/cpp/renderers/es2/imagerendereres2.cpp:105-113 | the same per-word mapping over the first height*pitch/bytesPerPixel words |
| ImageRendererES2.UploadCalls | libretrodroid/src/main/cpp/renderers/es2/imagerendereres2.cpp:48-57 | one whole-frame upload when rows are unpadded, else one upload per row at offset row*pitch |
| ImageRendererES2.UploadsCoverFrame | libretrodroid/src/main/cpp/renderers/es2/imagerendereres2.cpp:48-57 | padded or not, every row is uploaded once, in order, from its own offset row*pitch, and nothing past the frame |
| ImageRendererES2.ImageRendererES2.Uploads | libretrodroid/src/main/cpp/renderers/es2/imagerendereres2.cpp:48-57 | the row loop produces exactly UploadCalls for the current bytes per pixel |
| ImageRendererES2.ImageRendererES2.OnNewFrame | libretrodroid/src/main/cpp/renderers/es2/imagerendereres2.cpp:28-62 | XRGB8888 frames are byte-swapped over pitch*height bytes, 0RGB1555 frames converted, RGB565 untouched; the calls are a reallocation exactly when the size changed, followed by UploadCalls |
| Rumble.Vibration | libretrodroid/src/main/cpp/rumble.cpp:30 | strength / 0xFFFF lies in [0, 1], 0 only for 0 and 1 only for full strength |
| Rumble.VibrationInjective | libretrodroid/src/main/cpp/rumble.cpp:30 | different strengths give different vibrations |
| Rumble.Dispatch | libretrodroid/src/main/cpp/rumble.cpp:20-32 | an event is dispatched iff enabled and the strength changed; only then is it recorded |
| Rumble.RepeatDispatchesNothing | libretrodroid/src/main/cpp/rumble.cpp:21 | repeating a strength dispatches nothing |
| Rumble.DispatchAll | libretrodroid/src/main/cpp/rumble.cpp:20-32 | a series of updates dispatches at most one event each |
| Rumble.DispatchedEventsChange | libretrodroid/src/main/cpp/rumble.cpp:20-32 | consecutive dispatched events always differ, and the first differs from the recorded strength |
| Rumble.Rumble.UpdateAndDispatch | libretrodroid/src/main/cpp/rumble.cpp:20-32 | the recorded strength and the event follow the dispatch function |
| Rumble.Rumble.SetEnabled | libretrodroid/src/main/cpp/rumble.cpp:34-36 | changes only the enabled flag |
| ErrorCodes.NativeCode | libretrodroid/src/main/cpp/errorcodes.cpp:22-27 | codes lie in -1..4 and only GENERIC is negative |
| ErrorCodes.NativeErrorOf | libretrodroid/src/main/cpp/errorcodes.cpp:22-27 | a code names an error iff it is in -1..4 |
| ErrorCodes.NativeCodesDistinct | libretrodroid/src/main/cpp/errorcodes.cpp:22-27 | the six codes are pairwise distinct |
| ErrorCodes.NativeCodeReadsBack | libretrodroid/src/main/cpp/errorcodes.cpp:22-27 | every code reads back as its error |
| ErrorCodes.JavaCode | libretrodroid/src/main/java/com/swordfish/libretrodroid/LibretroDroid.java:38-42 | the constants of this revision of LibretroDroid.java: every error but CHEAT has one, GENERIC included (4) |
| ErrorCodes.TablesDisagree | libretrodroid/src/main/cpp/errorcodes.cpp:22-27 | compared as tables only: the native CHEAT value equals this Java revision's GENERIC, the two GENERIC values differ and native GENERIC equals none of the Java constants, the other four agree |
| GamepadKeys.GetGamepadKeyEvent | libretrodroid/src/main/java/com/swordfish/libretrodroid/gamepad/GamepadsManager.kt:48-56 | BUTTON_A/B and BUTTON_X/Y are exchanged, every other code is unchanged |
| GamepadKeys.RemapInvolution | libretrodroid/src/main/java/com/swordfish/libretrodroid/gamepad/GamepadsManager.kt:48-56 | remapping twice is the identity |
| GamepadKeys.RemapPreservesGamepadKeys | libretrodroid/src/main/java/com/swordfish/libretrodroid/gamepad/GamepadsManager.kt:24-56 | a code is a gamepad key iff its remap is |
| GamepadKeys.FaceButtonsAreGamepadKeys | libretrodroid/src/main/java/com/swordfish/libretrodroid/gamepad/GamepadsManager.kt:24-45 | the swapped buttons are gamepad keys; the letter keys are not |
| DevicePorts.IsGamePadAcceptsEverything | libretrodroid/src/main/java/com/swordfish/libretrodroid/GamepadsManager.kt:79-86 | isGamePad as written accepts every device |
| DevicePorts.TouchscreenCounterexample | libretrodroid/src/main/java/com/swordfish/libretrodroid/GamepadsManager.kt:79-86 | a touchscreen passes the written test and fails the intended one |
| DevicePorts.IntendedFilterSkipsTouchscreen | libretrodroid/src/main/java/com/swordfish/libretrodroid/GamepadsManager.kt:67-86 | with the intended test the touchscreen gets no port; as written it gets port 0 |
| DevicePorts.PortMap | libretrodroid/src/main/java/com/swordfish/libretrodroid/GamepadsManager.kt:67-77 | every stored port is >= 0 |
| DevicePorts.PortMapEntries | libretrodroid/src/main/java/com/swordfish/libretrodroid/GamepadsManager.kt:70-74 | a device id is mapped iff some listed device with it passes both filters, and then to controllerNumber - 1 of one such device |
| DevicePorts.WrittenFilterMapsByControllerNumber | libretrodroid/src/main/java/com/swordfish/libretrodroid/GamepadsManager.kt:70-74 | as written, an id is mapped iff a listed device with it has controllerNumber > 0 |
| DevicePorts.PortOfListedDevice | libretrodroid/src/main/java/com/swordfish/libretrodroid/GamepadsManager.kt:67-77 | a device with a unique id and controllerNumber > 0 gets port controllerNumber - 1 |
| DevicePorts.GamepadsManager.UpdateDevicePortMap | libretrodroid/src/main/java/com/swordfish/libretrodroid/GamepadsManager.kt:67-77 | the map is rebuilt from the current list alone and the published count is its size |
| DevicePorts.GamepadsManager.GetGamepadPort | libretrodroid/src/main/java/com/swordfish/libretrodroid/GamepadsManager.kt:59-61 | the mapped port, or 0 for an unmapped device |
| DevicePorts.GetGamepadKeyEvent | libretrodroid/src/main/java/com/swordfish/libretrodroid/GamepadsManager.kt:49-57 | the letter keys A/B and X/Y are exchanged, every other code is unchanged |
| DevicePorts.LetterRemapInvolution | libretrodroid/src/main/java/com/swordfish/libretrodroid/GamepadsManager.kt:49-57 | remapping twice is the identity |
| RetroView.AfterCatch | libretrodroid/src/main/java/com/swordfish/libretrodroid/GLRetroView.kt:289-299 | abort is only ever set, by a RetroException; each exception emits exactly one code, its own or GENERIC |
| RetroView.GLRetroView.Catch | libretrodroid/src/main/java/com/swordfish/libretrodroid/GLRetroView.kt:289-299 | the guard's state after a block follows the catch function |
| RetroView.AbortSilencesLaterBlocks | libretrodroid/src/main/java/com/swordfish/libretrodroid/GLRetroView.kt:289-295 | once aborted, no later block runs or reports |
| RetroView.GuardRunReports | libretrodroid/src/main/java/com/swordfish/libretrodroid/GLRetroView.kt:289-299 | a run of blocks reports every failure in order and aborts iff one threw a RetroException |
| RetroView.RetroCodeIsLast | libretrodroid/src/main/java/com/swordfish/libretrodroid/GLRetroView.kt:289-299 | the first RetroException's code is the last one reported |
| RetroView.LoadCall | libretrodroid/src/main/java/com/swordfish/libretrodroid/GLRetroView.kt:276-281 | the path is preferred over bytes; with neither there is no load call |
| RetroView.LoadSteps | libretrodroid/src/main/java/com/swordfish/libretrodroid/GLRetroView.kt:274-283 | a failed load stops the block; otherwise native surface creation follows |
| RetroView.GLRetroView.LoadBody | libretrodroid/src/main/java/com/swordfish/libretrodroid/GLRetroView.kt:276-282 | the native calls made, and gameLoaded and observer registration only after both steps succeed |
| RetroView.GLRetroView.InitializeCore | libretrodroid/src/main/java/com/swordfish/libretrodroid/GLRetroView.kt:274-283 | nothing happens once aborted or loaded; otherwise the load block runs under its own guard |
| RetroView.GLRetroView.OnSurfaceCreated | libretrodroid/src/main/java/com/swordfish/libretrodroid/GLRetroView.kt:260-271 | aborted: nothing changes; loaded: the event, the aspect-ratio call and its caught failure; otherwise the load steps' calls and the inner guard's abort and errors, gameLoaded and the observer as the load ends, then the event (even after a swallowed failure) and the aspect-ratio call, whose failure the outer guard catches |
| RetroView.PortOf | libretrodroid/src/main/java/com/swordfish/libretrodroid/GLRetroView.kt:182-191 | the port is controllerNumber - 1, and -1 without a device |
| RetroView.ForwardKey | libretrodroid/src/main/java/com/swordfish/libretrodroid/GLRetroView.kt:182-202 | a key is forwarded iff the event exists, its port is >= 0 and the code is a gamepad key; the remapped code is sent |
| RetroView.FifthControllerPortOverruns | libretrodroid/src/main/java/com/swordfish/libretrodroid/GLRetroView.kt:182-191 | a fifth controller's keys go out on port 4, beyond the four pads, where the checked key event changes nothing |
| RetroView.ForwardedKeysPair | libretrodroid/src/main/java/com/swordfish/libretrodroid/GLRetroView.kt:182-202 | key down and key up forward the same keys to the same port with the same remapped code |
| RetroView.GenericMotionSends | libretrodroid/src/main/java/com/swordfish/libretrodroid/GLRetroView.kt:204-231 | a joystick event on a port >= 0 sends hat, left-stick and right-stick updates; anything else sends nothing |
| JniBridge.RaisedCode | libretrodroid/src/main/cpp/libretrodroidjni.cpp:171-505 | serialization entries raise SERIALIZATION, cheats CHEAT, loads LOAD_GAME, lifecycle GENERIC; create passes a LibretroDroidError's code on, else LOAD_LIBRARY |
| JniBridge.OnlyCreateKeepsOwnCode | libretrodroid/src/main/cpp/libretrodroidjni.cpp:389-395 | only create distinguishes a LibretroDroidError from any other exception |
| JniBridge.RaisedCodesAreKnown | libretrodroid/src/main/cpp/libretrodroidjni.cpp:171-505 | every other entry raises a code from the table, and CHEAT only from the cheat entries |
| JniBridge.VoidEntry | libretrodroid/src/main/cpp/libretrodroidjni.cpp:284-294 | an exception is raised iff the call threw, with the entry's code |
| JniBridge.UnserializeStateEntry | libretrodroid/src/main/cpp/libretrodroidjni.cpp:171-191 | the core's boolean, or false with SERIALIZATION raised |
| JniBridge.UnserializeSramEntry | libretrodroid/src/main/cpp/libretrodroidjni.cpp:241-262 | true iff nothing was thrown, whatever the core answered |
| JniBridge.SramResultIgnored | libretrodroid/src/main/cpp/libretrodroidjni.cpp:241-262 | a refused SRAM blob reads as success while a refused state reads as failure |
| JniBridge.SerializeEntry | libretrodroid/src/main/cpp/libretrodroidjni.cpp:193-211 | the core's bytes, or null with SERIALIZATION raised |
| JniBridge.RumbleCalls | libretrodroid/src/main/cpp/libretrodroidjni.cpp:507-528 | one rumble call per update, in order |
| JniBridge.StepCalls | libretrodroid/src/main/cpp/libretrodroidjni.cpp:507-528 | a pending refresh comes first, rumble follows only when enabled |
| JniBridge.RefreshOncePerRequest | libretrodroid/src/main/cpp/libretrodroidjni.cpp:507-528 | exactly one aspect-ratio refresh per pending flag, none otherwise; nothing but refreshes while rumble is off |
| JniBridge.StepState.Step | libretrodroid/src/main/cpp/libretrodroidjni.cpp:507-528 | the refresh flag is cleared and the view receives the step's calls |
| LegacyStores.Parsed | libretrodroid/src/main/cpp/libretrodroid.cpp:93-117 | one entry per declaration in order holding its parsed default, up to the first that throws |
| LegacyStores.ParsedStops | libretrodroid/src/main/cpp/libretrodroid.cpp:93-117 | after a declaration throws, later ones are never looked at |
| LegacyStores.FirstMatch | libretrodroid/src/main/cpp/libretrodroid.cpp:119-128 | none iff no entry has the key, otherwise the value of the first entry that has it |
| LegacyStores.DeclareThenGet | libretrodroid/src/main/cpp/libretrodroid.cpp:93-128 | after set_variables a key answers with the default of the first declaration naming it, else not found |
| LegacyStores.HwFlagsFor | libretrodroid/src/main/cpp/libretrodroid.cpp:135-151 | acceleration on, depth, stencil, origin and context callbacks copied |
| LegacyStores.VariableList.constructor | libretrodroid/src/main/cpp/libretrodroid.cpp:82-88 | the list starts empty |
| LegacyStores.VariableList.SetVariables | libretrodroid/src/main/cpp/libretrodroid.cpp:93-117 | earlier entries are discarded and the list is the parse of the new declarations |
| LegacyStores.VariableList.GetVariable | libretrodroid/src/main/cpp/libretrodroid.cpp:119-128 | the first entry with the key, or none |
| LegacyFrontend.Frontend.constructor | libretrodroid/src/main/cpp/libretrodroid.cpp:82-88 | no options, no hardware rendering, the given directories, no input object |
| LegacyFrontend.Frontend.QueryReply | libretrodroid/src/main/cpp/libretrodroid.cpp:153-216 | true exactly for CAN_DUPE, SET_PIXEL_FORMAT, LOG, a found option and a non-null directory |
| LegacyFrontend.Frontend.DirectoryReply | libretrodroid/src/main/cpp/libretrodroid.cpp:192-199 | a directory query succeeds iff the pointer is non-null |
| LegacyFrontend.Frontend.CallbackEnvironment | libretrodroid/src/main/cpp/libretrodroid.cpp:153-216 | the two setters replace the option list or the hardware flags; everything else only answers |
| LegacyFrontend.Frontend.AudioSampleBatch | libretrodroid/src/main/cpp/libretrodroid.cpp:222-227 | returns the frame count whether or not audio exists; writes only while it does |
| LegacyFrontend.Frontend.InputState | libretrodroid/src/main/cpp/libretrodroid.cpp:233-238 | 0 while there is no input object, else the input object's answer |
| LegacyFrontend.Frontend.OnMotionEvent | libretrodroid/src/main/cpp/libretrodroid.cpp:352-357 | dropped while there is no input object, else forwarded |
| LegacyFrontend.Frontend.OnKeyEvent | libretrodroid/src/main/cpp/libretrodroid.cpp:359-364 | dropped while there is no input object, else forwarded |
| LegacyFrontend.Frontend.Resume | libretrodroid/src/main/cpp/libretrodroid.cpp:450-468 | a new input object with four fresh pads, audio and pacing started |
| LegacyFrontend.Frontend.Pause | libretrodroid/src/main/cpp/libretrodroid.cpp:470-487 | input, audio and pacing are cleared together |
| PrototypeFrontend.VideoRefresh | app/src/main/cpp/libretrodroid.cpp:64-72 | a frame is forwarded, unchanged, iff its data is not the hardware marker |
| PrototypeFrontend.InputState | app/src/main/cpp/libretrodroid.cpp:226-229 | always 0 |
| PrototypeFrontend.Frontend.constructor | app/src/main/cpp/libretrodroid.cpp:74-80 | no options and no hardware rendering |
| PrototypeFrontend.Frontend.QueryReply | app/src/main/cpp/libretrodroid.cpp:146-209 | system directory true with its fixed path, save directory false with its fixed path, SET_PIXEL_FORMAT true, unlisted false |
| PrototypeFrontend.Frontend.CallbackEnvironment | app/src/main/cpp/libretrodroid.cpp:146-209 | the setters clear-and-reparse the options or record the hardware flags; everything else only answers |
| GlPrototype.FillFormulaIsChecker | app/src/main/cpp/gl_code.c:171-173 | the fill formula gives 255 exactly where row and column differ in parity, 127 elsewhere |
| GlPrototype.CheckerAlternates | app/src/main/cpp/gl_code.c:171-173 | horizontally and vertically adjacent texels differ |
| GlPrototype.CheckerTexture | app/src/main/cpp/gl_code.c:171-173 | the fill loop produces the 64 texels of the checker rule |
| GlPrototype.GlFrontend.constructor | app/src/main/cpp/gl_code.c:314 | the option table starts as NULL |
| GlPrototype.RawEntries | app/src/main/cpp/gl_code.c:341-350 | the entries before the terminator, with their raw declarations |
| GlPrototype.GlFrontend.SetVariables | app/src/main/cpp/gl_code.c:319-331 | the entries up to and including the terminator are copied unparsed; returns true |
| GlPrototype.GlFrontend.GetVariable | app/src/main/cpp/gl_code.c:333-351 | the fixed key answers "8000" before the table is consulted; otherwise the first match's raw declaration, or none |
| GlPrototype.RawDeclarationReturned | app/src/main/cpp/gl_code.c:341-350 | the prototype answers the whole declaration where the later stores answer its parsed default |
| GlPrototype.GlFrontend.SetHwRender | app/src/main/cpp/gl_code.c:357-364 | only the context callbacks are kept; returns true |
| GlPrototype.GlFrontend.QueryReply | app/src/main/cpp/gl_code.c:366-425 | true exactly for CAN_DUPE, system directory, LOG and a found option; save directory writes a path but is false; SET_PIXEL_FORMAT false |
| GlPrototype.GlFrontend.CallbackEnvironment | app/src/main/cpp/gl_code.c:366-425 | the setters store the table or the callbacks, GET_VARIABLE walks the table, everything else only answers |

## Left out

- GL rendering, shaders, GLSL sources and texture uploads are not modelled; `ImageRendererES2.ImageRendererES2.OnNewFrame` records only which upload calls are made.
- Floating point: axis values, vibration strengths and aspect ratios are `real`. The analog and pointer scalings by 0x7fff and C's truncation toward zero are modelled (`Input.AnalogReading`, `Input.PointerReading`); float precision and the narrowing to `int16_t` of readings from axis values outside their range are not. Screen-rotation radians and `retrieveGameSpecificAspectRatio` are not modelled.
- Input.Round: models a C cast of a rounded float as exact rounding of a real; float precision is not captured.
- Audio output, the microphone, frame pacing, the virtual file system, dynamic loading of the core and JNI object construction are not modelled; the JNI model covers only the outcome-to-error-code mapping and `step`'s flag handling.
- The emulator singleton is not part of this model: what each of its calls returns or throws is a parameter of the JNI entry functions.
- Concurrency is not modelled: the `queueEvent` hand-off to the GL thread, the Rx relays, the error stream's subscribers and `distinctUntilChanged` on the published gamepad count.
- DevicePorts.GamepadsManager.UpdateDevicePortMap: the device list is a parameter rather than `InputDevice.getDeviceIds()`.
- CircularBuffer.Buffer.constructor: requires a non-zero size; with size 0 every later `%` is a division by zero.
- PixelConversion.ConvertFromRGB8888: requires size >= 4; for smaller sizes `size - 4` wraps as an unsigned value and the loop overruns the buffer.
- Input.InputState.OnKeyEvent: requires port < 4, because the source indexes `pads[port]` without a bounds check; the view can send port 4 and beyond (see Findings), and `Input.InputState.OnKeyEventChecked` is the bounds-checked form.
- Input.InputState.OnMotionEvent: requires port < 4, for the same reason.
- LegacyFrontend.Frontend.OnKeyEvent: requires port < 4 while an input object exists, inherited from `Input.InputState.OnKeyEvent`, because the legacy library forwards the port to the same unchecked `pads[port]`.
- LegacyFrontend.Frontend.OnMotionEvent: requires port < 4 while an input object exists, inherited from `Input.InputState.OnMotionEvent`, for the same reason.
- LegacyFrontend.Frontend.Pause: requires a prior resume, because `audio->stop()` is called without a null check.
- GlPrototype.GlFrontend.GetVariable: requires a prior set_variables for any key but the fixed one, because the walk dereferences the NULL table.
- Environment.EnvironmentState.GetVariables: the map's iteration order is a ghost sequence; the contract fixes the result up to that order and proves it sorted and complete.
- The rumble method-id cache, log output, `getPassData` (always empty) and the view's `create`, `destroy`, `onCreate`, `onDestroy` and aspect-ratio getters are not modelled.
- In the legacy native library, `create`, `destroy`, `step` and the video callbacks, and in the sample app, the audio callback's forwarding, are not modelled; only their option stores, environment callbacks, input callbacks and resume/pause pointers are.
- The number of elements of `GamepadKeys.GAMEPAD_KEYS` (twenty) is not stated as a lemma; membership is.
- ErrorCodes.TablesDisagree: LibretroDroid.java is an older revision than errorcodes.cpp and libretrodroidjni.cpp (its `create` declares a different parameter list, and the JNI rumble call names a method the view does not declare), so the lemma compares the two constant tables only and says nothing about codes flowing through one build.
- The pads' pressed keys are a mathematical set; the source's `std::unordered_set` behaves the same for insert, erase and lookup.

## Findings

| source | as written | input that shows it | evidently intended | confidence | as-written member | corrected member |
|---|---|---|---|---|---|---|
| libretrodroid/src/main/cpp/circularbuffer.cpp:34-36 | `usedSize` is capacity minus free space, one more than the bytes stored, since one slot is always kept free | an empty ring (read index == write index, capacity 2): usedSize is 1, so `read` returns one stale byte | the fill level is (write - read) mod capacity, 0 on an empty ring | not executed; high | CircularBuffer.EmptyRingReadsStaleByte | CircularBuffer.OccupiedPlusAvailable |
| libretrodroid/src/main/cpp/renderers/es2/imagerendereres2.cpp:67 | the byte-swap loop runs while i < size - 4 | a one-pixel frame [1, 2, 3, 4] stays [1, 2, 3, 4] | every whole pixel swapped: [3, 2, 1, 4] | not executed; high | PixelConversion.LastPixelSkipped | PixelConversion.ConvertFromRGB8888Fixed |
| libretrodroid/src/main/java/com/swordfish/libretrodroid/GamepadsManager.kt:79-86 | `conditions.any()` with no predicate only asks whether the two-element list is non-empty, so every device counts as a gamepad | a touchscreen device with sources 0x1002 and controller number 1 is mapped to port 0 | a device counts only if one of the two source tests holds | not executed; medium, since Android normally assigns controller numbers only to game controllers | DevicePorts.TouchscreenCounterexample | DevicePorts.IntendedFilterSkipsTouchscreen |
| libretrodroid/src/main/java/com/swordfish/libretrodroid/GLRetroView.kt:182-191 | the view forwards key events on port controllerNumber - 1 with no upper bound, and input.cpp's onKeyEvent writes `pads[port]` of its four pads unchecked | a key press from a device with controller number 5 is sent on port 4, one past the last pad | ports outside the four pads are ignored, as getInputState already does for reads | not executed; medium, since a fifth controller number needs five attached controllers | RetroView.FifthControllerPortOverruns | Input.PadsAfterKeyEvent |

The operational classes keep the as-written behaviour: `CircularBuffer.Buffer.Read` and `Drop` use `Used`, `Input.InputState.OnKeyEvent` writes without a bounds check, `ImageRendererES2.ImageRendererES2.OnNewFrame` uses the written bound, and `DevicePorts.GamepadsManager.UpdateDevicePortMap` uses the written `IsGamePad`.
