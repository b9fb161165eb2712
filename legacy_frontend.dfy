/** The older single-file frontend (libretrodroid/src/main/cpp/libretrodroid.cpp):
    its environment callback, its input and audio callbacks, which check the
    global `input` and `audio` pointers for null, and the resume/pause pair
    that creates and deletes those objects. */
module LegacyFrontend {
  import opened Wrappers
  import opened Libretro
  import opened VariableParsing
  import opened LegacyStores
  import Input

  class Frontend {
    const variables: VariableList
    var hw: HwFlags
    /** The directory strings create stored; None is a null pointer. */
    var systemDirectory: Option<string>
    var savesDirectory: Option<string>
    /** The global `input` pointer. */
    var input: Input.InputState?
    /** Whether the `audio` and `fpsSync` pointers are set. */
    var audioActive: bool
    var fpsSyncActive: bool
    /** The frame counts handed to the audio object, in order. */
    var audioWrites: seq<nat>

    /** input, audio and fpsSync are set and cleared together. */
    ghost predicate Valid()
      reads this, input
    {
      (input != null ==> input.Valid()) &&
      (input != null <==> audioActive) && audioActive == fpsSyncActive
    }

    /** The globals as the library loads them, with the directories create
        stored. */
    constructor (systemDirectory: Option<string>, savesDirectory: Option<string>)
      ensures Valid() && fresh(variables)
      ensures variables.entries == [] && hw == NO_HW_RENDER
      ensures this.systemDirectory == systemDirectory && this.savesDirectory == savesDirectory
      ensures input == null && audioWrites == []
    {
      variables := new VariableList();
      hw := NO_HW_RENDER;
      this.systemDirectory := systemDirectory;
      this.savesDirectory := savesDirectory;
      input := null;
      audioActive := false;
      fpsSyncActive := false;
      audioWrites := [];
    }

    /** The commands callback_environment answers without changing anything. */
    static predicate IsQuery(cmd: EnvCommand)
    {
      !(cmd.SetVariables? || cmd.SetHwRender?)
    }

    /** callback_environment's reply to every command but the two setters. */
    function QueryReply(cmd: EnvCommand): (r: Reply)
      reads this, variables
      requires IsQuery(cmd)
      ensures r.ok <==>
        cmd.GetCanDupe? || cmd.SetPixelFormat? || cmd.GetLogInterface? ||
        (cmd.GetVariable? && FirstMatch(variables.entries, cmd.key).Some?) ||
        (cmd.GetSaveDirectory? && savesDirectory.Some?) ||
        (cmd.GetSystemDirectory? && systemDirectory.Some?)
      ensures cmd.GetVariable? && r.ok ==> r.output == StringOutput(FirstMatch(variables.entries, cmd.key).value)
      ensures cmd.GetCanDupe? ==> r.output == BoolOutput(true)
    {
      if cmd.GetCanDupe? then Reply(true, BoolOutput(true))
      else if cmd.SetPixelFormat? then Reply(true, NoOutput)
      else if cmd.GetVariable? then
        (match FirstMatch(variables.entries, cmd.key)
         case Some(value) => Reply(true, StringOutput(value))
         case None => Reply(false, NoOutput))
      else if cmd.GetLogInterface? then Reply(true, CallbackInstalled)
      else if cmd.GetSaveDirectory? then DirectoryReply(savesDirectory)
      else if cmd.GetSystemDirectory? then DirectoryReply(systemDirectory)
      else Reply(false, NoOutput)
    }

    /** A directory query writes the pointer and succeeds iff it is non-null. */
    static function DirectoryReply(directory: Option<string>): (r: Reply)
      ensures r.ok <==> directory.Some?
      ensures directory.Some? ==> r.output == StringOutput(directory.value)
    {
      match directory
      case Some(path) => Reply(true, StringOutput(path))
      case None => Reply(false, NullString)
    }

    /** callback_environment. SET_VARIABLES replaces the option list and
        SET_HW_RENDER records the request; every other command only answers. */
    method CallbackEnvironment(cmd: EnvCommand) returns (r: Result<Reply, ParseError>)
      requires cmd.SetVariables? ==> Terminated(cmd.entries)
      modifies this`hw, variables
      ensures IsQuery(cmd) ==> r == Ok(old(QueryReply(cmd))) && hw == old(hw) && unchanged(variables)
      ensures cmd.SetVariables? ==>
        var p := Parsed(Declarations(cmd.entries));
        variables.entries == p.0 && r == (if p.1.Some? then Err(p.1.value) else Ok(Reply(true, NoOutput))) &&
        hw == old(hw)
      ensures cmd.SetHwRender? ==>
        r == Ok(Reply(true, CallbackInstalled)) && hw == HwFlagsFor(cmd.request) && unchanged(variables)
    {
      match cmd
      case SetVariables(entries) =>
        var stored := variables.SetVariables(entries);
        r := if stored.Err? then Err(stored.error) else Ok(Reply(true, NoOutput));
      case SetHwRender(request) =>
        hw := HwFlagsFor(request);
        r := Ok(Reply(true, CallbackInstalled));
      case _ =>
        r := Ok(QueryReply(cmd));
    }

    /** callback_set_audio_sample_batch: the frames go to the audio object
        if there is one; the full count is reported consumed either way. */
    method AudioSampleBatch(frames: nat) returns (consumed: nat)
      modifies this`audioWrites
      ensures consumed == frames
      ensures audioWrites == old(audioWrites) + (if audioActive then [frames] else [])
    {
      if audioActive {
        audioWrites := audioWrites + [frames];
      }
      return frames;
    }

    /** callback_set_input_state: 0 while there is no input object. */
    function InputState(port: nat, device: nat, index: nat, id: nat): (r: int)
      reads this, input, if input != null then {input.pads} else {}
      requires Valid()
      ensures input == null ==> r == 0
      ensures input != null ==> r == input.GetInputState(port, device, index, id)
    {
      if input != null then input.GetInputState(port, device, index, id) else 0
    }

    /** onKeyEvent: dropped while there is no input object. */
    method OnKeyEvent(port: nat, action: int, keyCode: int)
      requires Valid() && (input != null ==> port < 4)
      modifies if input != null then {input.pads} else {}
      ensures input == old(input) && Valid()
      ensures input != null ==>
        input.pads[..] == old(input.pads[..])[port := Input.KeyEventPad(old(input.pads[port]), action, keyCode)]
    {
      if input != null {
        input.OnKeyEvent(port, action, keyCode);
      }
    }

    /** onMotionEvent: dropped while there is no input object. */
    method OnMotionEvent(port: nat, source: int, xAxis: real, yAxis: real)
      requires Valid() && (input != null ==> port < 4)
      modifies if input != null then {input.pads} else {}
      ensures input == old(input) && Valid()
      ensures input != null ==>
        input.pads[..] == old(input.pads[..])[port := Input.MotionEventPad(old(input.pads[port]), source, xAxis, yAxis)]
    {
      if input != null {
        input.OnMotionEvent(port, source, xAxis, yAxis);
      }
    }

    /** resume: a new input object with four fresh pads, and audio and frame
        pacing started. */
    method Resume()
      modifies this`input, this`audioActive, this`fpsSyncActive
      ensures Valid() && input != null && fresh(input) && fresh(input.pads)
      ensures input.pads[..] == [Input.FRESH_PAD, Input.FRESH_PAD, Input.FRESH_PAD, Input.FRESH_PAD]
    {
      input := new Input.InputState();
      audioActive := true;
      fpsSyncActive := true;
    }

    /** pause: the three objects are deleted and their pointers cleared.
        `audio->stop()` is called without a null check, so pausing twice in
        a row is not allowed. */
    method Pause()
      requires Valid() && audioActive
      modifies this`input, this`audioActive, this`fpsSyncActive
      ensures Valid() && input == null && !audioActive && !fpsSyncActive
    {
      input := null;
      audioActive := false;
      fpsSyncActive := false;
    }
  }
}
