/** The prototype frontend of the sample app (app/src/main/cpp/libretrodroid.cpp):
    the same option list and hardware-render flags as the older frontend,
    but fixed test directories, an input callback that always answers 0, and
    a video callback that forwards only software frames. */
module PrototypeFrontend {
  import opened Wrappers
  import opened Libretro
  import opened VariableParsing
  import opened LegacyStores

  const TEST_SYSTEM_DIRECTORY: string := "/storage/emulated/0/test-system"
  const TEST_SAVES_DIRECTORY: string := "/storage/emulated/0/test-saves"

  /** The `data` pointer of a video refresh: the RETRO_HW_FRAME_BUFFER_VALID
      marker of a hardware-rendered frame, or the address of a frame in memory. */
  datatype FrameData = HwFrameBufferValid | Memory(address: nat)

  /** A software frame handed to the video object. */
  datatype Frame2D = Frame2D(address: nat, width: nat, height: nat, pitch: nat)

  /** callback_hw_video_refresh: only frames in memory are forwarded to
      onNew2DFrame, unchanged; the hardware marker forwards nothing. */
  function VideoRefresh(data: FrameData, width: nat, height: nat, pitch: nat): (r: Option<Frame2D>)
    ensures r.Some? <==> data != HwFrameBufferValid
    ensures r.Some? ==> r.value == Frame2D(data.address, width, height, pitch)
  {
    match data
    case HwFrameBufferValid => None
    case Memory(address) => Some(Frame2D(address, width, height, pitch))
  }

  /** callback_set_input_state: no input is wired up. */
  function InputState(port: nat, device: nat, index: nat, id: nat): (r: int)
    ensures r == 0
  {
    0
  }

  class Frontend {
    const variables: VariableList
    var hw: HwFlags

    constructor ()
      ensures fresh(variables) && variables.entries == [] && hw == NO_HW_RENDER
    {
      variables := new VariableList();
      hw := NO_HW_RENDER;
    }

    static predicate IsQuery(cmd: EnvCommand)
    {
      !(cmd.SetVariables? || cmd.SetHwRender?)
    }

    /** callback_environment's reply to every command but the two setters.
        The system directory is always the fixed test path; the save
        directory query writes its fixed path but reports failure. */
    function QueryReply(cmd: EnvCommand): (r: Reply)
      reads variables
      requires IsQuery(cmd)
      ensures r.ok <==>
        cmd.GetCanDupe? || cmd.GetSystemDirectory? || cmd.SetPixelFormat? || cmd.GetLogInterface? ||
        (cmd.GetVariable? && FirstMatch(variables.entries, cmd.key).Some?)
      ensures cmd.GetVariable? && r.ok ==> r.output == StringOutput(FirstMatch(variables.entries, cmd.key).value)
      ensures cmd.GetSystemDirectory? ==> r.output == StringOutput(TEST_SYSTEM_DIRECTORY)
      ensures cmd.GetSaveDirectory? ==> r.output == StringOutput(TEST_SAVES_DIRECTORY)
    {
      if cmd.GetCanDupe? then Reply(true, BoolOutput(true))
      else if cmd.GetSystemDirectory? then Reply(true, StringOutput(TEST_SYSTEM_DIRECTORY))
      else if cmd.SetPixelFormat? then Reply(true, NoOutput)
      else if cmd.GetVariable? then
        (match FirstMatch(variables.entries, cmd.key)
         case Some(value) => Reply(true, StringOutput(value))
         case None => Reply(false, NoOutput))
      else if cmd.GetLogInterface? then Reply(true, CallbackInstalled)
      else if cmd.GetSaveDirectory? then Reply(false, StringOutput(TEST_SAVES_DIRECTORY))
      else Reply(false, NoOutput)
    }

    /** callback_environment. */
    method CallbackEnvironment(cmd: EnvCommand) returns (r: Result<Reply, ParseError>)
      requires cmd.SetVariables? ==> Terminated(cmd.entries)
      modifies this`hw, variables
      ensures IsQuery(cmd) ==> r == Ok(old(QueryReply(cmd))) && hw == old(hw) && unchanged(variables)
      ensures cmd.SetVariables? ==>
        var p := Parsed(Declarations(cmd.entries));
        variables.entries == p.0 && r == (if p.1.Some? then Err(p.1.value) else Ok(Reply(true, NoOutput))) &&
        hw == old(hw)
      ensures cmd.SetHwRender? ==>
        r == Ok(Reply(true, CallbackInstalled)) && hw == HwFlagsFor(cmd.request) && unchanged(variables)
    {
      match cmd
      case SetVariables(entries) =>
        var stored := variables.SetVariables(entries);
        r := if stored.Err? then Err(stored.error) else Ok(Reply(true, NoOutput));
      case SetHwRender(request) =>
        hw := HwFlagsFor(request);
        r := Ok(Reply(true, CallbackInstalled));
      case _ =>
        r := Ok(QueryReply(cmd));
    }
  }
}
