/** The JNI entry points of the native library (libretrodroidjni.cpp): how
    each one turns an exception thrown by the emulator singleton into a
    RetroException code for Java, and what it returns; and the flag handling
    after a frame step. The singleton itself is not part of this model: what
    each of its calls returns or throws is a parameter. */
module JniBridge {
  import opened Wrappers
  import opened ErrorCodes

  /** What the singleton can throw; all of it derives from std::exception. */
  datatype CoreFailure = LibretroDroidError(code: int) | StdException

  datatype CoreOutcome<T> = Returned(value: T) | Threw(failure: CoreFailure)

  /** What Java sees: the value returned, and the code of the RetroException
      left pending, if one was thrown. */
  datatype JniResult<T> = JniResult(value: T, raised: Option<int>)

  datatype Entry =
    | UnserializeState | SerializeState | UnserializeSram | SerializeSram
    | SetCheat | ResetCheat
    | Create
    | LoadGameFromPath | LoadGameFromBytes | LoadGameFromVirtualFiles
    | Reset | Destroy | Resume | Pause

  /** The code an entry point raises when the singleton throws `failure`. */
  function RaisedCode(entry: Entry, failure: CoreFailure): (code: int)
    ensures entry.UnserializeState? || entry.SerializeState? || entry.UnserializeSram? || entry.SerializeSram? ==>
      code == ERROR_SERIALIZATION
    ensures entry.SetCheat? || entry.ResetCheat? ==> code == ERROR_CHEAT
    ensures entry.LoadGameFromPath? || entry.LoadGameFromBytes? || entry.LoadGameFromVirtualFiles? ==>
      code == ERROR_LOAD_GAME
    ensures entry.Reset? || entry.Destroy? || entry.Resume? || entry.Pause? ==> code == ERROR_GENERIC
    ensures entry.Create? ==> code == (if failure.LibretroDroidError? then failure.code else ERROR_LOAD_LIBRARY)
  {
    match entry
    case UnserializeState => ERROR_SERIALIZATION
    case SerializeState => ERROR_SERIALIZATION
    case UnserializeSram => ERROR_SERIALIZATION
    case SerializeSram => ERROR_SERIALIZATION
    case SetCheat => ERROR_CHEAT
    case ResetCheat => ERROR_CHEAT
    case Create =>
      (match failure
       case LibretroDroidError(code) => code
       case StdException => ERROR_LOAD_LIBRARY)
    case LoadGameFromPath => ERROR_LOAD_GAME
    case LoadGameFromBytes => ERROR_LOAD_GAME
    case LoadGameFromVirtualFiles => ERROR_LOAD_GAME
    case Reset => ERROR_GENERIC
    case Destroy => ERROR_GENERIC
    case Resume => ERROR_GENERIC
    case Pause => ERROR_GENERIC
  }

  /** Only create passes a LibretroDroidError's own code on; every other
      entry point catches it as a plain std::exception. */
  lemma {:induction false} OnlyCreateKeepsOwnCode(entry: Entry, code: int)
    ensures entry != Create ==> RaisedCode(entry, LibretroDroidError(code)) == RaisedCode(entry, StdException)
    ensures entry == Create ==> RaisedCode(entry, LibretroDroidError(code)) == code
  {
  }

  /** Every entry point except create raises a native code from the table,
      and never the cheat code outside the cheat entries. */
  lemma {:induction false} RaisedCodesAreKnown(entry: Entry, failure: CoreFailure)
    requires entry != Create
    ensures NativeErrorOf(RaisedCode(entry, failure)).Some?
    ensures RaisedCode(entry, failure) == ERROR_CHEAT <==> entry.SetCheat? || entry.ResetCheat?
  {
  }

  /** An entry point that returns nothing. */
  function VoidEntry(entry: Entry, outcome: CoreOutcome<()>): (raised: Option<int>)
    ensures raised.None? <==> outcome.Returned?
    ensures outcome.Threw? ==> raised == Some(RaisedCode(entry, outcome.failure))
  {
    match outcome
    case Returned(_) => None
    case Threw(failure) => Some(RaisedCode(entry, failure))
  }

  /** unserializeState: the singleton's boolean, or false with
      ERROR_SERIALIZATION pending. */
  function UnserializeStateEntry(outcome: CoreOutcome<bool>): (r: JniResult<bool>)
    ensures outcome.Returned? ==> r == JniResult(outcome.value, None)
    ensures outcome.Threw? ==> r == JniResult(false, Some(ERROR_SERIALIZATION))
  {
    match outcome
    case Returned(ok) => JniResult(ok, None)
    case Threw(failure) => JniResult(false, Some(RaisedCode(UnserializeState, failure)))
  }

  /** unserializeSRAM: true whenever nothing was thrown, whatever the
      singleton answered; false with ERROR_SERIALIZATION pending otherwise. */
  function UnserializeSramEntry(outcome: CoreOutcome<bool>): (r: JniResult<bool>)
    ensures r.value <==> outcome.Returned?
    ensures r.raised.Some? <==> outcome.Threw?
    ensures outcome.Threw? ==> r.raised == Some(ERROR_SERIALIZATION)
  {
    match outcome
    case Returned(_) => JniResult(true, None)
    case Threw(failure) => JniResult(false, Some(RaisedCode(UnserializeSram, failure)))
  }

  /** A refused SRAM blob still reads as success on the Java side, while a
      refused state reads as failure. */
  lemma {:induction false} SramResultIgnored()
    ensures UnserializeSramEntry(Returned(false)).value
    ensures !UnserializeStateEntry(Returned(false)).value
    ensures UnserializeSramEntry(Returned(false)) == UnserializeSramEntry(Returned(true))
  {
  }

  /** serializeState and serializeSRAM: a copy of the singleton's bytes, or
      null with ERROR_SERIALIZATION pending. */
  function SerializeEntry(entry: Entry, outcome: CoreOutcome<seq<bv8>>): (r: JniResult<Option<seq<bv8>>>)
    requires entry == SerializeState || entry == SerializeSram
    ensures outcome.Returned? ==> r == JniResult(Some(outcome.value), None)
    ensures outcome.Threw? ==> r == JniResult(None, Some(ERROR_SERIALIZATION))
  {
    match outcome
    case Returned(bytes) => JniResult(Some(bytes), None)
    case Threw(failure) => JniResult(None, Some(RaisedCode(entry, failure)))
  }

  /** Calls step makes back into the view. */
  datatype ViewCall = RefreshAspectRatio | SendRumbleEvent(port: int, weak: real, strong: real)

  /** A rumble update the singleton hands to step's callback. */
  datatype RumbleUpdate = RumbleUpdate(port: int, weak: real, strong: real)

  /** The view calls the rumble callback makes, one per update, in order. */
  function RumbleCalls(updates: seq<RumbleUpdate>): (calls: seq<ViewCall>)
    ensures |calls| == |updates|
    ensures forall k :: 0 <= k < |updates| ==>
      calls[k] == SendRumbleEvent(updates[k].port, updates[k].weak, updates[k].strong)
  {
    if updates == [] then []
    else [SendRumbleEvent(updates[0].port, updates[0].weak, updates[0].strong)] + RumbleCalls(updates[1..])
  }

  /** The view calls one step makes: a refresh if one is pending, then the
      rumble updates if rumble is enabled. */
  function StepCalls(refreshPending: bool, rumbleEnabled: bool, updates: seq<RumbleUpdate>): (calls: seq<ViewCall>)
    ensures |calls| == (if refreshPending then 1 else 0) + (if rumbleEnabled then |updates| else 0)
    ensures refreshPending ==> calls[0] == RefreshAspectRatio
  {
    (if refreshPending then [RefreshAspectRatio] else []) + (if rumbleEnabled then RumbleCalls(updates) else [])
  }

  /** A step asks the view for exactly one aspect-ratio refresh when one was
      pending and for none otherwise, and forwards rumble only when enabled. */
  lemma {:induction false} RefreshOncePerRequest(refreshPending: bool, rumbleEnabled: bool, updates: seq<RumbleUpdate>)
    ensures multiset(StepCalls(refreshPending, rumbleEnabled, updates))[RefreshAspectRatio] ==
      (if refreshPending then 1 else 0)
    ensures !rumbleEnabled ==> forall c :: c in StepCalls(refreshPending, rumbleEnabled, updates) ==> c == RefreshAspectRatio
  {
    var rumble := if rumbleEnabled then RumbleCalls(updates) else [];
    assert RefreshAspectRatio !in rumble;
    assert multiset(rumble)[RefreshAspectRatio] == 0;
    assert StepCalls(refreshPending, rumbleEnabled, updates) ==
      (if refreshPending then [RefreshAspectRatio] else []) + rumble;
  }

  /** The singleton's flags that step reads after the frame. */
  class StepState {
    var videoRefreshRequired: bool
    var rumbleEnabled: bool
    var viewCalls: seq<ViewCall>

    constructor (rumbleEnabled: bool)
      ensures !videoRefreshRequired && this.rumbleEnabled == rumbleEnabled && viewCalls == []
    {
      videoRefreshRequired := false;
      this.rumbleEnabled := rumbleEnabled;
      viewCalls := [];
    }

    /** step: after the frame (which may request a video refresh), a pending
        refresh is cleared before the view is asked to refresh its aspect
        ratio; rumble updates reach the view only while rumble is enabled. */
    method Step(frameRequestsRefresh: bool, updates: seq<RumbleUpdate>)
      modifies this`videoRefreshRequired, this`viewCalls
      ensures !videoRefreshRequired
      ensures viewCalls == old(viewCalls) + StepCalls(old(videoRefreshRequired) || frameRequestsRefresh, rumbleEnabled, updates)
    {
      videoRefreshRequired := videoRefreshRequired || frameRequestsRefresh;
      var refresh: seq<ViewCall> := [];
      if videoRefreshRequired {
        videoRefreshRequired := false;
        refresh := [RefreshAspectRatio];
      }
      var rumble: seq<ViewCall> := [];
      if rumbleEnabled {
        rumble := RumbleCalls(updates);
      }
      viewCalls := viewCalls + refresh + rumble;
    }
  }
}
