/** The emulator view's fault guard, its one-shot game loading and its
    gamepad event filter (GLRetroView.kt). Calls into the native library are
    recorded in a log; whether each call returns or throws is a parameter. */
module RetroView {
  import opened Wrappers
  import opened AndroidKeys
  import opened ErrorCodes
  import GamepadKeys
  import Input

  /** How a guarded block ends: normally, with a RetroException carrying a
      native error code, or with any other exception. */
  datatype Outcome = Completed | ThrowsRetro(code: int) | ThrowsOther

  /** The guard's state after the catch clauses of catchExceptions have seen
      a block end with `outcome`. */
  function AfterCatch(abort: bool, errors: seq<int>, outcome: Outcome): (r: (bool, seq<int>))
    ensures abort ==> r.0
    ensures r.0 <==> abort || outcome.ThrowsRetro?
    ensures |r.1| == |errors| + (if outcome.Completed? then 0 else 1)
    ensures r.1[..|errors|] == errors
    ensures outcome.ThrowsRetro? ==> r.1[|errors|] == outcome.code
    ensures outcome.ThrowsOther? ==> r.1[|errors|] == JAVA_ERROR_GENERIC
  {
    match outcome
    case Completed => (abort, errors)
    case ThrowsRetro(code) => (true, errors + [code])
    case ThrowsOther => (abort, errors + [JAVA_ERROR_GENERIC])
  }

  /** A run of guarded blocks: a block runs only while abort is false. */
  function GuardRun(abort: bool, errors: seq<int>, outcomes: seq<Outcome>): (r: (bool, seq<int>))
    decreases |outcomes|
  {
    if outcomes == [] then (abort, errors)
    else if abort then GuardRun(abort, errors, outcomes[1..])
    else
      var (a, e) := AfterCatch(abort, errors, outcomes[0]);
      GuardRun(a, e, outcomes[1..])
  }

  /** The codes a run reports when it starts with abort false: one per failed
      block, up to and including the first RetroException. */
  function Reported(outcomes: seq<Outcome>): seq<int>
    decreases |outcomes|
  {
    if outcomes == [] then []
    else match outcomes[0]
      case Completed => Reported(outcomes[1..])
      case ThrowsRetro(code) => [code]
      case ThrowsOther => [JAVA_ERROR_GENERIC] + Reported(outcomes[1..])
  }

  /** Once abort is set, no later block runs and nothing more is reported. */
  lemma {:induction false} AbortSilencesLaterBlocks(errors: seq<int>, outcomes: seq<Outcome>)
    ensures GuardRun(true, errors, outcomes) == (true, errors)
    decreases |outcomes|
  {
    if outcomes != [] {
      AbortSilencesLaterBlocks(errors, outcomes[1..]);
    }
  }

  /** From a clear guard, a run reports exactly the codes of Reported, and it
      ends aborted exactly when some block threw a RetroException. */
  lemma {:induction false} GuardRunReports(errors: seq<int>, outcomes: seq<Outcome>)
    ensures GuardRun(false, errors, outcomes).1 == errors + Reported(outcomes)
    ensures GuardRun(false, errors, outcomes).0 <==> exists i :: 0 <= i < |outcomes| && outcomes[i].ThrowsRetro?
    decreases |outcomes|
  {
    if outcomes != [] {
      match outcomes[0]
      case Completed =>
        GuardRunReports(errors, outcomes[1..]);
        ShiftRetro(outcomes);
      case ThrowsRetro(code) =>
        AbortSilencesLaterBlocks(errors + [code], outcomes[1..]);
      case ThrowsOther =>
        GuardRunReports(errors + [JAVA_ERROR_GENERIC], outcomes[1..]);
        ShiftRetro(outcomes);
    }
  }

  lemma ShiftRetro(outcomes: seq<Outcome>)
    requires outcomes != [] && !outcomes[0].ThrowsRetro?
    ensures (exists i :: 0 <= i < |outcomes| && outcomes[i].ThrowsRetro?) <==>
      (exists i :: 0 <= i < |outcomes[1..]| && outcomes[1..][i].ThrowsRetro?)
  {
    if exists i :: 0 <= i < |outcomes| && outcomes[i].ThrowsRetro? {
      var i :| 0 <= i < |outcomes| && outcomes[i].ThrowsRetro?;
      assert outcomes[1..][i - 1] == outcomes[i];
    }
  }

  /** A RetroException ends the reporting: the code of the first one is the
      last code a run from a clear guard reports. */
  lemma {:induction false} RetroCodeIsLast(outcomes: seq<Outcome>, i: nat)
    requires i < |outcomes| && outcomes[i].ThrowsRetro?
    requires forall j :: 0 <= j < i ==> !outcomes[j].ThrowsRetro?
    ensures |Reported(outcomes)| > 0 && Reported(outcomes)[|Reported(outcomes)| - 1] == outcomes[i].code
    decreases |outcomes|
  {
    if i > 0 {
      RetroCodeIsLast(outcomes[1..], i - 1);
    }
  }

  /** Where the game comes from; a path wins over bytes. */
  datatype GameData = GameData(gameFilePath: Option<string>, gameFileBytes: Option<seq<bv8>>)

  /** The native entry points the view calls while loading. */
  datatype NativeCall = LoadGameFromPathCall(path: string) | LoadGameFromBytesCall | SurfaceCreatedCall | AspectRatioCall

  datatype RetroEvent = FrameRendered | SurfaceCreated

  /** The load call initializeCore makes, if any. */
  function LoadCall(data: GameData): (r: Option<NativeCall>)
    ensures data.gameFilePath.Some? ==> r == Some(LoadGameFromPathCall(data.gameFilePath.value))
    ensures data.gameFilePath.None? && data.gameFileBytes.Some? ==> r == Some(LoadGameFromBytesCall)
    ensures r.None? <==> data.gameFilePath.None? && data.gameFileBytes.None?
  {
    if data.gameFilePath.Some? then Some(LoadGameFromPathCall(data.gameFilePath.value))
    else if data.gameFileBytes.Some? then Some(LoadGameFromBytesCall)
    else None
  }

  /** The body of initializeCore for a game not yet loaded: the native calls
      it makes and how it ends, given how the load and the native surface
      creation end. It stops at the first call that throws. */
  function LoadSteps(data: GameData, loadOutcome: Outcome, surfaceOutcome: Outcome): (r: (seq<NativeCall>, Outcome))
    ensures LoadCall(data).Some? && !loadOutcome.Completed? ==> r == ([LoadCall(data).value], loadOutcome)
    ensures LoadCall(data).None? || loadOutcome.Completed? ==>
      r.0 == (if LoadCall(data).Some? then [LoadCall(data).value] else []) + [SurfaceCreatedCall] &&
      r.1 == surfaceOutcome
  {
    match LoadCall(data)
    case Some(call) =>
      if !loadOutcome.Completed? then ([call], loadOutcome)
      else ([call, SurfaceCreatedCall], surfaceOutcome)
    case None => ([SurfaceCreatedCall], surfaceOutcome)
  }

  class GLRetroView {
    var abort: bool
    var gameLoaded: bool
    /** The codes emitted on the error stream. */
    var errors: seq<int>
    var events: seq<RetroEvent>
    var calls: seq<NativeCall>
    /** Whether a lifecycle was attached when the view was created. */
    var lifecycle: bool
    var observerRegistered: bool

    constructor (lifecycle: bool)
      ensures !abort && !gameLoaded && errors == [] && events == [] && calls == []
      ensures this.lifecycle == lifecycle && !observerRegistered
    {
      abort := false;
      gameLoaded := false;
      errors := [];
      events := [];
      calls := [];
      this.lifecycle := lifecycle;
      observerRegistered := false;
    }

    /** The catch clauses of catchExceptions. */
    method Catch(outcome: Outcome)
      modifies this`abort, this`errors
      ensures (abort, errors) == AfterCatch(old(abort), old(errors), outcome)
    {
      match outcome
      case Completed =>
      case ThrowsRetro(code) =>
        errors := errors + [code];
        abort := true;
      case ThrowsOther =>
        errors := errors + [JAVA_ERROR_GENERIC];
    }

    /** The body of initializeCore once the game is known not to be loaded. */
    method LoadBody(data: GameData, loadOutcome: Outcome, surfaceOutcome: Outcome) returns (outcome: Outcome)
      modifies this`calls, this`observerRegistered, this`gameLoaded
      ensures calls == old(calls) + LoadSteps(data, loadOutcome, surfaceOutcome).0
      ensures outcome == LoadSteps(data, loadOutcome, surfaceOutcome).1
      ensures gameLoaded <==> old(gameLoaded) || outcome.Completed?
      ensures observerRegistered <==> old(observerRegistered) || (outcome.Completed? && lifecycle)
    {
      var load := LoadCall(data);
      if load.Some? {
        calls := calls + [load.value];
        if !loadOutcome.Completed? {
          return loadOutcome;
        }
      }
      calls := calls + [SurfaceCreatedCall];
      if !surfaceOutcome.Completed? {
        return surfaceOutcome;
      }
      observerRegistered := observerRegistered || lifecycle;
      gameLoaded := true;
      outcome := Completed;
    }

    /** initializeCore, inside its own catchExceptions: nothing runs when the
        guard has aborted or the game is already loaded; otherwise the load
        steps run and their failure is caught here. */
    method InitializeCore(data: GameData, loadOutcome: Outcome, surfaceOutcome: Outcome)
      modifies this`abort, this`errors, this`calls, this`observerRegistered, this`gameLoaded
      ensures old(abort) || old(gameLoaded) ==>
        abort == old(abort) && errors == old(errors) && calls == old(calls) &&
        gameLoaded == old(gameLoaded) && observerRegistered == old(observerRegistered)
      ensures !old(abort) && !old(gameLoaded) ==>
        var (steps, outcome) := LoadSteps(data, loadOutcome, surfaceOutcome);
        calls == old(calls) + steps &&
        (abort, errors) == AfterCatch(false, old(errors), outcome) &&
        (gameLoaded <==> outcome.Completed?) &&
        (observerRegistered <==> old(observerRegistered) || (outcome.Completed? && lifecycle))
    {
      if abort || gameLoaded {
        return;
      }
      var outcome := LoadBody(data, loadOutcome, surfaceOutcome);
      Catch(outcome);
    }

    /** Renderer.onSurfaceCreated: initializeCore, then SurfaceCreated is
        emitted and the aspect ratio is fetched from the native library, all
        inside the outer guard. A failed load is swallowed by the inner guard
        (which checks abort only on entry), so the event is still emitted;
        a failure of the aspect-ratio call is caught by the outer guard. */
    method OnSurfaceCreated(data: GameData, loadOutcome: Outcome, surfaceOutcome: Outcome, aspectOutcome: Outcome)
      modifies this`abort, this`errors, this`calls, this`observerRegistered, this`gameLoaded, this`events
      ensures old(abort) ==>
        abort && errors == old(errors) && calls == old(calls) && events == old(events) &&
        gameLoaded == old(gameLoaded) && observerRegistered == old(observerRegistered)
      ensures !old(abort) ==> events == old(events) + [SurfaceCreated]
      ensures !old(abort) && old(gameLoaded) ==>
        calls == old(calls) + [AspectRatioCall] &&
        (abort, errors) == AfterCatch(false, old(errors), aspectOutcome) &&
        gameLoaded && observerRegistered == old(observerRegistered)
      ensures !old(abort) && !old(gameLoaded) ==>
        var (steps, outcome) := LoadSteps(data, loadOutcome, surfaceOutcome);
        var (loadAbort, loadErrors) := AfterCatch(false, old(errors), outcome);
        calls == old(calls) + steps + [AspectRatioCall] &&
        (abort, errors) == AfterCatch(loadAbort, loadErrors, aspectOutcome) &&
        (gameLoaded <==> outcome.Completed?) &&
        (observerRegistered <==> old(observerRegistered) || (outcome.Completed? && lifecycle))
    {
      if abort {
        return;
      }
      InitializeCore(data, loadOutcome, surfaceOutcome);
      events := events + [SurfaceCreated];
      calls := calls + [AspectRatioCall];
      Catch(aspectOutcome);
    }
  }

  /** A key event as the view sees it: the event may be null, and so may
      its device; `controllerNumber` is None in both cases. */
  datatype KeyEvent = KeyEvent(controllerNumber: Option<int>)

  /** The port of an event's device: controllerNumber - 1, or -1 when there
      is no device. */
  function PortOf(controllerNumber: Option<int>): (port: int)
    ensures controllerNumber.None? ==> port == -1
    ensures controllerNumber.Some? ==> port + 1 == controllerNumber.value
  {
    (match controllerNumber case Some(n) => n case None => 0) - 1
  }

  /** What the view sends to the native input: a port, an action and a code. */
  datatype KeySend = KeySend(port: int, action: int, keyCode: int)

  /** The filter of onKeyDown and onKeyUp: a key is forwarded, remapped, only
      for a non-null event from a device with a controller number >= 1 and a
      gamepad key code; otherwise the platform handles it. */
  function ForwardKey(action: int, keyCode: int, event: Option<KeyEvent>): (r: Option<KeySend>)
    ensures r.Some? <==> event.Some? && PortOf(event.value.controllerNumber) >= 0 && keyCode in GamepadKeys.GAMEPAD_KEYS
    ensures r.Some? ==> (r.value.port >= 0 && r.value.action == action &&
      r.value.keyCode == GamepadKeys.GetGamepadKeyEvent(keyCode))
  {
    var port := PortOf(if event.Some? then event.value.controllerNumber else None);
    if event.Some? && port >= 0 && keyCode in GamepadKeys.GAMEPAD_KEYS then
      Some(KeySend(port, action, GamepadKeys.GetGamepadKeyEvent(keyCode)))
    else None
  }

  function OnKeyDown(keyCode: int, event: Option<KeyEvent>): Option<KeySend>
  {
    ForwardKey(ACTION_DOWN, keyCode, event)
  }

  function OnKeyUp(keyCode: int, event: Option<KeyEvent>): Option<KeySend>
  {
    ForwardKey(ACTION_UP, keyCode, event)
  }

  /** Counterexample: a fifth controller (controllerNumber 5) has its keys
      forwarded on port 4, past the four pads onKeyEvent indexes without a
      bounds check; the checked event leaves every pad as it was. */
  lemma {:induction false} FifthControllerPortOverruns(keyCode: int, pads: seq<Input.GamePadState>)
    requires keyCode in GamepadKeys.GAMEPAD_KEYS && |pads| == Input.PAD_COUNT
    ensures var sent := OnKeyDown(keyCode, Some(KeyEvent(Some(5))));
      sent.Some? && sent.value.port == 4 && sent.value.port >= Input.PAD_COUNT &&
      Input.PadsAfterKeyEvent(pads, sent.value.port, sent.value.action, sent.value.keyCode) == pads
  {
  }

  /** Every forwarded code is again a gamepad key, and a key that goes down
      on a port comes up on the same port with the same code. */
  lemma {:induction false} ForwardedKeysPair(keyCode: int, event: Option<KeyEvent>)
    ensures OnKeyDown(keyCode, event).Some? <==> OnKeyUp(keyCode, event).Some?
    ensures OnKeyDown(keyCode, event).Some? ==>
      OnKeyDown(keyCode, event).value.keyCode in GamepadKeys.GAMEPAD_KEYS &&
      OnKeyDown(keyCode, event).value.port == OnKeyUp(keyCode, event).value.port &&
      OnKeyDown(keyCode, event).value.keyCode == OnKeyUp(keyCode, event).value.keyCode &&
      OnKeyDown(keyCode, event).value.action == ACTION_DOWN &&
      OnKeyUp(keyCode, event).value.action == ACTION_UP
  {
    GamepadKeys.RemapPreservesGamepadKeys(keyCode);
  }

  /** A generic motion event: its source bits, its device's controller
      number, and the hat, left-stick and right-stick axis values. */
  datatype MotionEvent = MotionEvent(
    source: bv32, controllerNumber: Option<int>,
    hatX: real, hatY: real, x: real, y: real, z: real, rz: real)

  datatype MotionSend = MotionSend(port: int, source: int, xAxis: real, yAxis: real)

  /** onGenericMotionEvent: a joystick event from a device with a controller
      number >= 1 becomes three motion updates on its port, for the d-pad
      (hat axes), the left stick (X/Y) and the right stick (Z/RZ); any other
      event sends nothing. */
  function GenericMotionSends(event: Option<MotionEvent>): (r: seq<MotionSend>)
    ensures |r| == 0 || |r| == 3
    ensures |r| == 3 <==> event.Some? && PortOf(event.value.controllerNumber) >= 0 && event.value.source == SOURCE_JOYSTICK
    ensures |r| == 3 ==>
      var e := event.value;
      var port := PortOf(e.controllerNumber);
      r[0] == MotionSend(port, Input.MOTION_SOURCE_DPAD, e.hatX, e.hatY) &&
      r[1] == MotionSend(port, Input.MOTION_SOURCE_ANALOG_LEFT, e.x, e.y) &&
      r[2] == MotionSend(port, Input.MOTION_SOURCE_ANALOG_RIGHT, e.z, e.rz)
  {
    match event
    case None => []
    case Some(e) =>
      var port := PortOf(e.controllerNumber);
      if port >= 0 && e.source == SOURCE_JOYSTICK then
        [MotionSend(port, Input.MOTION_SOURCE_DPAD, e.hatX, e.hatY),
         MotionSend(port, Input.MOTION_SOURCE_ANALOG_LEFT, e.x, e.y),
         MotionSend(port, Input.MOTION_SOURCE_ANALOG_RIGHT, e.z, e.rz)]
      else []
  }
}
