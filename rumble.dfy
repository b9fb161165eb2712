/** The rumble change detector (rumble.cpp): a new motor strength is passed
    on to the view only while rumble is enabled and only when it differs
    from the last strength passed on. */
module Rumble {
  import opened Wrappers

  /** A uint16_t motor strength. */
  type Strength = s: nat | s < 0x1_0000

  const MAX_STRENGTH: Strength := 0xFFFF

  /** The value handed to the view for a strength: strength / 0xFFFF. */
  function Vibration(strength: Strength): (v: real)
    ensures 0.0 <= v <= 1.0
    ensures v == 0.0 <==> strength == 0
    ensures v == 1.0 <==> strength == MAX_STRENGTH
  {
    strength as real / 0xFFFF as real
  }

  /** Distinct strengths give distinct vibrations, so the view sees a change
      exactly when the strength changed. */
  lemma VibrationInjective(a: Strength, b: Strength)
    requires a != b
    ensures Vibration(a) != Vibration(b)
  {
  }

  /** One updateAndDispatch step on (enabled, last strength): the new last
      strength and the vibration dispatched, if any. */
  function Dispatch(enabled: bool, last: Strength, strength: Strength): (r: (Strength, Option<real>))
    ensures r.1.Some? <==> enabled && strength != last
    ensures r.0 == (if r.1.Some? then strength else last)
    ensures r.1.Some? ==> r.1.value == Vibration(strength)
  {
    if !enabled || strength == last then (last, None)
    else (strength, Some(Vibration(strength)))
  }

  /** The detector is idempotent: repeating a strength right after it was
      dispatched dispatches nothing. */
  lemma {:induction false} RepeatDispatchesNothing(enabled: bool, last: Strength, strength: Strength)
    ensures Dispatch(enabled, Dispatch(enabled, last, strength).0, strength).1 == None
    ensures Dispatch(enabled, Dispatch(enabled, last, strength).0, strength).0 == Dispatch(enabled, last, strength).0
  {
  }

  /** The vibrations dispatched for a run of strengths. */
  function DispatchAll(enabled: bool, last: Strength, strengths: seq<Strength>): (events: seq<real>)
    ensures |events| <= |strengths|
    decreases |strengths|
  {
    if strengths == [] then []
    else
      var (next, event) := Dispatch(enabled, last, strengths[0]);
      (if event.Some? then [event.value] else []) + DispatchAll(enabled, next, strengths[1..])
  }

  /** Over any run of strengths, no two consecutive dispatched vibrations are
      equal, and the first differs from the strength held before the run. */
  lemma {:induction false} DispatchedEventsChange(enabled: bool, last: Strength, strengths: seq<Strength>)
    ensures var events := DispatchAll(enabled, last, strengths);
      (forall k :: 0 < k < |events| ==> events[k - 1] != events[k]) &&
      (|events| > 0 ==> events[0] != Vibration(last))
    decreases |strengths|
  {
    if strengths != [] {
      var (next, event) := Dispatch(enabled, last, strengths[0]);
      DispatchedEventsChange(enabled, next, strengths[1..]);
      var rest := DispatchAll(enabled, next, strengths[1..]);
      if event.Some? {
        VibrationInjective(strengths[0], last);
      }
      if |rest| > 0 {
        assert rest[0] != Vibration(next);
      }
    }
  }

  class Rumble {
    var enabled: bool
    var currentRumbleStrength: Strength

    /** Rumble starts disabled with a recorded strength of 0. */
    constructor ()
      ensures !enabled && currentRumbleStrength == 0
    {
      enabled := false;
      currentRumbleStrength := 0;
    }

    /** updateAndDispatch: returns the vibration sent to the view, if one was. */
    method UpdateAndDispatch(currentStrength: Strength) returns (dispatched: Option<real>)
      modifies this`currentRumbleStrength
      ensures (currentRumbleStrength, dispatched) == Dispatch(enabled, old(currentRumbleStrength), currentStrength)
    {
      if !enabled || currentStrength == currentRumbleStrength {
        return None;
      }
      currentRumbleStrength := currentStrength;
      dispatched := Some(currentRumbleStrength as real / 0xFFFF as real);
    }

    method SetEnabled(enabled: bool)
      modifies this`enabled
      ensures this.enabled == enabled
    {
      this.enabled := enabled;
    }
  }
}
