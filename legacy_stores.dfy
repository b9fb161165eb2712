/** The option list and hardware-render flags shared by the two older
    frontends (libretrodroid/src/main/cpp/libretrodroid.cpp and
    app/src/main/cpp/libretrodroid.cpp, whose code for both is the same).
    Unlike the current environment store, SET_VARIABLES there discards every
    earlier option and keeps just the parsed default of each new one, in a
    list searched front to back. */
module LegacyStores {
  import opened Wrappers
  import opened Libretro
  import opened VariableParsing

  /** One stored option: its key and its current value. */
  datatype Entry = Entry(key: string, value: string)

  /** The list set_variables leaves behind for `declarations`: one entry per
      declaration in order, holding the parsed default, up to the first
      declaration that makes `substr` throw; and that error, if any. */
  function Parsed(declarations: seq<(string, string)>): (r: (seq<Entry>, Option<ParseError>))
    ensures |r.0| <= |declarations|
    ensures r.1.None? ==> |r.0| == |declarations|
    ensures r.1.Some? ==> |r.0| < |declarations| && FirstOption(declarations[|r.0|].1) == Err(r.1.value)
    ensures forall i :: 0 <= i < |r.0| ==>
      FirstOption(declarations[i].1).Ok? && r.0[i] == Entry(declarations[i].0, FirstOption(declarations[i].1).value)
    decreases |declarations|
  {
    if declarations == [] then ([], None)
    else
      var before := Parsed(declarations[..|declarations| - 1]);
      var last := declarations[|declarations| - 1];
      if before.1.Some? then before
      else match FirstOption(last.1)
        case Err(e) => (before.0, Some(e))
        case Ok(value) => (before.0 + [Entry(last.0, value)], None)
  }

  /** Once a declaration has failed, later ones are never looked at. */
  lemma {:induction false} ParsedStops(declarations: seq<(string, string)>, n: nat)
    requires n <= |declarations|
    requires Parsed(declarations[..n]).1.Some?
    ensures Parsed(declarations) == Parsed(declarations[..n])
    decreases |declarations|
  {
    if n < |declarations| {
      var init := declarations[..|declarations| - 1];
      assert init[..n] == declarations[..n];
      ParsedStops(init, n);
    } else {
      assert declarations[..n] == declarations;
    }
  }

  /** get_variable's search: the value of the first entry with the key. */
  function FirstMatch(entries: seq<Entry>, key: string): (r: Option<string>)
    ensures r.None? <==> forall i :: 0 <= i < |entries| ==> entries[i].key != key
    ensures r.Some? ==> exists i :: (0 <= i < |entries| && entries[i] == Entry(key, r.value) &&
      forall j :: 0 <= j < i ==> entries[j].key != key)
    decreases |entries|
  {
    if entries == [] then None
    else if entries[0].key == key then Some(entries[0].value)
    else
      var r := FirstMatch(entries[1..], key);
      assert forall i :: 1 <= i < |entries| ==> entries[i] == entries[1..][i - 1];
      if r.Some? then
        ghost var i :| 0 <= i < |entries[1..]| && entries[1..][i] == Entry(key, r.value) &&
          forall j :: 0 <= j < i ==> entries[1..][j].key != key;
        assert entries[i + 1] == Entry(key, r.value);
        r
      else r
  }

  /** One step of the first-match walk from position i. */
  lemma FirstMatchStep(entries: seq<Entry>, i: nat, key: string)
    requires i < |entries|
    ensures FirstMatch(entries[i..], key) ==
      if entries[i].key == key then Some(entries[i].value) else FirstMatch(entries[i + 1..], key)
  {
    assert entries[i..][1..] == entries[i + 1..];
  }

  /** The first match among entries that mirror the declarations one for
      one is the parsed default of the first declaration with the key. */
  lemma {:induction false} FirstMatchMirrors(entries: seq<Entry>, declarations: seq<(string, string)>, key: string)
    requires |entries| == |declarations|
    requires forall i :: 0 <= i < |entries| ==>
      FirstOption(declarations[i].1).Ok? && entries[i] == Entry(declarations[i].0, FirstOption(declarations[i].1).value)
    ensures var r := FirstMatch(entries, key);
      (r.None? <==> forall i :: 0 <= i < |declarations| ==> declarations[i].0 != key) &&
      (r.Some? ==> exists i :: (0 <= i < |declarations| && declarations[i].0 == key &&
        (forall j :: 0 <= j < i ==> declarations[j].0 != key) &&
        r == Some(FirstOption(declarations[i].1).value)))
  {
    var r := FirstMatch(entries, key);
    if r.Some? {
      var i :| 0 <= i < |entries| && entries[i] == Entry(key, r.value) &&
        forall j :: 0 <= j < i ==> entries[j].key != key;
      assert declarations[i].0 == key && r == Some(FirstOption(declarations[i].1).value);
      forall j | 0 <= j < i
        ensures declarations[j].0 != key
      {
        assert entries[j].key == declarations[j].0;
      }
    } else {
      forall i | 0 <= i < |declarations|
        ensures declarations[i].0 != key
      {
        assert entries[i].key == declarations[i].0;
      }
    }
  }

  /** Declare, then ask: when every declaration parses, a key answers with
      the default of the first declaration that names it, and a key no
      declaration names is not found. */
  lemma {:induction false} DeclareThenGet(declarations: seq<(string, string)>, key: string)
    requires Parsed(declarations).1.None?
    ensures var r := FirstMatch(Parsed(declarations).0, key);
      (r.None? <==> forall i :: 0 <= i < |declarations| ==> declarations[i].0 != key) &&
      (r.Some? ==> exists i :: (0 <= i < |declarations| && declarations[i].0 == key &&
        (forall j :: 0 <= j < i ==> declarations[j].0 != key) &&
        r == Some(FirstOption(declarations[i].1).value)))
  {
    FirstMatchMirrors(Parsed(declarations).0, declarations, key);
  }

  /** The hardware-render flags set_hw_render records. */
  datatype HwFlags = HwFlags(
    useHWAcceleration: bool, useDepth: bool, useStencil: bool, bottomLeftOrigin: bool,
    hasContextReset: bool, hasContextDestroy: bool)

  const NO_HW_RENDER: HwFlags := HwFlags(false, false, false, false, false, false)

  /** set_hw_render: acceleration on, and everything else copied from the
      core's request. */
  function HwFlagsFor(request: HwRenderRequest): (flags: HwFlags)
    ensures flags.useHWAcceleration
    ensures flags.useDepth == request.depth && flags.useStencil == request.stencil
    ensures flags.bottomLeftOrigin == request.bottomLeftOrigin
    ensures flags.hasContextReset == request.hasContextReset && flags.hasContextDestroy == request.hasContextDestroy
  {
    HwFlags(true, request.depth, request.stencil, request.bottomLeftOrigin,
      request.hasContextReset, request.hasContextDestroy)
  }

  /** The global `variables` vector. */
  class VariableList {
    var entries: seq<Entry>

    constructor ()
      ensures entries == []
    {
      entries := [];
    }

    /** environment_handle_set_variables: the list is cleared, then one
        entry is pushed per declaration until the null key. A declaration
        that makes `substr` throw ends the call with the exception, after the
        entries before it were pushed. The result does not depend on the
        list's previous contents. */
    method SetVariables(received: seq<RetroVariable>) returns (r: Result<bool, ParseError>)
      requires Terminated(received)
      modifies this
      ensures var p := Parsed(Declarations(received));
        entries == p.0 && r == (if p.1.Some? then Err(p.1.value) else Ok(true))
    {
      entries := [];
      ghost var declarations := Declarations(received);
      ghost var n := TerminatorIndex(received);
      var count := 0;
      while received[count].key.Some?
        invariant count <= n
        invariant Parsed(declarations[..count]) == (entries, None)
        decreases n - count
      {
        assert declarations[..count + 1][..count] == declarations[..count];
        var currentKey := received[count].key.value;
        var currentValue := FirstOption(received[count].value);
        if currentValue.Err? {
          ParsedStops(declarations, count + 1);
          return Err(currentValue.error);
        }
        entries := entries + [Entry(currentKey, currentValue.value)];
        count := count + 1;
      }
      assert declarations[..count] == declarations;
      return Ok(true);
    }

    /** environment_handle_get_variable: the first entry with the key. */
    method GetVariable(key: string) returns (r: Option<string>)
      ensures r == FirstMatch(entries, key)
    {
      var i := 0;
      while i < |entries|
        invariant i <= |entries|
        invariant FirstMatch(entries, key) == FirstMatch(entries[i..], key)
      {
        FirstMatchStep(entries, i, key);
        if entries[i].key == key {
          return Some(entries[i].value);
        }
        i := i + 1;
      }
      return None;
    }
  }
}
