/** The frontend side of the libretro environment (environment.cpp): the
    core-option store with its user overrides and dirty flag, the sorted
    listing of options, the controller table, per-port rumble, the language
    table and the dispatch of RETRO_ENVIRONMENT_* commands. */
module Environment {
  import opened Wrappers
  import opened Libretro
  import opened VariableParsing

  /** A core option: its key, its current value and the raw declaration. */
  datatype Variable = Variable(key: string, value: string, description: string)

  /** What `std::unordered_map::operator[]` inserts for a missing key. */
  const EMPTY_VARIABLE: Variable := Variable("", "", "")

  datatype Controller = Controller(id: nat, description: string)

  /** Last strengths the core asked for, per motor (uint16 values). */
  datatype RumbleState = RumbleState(strengthWeak: nat, strengthStrong: nat)

  const IDLE_RUMBLE: RumbleState := RumbleState(0, 0)

  type VariableStore = map<string, Variable>

  /** The variable `operator[]` yields for `key`, before any assignment. */
  function Current(variables: VariableStore, key: string): Variable
  {
    if key in variables then variables[key] else EMPTY_VARIABLE
  }

  // ---------------------------------------------------------------------
  // User overrides (updateVariable) and lookup (GET_VARIABLE)

  /** environment_handle_get_variable: the stored value, or `None` when the key is unknown. */
  function Lookup(variables: VariableStore, key: string): (r: Option<string>)
    ensures r.None? <==> key !in variables
  {
    if key in variables then Some(variables[key].value) else None
  }

  /** updateVariable: the new store and whether the dirty flag is raised.
      The key is always present afterwards: `operator[]` inserts an empty
      variable even when the value turns out to be unchanged. */
  function WithOverride(variables: VariableStore, key: string, value: string): (r: (VariableStore, bool))
    ensures r.1 <==> value != Current(variables, key).value
    ensures r.0.Keys == variables.Keys + {key}
    ensures forall k :: k in variables && k != key ==> r.0[k] == variables[k]
    ensures r.1 ==> r.0[key] == Variable(key, value, Current(variables, key).description)
    ensures !r.1 ==> r.0[key] == Current(variables, key)
  {
    var current := Current(variables, key).(key := key);
    if value != current.value then
      (variables[key := current.(value := value)], true)
    else
      (variables[key := Current(variables, key)], false)
  }

  /** An override is what GET_VARIABLE reads back afterwards. */
  lemma UpdateThenLookup(variables: VariableStore, key: string, value: string)
    ensures Lookup(WithOverride(variables, key, value).0, key) == Some(value)
  {
  }

  /** Repeating an override changes nothing and does not raise the flag again. */
  lemma {:induction false} UpdateIsIdempotent(variables: VariableStore, key: string, value: string)
    ensures var once := WithOverride(variables, key, value).0;
      WithOverride(once, key, value) == (once, false)
  {
    var once := WithOverride(variables, key, value).0;
    assert Current(once, key).value == value;
    assert once[key := Current(once, key)] == once;
  }

  // ---------------------------------------------------------------------
  // Declarations (SET_VARIABLES)

  /** One declaration: the description becomes the raw string, and the parsed
      default is taken only when the variable has no value yet. A declaration
      that makes `substr` throw leaves the store untouched. */
  function Declare(variables: VariableStore, key: string, declaration: string): (r: Result<VariableStore, ParseError>)
    ensures r.Err? <==> FirstOption(declaration).Err?
    ensures r.Ok? ==> r.value.Keys == variables.Keys + {key}
    ensures r.Ok? ==> forall k :: k in variables && k != key ==> r.value[k] == variables[k]
    ensures r.Ok? ==> r.value[key].key == key && r.value[key].description == declaration
    ensures r.Ok? ==>
      r.value[key].value == (if Current(variables, key).value == "" then FirstOption(declaration).value
        else Current(variables, key).value)
  {
    match FirstOption(declaration)
    case Err(e) => Err(e)
    case Ok(initial) =>
      var current := Current(variables, key).(key := key, description := declaration);
      var stored := (if current.value == "" then current.(value := initial) else current);
      Ok(variables[key := stored])
  }

  /** The store after processing `declarations` in order, together with the
      error that stopped the loop, if any. Entries before a failing one stay
      applied, as the loop has already stored them. */
  function DeclareAll(variables: VariableStore, declarations: seq<(string, string)>): (r: (VariableStore, Option<ParseError>))
  {
    if |declarations| == 0 then (variables, None)
    else
      var before := DeclareAll(variables, declarations[..|declarations| - 1]);
      var last := declarations[|declarations| - 1];
      if before.1.Some? then before
      else match Declare(before.0, last.0, last.1)
        case Ok(after) => (after, None)
        case Err(e) => (before.0, Some(e))
  }

  /** Once an entry has failed, later entries are never looked at. */
  lemma {:induction false} DeclareAllStops(variables: VariableStore, declarations: seq<(string, string)>, n: nat)
    requires n <= |declarations|
    requires DeclareAll(variables, declarations[..n]).1.Some?
    ensures DeclareAll(variables, declarations) == DeclareAll(variables, declarations[..n])
    decreases |declarations|
  {
    if n < |declarations| {
      var init := declarations[..|declarations| - 1];
      assert init[..n] == declarations[..n];
      DeclareAllStops(variables, init, n);
    } else {
      assert declarations[..n] == declarations;
    }
  }

  /** A value already set, by an earlier declaration or a user override,
      survives any later sequence of declarations. */
  lemma {:induction false} DeclareKeepsValues(variables: VariableStore, declarations: seq<(string, string)>, key: string)
    requires key in variables && variables[key].value != ""
    ensures var r := DeclareAll(variables, declarations).0;
      key in r && r[key].value == variables[key].value
    decreases |declarations|
  {
    if |declarations| > 0 {
      DeclareKeepsValues(variables, declarations[..|declarations| - 1], key);
    }
  }

  /** Declaring a new option `"description; first|..."` makes GET_VARIABLE
      answer `first`. */
  lemma {:induction false} DeclareThenLookup(variables: VariableStore, key: string, description: string, first: string, rest: string)
    requires key !in variables
    requires ';' !in description && '|' !in first && (rest == [] || rest[0] == '|')
    ensures var r := Declare(variables, key, description + "; " + first + rest);
      r.Ok? && Lookup(r.value, key) == Some(first)
  {
    FirstOptionOfDeclaration(description, first, rest);
  }

  // ---------------------------------------------------------------------
  // Listing (getVariables)

  /** std::string's `<`: lexicographic order on characters. */
  predicate KeyLess(a: string, b: string)
    decreases |a|
  {
    if |a| == 0 then |b| > 0
    else if |b| == 0 then false
    else a[0] < b[0] || (a[0] == b[0] && KeyLess(a[1..], b[1..]))
  }

  lemma {:induction false} KeyLessIrreflexive(a: string)
    ensures !KeyLess(a, a)
    decreases |a|
  {
    if |a| > 0 {
      KeyLessIrreflexive(a[1..]);
    }
  }

  lemma {:induction false} KeyLessTransitive(a: string, b: string, c: string)
    requires KeyLess(a, b) && KeyLess(b, c)
    ensures KeyLess(a, c)
    decreases |a|
  {
    if |a| > 0 && a[0] == b[0] && b[0] == c[0] {
      KeyLessTransitive(a[1..], b[1..], c[1..]);
    }
  }

  lemma {:induction false} KeyLessTotal(a: string, b: string)
    ensures a == b || KeyLess(a, b) || KeyLess(b, a)
    decreases |a|
  {
    if |a| > 0 && |b| > 0 && a[0] == b[0] {
      KeyLessTotal(a[1..], b[1..]);
      if a[1..] == b[1..] {
        assert a == [a[0]] + a[1..] && b == [b[0]] + b[1..];
      }
    }
  }

  /** "Not after" is transitive, which is what sorting needs. */
  lemma NotAfterTransitive(a: string, b: string, c: string)
    requires !KeyLess(b, a) && !KeyLess(c, b)
    ensures !KeyLess(c, a)
  {
    KeyLessTotal(a, b);
    if KeyLess(c, a) && KeyLess(a, b) {
      KeyLessTransitive(c, a, b);
    }
  }

  /** Ascending by key; equal keys may come in any order. */
  predicate SortedByKey(s: seq<Variable>)
  {
    forall i, j :: 0 <= i < j < |s| ==> !KeyLess(s[j].key, s[i].key)
  }

  /** One step of an insertion sort: `x` placed before the first element
      that does not come before it. */
  function InsertByKey(x: Variable, s: seq<Variable>): (r: seq<Variable>)
    ensures multiset(r) == multiset(s) + multiset{x}
  {
    if |s| == 0 then [x]
    else if !KeyLess(s[0].key, x.key) then [x] + s
    else
      assert s == [s[0]] + s[1..];
      [s[0]] + InsertByKey(x, s[1..])
  }

  lemma {:induction false} InsertByKeySorted(x: Variable, s: seq<Variable>)
    requires SortedByKey(s)
    ensures SortedByKey(InsertByKey(x, s))
    decreases |s|
  {
    if |s| == 0 {
    } else if !KeyLess(s[0].key, x.key) {
      forall j | 0 <= j < |s|
        ensures !KeyLess(s[j].key, x.key)
      {
        if j > 0 {
          NotAfterTransitive(x.key, s[0].key, s[j].key);
        }
      }
    } else {
      var rest := InsertByKey(x, s[1..]);
      InsertByKeySorted(x, s[1..]);
      forall j | 0 <= j < |rest|
        ensures !KeyLess(rest[j].key, s[0].key)
      {
        assert rest[j] in multiset(rest);
        if rest[j] == x {
          KeyLessIrreflexive(x.key);
          if KeyLess(x.key, s[0].key) {
            KeyLessTransitive(x.key, s[0].key, x.key);
          }
        } else {
          assert rest[j] in multiset(s[1..]);
          var k :| 0 <= k < |s| - 1 && s[1..][k] == rest[j];
          assert s[k + 1] == rest[j];
        }
      }
    }
  }

  /** What std::sort with a key comparison produces: sorted, and a permutation. */
  function SortByKey(s: seq<Variable>): (r: seq<Variable>)
    ensures SortedByKey(r)
    ensures multiset(r) == multiset(s)
  {
    if |s| == 0 then []
    else
      assert s == [s[0]] + s[1..];
      InsertByKeySorted(s[0], SortByKey(s[1..]));
      InsertByKey(s[0], SortByKey(s[1..]))
  }

  /** The stored variables listed along `order`. */
  function ListAlong(variables: VariableStore, order: seq<string>): (r: seq<Variable>)
    requires forall i :: 0 <= i < |order| ==> order[i] in variables
    ensures |r| == |order|
    ensures forall i :: 0 <= i < |order| ==> r[i] == variables[order[i]]
  {
    seq(|order|, i requires 0 <= i < |order| => variables[order[i]])
  }

  /** Each stored key exactly once. */
  ghost predicate Enumerates(variables: VariableStore, order: seq<string>)
  {
    (forall i, j :: 0 <= i < j < |order| ==> order[i] != order[j]) &&
    (forall k :: k in variables <==> k in order)
  }

  // ---------------------------------------------------------------------
  // Controllers (SET_CONTROLLER_INFO)

  /** How many types the inner loop copies: it stops at `num_types` or at
      the first null description. */
  function TypesCopied(types: seq<ControllerDescription>, numTypes: nat, from: nat): (n: nat)
    requires from <= numTypes
    requires numTypes <= |types| || exists i :: from <= i < numTypes && i < |types| && types[i].desc.None?
    ensures from <= n <= numTypes && n <= |types|
    ensures forall i :: from <= i < n ==> types[i].desc.Some?
    ensures n < numTypes ==> types[n].desc.None?
    decreases numTypes - from
  {
    if from == numTypes || types[from].desc.None? then from
    else TypesCopied(types, numTypes, from + 1)
  }

  /** A player's array must be readable up to where the inner loop stops. */
  predicate ReadablePlayer(p: ControllerInfo)
  {
    p.types.Some? ==>
      p.numTypes <= |p.types.value| ||
      exists i :: 0 <= i < p.numTypes && i < |p.types.value| && p.types.value[i].desc.None?
  }

  /** The entries before the terminator (a null `types`), which must exist. */
  predicate WellFormedPlayers(players: seq<ControllerInfo>)
  {
    (exists i :: 0 <= i < |players| && players[i].types.None?) &&
    (forall i :: 0 <= i < |players| ==> ReadablePlayer(players[i]))
  }

  function PlayerCount(players: seq<ControllerInfo>): (n: nat)
    requires WellFormedPlayers(players)
    ensures n < |players| && players[n].types.None?
    ensures forall i :: 0 <= i < n ==> players[i].types.Some?
  {
    if players[0].types.None? then 0
    else
      assert WellFormedPlayers(players[1..]) by {
        var i :| 0 <= i < |players| && players[i].types.None?;
        assert players[1..][i - 1] == players[i];
      }
      1 + PlayerCount(players[1..])
  }

  /** One player's controller list. */
  function PlayerControllers(p: ControllerInfo): (r: seq<Controller>)
    requires p.types.Some? && ReadablePlayer(p)
    ensures |r| <= p.numTypes && |r| <= |p.types.value|
    ensures forall k :: 0 <= k < |r| ==>
      p.types.value[k].desc.Some? &&
      r[k] == Controller(p.types.value[k].id, p.types.value[k].desc.value)
    ensures |r| < p.numTypes ==> p.types.value[|r|].desc.None?
  {
    var n := TypesCopied(p.types.value, p.numTypes, 0);
    seq(n, k requires 0 <= k < n => Controller(p.types.value[k].id, p.types.value[k].desc.value))
  }

  // ---------------------------------------------------------------------
  // Rumble

  /** handle_callback_set_rumble_state on the four states: ports above 3 are
      refused; an unknown effect is accepted without a change. */
  function SetRumbleState(states: seq<RumbleState>, port: nat, effect: nat, strength: nat): (r: (bool, seq<RumbleState>))
    requires |states| == 4
    ensures r.0 <==> port <= 3
    ensures |r.1| == 4
    ensures forall q :: 0 <= q < 4 && q != port ==> r.1[q] == states[q]
    ensures port <= 3 && effect == RUMBLE_STRONG ==> r.1[port] == states[port].(strengthStrong := strength)
    ensures port <= 3 && effect == RUMBLE_WEAK ==> r.1[port] == states[port].(strengthWeak := strength)
    ensures effect != RUMBLE_STRONG && effect != RUMBLE_WEAK ==> r.1 == states
  {
    if port > 3 then (false, states)
    else if effect == RUMBLE_STRONG then (true, states[port := states[port].(strengthStrong := strength)])
    else if effect == RUMBLE_WEAK then (true, states[port := states[port].(strengthWeak := strength)])
    else (true, states)
  }

  // ---------------------------------------------------------------------
  // Languages

  /** The two-letter codes the table knows. */
  const LANGUAGE_CODES: set<string> := {
    "en", "jp", "fr", "es", "de", "it", "nl", "pt", "ru",
    "ko", "zh", "eo", "pl", "vi", "ar", "el", "tr" }

  /** setLanguage's table. */
  function LanguageFor(code: string): (r: Option<nat>)
    ensures r.Some? <==> code in LANGUAGE_CODES
  {
    if code == "en" then Some(LANGUAGE_ENGLISH)
    else if code == "jp" then Some(LANGUAGE_JAPANESE)
    else if code == "fr" then Some(LANGUAGE_FRENCH)
    else if code == "es" then Some(LANGUAGE_SPANISH)
    else if code == "de" then Some(LANGUAGE_GERMAN)
    else if code == "it" then Some(LANGUAGE_ITALIAN)
    else if code == "nl" then Some(LANGUAGE_DUTCH)
    else if code == "pt" then Some(LANGUAGE_PORTUGUESE_PORTUGAL)
    else if code == "ru" then Some(LANGUAGE_RUSSIAN)
    else if code == "ko" then Some(LANGUAGE_KOREAN)
    else if code == "zh" then Some(LANGUAGE_CHINESE_TRADITIONAL)
    else if code == "eo" then Some(LANGUAGE_ESPERANTO)
    else if code == "pl" then Some(LANGUAGE_POLISH)
    else if code == "vi" then Some(LANGUAGE_VIETNAMESE)
    else if code == "ar" then Some(LANGUAGE_ARABIC)
    else if code == "el" then Some(LANGUAGE_GREEK)
    else if code == "tr" then Some(LANGUAGE_TURKISH)
    else None
  }

  /** The code setLanguage maps to each language, read backwards. */
  function CodeOfLanguage(language: nat): (r: Option<string>)
    ensures r.Some? ==> r.value in LANGUAGE_CODES
  {
    if language == LANGUAGE_ENGLISH then Some("en")
    else if language == LANGUAGE_JAPANESE then Some("jp")
    else if language == LANGUAGE_FRENCH then Some("fr")
    else if language == LANGUAGE_SPANISH then Some("es")
    else if language == LANGUAGE_GERMAN then Some("de")
    else if language == LANGUAGE_ITALIAN then Some("it")
    else if language == LANGUAGE_DUTCH then Some("nl")
    else if language == LANGUAGE_PORTUGUESE_PORTUGAL then Some("pt")
    else if language == LANGUAGE_RUSSIAN then Some("ru")
    else if language == LANGUAGE_KOREAN then Some("ko")
    else if language == LANGUAGE_CHINESE_TRADITIONAL then Some("zh")
    else if language == LANGUAGE_ESPERANTO then Some("eo")
    else if language == LANGUAGE_POLISH then Some("pl")
    else if language == LANGUAGE_VIETNAMESE then Some("vi")
    else if language == LANGUAGE_ARABIC then Some("ar")
    else if language == LANGUAGE_GREEK then Some("el")
    else if language == LANGUAGE_TURKISH then Some("tr")
    else None
  }

  /** Every code of the table selects a language that maps back to that code,
      so no two codes select the same language. */
  lemma {:induction false} LanguageTableInjective(a: string, b: string)
    requires a in LANGUAGE_CODES && b in LANGUAGE_CODES && a != b
    ensures CodeOfLanguage(LanguageFor(a).value) == Some(a)
    ensures LanguageFor(a) != LanguageFor(b)
  {
    LanguageRoundTrip(a);
    LanguageRoundTrip(b);
  }

  lemma LanguageRoundTrip(code: string)
    requires code in LANGUAGE_CODES
    ensures CodeOfLanguage(LanguageFor(code).value) == Some(code)
  {
  }

  // ---------------------------------------------------------------------
  // The environment object

  /** The Environment singleton. Callback pointers are modelled by whether
      they are non-null; the screen rotation by its quarter-turn index. */
  class EnvironmentState {
    var variables: VariableStore
    var dirtyVariables: bool
    var controllers: seq<seq<Controller>>
    const rumbleStates: array<RumbleState>
    var language: nat
    var pixelFormat: int
    var useHWAcceleration: bool
    var useDepth: bool
    var useStencil: bool
    var bottomLeftOrigin: bool
    var hasFramebufferCallback: bool
    var hasContextReset: bool
    var hasContextDestroy: bool
    var hasDiskControl: bool
    var savesDirectory: string
    var systemDirectory: string
    /** The screen rotation is -screenRotationIndex * pi / 2 radians. */
    var screenRotationIndex: nat
    var screenRotationUpdated: bool
    var gameGeometryUpdated: bool
    var gameGeometryWidth: nat
    var gameGeometryHeight: nat
    var gameGeometryAspectRatio: real
    var useVirtualFileSystem: bool
    var enableMicrophone: bool

    ghost predicate Valid()
      reads this
    {
      rumbleStates.Length == 4
    }

    /** The singleton as first constructed: the field initialisers. */
    constructor ()
      ensures Valid() && fresh(rumbleStates)
      ensures rumbleStates[..] == [IDLE_RUMBLE, IDLE_RUMBLE, IDLE_RUMBLE, IDLE_RUMBLE]
      ensures variables == map[] && !dirtyVariables && controllers == []
      ensures language == LANGUAGE_ENGLISH && pixelFormat == PIXEL_FORMAT_RGB565
      ensures !useHWAcceleration && !useDepth && !useStencil && !bottomLeftOrigin
      ensures !hasFramebufferCallback && !hasContextReset && !hasContextDestroy && !hasDiskControl
      ensures savesDirectory == "" && systemDirectory == ""
      ensures screenRotationIndex == 0 && !screenRotationUpdated
      ensures !gameGeometryUpdated && gameGeometryWidth == 0 && gameGeometryHeight == 0
      ensures gameGeometryAspectRatio == -1.0
      ensures !useVirtualFileSystem && !enableMicrophone
    {
      variables := map[];
      dirtyVariables := false;
      controllers := [];
      rumbleStates := new RumbleState[4](_ => IDLE_RUMBLE);
      language := LANGUAGE_ENGLISH;
      pixelFormat := PIXEL_FORMAT_RGB565;
      useHWAcceleration, useDepth, useStencil, bottomLeftOrigin := false, false, false, false;
      hasFramebufferCallback, hasContextReset, hasContextDestroy, hasDiskControl := false, false, false, false;
      savesDirectory, systemDirectory := "", "";
      screenRotationIndex, screenRotationUpdated := 0, false;
      gameGeometryUpdated, gameGeometryWidth, gameGeometryHeight := false, 0, 0;
      gameGeometryAspectRatio := -1.0;
      useVirtualFileSystem, enableMicrophone := false, false;
    }

    method Initialize(requiredSystemDirectory: string, requiredSavesDirectory: string, framebufferCallback: bool)
      modifies this`systemDirectory, this`savesDirectory, this`hasFramebufferCallback
      ensures systemDirectory == requiredSystemDirectory && savesDirectory == requiredSavesDirectory
      ensures hasFramebufferCallback == framebufferCallback
    {
      hasFramebufferCallback := framebufferCallback;
      systemDirectory := requiredSystemDirectory;
      savesDirectory := requiredSavesDirectory;
    }

    /** Resets everything a game set up. The options, the dirty flag, the
        controllers, the rotation flag and the two feature switches are not
        in the modifies clause and therefore survive. */
    method Deinitialize()
      requires Valid()
      modifies rumbleStates, this`hasFramebufferCallback, this`hasContextReset, this`hasContextDestroy,
        this`hasDiskControl, this`savesDirectory, this`systemDirectory, this`language,
        this`pixelFormat, this`useHWAcceleration, this`useDepth, this`useStencil,
        this`bottomLeftOrigin, this`screenRotationIndex, this`gameGeometryUpdated,
        this`gameGeometryWidth, this`gameGeometryHeight, this`gameGeometryAspectRatio
      ensures rumbleStates[..] == [IDLE_RUMBLE, IDLE_RUMBLE, IDLE_RUMBLE, IDLE_RUMBLE]
      ensures !hasFramebufferCallback && !hasContextReset && !hasContextDestroy && !hasDiskControl
      ensures savesDirectory == "" && systemDirectory == ""
      ensures language == LANGUAGE_ENGLISH && pixelFormat == PIXEL_FORMAT_RGB565
      ensures !useHWAcceleration && !useDepth && !useStencil && !bottomLeftOrigin
      ensures screenRotationIndex == 0
      ensures !gameGeometryUpdated && gameGeometryWidth == 0 && gameGeometryHeight == 0
      ensures gameGeometryAspectRatio == -1.0
    {
      ResetCallbacks();
      ResetDirectoriesAndFormats();
      ResetHwFlags();
      ResetGeometry();
      forall q | 0 <= q < 4 {
        rumbleStates[q] := IDLE_RUMBLE;
      }
    }

    /** The callback-pointer part of deinitialize. */
    method ResetCallbacks()
      modifies this`hasFramebufferCallback, this`hasContextReset, this`hasContextDestroy, this`hasDiskControl
      ensures !hasFramebufferCallback && !hasContextReset && !hasContextDestroy && !hasDiskControl
    {
      hasFramebufferCallback, hasContextReset, hasContextDestroy := false, false, false;
      hasDiskControl := false;
    }

    /** The directory, language and pixel-format part of deinitialize. */
    method ResetDirectoriesAndFormats()
      modifies this`savesDirectory, this`systemDirectory, this`language, this`pixelFormat
      ensures savesDirectory == "" && systemDirectory == ""
      ensures language == LANGUAGE_ENGLISH && pixelFormat == PIXEL_FORMAT_RGB565
    {
      savesDirectory, systemDirectory := "", "";
      language := LANGUAGE_ENGLISH;
      pixelFormat := PIXEL_FORMAT_RGB565;
    }

    /** The hardware-rendering part of deinitialize. */
    method ResetHwFlags()
      modifies this`useHWAcceleration, this`useDepth, this`useStencil, this`bottomLeftOrigin
      ensures !useHWAcceleration && !useDepth && !useStencil && !bottomLeftOrigin
    {
      useHWAcceleration, useDepth, useStencil, bottomLeftOrigin := false, false, false, false;
    }

    /** The rotation and geometry part of deinitialize. */
    method ResetGeometry()
      modifies this`screenRotationIndex, this`gameGeometryUpdated, this`gameGeometryWidth,
        this`gameGeometryHeight, this`gameGeometryAspectRatio
      ensures screenRotationIndex == 0
      ensures !gameGeometryUpdated && gameGeometryWidth == 0 && gameGeometryHeight == 0
      ensures gameGeometryAspectRatio == -1.0
    {
      screenRotationIndex := 0;
      gameGeometryUpdated := false;
      gameGeometryWidth, gameGeometryHeight := 0, 0;
      gameGeometryAspectRatio := -1.0;
    }

    /** A user override from the frontend. */
    method UpdateVariable(key: string, value: string)
      modifies this`variables, this`dirtyVariables
      ensures var u := WithOverride(old(variables), key, value);
        variables == u.0 && dirtyVariables == (old(dirtyVariables) || u.1)
    {
      var current := if key in variables then variables[key] else EMPTY_VARIABLE;
      variables := variables[key := current];
      current := current.(key := key);
      if value != current.value {
        current := current.(value := value);
        variables := variables[key := current];
        dirtyVariables := true;
      }
    }

    /** environment_handle_get_variable. */
    method GetVariable(key: string) returns (r: Reply)
      ensures r == match Lookup(variables, key)
        case Some(v) => Reply(true, StringOutput(v))
        case None => Reply(false, NoOutput)
    {
      if key !in variables {
        return Reply(false, NoOutput);
      }
      return Reply(true, StringOutput(variables[key].value));
    }

    /** environment_handle_set_variables. A declaration that makes `substr`
        throw ends the call with the exception; earlier entries stay stored. */
    method SetVariables(received: seq<RetroVariable>) returns (r: Result<bool, ParseError>)
      requires Terminated(received)
      modifies this`variables
      ensures var d := DeclareAll(old(variables), Declarations(received));
        variables == d.0 && r == (if d.1.Some? then Err(d.1.value) else Ok(true))
    {
      ghost var declarations := Declarations(received);
      ghost var n := TerminatorIndex(received);
      var count := 0;
      while received[count].key.Some?
        invariant count <= n
        invariant DeclareAll(old(variables), declarations[..count]) == (variables, None)
        decreases n - count
      {
        var key := received[count].key.value;
        var description := received[count].value;
        assert declarations[..count + 1][..count] == declarations[..count];
        var parsed := FirstOption(description);
        if parsed.Err? {
          DeclareAllStops(old(variables), declarations, count + 1);
          return Err(parsed.error);
        }
        var current := if key in variables then variables[key] else EMPTY_VARIABLE;
        current := current.(key := key, description := description);
        if current.value == "" {
          current := current.(value := parsed.value);
        }
        variables := variables[key := current];
        count := count + 1;
      }
      assert declarations[..count] == declarations;
      return Ok(true);
    }

    /** environment_handle_set_controller_info: replaces the whole table. */
    method SetControllerInfo(received: seq<ControllerInfo>) returns (ok: bool)
      requires WellFormedPlayers(received)
      modifies this`controllers
      ensures ok
      ensures |controllers| == PlayerCount(received)
      ensures forall p :: 0 <= p < |controllers| ==> controllers[p] == PlayerControllers(received[p])
    {
      ghost var players := PlayerCount(received);
      controllers := [];
      var player := 0;
      while received[player].types.Some?
        invariant player <= players && |controllers| == player
        invariant forall p :: 0 <= p < player ==> controllers[p] == PlayerControllers(received[p])
        decreases players - player
      {
        var currentPlayer := received[player];
        var types := currentPlayer.types.value;
        ghost var copied := TypesCopied(types, currentPlayer.numTypes, 0);
        var list: seq<Controller> := [];
        var controller := 0;
        while controller < currentPlayer.numTypes && types[controller].desc.Some?
          invariant controller <= copied && |list| == controller
          invariant TypesCopied(types, currentPlayer.numTypes, controller) == copied
          invariant forall k :: 0 <= k < controller ==> list[k] == Controller(types[k].id, types[k].desc.value)
          decreases currentPlayer.numTypes - controller
        {
          list := list + [Controller(types[controller].id, types[controller].desc.value)];
          controller := controller + 1;
        }
        controllers := controllers + [list];
        player := player + 1;
      }
      return true;
    }

    /** environment_handle_set_hw_render: always accepted. */
    method SetHwRender(request: HwRenderRequest) returns (ok: bool)
      modifies this`useHWAcceleration, this`useDepth, this`useStencil, this`bottomLeftOrigin,
        this`hasContextReset, this`hasContextDestroy
      ensures ok && useHWAcceleration
      ensures useDepth == request.depth && useStencil == request.stencil
      ensures bottomLeftOrigin == request.bottomLeftOrigin
      ensures hasContextReset == request.hasContextReset && hasContextDestroy == request.hasContextDestroy
    {
      useHWAcceleration := true;
      useDepth := request.depth;
      useStencil := request.stencil;
      bottomLeftOrigin := request.bottomLeftOrigin;
      hasContextDestroy := request.hasContextDestroy;
      hasContextReset := request.hasContextReset;
      return true;
    }

    /** The shared SET_SYSTEM_AV_INFO / SET_GEOMETRY branch. */
    method SetGameGeometry(geometry: Geometry)
      modifies this`gameGeometryHeight, this`gameGeometryWidth, this`gameGeometryAspectRatio,
        this`gameGeometryUpdated
      ensures gameGeometryHeight == geometry.baseHeight && gameGeometryWidth == geometry.baseWidth
      ensures gameGeometryAspectRatio == geometry.aspectRatio && gameGeometryUpdated
    {
      gameGeometryHeight := geometry.baseHeight;
      gameGeometryWidth := geometry.baseWidth;
      gameGeometryAspectRatio := geometry.aspectRatio;
      gameGeometryUpdated := true;
    }

    /** handle_callback_set_rumble_state. */
    method SetRumble(port: nat, effect: nat, strength: nat) returns (ok: bool)
      requires Valid()
      modifies rumbleStates
      ensures (ok, rumbleStates[..]) == SetRumbleState(old(rumbleStates[..]), port, effect, strength)
    {
      if port > 3 {
        return false;
      }
      if effect == RUMBLE_STRONG {
        rumbleStates[port] := rumbleStates[port].(strengthStrong := strength);
      } else if effect == RUMBLE_WEAK {
        rumbleStates[port] := rumbleStates[port].(strengthWeak := strength);
      }
      return true;
    }

    /** setLanguage: an unknown code keeps the current language. */
    method SetLanguage(androidLanguage: string)
      modifies this`language
      ensures language == match LanguageFor(androidLanguage)
        case Some(l) => l
        case None => old(language)
    {
      var found := LanguageFor(androidLanguage);
      if found.Some? {
        language := found.value;
      }
    }

    /** getVariables: every stored variable once, in ascending key order.
        `order` is the (unspecified) iteration order of the hash map. */
    method GetVariables() returns (result: seq<Variable>, ghost order: seq<string>)
      ensures Enumerates(variables, order)
      ensures SortedByKey(result)
      ensures multiset(result) == multiset(ListAlong(variables, order))
    {
      var remaining := variables.Keys;
      var collected: seq<Variable> := [];
      order := [];
      while remaining != {}
        invariant remaining <= variables.Keys
        invariant forall k :: k in variables <==> k in remaining || k in order
        invariant forall k :: k in order ==> k !in remaining && k in variables
        invariant forall i, j :: 0 <= i < j < |order| ==> order[i] != order[j]
        invariant collected == ListAlong(variables, order)
        decreases |remaining|
      {
        var k :| k in remaining;
        collected := collected + [variables[k]];
        order := order + [k];
        remaining := remaining - {k};
      }
      result := SortByKey(collected);
    }

    method SetEnableVirtualFileSystem(value: bool)
      modifies this`useVirtualFileSystem
      ensures useVirtualFileSystem == value
    {
      useVirtualFileSystem := value;
    }

    method SetEnableMicrophone(value: bool)
      modifies this`enableMicrophone
      ensures enableMicrophone == value
    {
      enableMicrophone := value;
    }

    /** The commands that only answer: everything except the setters and
        GET_VARIABLE_UPDATE, which also clears the dirty flag. */
    static predicate IsQuery(cmd: EnvCommand)
    {
      !(cmd.SetPixelFormat? || cmd.SetVariables? || cmd.GetVariableUpdate? || cmd.SetHwRender? ||
        cmd.SetRotation? || cmd.SetDiskControlInterface? || cmd.SetSystemAvInfo? ||
        cmd.SetGeometry? || cmd.SetControllerInfo?)
    }

    /** handle_callback_environment's reply to a command that changes nothing. */
    function QueryReply(cmd: EnvCommand): (r: Reply)
      reads this
      requires IsQuery(cmd)
      ensures cmd.Unlisted? || cmd.SetInputDescriptors? || cmd.GetPerfInterface? || cmd.GetAudioVideoEnable? ==> !r.ok
      ensures cmd.GetVariable? ==> (r.ok <==> cmd.key in variables)
      ensures cmd.GetSaveDirectory? ==> (r.ok <==> savesDirectory != "")
      ensures cmd.GetSystemDirectory? ==> (r.ok <==> systemDirectory != "")
    {
      match cmd
      case GetCanDupe => Reply(true, BoolOutput(true))
      case SetInputDescriptors => Reply(false, NoOutput)
      case GetVariable(key) =>
        (match Lookup(variables, key)
         case Some(v) => Reply(true, StringOutput(v))
         case None => Reply(false, NoOutput))
      case GetPreferredHwRender => Reply(true, NatOutput(HW_CONTEXT_OPENGLES3))
      case GetRumbleInterface => Reply(true, CallbackInstalled)
      case GetLogInterface => Reply(true, CallbackInstalled)
      case GetSaveDirectory => Reply(savesDirectory != "", StringOutput(savesDirectory))
      case GetSystemDirectory => Reply(systemDirectory != "", StringOutput(systemDirectory))
      case GetPerfInterface => Reply(false, NoOutput)
      case GetAudioVideoEnable => Reply(false, NoOutput)
      case GetLanguage => Reply(true, NatOutput(language))
      case GetVfsInterface =>
        if useVirtualFileSystem then Reply(true, CallbackInstalled) else Reply(false, NoOutput)
      case GetMicrophoneInterface =>
        if enableMicrophone then Reply(true, CallbackInstalled) else Reply(false, NoOutput)
      case Unlisted(_) => Reply(false, NoOutput)
    }

    /** handle_callback_environment: queries answer without a change; every
        other command changes only the fields listed for it. A declaration
        that makes `substr` throw surfaces as `Err`. */
    method HandleCallbackEnvironment(cmd: EnvCommand) returns (r: Result<Reply, ParseError>)
      requires Valid()
      requires cmd.SetVariables? ==> Terminated(cmd.entries)
      requires cmd.SetControllerInfo? ==> WellFormedPlayers(cmd.players)
      modifies this`pixelFormat, this`variables, this`dirtyVariables, this`useHWAcceleration,
        this`useDepth, this`useStencil, this`bottomLeftOrigin, this`hasContextReset,
        this`hasContextDestroy, this`screenRotationIndex, this`screenRotationUpdated,
        this`hasDiskControl, this`gameGeometryHeight, this`gameGeometryWidth,
        this`gameGeometryAspectRatio, this`gameGeometryUpdated, this`controllers
      ensures IsQuery(cmd) ==> r == Ok(old(QueryReply(cmd))) && unchanged(this)
      ensures cmd.SetPixelFormat? ==> r == Ok(Reply(true, NoOutput)) && pixelFormat == cmd.format
      ensures cmd.SetVariables? ==>
        var d := DeclareAll(old(variables), Declarations(cmd.entries));
        variables == d.0 && r == (if d.1.Some? then Err(d.1.value) else Ok(Reply(true, NoOutput)))
      ensures cmd.GetVariableUpdate? ==> r == Ok(Reply(true, BoolOutput(old(dirtyVariables)))) && !dirtyVariables
      ensures cmd.SetHwRender? ==>
        r == Ok(Reply(true, CallbackInstalled)) && useHWAcceleration &&
        useDepth == cmd.request.depth && useStencil == cmd.request.stencil &&
        bottomLeftOrigin == cmd.request.bottomLeftOrigin &&
        hasContextReset == cmd.request.hasContextReset && hasContextDestroy == cmd.request.hasContextDestroy
      ensures cmd.SetRotation? ==>
        r == Ok(Reply(true, NoOutput)) && screenRotationIndex == cmd.index && screenRotationUpdated
      ensures cmd.SetDiskControlInterface? ==> r == Ok(Reply(true, NoOutput)) && hasDiskControl
      ensures cmd.SetSystemAvInfo? || cmd.SetGeometry? ==>
        r == Ok(Reply(true, NoOutput)) && gameGeometryUpdated &&
        gameGeometryHeight == cmd.geometry.baseHeight && gameGeometryWidth == cmd.geometry.baseWidth &&
        gameGeometryAspectRatio == cmd.geometry.aspectRatio
      ensures cmd.SetControllerInfo? ==>
        r == Ok(Reply(true, NoOutput)) && |controllers| == PlayerCount(cmd.players) &&
        forall p :: 0 <= p < |controllers| ==> controllers[p] == PlayerControllers(cmd.players[p])
      // Which command may change which field.
      ensures !cmd.SetPixelFormat? ==> pixelFormat == old(pixelFormat)
      ensures !cmd.SetVariables? ==> variables == old(variables)
      ensures !cmd.GetVariableUpdate? ==> dirtyVariables == old(dirtyVariables)
      ensures !cmd.SetHwRender? ==>
        useHWAcceleration == old(useHWAcceleration) && useDepth == old(useDepth) &&
        useStencil == old(useStencil) && bottomLeftOrigin == old(bottomLeftOrigin) &&
        hasContextReset == old(hasContextReset) && hasContextDestroy == old(hasContextDestroy)
      ensures !cmd.SetRotation? ==>
        screenRotationIndex == old(screenRotationIndex) && screenRotationUpdated == old(screenRotationUpdated)
      ensures !cmd.SetDiskControlInterface? ==> hasDiskControl == old(hasDiskControl)
      ensures !(cmd.SetSystemAvInfo? || cmd.SetGeometry?) ==>
        gameGeometryHeight == old(gameGeometryHeight) && gameGeometryWidth == old(gameGeometryWidth) &&
        gameGeometryAspectRatio == old(gameGeometryAspectRatio) && gameGeometryUpdated == old(gameGeometryUpdated)
      ensures !cmd.SetControllerInfo? ==> controllers == old(controllers)
    {
      if IsQuery(cmd) {
        return Ok(QueryReply(cmd));
      }
      match cmd
      case SetPixelFormat(format) =>
        pixelFormat := format;
        r := Ok(Reply(true, NoOutput));
      case SetVariables(entries) =>
        var declared := SetVariables(entries);
        r := if declared.Err? then Err(declared.error) else Ok(Reply(declared.value, NoOutput));
      case GetVariableUpdate =>
        r := Ok(Reply(true, BoolOutput(dirtyVariables)));
        dirtyVariables := false;
      case SetHwRender(request) =>
        var ok := SetHwRender(request);
        r := Ok(Reply(ok, CallbackInstalled));
      case SetRotation(index) =>
        screenRotationIndex, screenRotationUpdated := index, true;
        r := Ok(Reply(true, NoOutput));
      case SetDiskControlInterface =>
        hasDiskControl := true;
        r := Ok(Reply(true, NoOutput));
      case SetSystemAvInfo(geometry) =>
        SetGameGeometry(geometry);
        r := Ok(Reply(true, NoOutput));
      case SetGeometry(geometry) =>
        SetGameGeometry(geometry);
        r := Ok(Reply(true, NoOutput));
      case SetControllerInfo(players) =>
        var ok := SetControllerInfo(players);
        r := Ok(Reply(ok, NoOutput));
    }
  }
}
