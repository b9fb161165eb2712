/** The first GL prototype of the sample app (app/src/main/cpp/gl_code.c):
    an option table that is a verbatim copy of the core's NULL-terminated
    array, answered with the raw declaration strings, one option answered
    by a fixed value, its environment callback, and the 8x8 checker texture
    it draws. */
module GlPrototype {
  import opened Wrappers
  import opened Libretro
  import opened LegacyStores
  import PrototypeFrontend
  import VariableParsing

  /** The option get_variable answers itself, and its answer. */
  const MAX_TX_CACHE_SIZE_KEY: string := "mupen64plus-MaxTxCacheSize"
  const MAX_TX_CACHE_SIZE_VALUE: string := "8000"

  /** The entries of a stored table before its terminator, as (key, raw
      declaration) pairs. */
  function RawEntries(table: seq<RetroVariable>): (r: seq<Entry>)
    requires Terminated(table)
    ensures |r| == TerminatorIndex(table)
    ensures forall i :: 0 <= i < |r| ==> r[i] == Entry(table[i].key.value, table[i].value)
  {
    seq(TerminatorIndex(table), i requires 0 <= i < TerminatorIndex(table) =>
      Entry(table[i].key.value, table[i].value))
  }

  /** The checker rule: the texel at row i / 8 and column i % 8 is bright
      when the row and column differ in parity, dim otherwise. */
  function Texel(i: nat): bv8
  {
    if (i / 8 + i % 8) % 2 == 1 then 255 else 127
  }

  /** Division by 8 of 8 * q + r, for a remainder r below 8. */
  lemma DivModEight(n: nat, q: nat, r: nat)
    requires n == 8 * q + r && r < 8
    ensures n / 8 == q && n % 8 == r
  {
  }

  /** The fill formula of the source, ((i + i / 8) % 2) * 128 + 127, follows
      the checker rule: i and i % 8 have the same parity. */
  lemma {:induction false} FillFormulaIsChecker(i: nat)
    ensures ((i + i / 8) % 2) * 128 + 127 == (if Texel(i) == 255 then 255 else 127)
  {
    DivModEight(i, i / 8, i % 8);
    assert (i + i / 8) % 2 == (i / 8 + i % 8) % 2 by {
      assert i + i / 8 == (i / 8 + i % 8) + 8 * (i / 8);
    }
  }

  /** Horizontally and vertically adjacent texels always differ: the texel
      at row `row` and column `col` is i = 8 * row + col. */
  lemma {:induction false} CheckerAlternates(row: nat, col: nat)
    requires row < 8 && col < 8
    ensures col < 7 ==> Texel(8 * row + col) != Texel(8 * row + col + 1)
    ensures row < 7 ==> Texel(8 * row + col) != Texel(8 * (row + 1) + col)
  {
    DivModEight(8 * row + col, row, col);
    if col < 7 {
      DivModEight(8 * row + col + 1, row, col + 1);
    }
    DivModEight(8 * (row + 1) + col, row + 1, col);
  }

  /** The fill loop of the test texture. */
  method CheckerTexture() returns (texDat: array<bv8>)
    ensures fresh(texDat) && texDat.Length == 64
    ensures forall i :: 0 <= i < 64 ==> texDat[i] == Texel(i)
  {
    texDat := new bv8[64];
    for i := 0 to 64
      invariant forall j :: 0 <= j < i ==> texDat[j] == Texel(j)
    {
      FillFormulaIsChecker(i);
      texDat[i] := (((i + i / 8) % 2) * 128 + 127) as bv8;
    }
  }

  class GlFrontend {
    /** The global `variables` pointer; None until set_variables ran. */
    var variables: Option<seq<RetroVariable>>
    var hasContextReset: bool
    var hasContextDestroy: bool

    /** A stored table ends at its only terminator. */
    ghost predicate Valid()
      reads this
    {
      variables.Some? ==> Terminated(variables.value) && TerminatorIndex(variables.value) == |variables.value| - 1
    }

    constructor ()
      ensures Valid() && variables.None? && !hasContextReset && !hasContextDestroy
    {
      variables := None;
      hasContextReset := false;
      hasContextDestroy := false;
    }

    /** environment_handle_set_variables: the entries up to and including
        the terminator are copied as they are; nothing is parsed. */
    method SetVariables(received: seq<RetroVariable>) returns (ok: bool)
      requires Terminated(received)
      modifies this`variables
      ensures Valid() && ok
      ensures variables == Some(received[..TerminatorIndex(received) + 1])
      ensures RawEntries(variables.value) == RawEntries(received)
    {
      ghost var n := TerminatorIndex(received);
      var count := 0;
      while received[count].key.Some?
        invariant count <= n
        decreases n - count
      {
        count := count + 1;
      }
      variables := Some(received[..count + 1]);
      assert Terminated(variables.value) by {
        assert variables.value[count].key.None?;
      }
      return true;
    }

    /** environment_handle_get_variable: the fixed option first; otherwise
        the raw declaration of the first entry with the key. Without a
        stored table the walk would dereference NULL. */
    method GetVariable(key: string) returns (r: Option<string>)
      requires Valid() && (key != MAX_TX_CACHE_SIZE_KEY ==> variables.Some?)
      ensures key == MAX_TX_CACHE_SIZE_KEY ==> r == Some(MAX_TX_CACHE_SIZE_VALUE)
      ensures key != MAX_TX_CACHE_SIZE_KEY ==> r == FirstMatch(RawEntries(variables.value), key)
    {
      if key == MAX_TX_CACHE_SIZE_KEY {
        return Some(MAX_TX_CACHE_SIZE_VALUE);
      }
      var table := variables.value;
      ghost var entries := RawEntries(table);
      ghost var n := TerminatorIndex(table);
      var current := 0;
      while table[current].key.Some?
        invariant current <= n == |entries|
        invariant FirstMatch(entries, key) == FirstMatch(entries[current..], key)
        decreases n - current
      {
        FirstMatchStep(entries, current, key);
        assert entries[current] == Entry(table[current].key.value, table[current].value);
        if table[current].key.value == key {
          return Some(table[current].value);
        }
        current := current + 1;
      }
      assert entries[current..] == [];
      return None;
    }

    /** environment_handle_set_hw_render: only the context callbacks are kept. */
    method SetHwRender(request: HwRenderRequest) returns (ok: bool)
      modifies this`hasContextReset, this`hasContextDestroy
      ensures ok
      ensures hasContextReset == request.hasContextReset && hasContextDestroy == request.hasContextDestroy
    {
      hasContextDestroy := request.hasContextDestroy;
      hasContextReset := request.hasContextReset;
      return true;
    }

    static predicate IsQuery(cmd: EnvCommand)
    {
      !(cmd.SetVariables? || cmd.SetHwRender?)
    }

    /** callback_environment's reply to every command but the two setters.
        Here SET_PIXEL_FORMAT is refused, the system directory is a fixed
        path, and the save directory is written but reported as failure. */
    function QueryReply(cmd: EnvCommand): (r: Reply)
      reads this
      requires Valid() && IsQuery(cmd)
      requires cmd.GetVariable? && cmd.key != MAX_TX_CACHE_SIZE_KEY ==> variables.Some?
      ensures r.ok <==>
        cmd.GetCanDupe? || cmd.GetSystemDirectory? || cmd.GetLogInterface? ||
        (cmd.GetVariable? &&
          (cmd.key == MAX_TX_CACHE_SIZE_KEY || FirstMatch(RawEntries(variables.value), cmd.key).Some?))
      ensures cmd.GetSystemDirectory? ==> r.output == StringOutput(PrototypeFrontend.TEST_SYSTEM_DIRECTORY)
      ensures cmd.GetSaveDirectory? ==> r.output == StringOutput(PrototypeFrontend.TEST_SAVES_DIRECTORY)
    {
      if cmd.GetCanDupe? then Reply(true, BoolOutput(true))
      else if cmd.GetSystemDirectory? then Reply(true, StringOutput(PrototypeFrontend.TEST_SYSTEM_DIRECTORY))
      else if cmd.GetVariable? then
        (if cmd.key == MAX_TX_CACHE_SIZE_KEY then Reply(true, StringOutput(MAX_TX_CACHE_SIZE_VALUE))
         else match FirstMatch(RawEntries(variables.value), cmd.key)
           case Some(value) => Reply(true, StringOutput(value))
           case None => Reply(false, NoOutput))
      else if cmd.GetLogInterface? then Reply(true, CallbackInstalled)
      else if cmd.GetSaveDirectory? then Reply(false, StringOutput(PrototypeFrontend.TEST_SAVES_DIRECTORY))
      else Reply(false, NoOutput)
    }

    /** callback_environment: the two setters store what the core hands
        over; GET_VARIABLE runs the table walk; every other command only
        answers. */
    method CallbackEnvironment(cmd: EnvCommand) returns (r: Reply)
      requires Valid()
      requires cmd.SetVariables? ==> Terminated(cmd.entries)
      requires cmd.GetVariable? && cmd.key != MAX_TX_CACHE_SIZE_KEY ==> variables.Some?
      modifies this`variables, this`hasContextReset, this`hasContextDestroy
      ensures Valid()
      ensures IsQuery(cmd) ==> r == old(QueryReply(cmd)) && unchanged(this)
      ensures cmd.SetVariables? ==>
        r == Reply(true, NoOutput) && variables == Some(cmd.entries[..TerminatorIndex(cmd.entries) + 1]) &&
        hasContextReset == old(hasContextReset) && hasContextDestroy == old(hasContextDestroy)
      ensures cmd.SetHwRender? ==>
        r == Reply(true, CallbackInstalled) && variables == old(variables) &&
        hasContextReset == cmd.request.hasContextReset && hasContextDestroy == cmd.request.hasContextDestroy
    {
      if cmd.SetVariables? {
        var ok := SetVariables(cmd.entries);
        r := Reply(ok, NoOutput);
      } else if cmd.SetHwRender? {
        var ok := SetHwRender(cmd.request);
        r := Reply(ok, CallbackInstalled);
      } else if cmd.GetVariable? {
        var value := GetVariable(cmd.key);
        r := if value.Some? then Reply(true, StringOutput(value.value)) else Reply(false, NoOutput);
      } else {
        r := QueryReply(cmd);
      }
    }
  }

  /** A one-declaration table that parses gives one entry. */
  lemma ParsedSingle(key: string, declaration: string)
    requires VariableParsing.FirstOption(declaration).Ok?
    ensures Parsed([(key, declaration)]) == ([Entry(key, VariableParsing.FirstOption(declaration).value)], None)
  {
    var declarations := [(key, declaration)];
    assert declarations[..0] == [];
    assert Parsed(declarations[..0]) == ([], None);
    assert [] + [Entry(key, VariableParsing.FirstOption(declaration).value)] == [Entry(key, VariableParsing.FirstOption(declaration).value)];
  }

  /** Against the later stores: the prototype answers with the whole raw
      declaration where they answer with its parsed first option. */
  lemma RawDeclarationReturned()
    ensures var table := [RetroVariable(Some("k"), "Mode; fast|slow"), RetroVariable(None, "")];
      Terminated(table) &&
      FirstMatch(RawEntries(table), "k") == Some("Mode; fast|slow") &&
      FirstMatch(Parsed(Declarations(table)).0, "k") == Some("fast")
  {
    var declaration := "Mode; fast|slow";
    var table := [RetroVariable(Some("k"), declaration), RetroVariable(None, "")];
    assert table[1].key.None?;
    assert TerminatorIndex(table) == 1;
    assert RawEntries(table) == [Entry("k", declaration)];
    assert Declarations(table) == [("k", declaration)];
    VariableParsing.FirstOptionOfDeclaration("Mode", "fast", "|slow");
    assert "Mode" + "; " + "fast" + "|slow" == declaration;
    ParsedSingle("k", declaration);
  }
}
