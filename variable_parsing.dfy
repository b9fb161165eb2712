/** The default value of a core option. A core declares each option as
    `"Description; first|second|..."`, and all three variable stores take the
    text between `"; "` and the next `'|'` as the initial value, by way of
    `find(';') + 2` and `substr`. Two corner cases of that arithmetic are
    modelled: with no `';'` at all `find` returns npos and npos + 2 wraps to 1,
    and a start position past the end makes `substr` throw std::out_of_range. */
module VariableParsing {
  import opened Wrappers

  /** `substr` was given a start position past the end of the string. */
  datatype ParseError = OutOfRange(start: nat, size: nat)

  /** std::string::find(c, from): the first position at or after `from`
      holding `c`; `None` plays the part of npos. */
  function IndexOf(s: string, c: char, from: nat): (r: Option<nat>)
    ensures r.Some? ==> from <= r.value < |s| && s[r.value] == c
    ensures r.Some? ==> forall i :: from <= i < r.value ==> s[i] != c
    ensures r.None? ==> forall i :: from <= i < |s| ==> s[i] != c
    decreases |s| - from
  {
    if from >= |s| then None
    else if s[from] == c then Some(from)
    else IndexOf(s, c, from + 1)
  }

  /** The position where the first option starts: two past the first `';'`,
      or 1 when npos + 2 wraps around. */
  function FirstOptionStart(declaration: string): (start: nat)
  {
    match IndexOf(declaration, ';', 0)
    case None => 1
    case Some(p) => p + 2
  }

  /** The option default as the stores compute it. */
  function FirstOption(declaration: string): (r: Result<string, ParseError>)
    ensures r.Err? <==> FirstOptionStart(declaration) > |declaration|
    ensures r.Ok? ==> '|' !in r.value
    ensures r.Ok? ==> FirstOptionStart(declaration) + |r.value| <= |declaration|
    ensures r.Ok? ==> r.value == declaration[FirstOptionStart(declaration)..FirstOptionStart(declaration) + |r.value|]
  {
    var start := FirstOptionStart(declaration);
    if start > |declaration| then
      Err(OutOfRange(start, |declaration|))
    else
      var end := match IndexOf(declaration, '|', start)
        case None => |declaration|
        case Some(e) => e;
      Ok(declaration[start..end])
  }

  /** Round trip with the declaration format: for a description without `';'`
      and a first option without `'|'`, the parsed default is that option,
      whatever options follow it. */
  lemma {:induction false} FirstOptionOfDeclaration(description: string, first: string, rest: string)
    requires ';' !in description && '|' !in first
    requires rest == [] || rest[0] == '|'
    ensures FirstOption(description + "; " + first + rest) == Ok(first)
  {
    var s := description + "; " + first + rest;
    var p := |description|;
    assert s[p] == ';';
    assert forall i :: 0 <= i < p ==> s[i] == description[i];
    assert IndexOf(s, ';', 0) == Some(p);
    var start := p + 2;
    assert forall i :: start <= i < start + |first| ==> s[i] == first[i - start];
    if rest == [] {
      assert IndexOf(s, '|', start).None?;
    } else {
      assert s[start + |first|] == '|';
      assert IndexOf(s, '|', start) == Some(start + |first|);
    }
    assert s[start..start + |first|] == first;
  }

  /** Without any `';'` the wrapped start skips just the first character;
      the empty declaration makes `substr` throw. */
  lemma NoSemicolonSkipsOneChar(declaration: string)
    requires ';' !in declaration
    ensures FirstOptionStart(declaration) == 1
    ensures declaration == [] <==> FirstOption(declaration).Err?
  {
  }

  /** A declaration ending in its only `';'` starts the option one past the
      end, which makes `substr` throw. */
  lemma {:induction false} TrailingSemicolonThrows(description: string)
    requires ';' !in description
    ensures FirstOption(description + ";") == Err(OutOfRange(|description| + 2, |description| + 1))
  {
    var s := description + ";";
    assert s[|description|] == ';';
    assert forall i :: 0 <= i < |description| ==> s[i] == description[i];
    assert IndexOf(s, ';', 0) == Some(|description|);
  }
}
