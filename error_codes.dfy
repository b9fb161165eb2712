/** The error codes the native library raises to Java (errorcodes.cpp), and
    the constants declared by the revision of the Java class LibretroDroid
    that sits beside it. That Java file is older than the native sources
    (its `create` has a different parameter list), so the two tables are
    kept apart and compared only as tables: they disagree on code 4. */
module ErrorCodes {
  import opened Wrappers

  datatype NativeError = LoadLibrary | LoadGame | GlNotCompatible | Serialization | Cheat | Generic

  const ERROR_LOAD_LIBRARY: int := 0
  const ERROR_LOAD_GAME: int := 1
  const ERROR_GL_NOT_COMPATIBLE: int := 2
  const ERROR_SERIALIZATION: int := 3
  const ERROR_CHEAT: int := 4
  const ERROR_GENERIC: int := -1

  /** The native code of each error. */
  function NativeCode(e: NativeError): (code: int)
    ensures code < 0 <==> e == Generic
    ensures -1 <= code <= 4
  {
    match e
    case LoadLibrary => ERROR_LOAD_LIBRARY
    case LoadGame => ERROR_LOAD_GAME
    case GlNotCompatible => ERROR_GL_NOT_COMPATIBLE
    case Serialization => ERROR_SERIALIZATION
    case Cheat => ERROR_CHEAT
    case Generic => ERROR_GENERIC
  }

  /** Reading a native code back. */
  function NativeErrorOf(code: int): (e: Option<NativeError>)
    ensures e.Some? <==> -1 <= code <= 4
  {
    if code == ERROR_LOAD_LIBRARY then Some(LoadLibrary)
    else if code == ERROR_LOAD_GAME then Some(LoadGame)
    else if code == ERROR_GL_NOT_COMPATIBLE then Some(GlNotCompatible)
    else if code == ERROR_SERIALIZATION then Some(Serialization)
    else if code == ERROR_CHEAT then Some(Cheat)
    else if code == ERROR_GENERIC then Some(Generic)
    else None
  }

  /** Every error's code reads back as that error, so the six codes are
      pairwise distinct. */
  lemma {:induction false} NativeCodesDistinct(a: NativeError, b: NativeError)
    ensures NativeErrorOf(NativeCode(a)) == Some(a)
    ensures a != b ==> NativeCode(a) != NativeCode(b)
  {
    NativeCodeReadsBack(a);
    NativeCodeReadsBack(b);
  }

  lemma NativeCodeReadsBack(e: NativeError)
    ensures NativeErrorOf(NativeCode(e)) == Some(e)
  {
  }

  // The constants of this revision of LibretroDroid.java; there is no cheat code.
  const JAVA_ERROR_LOAD_LIBRARY: int := 0
  const JAVA_ERROR_LOAD_GAME: int := 1
  const JAVA_ERROR_GL_NOT_COMPATIBLE: int := 2
  const JAVA_ERROR_SERIALIZATION: int := 3
  const JAVA_ERROR_GENERIC: int := 4

  /** The two tables side by side: the value of the native CHEAT code is the
      value of this Java revision's ERROR_GENERIC, and the value of native
      ERROR_GENERIC is none of its constants. */
  lemma {:induction false} TablesDisagree()
    ensures NativeCode(Cheat) == JAVA_ERROR_GENERIC
    ensures NativeCode(Generic) !in {JAVA_ERROR_LOAD_LIBRARY, JAVA_ERROR_LOAD_GAME,
      JAVA_ERROR_GL_NOT_COMPATIBLE, JAVA_ERROR_SERIALIZATION, JAVA_ERROR_GENERIC}
    ensures NativeCode(Generic) != JavaCode(Generic).value
    ensures forall e :: e != Cheat && e != Generic ==> NativeCode(e) == JavaCode(e).value
  {
  }

  /** The constant of this Java revision for each error it names. */
  function JavaCode(e: NativeError): (code: Option<int>)
    ensures code.Some? <==> e != Cheat
  {
    match e
    case LoadLibrary => Some(JAVA_ERROR_LOAD_LIBRARY)
    case LoadGame => Some(JAVA_ERROR_LOAD_GAME)
    case GlNotCompatible => Some(JAVA_ERROR_GL_NOT_COMPATIBLE)
    case Serialization => Some(JAVA_ERROR_SERIALIZATION)
    case Generic => Some(JAVA_ERROR_GENERIC)
    case Cheat => None
  }
}
