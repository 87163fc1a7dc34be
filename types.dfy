/** Values shared by the registry, the parser and the listing of argz.h. */
module ArgzTypes {

  /** A possibly-NULL C pointer: `None` stands for NULL. */
  datatype Option<T> = None | Some(value: T)

  /** The four option kinds, tagged ARGZ_KIND_DBL, _FLG, _LNG and _STR in the source. */
  datatype Kind = Dbl | Flg | Lng | Str

  /** The integer tag the source stores in its `types` table for each kind. */
  function KindCode(k: Kind): (code: nat)
    ensures code < 4
    ensures k == Dbl <==> code == 0
    ensures k == Flg <==> code == 1
    ensures k == Lng <==> code == 2
  {
    match k
    case Dbl => 0
    case Flg => 1
    case Lng => 2
    case Str => 3
  }

  /** What a destination holds: a `double`, an `int` flag, a `long` or a `const char *`. */
  datatype Value =
    | DoubleVal(d: real)
    | FlagVal(flag: int)
    | LongVal(n: int)
    | StringVal(s: Option<string>)

  /** How a call ends: normally, through ARGZ_PANIC (message on stderr, exit status 1),
      or through `abort()`. A panic carries the whole text written to stderr. */
  datatype Status = Ok | Panic(message: string) | Abort

  /** The text ARGZ_PANIC writes before its formatted message. */
  const ErrorPrefix: string := "ERROR: "

  /** ARGZ_PANIC(msg): the status of a process that printed `msg` and exited with 1. */
  function Fatal(msg: string): (st: Status)
    ensures st.Panic? && |st.message| == |ErrorPrefix| + |msg|
    ensures st.message[..|ErrorPrefix|] == ErrorPrefix && st.message[|ErrorPrefix|..] == msg
  {
    Panic(ErrorPrefix + msg)
  }

  /** One registered option, as the four static tables hold it at one position.
      `dest` is the index of the caller-owned slot the value address points to. */
  datatype Entry = Entry(name: string, desc: Option<string>, dest: nat, kind: Kind)

  /** strtod(arg, &end): the converted value, or None when no character was consumed. */
  type DoubleParser = string -> Option<real>
}
