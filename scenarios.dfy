/** Concrete calls of the registry and the parser: the example in argz.h's comment on
    argz_parse, and small registries that show how tokens are matched and consumed. */
module Scenarios {
  import opened ArgzTypes
  import Numerals
  import opened ParseSpec
  import Argz

  /** The parse of the example below, on the specification. */
  lemma SizeParsed(strtod: DoubleParser)
    ensures ParseFrom([Entry("--size", Some("It doesn't matter."), 0, Lng)], ["/bin/prog", "--size", "10"], 1,
                      [LongVal(0)], strtod)
         == Parsed(Ok, [LongVal(10)])
  {
    assert Numerals.DigitChar(1) == '1' && Numerals.DigitChar(0) == '0';
    assert Numerals.Decimal(10) + "" == "10";
    LongArgOfDecimal("--size", 10, "", strtod);
    LongOption("/bin/prog", Some("It doesn't matter."), "10", 10, LongVal(0), strtod);
  }

  /** The example of argz.h's comment on argz_parse: `--size` registered as a `long`,
      parsed from {"/bin/prog", "--size", "10"}, leaves 10 in `size`. */
  method SizeExample(strtod: DoubleParser) returns (st: Status, size: Value)
    ensures st == Ok && size == LongVal(10)
  {
    var registry := new Argz.Registry(Argz.DefaultCapacity);
    var store := new Value[1](_ => LongVal(0));
    var added := registry.AddLong(Some("--size"), Some("It doesn't matter."), Some(0));
    assert registry.entries == [Entry("--size", Some("It doesn't matter."), 0, Lng)];
    assert store[..] == [LongVal(0)];
    SizeParsed(strtod);
    st := registry.Parse(["/bin/prog", "--size", "10"], store, strtod);
    size := store[0];
  }

  /** Filling the registry to its capacity disables it: with ARGZ_COUNT options
      registered, argz__count aborts on every later call, so parsing aborts. With one
      option fewer, parsing works. */
  method FullRegistryAborts(argv: seq<string>, strtod: DoubleParser) returns (before: Status, after: Status)
    ensures before != Abort && after == Abort
  {
    var registry := new Argz.Registry(Argz.DefaultCapacity);
    var store := new Value[1](_ => FlagVal(0));
    var i := 0;
    while i < Argz.DefaultCapacity - 1
      invariant 0 <= i <= Argz.DefaultCapacity - 1
      invariant registry.Valid() && registry.Capacity == Argz.DefaultCapacity && registry.count == i
      invariant forall j :: 0 <= j < |registry.entries| ==> registry.entries[j].dest == 0
    {
      var added := registry.AddFlag(Some("-f"), None, Some(0));
      i := i + 1;
    }
    assert |registry.entries| == Argz.DefaultCapacity - 1;
    before := registry.Parse(argv, store, strtod);
    var added := registry.AddFlag(Some("-g"), None, Some(0));
    assert added == Ok && |registry.entries| == Argz.DefaultCapacity;
    after := registry.Parse(argv, store, strtod);
  }

  /** Two string options registered under the same name "-x", with destinations 0 and 1. */
  function TwoX(): seq<Entry>
  {
    [Entry("-x", None, 0, Str), Entry("-x", None, 1, Str)]
  }

  /** A value option does not stop the scan: the second "-x" takes the token after the
      first one's value. When no such token is left the call returns, leaving the second
      destination as it was. */
  lemma DuplicateValueOption(prog: string, v: string, w: string, strtod: DoubleParser)
    ensures ParseFrom(TwoX(), [prog, "-x", v], 1, [StringVal(None), StringVal(None)], strtod)
         == Parsed(Ok, [StringVal(Some(v)), StringVal(None)])
    ensures ParseFrom(TwoX(), [prog, "-x", v, w], 1, [StringVal(None), StringVal(None)], strtod)
         == Parsed(Ok, [StringVal(Some(v)), StringVal(Some(w))])
  {
    var es, st := TwoX(), [StringVal(None), StringVal(None)];
    var st1 := st[0 := StringVal(Some(v))];
    ScanValue(es, [prog, "-x", v], "-x", 0, 0, 1, st, strtod);
    ScanValueAtEnd(es, [prog, "-x", v], "-x", 1, 1, 2, st1, strtod);
    ScanValue(es, [prog, "-x", v, w], "-x", 0, 0, 1, st, strtod);
    ScanValue(es, [prog, "-x", v, w], "-x", 1, 1, 2, st1, strtod);
  }

  /** A `long` option whose token converts to `v` without a panic gets `v`. */
  lemma LongOption(prog: string, desc: Option<string>, arg: string, v: int, prev: Value, strtod: DoubleParser)
    requires Convert(Lng, "--size", arg, strtod) == ArgResult(Some(LongVal(v)), Ok)
    ensures ParseFrom([Entry("--size", desc, 0, Lng)], [prog, "--size", arg], 1, [prev], strtod)
         == Parsed(Ok, [LongVal(v)])
  {
    SizeLast([prog, "--size", arg], 1, desc, v, prev, strtod);
  }

  /** "42abc" gives 42: `strtol` takes the decimal prefix. */
  lemma LongPrefix42(strtod: DoubleParser)
    ensures ParseFrom([Entry("--size", None, 0, Lng)], ["prog", "--size", "42abc"], 1, [LongVal(7)], strtod)
         == Parsed(Ok, [LongVal(42)])
  {
    assert Numerals.DigitChar(4) == '4' && Numerals.DigitChar(2) == '2';
    assert Numerals.Decimal(42) + "abc" == "42abc";
    LongArgOfDecimal("--size", 42, "abc", strtod);
    LongOption("prog", None, "42abc", 42, LongVal(7), strtod);
  }

  /** A `long` token with no numeric prefix leaves 0 in the destination and panics. */
  lemma LongPanic(prog: string, arg: string, prev: Value, strtod: DoubleParser)
    requires Numerals.Strtol(arg).consumed == 0
    ensures ParseFrom([Entry("--size", None, 0, Lng)], [prog, "--size", arg], 1, [prev], strtod)
         == Parsed(ParseFailure("--size", "long", arg), [LongVal(0)])
  {
    LongArgWithoutDigits("--size", arg, strtod);
    ScanValueFails([Entry("--size", None, 0, Lng)], [prog, "--size", arg], "--size", 0, 0, 1, [prev], strtod);
  }

  /** "abc" and "-" have no numeric prefix, so as `long` values they panic. */
  lemma LongPanicAbc(strtod: DoubleParser)
    ensures ParseFrom([Entry("--size", None, 0, Lng)], ["prog", "--size", "abc"], 1, [LongVal(7)], strtod)
         == Parsed(ParseFailure("--size", "long", "abc"), [LongVal(0)])
    ensures ParseFrom([Entry("--size", None, 0, Lng)], ["prog", "--size", "-"], 1, [LongVal(7)], strtod)
         == Parsed(ParseFailure("--size", "long", "-"), [LongVal(0)])
  {
    Numerals.StrtolNoDigits("abc");
    LongPanic("prog", "abc", LongVal(7), strtod);
    Numerals.StrtolNoDigits("-");
    LongPanic("prog", "-", LongVal(7), strtod);
  }

  /** A flag "-h" with destination 0 and a `long` option "--size" with destination 1. */
  function FlagAndSize(): seq<Entry>
  {
    [Entry("-h", None, 0, Flg), Entry("--size", None, 1, Lng)]
  }

  /** The second half of FlagThenValue: "--size" and its value as the last two tokens,
      after the flag has been set. */
  lemma SizeAfterFlag(argv: seq<string>, c: nat, v: int, strtod: DoubleParser)
    requires c + 2 == |argv| && argv[c] == "--size"
    requires Convert(Lng, "--size", argv[c + 1], strtod) == ArgResult(Some(LongVal(v)), Ok)
    ensures ParseFrom(FlagAndSize(), argv, c, [FlagVal(1), LongVal(0)], strtod)
         == Parsed(Ok, [FlagVal(1), LongVal(v)])
  {
    assert FirstMatch(FlagAndSize(), argv[c], 0, 1);
    ParseValue(FlagAndSize(), argv, 1, c, [FlagVal(1), LongVal(0)], strtod);
    assert [FlagVal(1), LongVal(0)][1 := LongVal(v)] == [FlagVal(1), LongVal(v)];
  }

  /** A flag consumes no token: the option after it is read in its turn. */
  lemma FlagThenValue(prog: string, arg: string, v: int, strtod: DoubleParser)
    requires Convert(Lng, "--size", arg, strtod) == ArgResult(Some(LongVal(v)), Ok)
    ensures ParseFrom(FlagAndSize(), [prog, "-h", "--size", arg], 1, [FlagVal(0), LongVal(0)], strtod)
         == Parsed(Ok, [FlagVal(1), LongVal(v)])
  {
    var argv := [prog, "-h", "--size", arg];
    assert FirstMatch(FlagAndSize(), argv[1], 0, 0);
    ParseFlag(FlagAndSize(), argv, 0, 1, [FlagVal(0), LongVal(0)], strtod);
    assert [FlagVal(0), LongVal(0)][0 := FlagVal(1)] == [FlagVal(1), LongVal(0)];
    SizeAfterFlag(argv, 2, v, strtod);
  }

  /** A token that equals no registered name writes nothing and takes no value: the next
      token is read as an option in its turn. Here it matches nothing either. */
  lemma UnknownTokenIgnored(prog: string, v: string, prev: Value, strtod: DoubleParser)
    requires v != "--size"
    ensures ParseFrom([Entry("--size", None, 0, Lng)], [prog, "--unknown", v], 1, [prev], strtod)
         == Parsed(Ok, [prev])
  {
    ParseNoOptions([Entry("--size", None, 0, Lng)], [prog, "--unknown", v], 1, [prev], strtod);
  }

  /** "--size" with a token that converts to `v`, as the last two tokens. */
  lemma SizeLast(argv: seq<string>, c: nat, desc: Option<string>, v: int, prev: Value, strtod: DoubleParser)
    requires c + 2 == |argv| && argv[c] == "--size"
    requires Convert(Lng, "--size", argv[c + 1], strtod) == ArgResult(Some(LongVal(v)), Ok)
    ensures ParseFrom([Entry("--size", desc, 0, Lng)], argv, c, [prev], strtod) == Parsed(Ok, [LongVal(v)])
  {
    var es := [Entry("--size", desc, 0, Lng)];
    assert FirstMatch(es, argv[c], 0, 0);
    ParseValue(es, argv, 0, c, [prev], strtod);
    assert [prev][0 := LongVal(v)] == [LongVal(v)];
  }

  /** The token after an unregistered one `u` ("--unknown", say) is not consumed as its
      value: "--size" right after it is still read as the option and takes its own value. */
  lemma UnknownTokenTakesNoValue(prog: string, u: string, arg: string, v: int, prev: Value,
                                 strtod: DoubleParser)
    requires u != "--size"
    requires Convert(Lng, "--size", arg, strtod) == ArgResult(Some(LongVal(v)), Ok)
    ensures ParseFrom([Entry("--size", None, 0, Lng)], [prog, u, "--size", arg], 1, [prev], strtod)
         == Parsed(Ok, [LongVal(v)])
  {
    var es := [Entry("--size", None, 0, Lng)];
    var argv := [prog, u, "--size", arg];
    assert ParseFrom(es, argv, 1, [prev], strtod) == ParseFrom(es, argv, 2, [prev], strtod) by {
      ScanUnmatched(es, argv, argv[1], 0, 1, [prev], strtod);
    }
    SizeLast(argv, 2, None, v, prev, strtod);
  }
}
