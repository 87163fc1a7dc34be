/** What argz_parse does, as functions of the registry, the argument vector and the
    contents of the caller's destination slots. The inner scan over the registry is
    ScanEntries; the outer loop over argv[1..] is ParseFrom. */
module ParseSpec {
  import opened ArgzTypes
  import Numerals

  /** Every destination of `es` is a slot of a store of `size` slots. */
  predicate Fits(es: seq<Entry>, size: nat)
  {
    forall i :: 0 <= i < |es| ==> es[i].dest < size
  }

  /** Some entry of `es` writes to `slot`. */
  predicate IsDest(es: seq<Entry>, slot: nat)
  {
    exists i :: 0 <= i < |es| && es[i].dest == slot
  }

  /** What argz__parse_arg does: the value it writes through the destination (None when
      it writes nothing) and how it ends. */
  datatype ArgResult = ArgResult(written: Option<Value>, status: Status)

  /** The panic of argz__parse_arg when a number has no numeric prefix. */
  function ParseFailure(option: string, expected: string, arg: string): (st: Status)
    ensures st.Panic?
    ensures st.message == ErrorPrefix + "Failed to parse option '" + option + "'. Expected "
                          + expected + ", got '" + arg + "'.\n"
  {
    Fatal("Failed to parse option '" + option + "'. Expected " + expected + ", got '" + arg + "'.\n")
  }

  /** argz__parse_arg: convert the value token `arg` of the option `option` of kind `kind`.
      A number is written before it is checked, so a token with no numeric prefix leaves
      0 in the destination and then panics. A flag reaches the `default` case. */
  function Convert(kind: Kind, option: string, arg: string, strtod: DoubleParser): (r: ArgResult)
    ensures r.status.Ok? || r.status.Panic?
    ensures kind != Flg <==> r.written.Some?
    ensures kind == Str ==> r == ArgResult(Some(StringVal(Some(arg))), Ok)
    ensures kind == Lng ==> r.written == Some(LongVal(Numerals.Strtol(arg).value))
    ensures kind == Lng ==> (r.status.Ok? <==> Numerals.Strtol(arg).consumed > 0)
    ensures kind == Lng && r.status.Panic? ==> r.status == ParseFailure(option, "long", arg)
    ensures kind == Dbl ==> r.written == Some(DoubleVal(if strtod(arg).Some? then strtod(arg).value else 0.0))
    ensures kind == Dbl ==> (r.status.Ok? <==> strtod(arg).Some?)
    ensures kind == Dbl && r.status.Panic? ==> r.status == ParseFailure(option, "double", arg)
    ensures kind == Flg ==> r.status == Fatal("type '1' not supported\n")
  {
    match kind
    case Dbl =>
      var d := strtod(arg);
      var v := if d.Some? then d.value else 0.0;
      ArgResult(Some(DoubleVal(v)), if d.None? then ParseFailure(option, "double", arg) else Ok)
    case Lng =>
      var n := Numerals.Strtol(arg);
      ArgResult(Some(LongVal(n.value)), if n.consumed == 0 then ParseFailure(option, "long", arg) else Ok)
    case Str =>
      ArgResult(Some(StringVal(Some(arg))), Ok)
    case Flg =>
      assert Numerals.Decimal(KindCode(kind)) == "1";
      ArgResult(None, Fatal("type '" + Numerals.Decimal(KindCode(kind)) + "' not supported\n"))
  }

  /** The store after writing `written` (if anything) to `dest`. */
  function Write(store: seq<Value>, dest: nat, written: Option<Value>): (r: seq<Value>)
    requires dest < |store|
    ensures |r| == |store|
    ensures forall i :: 0 <= i < |store| && i != dest ==> r[i] == store[i]
    ensures r[dest] == if written.Some? then written.value else store[dest]
  {
    if written.Some? then store[dest := written.value] else store
  }

  /** `long` conversion of a decimal rendering followed by anything that does not start
      with a digit: the number, clamped, and no panic. */
  lemma LongArgOfDecimal(option: string, n: int, t: string, strtod: DoubleParser)
    requires t == [] || !Numerals.IsDigit(t[0])
    ensures Convert(Lng, option, Numerals.Decimal(n) + t, strtod)
         == ArgResult(Some(LongVal(Numerals.Clamp(n))), Ok)
  {
    Numerals.StrtolDecimal(n, t);
  }

  /** `long` conversion of a token without a numeric prefix writes 0 and then panics
      with the "Failed to parse option" message. */
  lemma LongArgWithoutDigits(option: string, arg: string, strtod: DoubleParser)
    requires Numerals.Strtol(arg).consumed == 0
    ensures Convert(Lng, option, arg, strtod) == ArgResult(Some(LongVal(0)), ParseFailure(option, "long", arg))
  {
  }

  /** Where one pass of the inner loop leaves the outer loop: the index `arg_c` has
      reached, the store, and whether argz_parse returned (`halt`). */
  datatype Scan = Scan(next: nat, store: seq<Value>, halt: Option<Status>)

  /** The inner loop of argz_parse from registry position `z`, for the token `tok` the
      outer loop read, with `arg_c` at `c`. A flag breaks out of the scan;
      a value option advances `arg_c`, converts that token and keeps scanning with the
      same `tok`, so each later entry of the same name consumes a further token. */
  function ScanEntries(es: seq<Entry>, argv: seq<string>, tok: string, z: nat, c: nat,
                       store: seq<Value>, strtod: DoubleParser): (r: Scan)
    requires c < |argv| && z <= |es|
    requires Fits(es, |store|)
    ensures c <= r.next
    ensures r.next <= c + (|es| - z)
    ensures |r.store| == |store|
    ensures r.halt.None? ==> r.next < |argv|
    ensures r.halt.Some? ==> r.halt.value.Ok? || r.halt.value.Panic?
    decreases |es| - z
  {
    if z == |es| then Scan(c, store, None)
    else
      var e := es[z];
      if e.name != tok then ScanEntries(es, argv, tok, z + 1, c, store, strtod)
      else if e.kind == Flg then Scan(c, store[e.dest := FlagVal(1)], None)
      else if c + 1 >= |argv| then Scan(c + 1, store, Some(Ok))
      else
        var a := Convert(e.kind, e.name, argv[c + 1], strtod);
        var store' := Write(store, e.dest, a.written);
        if a.status.Panic? then Scan(c + 1, store', Some(a.status))
        else ScanEntries(es, argv, tok, z + 1, c + 1, store', strtod)
  }

  /** The result of a whole call of argz_parse: how it ended and the store. */
  datatype Parsed = Parsed(status: Status, store: seq<Value>)

  /** The outer loop of argz_parse from `arg_c == c`. */
  function ParseFrom(es: seq<Entry>, argv: seq<string>, c: nat, store: seq<Value>,
                     strtod: DoubleParser): (r: Parsed)
    requires Fits(es, |store|)
    ensures |r.store| == |store|
    ensures r.status.Ok? || r.status.Panic?
    decreases |argv| - c
  {
    if c >= |argv| then Parsed(Ok, store)
    else
      var s := ScanEntries(es, argv, argv[c], 0, c, store, strtod);
      if s.halt.Some? then Parsed(s.halt.value, s.store)
      else ParseFrom(es, argv, s.next + 1, s.store, strtod)
  }

  /** argz_parse(argc, argv) on a registry holding `es` out of a capacity of `n`: it
      aborts in argz__count when the registry is full, and otherwise never aborts; it
      writes nothing but registered destinations. */
  function ParseOutcome(es: seq<Entry>, n: nat, argv: seq<string>, store: seq<Value>,
                        strtod: DoubleParser): (r: Parsed)
    requires Fits(es, |store|)
    ensures r.status.Abort? <==> |es| >= n
    ensures r.status.Abort? ==> r.store == store
    ensures |r.store| == |store|
  {
    if |es| >= n then Parsed(Abort, store) else ParseFrom(es, argv, 1, store, strtod)
  }

  // ---------------------------------------------------------------------------
  // Slots that no entry writes

  /** The inner scan writes only destinations of registered entries. */
  lemma {:induction false} ScanKeepsOthers(es: seq<Entry>, argv: seq<string>, tok: string, z: nat, c: nat,
                                           store: seq<Value>, strtod: DoubleParser, i: nat)
    requires c < |argv| && z <= |es| && Fits(es, |store|)
    requires i < |store| && !IsDest(es, i)
    ensures ScanEntries(es, argv, tok, z, c, store, strtod).store[i] == store[i]
    decreases |es| - z
  {
    if z < |es| {
      var e := es[z];
      assert e.dest != i;
      if e.name != tok {
        ScanKeepsOthers(es, argv, tok, z + 1, c, store, strtod, i);
      } else if e.kind != Flg && c + 1 < |argv| {
        var a := Convert(e.kind, e.name, argv[c + 1], strtod);
        if !a.status.Panic? {
          ScanKeepsOthers(es, argv, tok, z + 1, c + 1, Write(store, e.dest, a.written), strtod, i);
        }
      }
    }
  }

  /** The outer loop writes only destinations of registered entries. */
  lemma {:induction false} ParseKeepsOthers(es: seq<Entry>, argv: seq<string>, c: nat, store: seq<Value>,
                                            strtod: DoubleParser, i: nat)
    requires Fits(es, |store|)
    requires i < |store| && !IsDest(es, i)
    ensures ParseFrom(es, argv, c, store, strtod).store[i] == store[i]
    decreases |argv| - c
  {
    if c < |argv| {
      var s := ScanEntries(es, argv, argv[c], 0, c, store, strtod);
      ScanKeepsOthers(es, argv, argv[c], 0, c, store, strtod, i);
      if s.halt.None? {
        ParseKeepsOthers(es, argv, s.next + 1, s.store, strtod, i);
      }
    }
  }

  /** argz_parse writes nothing but the destinations of registered options: every other
      slot of the store keeps its value, whatever the arguments. */
  lemma ParseOutcomeKeepsOthers(es: seq<Entry>, n: nat, argv: seq<string>, store: seq<Value>,
                                strtod: DoubleParser, i: nat)
    requires Fits(es, |store|)
    requires i < |store| && !IsDest(es, i)
    ensures ParseOutcome(es, n, argv, store, strtod).store[i] == store[i]
  {
    if |es| < n {
      ParseKeepsOthers(es, argv, 1, store, strtod, i);
    }
  }

  // ---------------------------------------------------------------------------
  // The inner scan, entry by entry

  /** Entries whose name differs from the token are passed over without effect. */
  lemma {:induction false} ScanSkips(es: seq<Entry>, argv: seq<string>, tok: string, z: nat, k: nat,
                                     c: nat, store: seq<Value>, strtod: DoubleParser)
    requires c < |argv| && Fits(es, |store|)
    requires z <= k <= |es|
    requires forall j :: z <= j < k ==> es[j].name != tok
    ensures ScanEntries(es, argv, tok, z, c, store, strtod) == ScanEntries(es, argv, tok, k, c, store, strtod)
    decreases k - z
  {
    if z < k {
      ScanSkips(es, argv, tok, z + 1, k, c, store, strtod);
    }
  }

  /** A token that equals no later entry's name writes nothing and consumes nothing. */
  lemma ScanUnmatched(es: seq<Entry>, argv: seq<string>, tok: string, z: nat, c: nat,
                      store: seq<Value>, strtod: DoubleParser)
    requires c < |argv| && Fits(es, |store|)
    requires z <= |es|
    requires forall j :: z <= j < |es| ==> es[j].name != tok
    ensures ScanEntries(es, argv, tok, z, c, store, strtod) == Scan(c, store, None)
  {
    ScanSkips(es, argv, tok, z, |es|, c, store, strtod);
  }

  /** `k` is the first entry at or after `z` whose name is `tok`. */
  predicate FirstMatch(es: seq<Entry>, tok: string, z: nat, k: nat)
  {
    z <= k < |es| && es[k].name == tok && forall j :: z <= j < k ==> es[j].name != tok
  }

  /** The first matching entry is a flag: its destination becomes 1, the scan stops and
      no further token is consumed. */
  lemma ScanFlag(es: seq<Entry>, argv: seq<string>, tok: string, z: nat, k: nat, c: nat,
                 store: seq<Value>, strtod: DoubleParser)
    requires c < |argv| && Fits(es, |store|)
    requires FirstMatch(es, tok, z, k) && es[k].kind == Flg
    ensures ScanEntries(es, argv, tok, z, c, store, strtod)
         == Scan(c, store[es[k].dest := FlagVal(1)], None)
  {
    ScanSkips(es, argv, tok, z, k, c, store, strtod);
  }

  /** The first matching entry takes a value and a token follows: that token is
      converted into its destination, and the scan goes on with the SAME token against
      the later entries, one argv position further on. */
  lemma ScanValue(es: seq<Entry>, argv: seq<string>, tok: string, z: nat, k: nat, c: nat,
                  store: seq<Value>, strtod: DoubleParser)
    requires c + 1 < |argv| && Fits(es, |store|)
    requires FirstMatch(es, tok, z, k) && es[k].kind != Flg
    requires Convert(es[k].kind, tok, argv[c + 1], strtod).status.Ok?
    ensures ScanEntries(es, argv, tok, z, c, store, strtod)
         == ScanEntries(es, argv, tok, k + 1, c + 1,
                        store[es[k].dest := Convert(es[k].kind, tok, argv[c + 1], strtod).written.value], strtod)
  {
    ScanSkips(es, argv, tok, z, k, c, store, strtod);
  }

  /** The first matching entry takes a value and its token cannot be converted: the
      destination receives what the conversion wrote, and the call panics. */
  lemma ScanValueFails(es: seq<Entry>, argv: seq<string>, tok: string, z: nat, k: nat, c: nat,
                       store: seq<Value>, strtod: DoubleParser)
    requires c + 1 < |argv| && Fits(es, |store|)
    requires FirstMatch(es, tok, z, k) && es[k].kind != Flg
    requires Convert(es[k].kind, tok, argv[c + 1], strtod).status.Panic?
    ensures ScanEntries(es, argv, tok, z, c, store, strtod)
         == Scan(c + 1, store[es[k].dest := Convert(es[k].kind, tok, argv[c + 1], strtod).written.value],
                 Some(Convert(es[k].kind, tok, argv[c + 1], strtod).status))
  {
    ScanSkips(es, argv, tok, z, k, c, store, strtod);
  }

  /** The first matching entry takes a value but no token is left: argz_parse returns
      at once and this entry's destination is not written. */
  lemma ScanValueAtEnd(es: seq<Entry>, argv: seq<string>, tok: string, z: nat, k: nat, c: nat,
                       store: seq<Value>, strtod: DoubleParser)
    requires c + 1 == |argv| && Fits(es, |store|)
    requires FirstMatch(es, tok, z, k) && es[k].kind != Flg
    ensures ScanEntries(es, argv, tok, z, c, store, strtod) == Scan(c + 1, store, Some(Ok))
  {
    ScanSkips(es, argv, tok, z, k, c, store, strtod);
  }

  // ---------------------------------------------------------------------------
  // The whole call

  /** A flag token sets its destination and the very next token is read as an option. */
  lemma ParseFlag(es: seq<Entry>, argv: seq<string>, k: nat, c: nat, store: seq<Value>,
                  strtod: DoubleParser)
    requires c < |argv| && Fits(es, |store|)
    requires FirstMatch(es, argv[c], 0, k) && es[k].kind == Flg
    ensures ParseFrom(es, argv, c, store, strtod)
         == ParseFrom(es, argv, c + 1, store[es[k].dest := FlagVal(1)], strtod)
  {
    ScanFlag(es, argv, argv[c], 0, k, c, store, strtod);
  }

  /** A value option that no later entry shares a name with: the next token becomes its
      value and is skipped by the outer loop, so it is never itself taken for an option. */
  lemma ParseValue(es: seq<Entry>, argv: seq<string>, k: nat, c: nat, store: seq<Value>,
                   strtod: DoubleParser)
    requires c + 1 < |argv| && Fits(es, |store|)
    requires FirstMatch(es, argv[c], 0, k) && es[k].kind != Flg
    requires forall j :: k < j < |es| ==> es[j].name != argv[c]
    requires Convert(es[k].kind, argv[c], argv[c + 1], strtod).status.Ok?
    ensures ParseFrom(es, argv, c, store, strtod)
         == ParseFrom(es, argv, c + 2,
                      store[es[k].dest := Convert(es[k].kind, argv[c], argv[c + 1], strtod).written.value], strtod)
  {
    var a := Convert(es[k].kind, argv[c], argv[c + 1], strtod);
    ScanValue(es, argv, argv[c], 0, k, c, store, strtod);
    ScanUnmatched(es, argv, argv[c], k + 1, c + 1, store[es[k].dest := a.written.value], strtod);
  }

  /** How many tokens the inner scan from position `z` takes for the token `tok`: one per
      value option named `tok`, up to the first flag named `tok`, which ends the scan. */
  function ValueMatches(es: seq<Entry>, tok: string, z: nat): (n: nat)
    requires z <= |es|
    ensures n <= |es| - z
    decreases |es| - z
  {
    if z == |es| then 0
    else if es[z].name != tok then ValueMatches(es, tok, z + 1)
    else if es[z].kind == Flg then 0
    else 1 + ValueMatches(es, tok, z + 1)
  }

  /** A scan that does not make argz_parse return has consumed exactly one token per
      value option named `tok` before the first flag of that name, duplicates included. */
  lemma {:induction false} ScanConsumes(es: seq<Entry>, argv: seq<string>, tok: string, z: nat, c: nat,
                                        store: seq<Value>, strtod: DoubleParser)
    requires c < |argv| && z <= |es| && Fits(es, |store|)
    requires ScanEntries(es, argv, tok, z, c, store, strtod).halt.None?
    ensures ScanEntries(es, argv, tok, z, c, store, strtod).next == c + ValueMatches(es, tok, z)
    decreases |es| - z
  {
    if z < |es| && es[z].name == tok && es[z].kind != Flg {
      var a := Convert(es[z].kind, es[z].name, argv[c + 1], strtod);
      ScanConsumes(es, argv, tok, z + 1, c + 1, Write(store, es[z].dest, a.written), strtod);
    } else if z < |es| && es[z].name != tok {
      ScanConsumes(es, argv, tok, z + 1, c, store, strtod);
    }
  }

  /** So the outer loop resumes after every token the registry's value options named
      `argv[c]` took: none of them is itself read as an option. */
  lemma ParseSkipsValues(es: seq<Entry>, argv: seq<string>, c: nat, store: seq<Value>,
                         strtod: DoubleParser)
    requires c < |argv| && Fits(es, |store|)
    requires ScanEntries(es, argv, argv[c], 0, c, store, strtod).halt.None?
    ensures ParseFrom(es, argv, c, store, strtod)
         == ParseFrom(es, argv, c + ValueMatches(es, argv[c], 0) + 1,
                      ScanEntries(es, argv, argv[c], 0, c, store, strtod).store, strtod)
  {
    ScanConsumes(es, argv, argv[c], 0, c, store, strtod);
  }

  /** A value option as the last token ends the call normally, with every write made
      before it kept and its own destination untouched. */
  lemma ParseValueAtEnd(es: seq<Entry>, argv: seq<string>, k: nat, store: seq<Value>,
                        strtod: DoubleParser)
    requires |argv| > 0 && Fits(es, |store|)
    requires FirstMatch(es, argv[|argv| - 1], 0, k) && es[k].kind != Flg
    ensures ParseFrom(es, argv, |argv| - 1, store, strtod) == Parsed(Ok, store)
  {
    ScanValueAtEnd(es, argv, argv[|argv| - 1], 0, k, |argv| - 1, store, strtod);
  }

  /** When no token from position `c` on equals a registered name, the call writes
      nothing and ends normally. */
  lemma {:induction false} ParseNoOptions(es: seq<Entry>, argv: seq<string>, c: nat,
                                          store: seq<Value>, strtod: DoubleParser)
    requires Fits(es, |store|)
    requires forall i, j :: c <= i < |argv| && 0 <= j < |es| ==> es[j].name != argv[i]
    ensures ParseFrom(es, argv, c, store, strtod) == Parsed(Ok, store)
    decreases |argv| - c
  {
    if c < |argv| {
      ScanUnmatched(es, argv, argv[c], 0, c, store, strtod);
      ParseNoOptions(es, argv, c + 1, store, strtod);
    }
  }

  /** argv[0] is never examined: the scan reads only tokens after it. */
  lemma {:induction false} ScanIgnoresArgv0(es: seq<Entry>, argv: seq<string>, argv': seq<string>,
                                            tok: string, z: nat, c: nat, store: seq<Value>,
                                            strtod: DoubleParser)
    requires 1 <= c < |argv| && z <= |es| && Fits(es, |store|)
    requires |argv'| == |argv| && argv'[1..] == argv[1..]
    ensures ScanEntries(es, argv, tok, z, c, store, strtod) == ScanEntries(es, argv', tok, z, c, store, strtod)
    decreases |es| - z
  {
    if z < |es| && es[z].name == tok && es[z].kind != Flg && c + 1 < |argv| {
      assert argv[c + 1] == argv[1..][c] == argv'[c + 1];
      var a := Convert(es[z].kind, es[z].name, argv[c + 1], strtod);
      ScanIgnoresArgv0(es, argv, argv', tok, z + 1, c + 1, Write(store, es[z].dest, a.written), strtod);
    } else if z < |es| && es[z].name != tok {
      ScanIgnoresArgv0(es, argv, argv', tok, z + 1, c, store, strtod);
    }
  }

  lemma {:induction false} ParseFromIgnoresArgv0(es: seq<Entry>, argv: seq<string>, argv': seq<string>,
                                                 c: nat, store: seq<Value>, strtod: DoubleParser)
    requires 1 <= c && 0 < |argv| && Fits(es, |store|)
    requires |argv'| == |argv| && argv'[1..] == argv[1..]
    ensures ParseFrom(es, argv, c, store, strtod) == ParseFrom(es, argv', c, store, strtod)
    decreases |argv| - c
  {
    if c < |argv| {
      assert argv[c] == argv[1..][c - 1] == argv'[c];
      ScanIgnoresArgv0(es, argv, argv', argv[c], 0, c, store, strtod);
      var s := ScanEntries(es, argv, argv[c], 0, c, store, strtod);
      if s.halt.None? {
        ParseFromIgnoresArgv0(es, argv, argv', s.next + 1, s.store, strtod);
      }
    }
  }

  /** The program name in argv[0] has no effect on a call of argz_parse. */
  lemma ParseIgnoresArgv0(es: seq<Entry>, n: nat, argv: seq<string>, prog: string,
                          store: seq<Value>, strtod: DoubleParser)
    requires |argv| > 0 && Fits(es, |store|)
    ensures ParseOutcome(es, n, argv, store, strtod) == ParseOutcome(es, n, [prog] + argv[1..], store, strtod)
  {
    assert ([prog] + argv[1..])[1..] == argv[1..];
    ParseFromIgnoresArgv0(es, argv, [prog] + argv[1..], 1, store, strtod);
  }
}
