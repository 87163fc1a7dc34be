/** The option registry of argz.h and the procedures that use it. The four static
    tables (`options`, `descs`, `value_addrs`, `types`) and the static `count` become the
    fields of a Registry object; a value address is the index of a slot of a
    caller-owned store, so that two options may share a destination. */
module Argz {
  import opened ArgzTypes
  import Numerals
  import ParseSpec
  import Listing

  /** ARGZ_COUNT when the build does not define it. */
  const DefaultCapacity: nat := 8

  /** The checks argz__init_next makes before it writes anything, in the source's order:
      a full registry aborts in argz__count; then a NULL name, a NULL value address and
      an empty name each panic. */
  function Admission(count: nat, capacity: nat, option: Option<string>, addr: Option<nat>): (st: Status)
    ensures st.Abort? <==> count >= capacity
    ensures st.Ok? <==> count < capacity && option.Some? && option.value != [] && addr.Some?
    ensures st.Panic? ==> |st.message| > |ErrorPrefix| && st.message[..|ErrorPrefix|] == ErrorPrefix
    ensures count < capacity && option.None? ==> st == Fatal("option cannot be null\n")
    ensures count < capacity && option.Some? && addr.None?
            ==> st == Fatal("value address cannot be null for option '" + option.value + "'\n")
    ensures count < capacity && option.Some? && addr.Some? && option.value == []
            ==> st == Fatal("option cannot be empty\n")
  {
    if count >= capacity then Abort
    else if option.None? then Fatal("option cannot be null\n")
    else if addr.None? then Fatal("value address cannot be null for option '" + option.value + "'\n")
    else if |option.value| == 0 then Fatal("option cannot be empty\n")
    else Ok
  }

  /** argz__parse_arg: convert `arg` for an option of kind `kind` and write the result
      through the value address `dest`. */
  method ParseArg(store: array<Value>, dest: nat, kind: Kind, option: string, arg: string,
                  strtod: DoubleParser) returns (st: Status)
    requires dest < store.Length
    modifies store
    ensures store[..] == ParseSpec.Write(old(store[..]), dest, ParseSpec.Convert(kind, option, arg, strtod).written)
    ensures st == ParseSpec.Convert(kind, option, arg, strtod).status
  {
    match kind {
      case Dbl =>
        var d := strtod(arg);
        store[dest] := DoubleVal(if d.Some? then d.value else 0.0);
        if d.None? {
          return ParseSpec.ParseFailure(option, "double", arg);
        }
      case Lng =>
        var n := Numerals.Strtol(arg);
        store[dest] := LongVal(n.value);
        if n.consumed == 0 {
          return ParseSpec.ParseFailure(option, "long", arg);
        }
      case Str =>
        store[dest] := StringVal(Some(arg));
      case Flg =>
        return Fatal("type '" + Numerals.Decimal(KindCode(kind)) + "' not supported\n");
    }
    st := Ok;
  }

  class Registry {
    /** ARGZ_COUNT: the size of every table. */
    const Capacity: nat
    const options: array<Option<string>>
    const descs: array<Option<string>>
    const valueAddrs: array<Option<nat>>
    const types: array<Kind>
    /** The static `count` of argz__count: how many positions are in use. */
    var count: nat
    /** The registered options, in registration order. */
    ghost var entries: seq<Entry>

    ghost predicate Shape()
      reads this
    {
      && options.Length == Capacity
      && descs.Length == Capacity
      && valueAddrs.Length == Capacity
      && types.Length == Capacity
      && options != descs
    }

    /** The used positions hold the entries (each with a non-empty name and a value
        address); every other position still holds the tables' initial zeroes. */
    ghost predicate Valid()
      reads this, options, descs, valueAddrs, types
    {
      && Shape()
      && count == |entries| <= Capacity
      && (forall i :: 0 <= i < count ==>
            && options[i] == Some(entries[i].name)
            && entries[i].name != []
            && descs[i] == entries[i].desc
            && valueAddrs[i] == Some(entries[i].dest)
            && types[i] == entries[i].kind)
      && (forall i :: count <= i < Capacity ==>
            options[i].None? && descs[i].None? && valueAddrs[i].None? && types[i] == Dbl)
    }

    /** The registry at program start, for a build with ARGZ_COUNT == capacity. */
    constructor (capacity: nat)
      ensures Valid() && Capacity == capacity && entries == []
      ensures fresh(options) && fresh(descs) && fresh(valueAddrs) && fresh(types)
    {
      Capacity := capacity;
      options := new Option<string>[capacity](_ => None);
      descs := new Option<string>[capacity](_ => None);
      valueAddrs := new Option<nat>[capacity](_ => None);
      types := new Kind[capacity](_ => Dbl);
      count := 0;
      entries := [];
    }

    /** argz__option_at: read position `pos`, after storing `option` there when it is not
        NULL. A position past the table reads as NULL and nothing is stored. */
    method OptionAt(pos: nat, option: Option<string>) returns (r: Option<string>)
      requires Shape()
      modifies options
      ensures pos < Capacity && option.Some? ==>
                options[pos] == option && forall i :: 0 <= i < Capacity && i != pos ==> options[i] == old(options[i])
      ensures !(pos < Capacity && option.Some?) ==> unchanged(options)
      ensures r == if pos < Capacity then options[pos] else None
    {
      if pos >= Capacity {
        return None;
      }
      if option.Some? {
        options[pos] := option;
      }
      r := options[pos];
    }

    /** argz__desc_at: the same get-or-set access to the descriptions. */
    method DescAt(pos: nat, desc: Option<string>) returns (r: Option<string>)
      requires Shape()
      modifies descs
      ensures pos < Capacity && desc.Some? ==>
                descs[pos] == desc && forall i :: 0 <= i < Capacity && i != pos ==> descs[i] == old(descs[i])
      ensures !(pos < Capacity && desc.Some?) ==> unchanged(descs)
      ensures r == if pos < Capacity then descs[pos] else None
    {
      if pos >= Capacity {
        return None;
      }
      if desc.Some? {
        descs[pos] := desc;
      }
      r := descs[pos];
    }

    /** argz__value_addr_at: the same get-or-set access to the value addresses. */
    method ValueAddrAt(pos: nat, addr: Option<nat>) returns (r: Option<nat>)
      requires Shape()
      modifies valueAddrs
      ensures pos < Capacity && addr.Some? ==>
                valueAddrs[pos] == addr && forall i :: 0 <= i < Capacity && i != pos ==> valueAddrs[i] == old(valueAddrs[i])
      ensures !(pos < Capacity && addr.Some?) ==> unchanged(valueAddrs)
      ensures r == if pos < Capacity then valueAddrs[pos] else None
    {
      if pos >= Capacity {
        return None;
      }
      if addr.Some? {
        valueAddrs[pos] := addr;
      }
      r := valueAddrs[pos];
    }

    /** argz__type_at: the same get-or-set access to the kinds; None stands for the
        source's -1, both as "do not store" and as the answer past the table. */
    method TypeAt(pos: nat, kind: Option<Kind>) returns (r: Option<Kind>)
      requires Shape()
      modifies types
      ensures pos < Capacity && kind.Some? ==>
                types[pos] == kind.value && forall i :: 0 <= i < Capacity && i != pos ==> types[i] == old(types[i])
      ensures !(pos < Capacity && kind.Some?) ==> unchanged(types)
      ensures r == if pos < Capacity then Some(types[pos]) else None
    {
      if pos >= Capacity {
        return None;
      }
      if kind.Some? {
        types[pos] := kind.value;
      }
      r := Some(types[pos]);
    }

    /** argz__count(inc): abort when `count` has reached ARGZ_COUNT (even when only
        reading it, inc == 0), otherwise add `inc` and return the new count. */
    method Count(inc: nat) returns (st: Status, n: nat)
      modifies this`count
      ensures old(count) >= Capacity ==> st == Abort && count == old(count) && n == 0
      ensures old(count) < Capacity ==> st == Ok && count == old(count) + inc && n == count
    {
      if count >= Capacity {
        return Abort, 0;
      }
      count := count + inc;
      return Ok, count;
    }

    /** argz__init_next: append an option at position `count`, after the admission
        checks. On success the four tables gain the entry and `count` grows by one;
        on any failure nothing changes. */
    method InitNext(option: Option<string>, desc: Option<string>, addr: Option<nat>, kind: Kind)
      returns (st: Status)
      requires Valid()
      modifies this`count, this`entries, options, descs, valueAddrs, types
      ensures Valid()
      ensures st == Admission(old(count), Capacity, option, addr)
      ensures st.Ok? ==> entries == old(entries) + [Entry(option.value, desc, addr.value, kind)]
      ensures !st.Ok? ==> entries == old(entries)
      ensures !st.Ok? ==> unchanged(options, descs, valueAddrs, types)
    {
      var s, pos := Count(0);
      if s == Abort {
        return Abort;
      }
      if option.None? {
        return Fatal("option cannot be null\n");
      }
      if addr.None? {
        return Fatal("value address cannot be null for option '" + option.value + "'\n");
      }
      var name := option.value;
      if |name| == 0 {
        return Fatal("option cannot be empty\n");
      }
      var opt := OptionAt(pos, option);
      if opt.None? {
        // `pos` is below Capacity here, so the "ARGZ_COUNT exceeded" panic cannot happen.
        assert false;
        return Fatal("ARGZ_COUNT=" + Numerals.Decimal(pos) + " exceeded, for option '" + name + "'\n");
      }
      var _ := DescAt(pos, desc);
      var _ := ValueAddrAt(pos, addr);
      var _ := TypeAt(pos, Some(kind));
      entries := entries + [Entry(option.value, desc, addr.value, kind)];
      s, pos := Count(1);
      st := Ok;
    }

    /** argz_dbl: register a `double` option. */
    method AddDouble(option: Option<string>, desc: Option<string>, addr: Option<nat>) returns (st: Status)
      requires Valid()
      modifies this`count, this`entries, options, descs, valueAddrs, types
      ensures Valid()
      ensures st == Admission(old(count), Capacity, option, addr)
      ensures entries == if st.Ok? then old(entries) + [Entry(option.value, desc, addr.value, Dbl)] else old(entries)
    {
      st := InitNext(option, desc, addr, Dbl);
    }

    /** argz_flg: register a flag (an `int` set to 1 when the option is present). */
    method AddFlag(option: Option<string>, desc: Option<string>, addr: Option<nat>) returns (st: Status)
      requires Valid()
      modifies this`count, this`entries, options, descs, valueAddrs, types
      ensures Valid()
      ensures st == Admission(old(count), Capacity, option, addr)
      ensures entries == if st.Ok? then old(entries) + [Entry(option.value, desc, addr.value, Flg)] else old(entries)
    {
      st := InitNext(option, desc, addr, Flg);
    }

    /** argz_lng: register a `long` option. */
    method AddLong(option: Option<string>, desc: Option<string>, addr: Option<nat>) returns (st: Status)
      requires Valid()
      modifies this`count, this`entries, options, descs, valueAddrs, types
      ensures Valid()
      ensures st == Admission(old(count), Capacity, option, addr)
      ensures entries == if st.Ok? then old(entries) + [Entry(option.value, desc, addr.value, Lng)] else old(entries)
    {
      st := InitNext(option, desc, addr, Lng);
    }

    /** argz_str: register a string option. */
    method AddString(option: Option<string>, desc: Option<string>, addr: Option<nat>) returns (st: Status)
      requires Valid()
      modifies this`count, this`entries, options, descs, valueAddrs, types
      ensures Valid()
      ensures st == Admission(old(count), Capacity, option, addr)
      ensures entries == if st.Ok? then old(entries) + [Entry(option.value, desc, addr.value, Str)] else old(entries)
    {
      st := InitNext(option, desc, addr, Str);
    }

    /** The reads at the top of argz_parse's inner loop: the name, kind and value address
        of position `z`. Valid() gives every used position a name and a value address,
        so the source's abort() on a NULL one cannot happen. */
    method EntryAt(z: nat) returns (name: string, kind: Kind, dest: nat)
      requires Valid() && z < count
      modifies options, valueAddrs, types
      ensures unchanged(options, valueAddrs, types)
      ensures entries[z] == Entry(name, entries[z].desc, dest, kind)
    {
      var option := OptionAt(z, None);
      var k := TypeAt(z, None);
      var valueAddr := ValueAddrAt(z, None);
      name, kind, dest := option.value, k.value, valueAddr.value;
    }

    /** One iteration of argz_parse's inner loop: compare the token `argV` read at `argC`
        with the name at position `z`. A flag is set and ends the scan; a value option
        moves `arg_c` on and converts that token. `stop` says the scan ends here, and
        `halt` says whether argz_parse returns. */
    method ScanEntry(argv: seq<string>, argV: string, z: nat, argC: nat, store: array<Value>,
                     strtod: DoubleParser) returns (next: nat, halt: Option<Status>, stop: bool)
      requires Valid() && z < count
      requires argC < |argv| && ParseSpec.Fits(entries, store.Length)
      modifies options, valueAddrs, types, store
      ensures unchanged(options, valueAddrs, types)
      ensures argC <= next <= argC + 1
      ensures stop ==> ParseSpec.Scan(next, store[..], halt)
                       == ParseSpec.ScanEntries(entries, argv, argV, z, argC, old(store[..]), strtod)
      ensures !stop ==> next < |argv| && halt.None?
      ensures !stop ==> ParseSpec.ScanEntries(entries, argv, argV, z + 1, next, store[..], strtod)
                        == ParseSpec.ScanEntries(entries, argv, argV, z, argC, old(store[..]), strtod)
    {
      var name, kind, dest := EntryAt(z);
      next, halt := argC, None;
      if argV != name {
        return next, None, false;
      }
      if kind == Flg {
        store[dest] := FlagVal(1);
        assert store[..] == old(store[..])[dest := FlagVal(1)];
        return next, None, true;
      }
      next := next + 1;
      if next >= |argv| {
        return next, Some(Ok), true;
      }
      var r := ParseArg(store, dest, kind, name, argv[next], strtod);
      if r != Ok {
        return next, Some(r), true;
      }
      stop := false;
    }

    /** The inner loop of argz_parse for the token `argV` read at `argC`: compare it with
        every registered name in order, until a flag or the end of the tokens stops it.
        Returns where `arg_c` stands and, when argz_parse returns from inside the loop,
        how it ends. */
    method ScanRegistry(argv: seq<string>, argV: string, argC: nat, store: array<Value>,
                        strtod: DoubleParser) returns (next: nat, halt: Option<Status>)
      requires Valid()
      requires argC < |argv| && ParseSpec.Fits(entries, store.Length)
      modifies options, valueAddrs, types, store
      ensures unchanged(options, valueAddrs, types)
      ensures ParseSpec.Scan(next, store[..], halt)
           == ParseSpec.ScanEntries(entries, argv, argV, 0, argC, old(store[..]), strtod)
    {
      var argZ := 0;
      next := argC;
      while argZ < count
        invariant 0 <= argZ <= count && argC <= next < |argv|
        invariant Valid()
        invariant unchanged(options, valueAddrs, types)
        invariant ParseSpec.ScanEntries(entries, argv, argV, argZ, next, store[..], strtod)
               == ParseSpec.ScanEntries(entries, argv, argV, 0, argC, old(store[..]), strtod)
        decreases count - argZ
      {
        var stop;
        next, halt, stop := ScanEntry(argv, argV, argZ, next, store, strtod);
        if stop {
          return;
        }
        argZ := argZ + 1;
      }
      halt := None;
    }

    /** argz_parse(argc, argv) with argc == |argv|: the outer loop over argv[1..]. It ends
        as ParseOutcome says and leaves the store as ParseOutcome says; the registry is
        not changed. */
    method Parse(argv: seq<string>, store: array<Value>, strtod: DoubleParser) returns (st: Status)
      requires Valid()
      requires ParseSpec.Fits(entries, store.Length)
      modifies this`count, options, valueAddrs, types, store
      ensures Valid() && entries == old(entries) && count == old(count)
      ensures unchanged(options, valueAddrs, types)
      ensures ParseSpec.Parsed(st, store[..])
           == ParseSpec.ParseOutcome(entries, Capacity, argv, old(store[..]), strtod)
    {
      var s, argzCount := Count(0);
      if s == Abort {
        return Abort;
      }
      var argc := |argv|;
      var argC := 1;
      while argC < argc
        invariant 1 <= argC
        invariant count == argzCount
        invariant unchanged(options, valueAddrs, types)
        invariant ParseSpec.ParseFrom(entries, argv, argC, store[..], strtod)
               == ParseSpec.ParseFrom(entries, argv, 1, old(store[..]), strtod)
        decreases argc - argC
      {
        var next, halt := ScanRegistry(argv, argv[argC], argC, store, strtod);
        if halt.Some? {
          return halt.value;
        }
        argC := next + 1;
      }
      st := Ok;
    }

    /** The first loop of argz_options_print: the length of the longest name. */
    method LongestName() returns (optMaxLen: nat)
      requires Valid()
      modifies options
      ensures unchanged(options)
      ensures optMaxLen == Listing.MaxNameLen(entries)
    {
      optMaxLen := 0;
      var i := 0;
      while i < count
        invariant 0 <= i <= count
        invariant unchanged(options)
        invariant optMaxLen == Listing.MaxNameLen(entries[..i])
      {
        var option := OptionAt(i, None);
        var len := |option.value|;
        if len > optMaxLen {
          optMaxLen := len;
        }
        Listing.MaxNameLenStep(entries, i);
        i := i + 1;
      }
      assert entries[..count] == entries;
    }

    /** The second loop of argz_options_print: one line per option, each name padded
        with `optMaxLen - len + 1` spaces. */
    method OptionLines(optMaxLen: nat) returns (lines: seq<string>)
      requires Valid()
      requires forall i :: 0 <= i < |entries| ==> |entries[i].name| <= optMaxLen
      modifies options, descs
      ensures unchanged(options, descs)
      ensures lines == Listing.Lines(entries, optMaxLen)
    {
      lines := [];
      var i := 0;
      while i < count
        invariant 0 <= i <= count
        invariant unchanged(options, descs)
        invariant |lines| == i
        invariant forall j :: 0 <= j < i ==> lines[j] == Listing.OptionLine(entries[j].name, entries[j].desc, optMaxLen)
      {
        var option := OptionAt(i, None);
        var desc := DescAt(i, None);
        var name := option.value;
        var spaces := optMaxLen - |name| + 1;
        var line := "  " + name + " " + Listing.Spaces(spaces) + " " + Listing.DescText(desc);
        assert line == Listing.OptionLine(entries[i].name, entries[i].desc, optMaxLen);
        lines := lines + [line];
        i := i + 1;
      }
      assert lines == Listing.Lines(entries, optMaxLen);
    }

    /** The two loops of argz_options_print together: the header, the option lines and
        the blank line. */
    method ListingLines() returns (lines: seq<string>)
      requires Valid()
      modifies options, descs
      ensures unchanged(options, descs)
      ensures lines == Listing.Listing(entries)
    {
      var optMaxLen := LongestName();
      var optionLines := OptionLines(optMaxLen);
      lines := ["Options:"] + optionLines + [""];
    }

    /** argz_options_print: the lines written to stdout, a header, one line per option
        and a blank line. Aborts when the registry is full. */
    method OptionsPrint() returns (st: Status, lines: seq<string>)
      requires Valid()
      modifies this`count, options, descs
      ensures Valid() && entries == old(entries) && count == old(count)
      ensures unchanged(options, descs)
      ensures st == if old(count) >= Capacity then Abort else Ok
      ensures lines == if st.Ok? then Listing.Listing(entries) else []
    {
      var s, _ := Count(0);
      if s == Abort {
        return Abort, [];
      }
      lines := ListingLines();
      st := Ok;
    }
  }
}
