# argz.h — a verified model of the option registry and parser

`argz.h` is a single-header C command-line parser. A program registers options:
- `argz_dbl` for `double` options;
- `argz_flg` for flags (`int`);
- `argz_lng` for `long` options;
- `argz_str` for string options.

Each registration takes a name, an optional description and the address of a destination. Registrations are stored in four parallel static tables of capacity `ARGZ_COUNT` (8 by default), next to a static `count`. `argz_parse` then walks `argv[1..]` and compares each token with every registered name:
- a flag's destination is set to 1;
- any other option takes the next token as its value, converted with `strtod` or `strtol` or stored as is.

`argz_options_print` writes an aligned listing of the options. Errors print an `ERROR: ` message and `exit(1)`. Internal inconsistencies call `abort()`.

The model is in five modules:

- `ArgzTypes` (types.dfy): option kinds and their codes, values, entries, and the outcome `Status`. `Status` is `Ok`, `Panic(message)` for `ARGZ_PANIC` (the full stderr text followed by `exit(1)`), or `Abort` for `abort()`.
- `Numerals` (numerals.dfy): base-10 `strtol` as section 7.22.1.4 of ISO C11 describes it, on a 64-bit `long`. It covers white space, sign, the longest digit run and clamping. The module also has the decimal rendering used by `%lu` and `%d`.
- `Listing` (listing.dfy): the lines `argz_options_print` writes.
- `ParseSpec` (parsespec.dfy): a functional reference for `argz_parse` and `argz__parse_arg`.
  - `ScanEntries` is the inner loop over the registry.
  - `ParseFrom` is the outer loop over the tokens.
  - `ParseOutcome` is the whole call.
  - Lemmas on these state how tokens are matched and consumed.
- `Argz` (argz.dfy): the imperative model. Class `Registry` holds:
  - the four tables as arrays;
  - `count`;
  - the get-or-set accessors;
  - `argz__count`, `argz__init_next` and the four registration calls;
  - `argz_parse`, proved against `ParseOutcome`;
  - `argz_options_print`, proved against `Listing`.

  `ParseArg` is `argz__parse_arg`, writing into a caller-owned store.
- `Scenarios` (scenarios.dfy): the `--size` example of the header's own comment, and concrete parses that show how the rules interact.

Destinations are indices into a caller-owned `array<Value>` (the "store"). NULL is `None`. Two entries may share a destination, as two C options may share an address. A Dafny string stands for the bytes of a NUL-free C string, one character per byte: `strlen` is the length and `strcmp` equality is sequence equality. The ghost sequence `Registry.entries` lists the registered options in order. `Registry.Valid()` ties it to the arrays:
- each used slot holds a non-empty name and a destination;
- each unused slot is still in its initial state.

## Model

| member | source | states |
|---|---|---|
| ArgzTypes.KindCode | argz.h:129-132 | each kind maps to its own `ARGZ_KIND_*` code, 0 to 3, in both directions |
| ArgzTypes.Fatal | argz.h:135-141 | a panic's stderr text is `ERROR: ` followed by the formatted message |
| Numerals.Clamp | argz.h:352 | the result lies within the range of `long`: values inside it are kept, values above give LONG_MAX and values below give LONG_MIN |
| Numerals.LeadingSpaces | argz.h:352 | `strtol` skips exactly the maximal run of `isspace` characters |
| Numerals.DigitRun | argz.h:352 | the digit run read is all digits and maximal |
| Numerals.IsSpace | argz.h:352 | `isspace` in the "C" locale; a white-space character is neither a digit nor a sign |
| Numerals.NumeralValue | argz.h:352 | `k` decimal digits denote a number below 10^k, and at least 10^(k-1) when the first digit is not 0 |
| Numerals.SignLength | argz.h:352 | the optional sign is one character exactly when the text starts with `+` or `-` |
| Numerals.SignedNumeral | argz.h:352 | after the white space, something is read exactly when at most one sign is followed by a digit; what is read is that sign and a maximal digit run; without it nothing is consumed and the value is 0 |
| Numerals.Strtol | argz.h:349-353 | `strtol(s, &end, 10)` consumes something exactly when the token, after its white space, starts with at most one sign and a digit; it then stops before a non-digit; the value is within `long`; with nothing consumed the value is 0 |
| Numerals.StrtolShape | argz.h:352 | what `strtol` consumes is the white space, at most one sign, then at least one digit and nothing but digits |
| Numerals.Digits | argz.h:324 | the decimal digits of `m`, without leading zeros, denote `m` |
| Numerals.DigitRunOfNumeral | argz.h:352 | the digit run of digits followed by a non-digit is exactly those digits |
| Numerals.StrtolReadsNumeral | argz.h:352 | an optional sign, digits and then a non-digit: `strtol` reads exactly the sign and digits, and gives their value clamped |
| Numerals.SignedNumeralReads | argz.h:352 | the same, once white space is skipped |
| Numerals.Decimal | argz.h:324 | `%d`/`%lu`: a `-` for a negative number, then the digits of its magnitude without leading zeros (for either sign), denoting it |
| Numerals.StrtolDecimal | argz.h:352 | round trip: `strtol` of the decimal rendering of `n`, followed by a non-digit, gives `n` clamped and consumes the whole rendering |
| Numerals.StrtolWithoutNumeral | argz.h:352-353 | a token that after its white space does not start with at most one sign and a digit converts nothing and gives 0 |
| Numerals.StrtolRejects | argz.h:352-353 | "x5", "+-5" and "- 5" contain a digit but have no numeric prefix: nothing is consumed and the value is 0 |
| Numerals.StrtolNoDigits | argz.h:352 | a token without any digit has no numeric prefix: nothing is consumed and the value is 0 |
| Numerals.StrtolSkipsSpace | argz.h:352 | one more leading white-space character changes only the consumed length, and only when a number follows |
| Listing.Spaces | argz.h:242 | `%*s` with width `k` and "" writes exactly `k` spaces |
| Listing.DescText | argz.h:243 | a NULL description shows as "?", any other (the empty one included) as is |
| Listing.MaxNameLen | argz.h:216-230 | the longest name's length: no name is longer, some name has it, 0 for an empty registry |
| Listing.MaxNameLenStep | argz.h:225-229 | one more name updates the maximum only when it is longer |
| Listing.OptionLine | argz.h:241-243 | an option line is `maxlen + 5` characters followed by the description text |
| Listing.OptionLineLayout | argz.h:241-243 | an option line is two spaces, the name, only spaces up to column `maxlen + 5`, then the description text |
| Listing.Lines | argz.h:232-244 | one line per entry, in registration order, each its OptionLine |
| Listing.Listing | argz.h:231-245 | the output is "Options:", one line per entry, then a blank line |
| Listing.ListingLine | argz.h:232-244 | line `i + 1` of the output is entry `i`'s option line, padded for the longest name |
| Listing.ListingAligned | argz.h:215-244 | in the whole listing, every option line starts with two spaces and the name, and its description starts at column 2 + longest name + 3 |
| ParseSpec.ParseFailure | argz.h:344-345 | the conversion panic, with the text "ERROR: Failed to parse option '…'. Expected …, got '…'." |
| ParseSpec.Convert | argz.h:334-367 | a `long` conversion writes `strtol`'s value and a `double` one `strtod`'s value or 0.0, in both cases before the check; each panics with the "Failed to parse option" message exactly when nothing is consumed; a string is stored and never fails; a flag reaches the default case, writes nothing and panics with "type '1' not supported" |
| ParseSpec.Write | argz.h:341 | only the destination slot changes, and only when something is written |
| ParseSpec.LongArgOfDecimal | argz.h:349-358 | a rendered number followed by a non-digit converts to that number, clamped, without a panic |
| ParseSpec.LongArgWithoutDigits | argz.h:349-358 | a token with no numeric prefix writes 0, then panics with "Failed to parse option '…'. Expected long, got '…'." |
| ParseSpec.ScanEntries | argz.h:184-209 | the inner scan consumes at most one token per remaining entry and keeps the store's size; it never aborts; a scan that does not halt leaves a token to read |
| ParseSpec.ParseFrom | argz.h:177-210 | the outer loop ends in Ok or a panic, never an abort, and keeps the store's size |
| ParseSpec.ParseOutcome | argz.h:173-211 | `argz_parse` aborts exactly when the registry is full, leaving the store untouched; otherwise it never aborts |
| ParseSpec.ScanKeepsOthers | argz.h:184-209 | the inner scan writes no slot that is not some entry's destination |
| ParseSpec.ParseKeepsOthers | argz.h:177-210 | the outer loop writes no slot that is not some entry's destination |
| ParseSpec.ParseOutcomeKeepsOthers | argz.h:173-211 | `argz_parse` writes nothing but the destinations of registered options |
| ParseSpec.ScanSkips | argz.h:193-197 | entries whose name differs from the token are passed over without effect |
| ParseSpec.ScanUnmatched | argz.h:184-197 | a token matching no remaining entry ends the scan with nothing written and no token consumed |
| ParseSpec.ScanFlag | argz.h:198-202 | at the first matching entry, a flag writes 1 and stops the scan without consuming a token |
| ParseSpec.ScanValue | argz.h:203-208 | at the first matching entry, a value option converts the next token and the scan continues from the next entry, comparing the original token |
| ParseSpec.ScanValueFails | argz.h:203-208 | a failing conversion writes its value and halts the call with the panic |
| ParseSpec.ScanValueAtEnd | argz.h:203-207 | a value option with no token left returns from the call; its destination is untouched and earlier writes are kept |
| ParseSpec.ParseFlag | argz.h:198-202 | a flag token sets its destination, and the very next token is read as an option |
| ParseSpec.ValueMatches | argz.h:184-209 | the number of tokens a scan can take is at most the number of remaining entries |
| ParseSpec.ScanConsumes | argz.h:184-209 | a scan that does not return has taken exactly one token per value option of the token's name before the first flag of that name, duplicate names included |
| ParseSpec.ParseSkipsValues | argz.h:177-209 | the outer loop resumes after all the tokens those value options took, so none of them is read as an option |
| ParseSpec.ParseValue | argz.h:177-208 | when no later entry has the token's name, a value option converts the next token and the outer loop skips that token, so it is never matched as an option |
| ParseSpec.ParseValueAtEnd | argz.h:203-207 | a value option as the last token ends the call with Ok and the store unchanged |
| ParseSpec.ParseNoOptions | argz.h:177-197 | tokens that equal no registered name leave the store unchanged |
| ParseSpec.ScanIgnoresArgv0 | argz.h:176-177 | the inner scan does not depend on `argv[0]` |
| ParseSpec.ParseFromIgnoresArgv0 | argz.h:176-177 | the outer loop does not depend on `argv[0]` |
| ParseSpec.ParseIgnoresArgv0 | argz.h:176-177 | `argz_parse`'s outcome does not depend on `argv[0]` |
| Argz.Admission | argz.h:307-320 | registration checks in the source's order: a full table aborts first; then a NULL name panics with "option cannot be null", a NULL destination with "value address cannot be null for option '…'" and an empty name with "option cannot be empty"; registration succeeds exactly when all checks pass |
| Argz.ParseArg | argz.h:334-367 | `argz__parse_arg` writes the store and ends as Convert says |
| Argz.Registry.constructor | argz.h:250-292 | the empty registry: all slots NULL or kind 0, no entries |
| Argz.Registry.OptionAt | argz.h:248-260 | get-or-set: writes only a non-NULL name at a position below the capacity; returns the slot, or NULL past the end |
| Argz.Registry.DescAt | argz.h:262-274 | the same for the description table |
| Argz.Registry.ValueAddrAt | argz.h:276-288 | the same for the destination table |
| Argz.Registry.TypeAt | argz.h:290-302 | the same for the kind table, where -1 stands for "no kind" |
| Argz.Registry.Count | argz.h:369-378 | aborts whenever `count` has reached the capacity, even for an increment of 0; otherwise adds the increment and returns the new count |
| Argz.Registry.InitNext | argz.h:304-332 | the outcome is Admission's. On success the entry is appended at slot `count`, `count` grows by one and every other slot is unchanged. On failure nothing changes. The "exceeded" panic is unreachable |
| Argz.Registry.AddDouble | argz.h:153-156 | registers a `double` option as InitNext does |
| Argz.Registry.AddFlag | argz.h:158-161 | registers a flag as InitNext does |
| Argz.Registry.AddLong | argz.h:163-166 | registers a `long` option as InitNext does |
| Argz.Registry.AddString | argz.h:168-171 | registers a string option as InitNext does |
| Argz.Registry.EntryAt | argz.h:186-192 | the name, kind and destination read at a used position are the registered entry's; the NULL abort cannot happen |
| Argz.Registry.ScanEntry | argz.h:186-208 | one round of the inner loop advances ScanEntries by one entry, or ends the scan as ScanEntries does |
| Argz.Registry.ScanRegistry | argz.h:184-209 | the inner loop ends as ScanEntries says, with the same next token, store and halt; the tables are unchanged |
| Argz.Registry.Parse | argz.h:173-211 | `argz_parse` ends and leaves the store as ParseOutcome says; the registry is unchanged |
| Argz.Registry.LongestName | argz.h:215-230 | the first loop of `argz_options_print` computes MaxNameLen |
| Argz.Registry.OptionLines | argz.h:232-244 | the second loop computes Lines |
| Argz.Registry.ListingLines | argz.h:215-245 | the two loops together produce the Listing of the entries |
| Argz.Registry.OptionsPrint | argz.h:213-246 | aborts exactly when the registry is full; otherwise writes exactly the Listing of the entries |
| Scenarios.SizeParsed | argz.h:52-63 | the header's own example: `--size` with token "10" leaves 10 in `size` |
| Scenarios.SizeExample | argz.h:52-63 | the same example expressed with the Registry methods: `Parse` returns Ok and `size` is 10 |
| Scenarios.FullRegistryAborts | argz.h:369-378 | with `ARGZ_COUNT - 1` options parsing works; after one more registration, parsing aborts |
| Scenarios.DuplicateValueOption | argz.h:184-209 | two string options named "-x": `[prog,"-x",v]` writes only the first; `[prog,"-x",v,w]` also gives `w` to the second |
| Scenarios.LongOption | argz.h:203-208 | a `long` option whose token converts without a panic receives that value |
| Scenarios.LongPrefix42 | argz.h:349-358 | "42abc" gives 42 |
| Scenarios.LongPanic | argz.h:349-358 | a `long` option's token without a numeric prefix leaves 0 in the destination and panics |
| Scenarios.LongPanicAbc | argz.h:349-358 | "abc" and "-" as `long` values each leave 0 and panic |
| Scenarios.SizeAfterFlag | argz.h:203-208 | after a flag has been set, "--size" and its value, as the last two tokens, are read as usual |
| Scenarios.FlagThenValue | argz.h:198-208 | a flag consumes no token, so the option after it is read in its turn |
| Scenarios.UnknownTokenIgnored | argz.h:193-197 | an unregistered token, and a following token that matches no name either, leave the store unchanged |
| Scenarios.UnknownTokenTakesNoValue | argz.h:177-208 | an unregistered token takes no value: a registered option right after it is read as an option and receives its own value |
| Scenarios.SizeLast | argz.h:203-208 | "--size" and a token that converts, as the last two tokens, leave the converted value |

Matching of value options: the inner loop of `argz_parse` has no `break` after a value option (argz.h:203-208). It goes on comparing the same token with the remaining entries. So when a name is registered twice, the first entry's value token is followed by another token for the second entry. The model follows the code. "First match wins" holds only when no further token is left (`Scenarios.DuplicateValueOption`).

Full registry: because `argz__count` aborts once `count` has reached `ARGZ_COUNT`, at most `ARGZ_COUNT - 1` options can be used by `argz_parse` and `argz_options_print`.

## Left out

- `strtod` (argz.h:339-347): floating-point parsing is a parameter of type `string -> Option<real>`. `None` means nothing was consumed, so 0.0 is written and the call panics. Its numeric semantics are not modelled.
- `printf`/`fprintf` output and `exit`/`abort`: the outcome is a `Status` value, and the listing is a sequence of lines without their newline characters.
- NULL entries of `argv` (argz.h:180-183): Dafny strings cannot be NULL.
- The `abort()` calls for a NULL name or destination in a used slot (argz.h:189-192, 221-224, 237-240): they are proved unreachable under `Registry.Valid()` and are not modelled as outcomes.
- The `default` case for an unknown kind (argz.h:364-365): kinds are a datatype, so only a flag, which `argz_parse` never passes, can reach it.
- Names and tokens that are not plain byte strings: a name containing NUL, or a multi-byte UTF-8 character that `strlen` counts as several bytes, is not modelled; `Listing` pads by characters.
- Argz.ParseArg: a string destination receives the token's text, not a pointer aliasing `argv`.
- Numerals.Strtol: `long` is taken as 64 bits wide (LP64). The base-10 path of a locale other than "C" is not modelled.
- The example program under `#if 0` (argz.h:73-111) and the linkage macros `ARGZ_STATIC`, `ARGZ_CDEC` and `ARGZ_CDEF`: they are build plumbing.
- The C destination pointers are indices into a caller-owned store, so type punning through `void *` is not modelled.
