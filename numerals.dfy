/** Base-10 `strtol`, as argz__parse_arg uses it for `long` options (ISO C11
    section 7.22.1.4), and the decimal rendering of integers. `long` is 64 bits wide. */
module Numerals {

  const LongMin: int := -0x8000_0000_0000_0000
  const LongMax: int := 0x7FFF_FFFF_FFFF_FFFF

  /** `isspace` in the "C" locale. White space never starts a numeral. */
  predicate IsSpace(c: char): (b: bool)
    ensures b ==> !IsDigit(c) && c != '+' && c != '-'
  {
    c == ' ' || c == '\t' || c == '\n' || c == '\U{000B}' || c == '\U{000C}' || c == '\r'
  }

  predicate IsDigit(c: char)
  {
    '0' <= c <= '9'
  }

  predicate AllDigits(ds: string)
  {
    forall i :: 0 <= i < |ds| ==> IsDigit(ds[i])
  }

  function DigitValue(c: char): (d: nat)
    requires IsDigit(c)
    ensures d < 10
  {
    c as int - '0' as int
  }

  function DigitChar(d: nat): (c: char)
    requires d < 10
    ensures IsDigit(c) && DigitValue(c) == d
  {
    ('0' as int + d) as char
  }

  /** Number of white-space characters `strtol` skips at the start of `s`. */
  function LeadingSpaces(s: string): (n: nat)
    ensures n <= |s|
    ensures forall i :: 0 <= i < n ==> IsSpace(s[i])
    ensures n < |s| ==> !IsSpace(s[n])
  {
    if s != [] && IsSpace(s[0]) then 1 + LeadingSpaces(s[1..]) else 0
  }

  /** Length of the longest run of decimal digits at the start of `s`. */
  function DigitRun(s: string): (n: nat)
    ensures n <= |s|
    ensures AllDigits(s[..n])
    ensures n < |s| ==> !IsDigit(s[n])
  {
    if s != [] && IsDigit(s[0]) then
      var k := DigitRun(s[1..]);
      assert s[..1 + k] == [s[0]] + s[1..][..k];
      1 + k
    else 0
  }

  function Pow10(k: nat): (p: nat)
    ensures p >= 1
  {
    if k == 0 then 1 else 10 * Pow10(k - 1)
  }

  /** The number a string of decimal digits denotes, most significant digit first:
      `k` digits denote less than 10^k, and at least 10^(k-1) without a leading zero. */
  function NumeralValue(ds: string): (v: nat)
    requires AllDigits(ds)
    ensures v < Pow10(|ds|)
    ensures |ds| > 0 && ds[0] != '0' ==> Pow10(|ds| - 1) <= v
  {
    if ds == [] then 0 else NumeralValue(ds[..|ds| - 1]) * 10 + DigitValue(ds[|ds| - 1])
  }

  /** The clamping `strtol` does on overflow (it returns LONG_MIN or LONG_MAX). */
  function Clamp(v: int): (r: int)
    ensures LongMin <= r <= LongMax
    ensures LongMin <= v <= LongMax ==> r == v
    ensures v > LongMax ==> r == LongMax
    ensures v < LongMin ==> r == LongMin
  {
    if v > LongMax then LongMax else if v < LongMin then LongMin else v
  }

  /** The result of `strtol(s, &end, 10)`: the returned value and `end - s`. */
  datatype Conversion = Conversion(value: int, consumed: nat)

  /** Length of the optional `+` or `-` that `strtol` accepts before the digits. */
  function SignLength(s: string): (n: nat)
    ensures n <= 1 && n <= |s|
    ensures n == 1 <==> 0 < |s| && (s[0] == '+' || s[0] == '-')
  {
    if 0 < |s| && (s[0] == '+' || s[0] == '-') then 1 else 0
  }

  /** `s` starts with a numeral: at most one sign, then a decimal digit. */
  predicate StartsNumeral(s: string)
  {
    SignLength(s) < |s| && IsDigit(s[SignLength(s)])
  }

  /** The sign and digits `strtol` reads once white space is skipped: an optional
      `+` or `-`, then the longest run of decimal digits; nothing without a digit. */
  function SignedNumeral(s: string): (r: Conversion)
    ensures r.consumed <= |s|
    ensures LongMin <= r.value <= LongMax
    ensures r.consumed > 0 <==> StartsNumeral(s)
    ensures r.consumed == 0 ==> r.value == 0
    ensures r.consumed > 0 ==> SignLength(s) < r.consumed && AllDigits(s[SignLength(s)..r.consumed])
    ensures r.consumed > 0 ==> r.consumed == |s| || !IsDigit(s[r.consumed])
  {
    var start := SignLength(s);
    var d := DigitRun(s[start..]);
    if d == 0 then Conversion(0, 0)
    else
      assert s[start..][d - 1] == s[start + d - 1];
      assert s[start..start + d] == s[start..][..d];
      var magnitude: int := NumeralValue(s[start..start + d]);
      Conversion(Clamp(if start == 1 && s[0] == '-' then -magnitude else magnitude), start + d)
  }

  /** A run of digits in a suffix of `s` is the same run of digits in `s`. */
  lemma DigitsOfSuffix(s: string, w: nat, a: nat, b: nat)
    requires w <= |s| && a <= b <= |s| - w
    requires AllDigits(s[w..][a..b])
    ensures AllDigits(s[w + a..w + b])
  {
    assert s[w..][a..b] == s[w + a..w + b];
  }

  /** `strtol(s, &end, 10)`: skip white space, read an optional sign and the longest
      run of decimal digits. With no digits nothing is consumed and 0 is returned. */
  function Strtol(s: string): (r: Conversion)
    ensures r.consumed <= |s|
    ensures LongMin <= r.value <= LongMax
    ensures r.consumed > 0 <==> StartsNumeral(s[LeadingSpaces(s)..])
    ensures r.consumed == 0 ==> r.value == 0
    ensures r.consumed > 0 ==> r.consumed == |s| || !IsDigit(s[r.consumed])
  {
    var w := LeadingSpaces(s);
    var t := s[w..];
    var n := SignedNumeral(t);
    if n.consumed == 0 then n
    else
      assert w + n.consumed < |s| ==> t[n.consumed] == s[w + n.consumed];
      Conversion(n.value, w + n.consumed)
  }

  /** What `strtol` consumes, when it consumes anything: the white space before `t`, at
      most one sign, then only digits. */
  lemma StrtolShape(s: string, w: nat, t: string)
    requires w == LeadingSpaces(s) && t == s[w..]
    requires Strtol(s).consumed > 0
    ensures w + SignLength(t) < Strtol(s).consumed
    ensures AllDigits(s[w + SignLength(t)..Strtol(s).consumed])
  {
    var n := SignedNumeral(t);
    assert Strtol(s).consumed == w + n.consumed;
    DigitsOfSuffix(s, w, SignLength(t), n.consumed);
  }

  /** Decimal digits of `m`, without leading zeros; the inverse of NumeralValue. */
  function Digits(m: nat): (ds: string)
    ensures |ds| > 0 && AllDigits(ds)
    ensures NumeralValue(ds) == m
    ensures |ds| > 1 ==> ds[0] != '0'
  {
    if m < 10 then [DigitChar(m)]
    else
      var ds := Digits(m / 10) + [DigitChar(m % 10)];
      assert ds[..|ds| - 1] == Digits(m / 10);
      ds
  }

  /** `%d` / `%lu` formatting of an integer: a `-` for a negative number, then the
      digits of its magnitude without leading zeros. */
  function Decimal(n: int): (s: string)
    ensures |s| > 0
    ensures n >= 0 ==> AllDigits(s) && NumeralValue(s) == n
    ensures n < 0 ==> s[0] == '-' && AllDigits(s[1..]) && NumeralValue(s[1..]) == -n
    ensures |s| > 1 && s[0] != '-' ==> s[0] != '0'
    ensures n < 0 ==> |s| == 2 || s[1] != '0'
  {
    if n < 0 then "-" + Digits(-n) else Digits(n)
  }

  lemma {:induction false} DigitRunOfNumeral(ds: string, t: string)
    requires AllDigits(ds)
    requires t == [] || !IsDigit(t[0])
    ensures DigitRun(ds + t) == |ds|
  {
    if ds != [] {
      assert (ds + t)[1..] == ds[1..] + t;
      DigitRunOfNumeral(ds[1..], t);
    }
  }

  /** A numeral with an optional sign, followed by anything that does not start with a
      digit: `strtol` reads exactly the numeral and ignores the rest ("42abc" gives 42). */
  lemma {:induction false} StrtolReadsNumeral(sign: string, ds: string, t: string)
    requires sign == "" || sign == "+" || sign == "-"
    requires |ds| > 0 && AllDigits(ds)
    requires t == [] || !IsDigit(t[0])
    ensures Strtol(sign + ds + t)
         == Conversion(Clamp(if sign == "-" then -(NumeralValue(ds) as int) else NumeralValue(ds)), |sign| + |ds|)
  {
    var s := sign + ds + t;
    assert s[0] == if sign == "" then ds[0] else sign[0];
    assert !IsSpace(s[0]);
    assert LeadingSpaces(s) == 0;
    assert s[0..] == s;
    SignedNumeralReads(sign, ds, t);
  }

  lemma {:induction false} SignedNumeralReads(sign: string, ds: string, t: string)
    requires sign == "" || sign == "+" || sign == "-"
    requires |ds| > 0 && AllDigits(ds)
    requires t == [] || !IsDigit(t[0])
    ensures SignedNumeral(sign + ds + t)
         == Conversion(Clamp(if sign == "-" then -(NumeralValue(ds) as int) else NumeralValue(ds)), |sign| + |ds|)
  {
    var s := sign + ds + t;
    var start := |sign|;
    assert SignLength(s) == start && (sign == "-" <==> start == 1 && s[0] == '-') by {
      if sign == "" {
        assert s[0] == ds[0];
      } else {
        assert s[0] == sign[0];
      }
    }
    assert DigitRun(s[start..]) == |ds| && s[start..start + |ds|] == ds by {
      assert s == sign + (ds + t);
      assert s[start..] == ds + t;
      DigitRunOfNumeral(ds, t);
    }
  }

  /** Round trip: `strtol` of the decimal rendering of `n`, followed by any text that does
      not start with a digit, gives back `n`, clamped to the range of `long`. */
  lemma StrtolDecimal(n: int, t: string)
    requires t == [] || !IsDigit(t[0])
    ensures Strtol(Decimal(n) + t) == Conversion(Clamp(n), |Decimal(n)|)
  {
    var ds := Digits(if n < 0 then -n else n);
    var sign := if n < 0 then "-" else "";
    StrtolReadsNumeral(sign, ds, t);
    assert sign + ds == Decimal(n);
  }

  /** No numeral after the white space (a letter, a second sign, a sign alone): nothing
      is consumed and 0 is returned, so argz__parse_arg panics. */
  lemma StrtolWithoutNumeral(s: string)
    requires !StartsNumeral(s[LeadingSpaces(s)..])
    ensures Strtol(s) == Conversion(0, 0)
  {
  }

  /** A string without any digit has no numeric prefix: nothing is consumed and 0 is
      returned ("abc" or "-", say). */
  lemma StrtolNoDigits(s: string)
    requires forall i :: 0 <= i < |s| ==> !IsDigit(s[i])
    ensures Strtol(s) == Conversion(0, 0)
  {
  }

  /** Tokens that contain digits but do not start with a numeral: "x5", "+-5", "- 5". */
  lemma {:induction false} StrtolRejects()
    ensures Strtol("x5") == Conversion(0, 0)
    ensures Strtol("+-5") == Conversion(0, 0)
    ensures Strtol("- 5") == Conversion(0, 0)
  {
    assert LeadingSpaces("x5") == 0 && "x5"[0..] == "x5";
    assert LeadingSpaces("+-5") == 0 && "+-5"[0..] == "+-5";
    assert LeadingSpaces("- 5") == 0 && "- 5"[0..] == "- 5";
    StrtolWithoutNumeral("x5");
    StrtolWithoutNumeral("+-5");
    StrtolWithoutNumeral("- 5");
  }

  /** Leading white space is skipped: it only lengthens what is consumed, and only when
      a number follows it. */
  lemma {:induction false} StrtolSkipsSpace(c: char, s: string)
    requires IsSpace(c)
    ensures var r := Strtol(s);
            Strtol([c] + s) == if r.consumed == 0 then r else Conversion(r.value, r.consumed + 1)
  {
    var cs := [c] + s;
    assert cs[1..] == s;
    assert LeadingSpaces(cs) == 1 + LeadingSpaces(s);
    assert cs[1 + LeadingSpaces(s)..] == s[LeadingSpaces(s)..];
  }
}
