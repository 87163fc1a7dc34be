/** The text argz_options_print writes to stdout, one string per line. */
module Listing {
  import opened ArgzTypes

  /** What `printf("%*s", k, "")` writes: `k` spaces. */
  function Spaces(k: nat): (r: string)
    ensures |r| == k
    ensures forall i :: 0 <= i < k ==> r[i] == ' '
  {
    seq(k, _ => ' ')
  }

  /** A NULL description is shown as "?"; any other one, the empty one included, as is. */
  function DescText(desc: Option<string>): (r: string)
    ensures desc.None? ==> r == "?"
    ensures desc.Some? ==> r == desc.value
  {
    match desc
    case None => "?"
    case Some(d) => d
  }

  /** The length of the longest option name (0 for an empty registry), as the first
      loop of argz_options_print accumulates it in registration order. */
  function MaxNameLen(es: seq<Entry>): (m: nat)
    ensures forall i :: 0 <= i < |es| ==> |es[i].name| <= m
    ensures es == [] ==> m == 0
    ensures es != [] ==> exists i :: 0 <= i < |es| && |es[i].name| == m
  {
    if es == [] then 0
    else
      var m := MaxNameLen(es[..|es| - 1]);
      var len := |es[|es| - 1].name|;
      if len > m then len else m
  }

  /** Taking one more entry into account: the longest name so far, or the new one when
      it is longer. */
  lemma MaxNameLenStep(es: seq<Entry>, i: nat)
    requires i < |es|
    ensures MaxNameLen(es[..i + 1])
         == if |es[i].name| > MaxNameLen(es[..i]) then |es[i].name| else MaxNameLen(es[..i])
  {
    assert es[..i + 1][..i] == es[..i];
  }

  /** One option line: two spaces, the name, a space, `maxLen - |name| + 1` spaces of
      padding, a space and the description. The description starts at column
      `maxLen + 5` whatever the name's length. */
  function OptionLine(name: string, desc: Option<string>, maxLen: nat): (line: string)
    requires |name| <= maxLen
    ensures |line| == maxLen + 5 + |DescText(desc)|
  {
    "  " + name + " " + Spaces(maxLen - |name| + 1) + " " + DescText(desc)
  }

  /** The layout of an option line: two spaces and the name, nothing but spaces up to
      column `maxLen + 5`, then the description text. */
  lemma OptionLineLayout(name: string, desc: Option<string>, maxLen: nat)
    requires |name| <= maxLen
    ensures OptionLine(name, desc, maxLen)[..2] == "  "
    ensures OptionLine(name, desc, maxLen)[2..2 + |name|] == name
    ensures forall k :: 2 + |name| <= k < maxLen + 5 ==> OptionLine(name, desc, maxLen)[k] == ' '
    ensures OptionLine(name, desc, maxLen)[maxLen + 5..] == DescText(desc)
  {
    var pad := Spaces(maxLen - |name| + 1);
    var line := "  " + name + " " + pad + " " + DescText(desc);
    assert line == ("  " + name) + (" " + pad + " ") + DescText(desc);
    assert forall k :: 2 + |name| <= k < maxLen + 5 ==> line[k] == (" " + pad + " ")[k - 2 - |name|];
  }

  /** The option lines for `es` in registration order, padded for width `maxLen`. */
  function Lines(es: seq<Entry>, maxLen: nat): (lines: seq<string>)
    requires forall i :: 0 <= i < |es| ==> |es[i].name| <= maxLen
    ensures |lines| == |es|
    ensures forall i {:trigger lines[i]} :: 0 <= i < |es| ==> lines[i] == OptionLine(es[i].name, es[i].desc, maxLen)
  {
    if es == [] then []
    else
      var last := es[|es| - 1];
      Lines(es[..|es| - 1], maxLen) + [OptionLine(last.name, last.desc, maxLen)]
  }

  /** Everything argz_options_print writes for the registry `es`: a header line, one
      line per option and a blank line. */
  function Listing(es: seq<Entry>): (out: seq<string>)
    ensures |out| == |es| + 2
    ensures out[0] == "Options:" && out[|es| + 1] == ""
  {
    ["Options:"] + Lines(es, MaxNameLen(es)) + [""]
  }

  /** Line `i + 1` of the listing is entry `i`'s option line, padded for the longest name. */
  lemma {:induction false} ListingLine(es: seq<Entry>, i: nat)
    requires i < |es|
    ensures Listing(es)[i + 1] == OptionLine(es[i].name, es[i].desc, MaxNameLen(es))
  {
    var lines := Lines(es, MaxNameLen(es));
    var out := ["Options:"] + lines + [""];
    assert out[i + 1] == lines[i];
    assert Listing(es) == out;
  }

  /** Every option line of the listing starts with two spaces and the option's name, and
      its description (or "?") starts at the same column, two plus the longest name's
      length plus three, after nothing but spaces. */
  lemma ListingAligned(es: seq<Entry>, i: nat)
    requires i < |es|
    ensures Listing(es)[i + 1][..2] == "  "
    ensures Listing(es)[i + 1][2..2 + |es[i].name|] == es[i].name
    ensures var line := Listing(es)[i + 1];
            forall k :: 2 + |es[i].name| <= k < MaxNameLen(es) + 5 ==> line[k] == ' '
    ensures Listing(es)[i + 1][MaxNameLen(es) + 5..] == DescText(es[i].desc)
  {
    ListingLine(es, i);
    OptionLineLayout(es[i].name, es[i].desc, MaxNameLen(es));
  }
}
