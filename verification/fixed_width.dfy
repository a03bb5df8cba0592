/** Fixed-width text columns as Python's `"{:N}".format(s)` lays them out for
    a string `s`: left-justified, filled with spaces up to a minimum width `N`,
    never truncated. */
module FixedWidth {
  import opened Wrappers
  import opened Text

  function Max(a: int, b: int): int
  {
    if a < b then b else a
  }

  /** `s` left-justified in a field of at least `width` characters. */
  function Pad(s: string, width: nat): (r: string)
    ensures |r| == Max(|s|, width)
    ensures r[..|s|] == s
    ensures forall i :: |s| <= i < |r| ==> r[i] == ' '
  {
    if |s| < width then s + Repeat(' ', width - |s|) else s
  }

  /** Sum over the columns of the width each padded field takes. */
  function PaddedTotal(fields: seq<string>, widths: seq<nat>): nat
    requires |fields| == |widths|
  {
    if fields == [] then 0
    else Max(|fields[0]|, widths[0]) + PaddedTotal(fields[1..], widths[1..])
  }

  /** The fields, each padded to its column width, joined by single spaces. */
  function Render(fields: seq<string>, widths: seq<nat>): (r: string)
    requires |fields| == |widths| > 0
    ensures |r| == |fields| - 1 + PaddedTotal(fields, widths)
  {
    var head := Pad(fields[0], widths[0]);
    if |fields| == 1 then head
    else head + " " + Render(fields[1..], widths[1..])
  }

  /** True when `field` does not end in a blank, so that stripping the
      padding blanks after it gives it back. */
  predicate NoTrailingBlank(field: string)
  {
    field == [] || field[|field| - 1] != ' '
  }

  /** A field has no trailing blank exactly when stripping trailing blanks
      leaves it unchanged. */
  lemma NoTrailingBlankIsStripped(field: string)
    ensures NoTrailingBlank(field) <==> RStrip(field, ' ') == field
  {
  }

  /** Fields that can be read back from their rendering: none ends in a
      blank, and every field but the last fits its column, so the columns
      after it start where their widths say. The last field may be longer
      than its width. */
  predicate Fits(fields: seq<string>, widths: seq<nat>)
    requires |fields| == |widths|
  {
    fields == [] ||
    (&& NoTrailingBlank(fields[0])
     && (|fields| > 1 ==> |fields[0]| <= widths[0])
     && Fits(fields[1..], widths[1..]))
  }

  /** `Fits`, stated column by column. */
  lemma {:induction false} FitsByColumn(fields: seq<string>, widths: seq<nat>)
    requires |fields| == |widths|
    requires forall i :: 0 <= i < |fields| ==>
               NoTrailingBlank(fields[i]) && (i < |fields| - 1 ==> |fields[i]| <= widths[i])
    ensures Fits(fields, widths)
  {
    if fields != [] {
      FitsByColumn(fields[1..], widths[1..]);
    }
  }

  /** Reads a fixed-width line back into its columns: every column but the
      last is cut at its width and must be followed by the separating blank;
      trailing blanks are dropped from each column. */
  function Columns(line: string, widths: seq<nat>): (r: Option<seq<string>>)
    requires |widths| > 0
    ensures r.Some? ==> |r.value| == |widths|
  {
    if |widths| == 1 then Some([RStrip(line, ' ')])
    else if |line| <= widths[0] || line[widths[0]] != ' ' then None
    else
      match Columns(line[widths[0] + 1..], widths[1..])
      case None => None
      case Some(rest) => Some([RStrip(line[..widths[0]], ' ')] + rest)
  }

  /** The blanks padding adds can be stripped again. */
  lemma StripPad(field: string, width: nat)
    requires NoTrailingBlank(field)
    ensures RStrip(Pad(field, width), ' ') == field
  {
    var extra := if |field| < width then width - |field| else 0;
    assert Pad(field, width) == field + Repeat(' ', extra);
    RStripPadded(' ', field, extra);
  }

  /** Reading a rendered line back recovers its fields when every field fits
      its column. */
  lemma {:induction false} ColumnsRender(fields: seq<string>, widths: seq<nat>)
    requires |fields| == |widths| > 0
    requires Fits(fields, widths)
    ensures Columns(Render(fields, widths), widths) == Some(fields)
  {
    var head := Pad(fields[0], widths[0]);
    StripPad(fields[0], widths[0]);
    if |fields| > 1 {
      ColumnsRender(fields[1..], widths[1..]);
      ColumnsCons(head, Render(fields[1..], widths[1..]), widths, fields[1..]);
      assert [fields[0]] + fields[1..] == fields;
    } else {
      assert [fields[0]] == fields;
    }
  }

  /** A column of exactly its width, a blank, and a line that reads back as
      the remaining columns read back as that column followed by them. */
  lemma ColumnsCons(head: string, tail: string, widths: seq<nat>, rest: seq<string>)
    requires |widths| > 1 && |head| == widths[0]
    requires Columns(tail, widths[1..]) == Some(rest)
    ensures Columns(head + " " + tail, widths) == Some([RStrip(head, ' ')] + rest)
  {
    var line := head + " " + tail;
    assert line[widths[0]] == ' ';
    assert line[..widths[0]] == head;
    assert line[widths[0] + 1..] == tail;
  }
}
