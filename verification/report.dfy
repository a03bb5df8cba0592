/** The printed report: a header line and one fixed-width line per bond, and
    the currency-symbol stripping applied to each value before it is summed. */
module Report {
  import opened Wrappers
  import opened Text
  import opened FixedWidth
  import opened FormatSpec
  import opened Bonds
  import opened Decimal

  /** The row template every report line is formatted with (written in two
      halves only to keep each literal short for the verifier). */
  const TableFormat: string := "{:10} {:6} {:6} {:10} {:11} " + "{:13} {:10} {:8} {:12} {:5}"

  /** Minimum widths of the ten columns, in field order. */
  const Widths: seq<nat> := [10, 6, 6, 10, 11, 13, 10, 8, 12, 5]

  /** Column titles of the header line, in field order. */
  const Labels: seq<string> := ["Serial", "Series", "Denom", "IssueDate", "NextAccrual",
                                "FinalMaturity", "IssuePrice", "Interest", "InterestRate", "Value"]

  /** The template is the row template of the column widths. */
  lemma TableFormatColumns()
    ensures |Widths| == FieldCount
    ensures TableFormat == RowTemplate(Widths)
    ensures ParseFormat(TableFormat) == Some(RowPieces(Widths))
  {
    TableFormatIsTemplate();
    WidthsPositive();
    ParseRowTemplate(Widths);
  }

  /** No column has width zero. */
  lemma WidthsPositive()
    ensures forall i :: 0 <= i < |Widths| ==> Widths[i] > 0
  {
  }

  /** The template text, evaluated: each half of the literal is the row
      template of five of the columns. */
  lemma TableFormatIsTemplate()
    ensures TableFormat == RowTemplate(Widths)
  {
    RowTemplateSplit(Widths, 5);
    assert Widths[..5] == [10, 6, 6, 10, 11];
    assert Widths[5..] == [13, 10, 8, 12, 5];
    TemplateFirstHalf();
    TemplateSecondHalf();
    assert "{:10} {:6} {:6} {:10} {:11}" + " " == "{:10} {:6} {:6} {:10} {:11} ";
  }

  /** The replacement fields of the widths the table uses. */
  lemma FieldSpecLiterals()
    ensures FieldSpec(5) == "{:5}" && FieldSpec(6) == "{:6}" && FieldSpec(8) == "{:8}"
    ensures FieldSpec(10) == "{:10}" && FieldSpec(11) == "{:11}"
    ensures FieldSpec(12) == "{:12}" && FieldSpec(13) == "{:13}"
  {
    assert ShowNat(10) == "10" && ShowNat(11) == "11";
    assert ShowNat(12) == "12" && ShowNat(13) == "13";
  }

  /** The first five columns of the template. */
  lemma TemplateFirstHalf()
    ensures RowTemplate([10, 6, 6, 10, 11]) == "{:10} {:6} {:6} {:10} {:11}"
  {
    RowTemplateOfFive([10, 6, 6, 10, 11]);
    FieldSpecLiterals();
    FirstHalfText();
  }

  lemma FirstHalfText()
    ensures "{:10}" + " " + ("{:6}" + " " + ("{:6}" + " " + ("{:10}" + " " + "{:11}")))
         == "{:10} {:6} {:6} {:10} {:11}"
  {
  }

  /** The last five columns of the template. */
  lemma TemplateSecondHalf()
    ensures RowTemplate([13, 10, 8, 12, 5]) == "{:13} {:10} {:8} {:12} {:5}"
  {
    RowTemplateOfFive([13, 10, 8, 12, 5]);
    FieldSpecLiterals();
    SecondHalfText();
  }

  lemma SecondHalfText()
    ensures "{:13}" + " " + ("{:10}" + " " + ("{:8}" + " " + ("{:12}" + " " + "{:5}")))
         == "{:13} {:10} {:8} {:12} {:5}"
  {
  }

  /** A five-column row template, unfolded. */
  lemma RowTemplateOfFive(ws: seq<nat>)
    requires |ws| == 5
    ensures RowTemplate(ws) == FieldSpec(ws[0]) + " " + (FieldSpec(ws[1]) + " "
                               + (FieldSpec(ws[2]) + " "
                               + (FieldSpec(ws[3]) + " " + FieldSpec(ws[4]))))
  {
    assert ws[1..][1..] == ws[2..] && ws[2..][1..] == ws[3..] && ws[3..][1..] == ws[4..];
    assert RowTemplate(ws[4..]) == FieldSpec(ws[4]);
    assert RowTemplate(ws[3..]) == FieldSpec(ws[3]) + " " + RowTemplate(ws[4..]);
    assert RowTemplate(ws[2..]) == FieldSpec(ws[2]) + " " + RowTemplate(ws[3..]);
    assert RowTemplate(ws[1..]) == FieldSpec(ws[1]) + " " + RowTemplate(ws[2..]);
  }

  /** `TableFormat.format(*fields)` for ten text fields: each left-justified
      and blank-filled to its column width, never cut, joined by single
      blanks. */
  function FormatRow(fields: seq<string>): (line: string)
    requires |fields| == FieldCount
    ensures |line| == 9 + PaddedTotal(fields, Widths)
  {
    Render(fields, Widths)
  }

  /** `FormatRow` is what Python's `str.format` makes of the template and
      ten fields. */
  lemma FormatRowIsTemplate(fields: seq<string>)
    requires |fields| == FieldCount
    ensures Format(TableFormat, fields) == Some(FormatRow(fields))
  {
    TableFormatColumns();
    ApplyRow(Widths, fields);
    assert fields[..|Widths|] == fields;
  }

  /** Formatting the template with fewer than ten arguments fails, as
      Python's `IndexError` does. */
  lemma FormatTooFewFields(args: seq<string>)
    requires |args| < FieldCount
    ensures Format(TableFormat, args) == None
  {
    TableFormatColumns();
    ApplyRowTooFew(Widths, args);
  }

  /** The report line of one bond. */
  function PrintBond(b: BondData): string
  {
    FormatRow(Fields(b))
  }

  /** The header line: the column titles formatted like a bond line. */
  function HeaderLine(): string
  {
    FormatRow(Labels)
  }

  /** A bond line is what Python's `str.format` makes of the template and
      the bond's ten fields in declared order. */
  lemma PrintBondIsFormat(b: BondData)
    ensures Format(TableFormat, Fields(b)) == Some(PrintBond(b))
  {
    FormatRowIsTemplate(Fields(b));
  }

  /** The header line is what Python's `str.format` makes of the template
      and the ten column titles. */
  lemma HeaderLineIsFormat()
    ensures Format(TableFormat, Labels) == Some(HeaderLine())
  {
    FormatRowIsTemplate(Labels);
  }

  /** Every title fits its column exactly or with room to spare, so the
      header is exactly as wide as the columns and separators and reads back
      as the titles. */
  lemma HeaderLineShape()
    ensures |HeaderLine()| == 100
    ensures Columns(HeaderLine(), Widths) == Some(Labels)
  {
    LabelsFit();
    LabelsWidth();
    ColumnsRender(Labels, Widths);
  }

  /** Each title is at most as long as its column is wide and has no
      trailing blank. */
  lemma LabelsFit()
    ensures Fits(Labels, Widths)
  {
    FitsByColumn(Labels, Widths);
  }

  /** The header is as wide as the ten columns: 91 characters. */
  lemma LabelsWidth()
    ensures PaddedTotal(Labels, Widths) == 91
  {
  }

  /** The whole table: the header, then one line per bond in the order given.
      The sort key is accepted and ignored. */
  function PrintBonds<K>(bonds: seq<BondData>, sortKey: Option<K>): (lines: seq<string>)
    ensures |lines| == |bonds| + 1
    ensures lines[0] == HeaderLine()
    ensures lines[1..] == BondLines(bonds)
  {
    [HeaderLine()] + BondLines(bonds)
  }

  /** One line per bond, in the order given. */
  function BondLines(bonds: seq<BondData>): (lines: seq<string>)
    ensures |lines| == |bonds|
    ensures forall i :: 0 <= i < |bonds| ==> lines[i] == PrintBond(bonds[i])
  {
    if bonds == [] then []
    else BondLines(bonds[..|bonds| - 1]) + [PrintBond(bonds[|bonds| - 1])]
  }

  /** The sort key has no effect on the table. */
  lemma PrintBondsIgnoresSortKey<K>(bonds: seq<BondData>, k1: Option<K>, k2: Option<K>)
    ensures PrintBonds(bonds, k1) == PrintBonds(bonds, k2)
  {
  }

  /** A report line read back as a record. */
  function ParseBondLine(line: string): (r: Option<BondData>)
  {
    match Columns(line, Widths)
    case Some(cells) => Some(FromFields(cells))
    case None => None
  }

  /** Report lines after the header read back as records, in order. */
  function ParseBondLines(lines: seq<string>): (r: Option<seq<BondData>>)
    ensures r.Some? ==> |r.value| == |lines|
  {
    if lines == [] then Some([])
    else
      match (ParseBondLines(lines[..|lines| - 1]), ParseBondLine(lines[|lines| - 1]))
      case (Some(init), Some(last)) => Some(init + [last])
      case _ => None
  }

  /** A printed table read back: the header line, then the bonds. */
  function ParseReport(lines: seq<string>): (r: Option<seq<BondData>>)
    ensures r.Some? ==> |r.value| == |lines| - 1
  {
    if lines == [] || lines[0] != HeaderLine() then None
    else ParseBondLines(lines[1..])
  }

  /** True when every field of the record can be read back from its line. */
  predicate Readable(b: BondData)
  {
    Fits(Fields(b), Widths)
  }

  /** A bond line reads back as its record. */
  lemma ParsePrintBond(b: BondData)
    requires Readable(b)
    ensures ParseBondLine(PrintBond(b)) == Some(b)
  {
    ColumnsRender(Fields(b), Widths);
    FromFieldsOfFields(b);
  }

  /** The printed table reads back as exactly the bonds it was printed from,
      in the same order, when every bond is readable. */
  lemma ParsePrintBonds<K>(bonds: seq<BondData>, sortKey: Option<K>)
    requires forall i :: 0 <= i < |bonds| ==> Readable(bonds[i])
    ensures ParseReport(PrintBonds(bonds, sortKey)) == Some(bonds)
  {
    var lines := PrintBonds(bonds, sortKey);
    assert lines[1..] == BondLines(bonds);
    ParseBondLinesRoundTrip(bonds);
  }

  /** The bond lines read back as the bonds, in order. */
  lemma {:induction false} ParseBondLinesRoundTrip(bonds: seq<BondData>)
    requires forall i :: 0 <= i < |bonds| ==> Readable(bonds[i])
    ensures ParseBondLines(BondLines(bonds)) == Some(bonds)
  {
    forall i | 0 <= i < |bonds|
      ensures ParseBondLine(PrintBond(bonds[i])) == Some(bonds[i])
    {
      ParsePrintBond(bonds[i]);
    }
    ParseLinesEach(BondLines(bonds), bonds);
  }

  /** Lines that each read back as a record read back, together, as those
      records in order. */
  lemma {:induction false} ParseLinesEach(lines: seq<string>, bonds: seq<BondData>)
    requires |lines| == |bonds|
    requires forall i :: 0 <= i < |lines| ==> ParseBondLine(lines[i]) == Some(bonds[i])
    ensures ParseBondLines(lines) == Some(bonds)
  {
    if lines != [] {
      var n := |lines| - 1;
      ParseLinesEach(lines[..n], bonds[..n]);
      ParseBondLinesSnoc(lines[..n], lines[n], bonds[..n], bonds[n]);
      assert lines[..n] + [lines[n]] == lines;
      assert bonds[..n] + [bonds[n]] == bonds;
    }
  }

  /** Reading back one more line appends its record. */
  lemma ParseBondLinesSnoc(prefix: seq<string>, line: string, init: seq<BondData>, last: BondData)
    requires ParseBondLines(prefix) == Some(init) && ParseBondLine(line) == Some(last)
    ensures ParseBondLines(prefix + [line]) == Some(init + [last])
  {
    var lines := prefix + [line];
    assert lines[..|lines| - 1] == prefix;
  }

  /** The amount summed for a bond: its value with every leading and trailing
      `$` removed. */
  function ValueAmount(b: BondData): (amount: string)
    ensures StrippedOf(amount, b.value, '$')
  {
    Strip(b.value, '$')
  }

  /** A value written as `$` then an amount that does not itself begin or
      end with `$` yields that amount. */
  lemma ValueAmountOfDollars(b: BondData, amount: string)
    requires Trimmed(amount, '$')
    requires b.value == "$" + amount
    ensures ValueAmount(b) == amount
  {
    assert b.value == Repeat('$', 1) + amount + Repeat('$', 0);
    StripPadded('$', 1, amount, 0);
  }
}
