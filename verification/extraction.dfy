/** Reading one valuation record out of the pricing service's result table.

    The HTML parser is not part of this model: a page is represented by the
    texts of the `td` cells of each `tr` row of its `bnddata` table (a header
    row of `th` cells is a row with no cells), or by `None` when the page has
    no body or no such table. */
module Extraction {
  import opened Wrappers
  import opened Bonds

  /** The `td` cell texts of the result table, one sequence per `tr` row. */
  type Table = seq<seq<string>>

  /** Why extraction stopped. In the program these are the exceptions the
      lookups raise: an `AttributeError` on a missing table, and one
      `IndexError`, without any count, for an index past the end of the rows
      or of the cells. Telling the two index cases apart and carrying the
      counts are this model's additions. */
  datatype ExtractError =
    | NoTable
    | NoDataRow(rowCount: nat)
    | TooFewCells(cellCount: nat)

  /** Row 1 of the table (row 0 is the header) read as a record, its cells
      0 to 9 taken in declared field order. */
  function ExtractBondData(page: Option<Table>): (r: Result<BondData, ExtractError>)
    ensures r.Success? <==> page.Some? && |page.value| >= 2 && |page.value[1]| >= FieldCount
    ensures r.Success? ==> Fields(r.value) == page.value[1][..FieldCount]
    ensures page.None? ==> r == Failure(NoTable)
    ensures page.Some? && |page.value| < 2 ==> r == Failure(NoDataRow(|page.value|))
    ensures (page.Some? && |page.value| >= 2 && |page.value[1]| < FieldCount)
              ==> r == Failure(TooFewCells(|page.value[1]|))
  {
    match page
    case None => Failure(NoTable)
    case Some(rows) =>
      if |rows| < 2 then Failure(NoDataRow(|rows|))
      else
        var cells := rows[1];
        if |cells| < FieldCount then Failure(TooFewCells(|cells|))
        else Success(FromFields(cells[..FieldCount]))
  }

  /** A table with a header row and one data row holding a record's fields. */
  function PageOf(header: seq<string>, b: BondData): Option<Table>
  {
    Some([header, Fields(b)])
  }

  /** Extraction reads back the record a result page was made from, whatever
      the header row says. */
  lemma ExtractPageOf(header: seq<string>, b: BondData)
    ensures ExtractBondData(PageOf(header, b)) == Success(b)
  {
    FromFieldsOfFields(b);
    assert Fields(b)[..FieldCount] == Fields(b);
  }

  /** Only cells 0 to 9 of row 1 matter: tables that agree on them extract to
      the same record, whatever else their rows hold. */
  lemma ExtractIgnoresRest(t1: Table, t2: Table)
    requires |t1| >= 2 && |t2| >= 2
    requires |t1[1]| >= FieldCount && |t2[1]| >= FieldCount
    requires t1[1][..FieldCount] == t2[1][..FieldCount]
    ensures ExtractBondData(Some(t1)) == ExtractBondData(Some(t2))
  {
  }
}
