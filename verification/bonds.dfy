/** The two record shapes of the savings-bond tool: the query sent for one
    bond, and the ten valuation fields read back for it. */
module Bonds {

  /** What identifies one bond to the pricing service: serial number, series
      (`EE`, `I`, ...), face amount, issue month and the month to value it at.
      `series` is the program's `type` field, sent as the `Series` form field. */
  datatype Bond = Bond(serial: string, series: string, amount: nat, issueDate: string, date: string)

  /** The valuation row for one bond, every field kept as the display text of
      its table cell. */
  datatype BondData = BondData(
    serial: string,
    series: string,
    denom: string,
    issueDate: string,
    nextAccrual: string,
    finalMaturity: string,
    issuePrice: string,
    interest: string,
    interestRate: string,
    value: string)

  /** Number of fields in a valuation record. */
  const FieldCount: nat := 10

  /** The fields of a record in declared order. */
  function Fields(b: BondData): seq<string>
  {
    [b.serial, b.series, b.denom, b.issueDate, b.nextAccrual,
     b.finalMaturity, b.issuePrice, b.interest, b.interestRate, b.value]
  }

  /** The record whose fields, in declared order, are the given ten texts. */
  function FromFields(cells: seq<string>): (b: BondData)
    requires |cells| == FieldCount
    ensures Fields(b) == cells
  {
    BondData(cells[0], cells[1], cells[2], cells[3], cells[4],
             cells[5], cells[6], cells[7], cells[8], cells[9])
  }

  /** A record is determined by its field list. */
  lemma FromFieldsOfFields(b: BondData)
    ensures |Fields(b)| == FieldCount
    ensures FromFields(Fields(b)) == b
  {
  }
}
