# Savings-bond report, modelled in Dafny

The savings-bond tool asks the US Treasury's pricing service to value one
savings bond at a time. It reads the ten fields of the result row out of the
returned HTML table and prints every bond as one fixed-width line under a
header line. It then sums the bonds' values after stripping their `$` sign.

This project models that text-shaping logic as pure functions and proves
properties of it:

- `Bonds`: the query record (`Bond`) and the ten-field valuation record
  (`BondData`), with the conversion between a record and its field list.
- `Extraction`: reading row 1, cells 0 to 9, of the result table. It fails
  when the table is missing, when the table has fewer than two rows, or when
  the row has fewer than ten cells.
- `FixedWidth`: left-justified padding to a minimum width, rows of padded
  columns joined by single blanks, and a column reader that reads them back.
- `FormatSpec`: the subset of Python's `str.format` that the row template
  uses. It covers literal characters, doubled braces and `{:N}` fields, plus
  the `IndexError` raised when there are too few arguments.
- `Report`: the row template, the bond line, the header line and the whole
  table as a sequence of lines. It also holds a reader that recovers the
  bonds from the table, and the `strip('$')` step of the total.
- `Text`: Python's `lstrip`, `rstrip` and `strip` for one character.
- `Decimal`: `str()` of a non-negative integer and its inverse.
- `TreasuryDirect`: the form fields posted for one bond, and the branch on
  the response status.
- `Wrappers`: `Option` and `Result`.

Printing is modelled as returning the lines instead of writing them: each
element of the returned sequence is the text of one `print` call, without its
newline. A cell text that itself holds a newline makes one such element span
several lines of output.

`value.strip('$')` removes every leading *and* every trailing `$` and leaves
any `$` inside the amount alone; `Text.Strip` models exactly that.

## Model

| member | source | states |
|---|---|---|
| `Bonds.FromFields` | savings_bond.py:23-24 | The record built from ten texts lists exactly those texts as its fields, in declared order. |
| `Bonds.FromFieldsOfFields` | savings_bond.py:23-24 | A record is determined by its ten fields: rebuilding it from its field list gives it back. |
| `Extraction.ExtractBondData` | savings_bond.py:27-37 | Succeeds exactly when the table exists, has at least two rows, and row 1 has at least ten cells. On success the fields are cells 0 to 9 of row 1 in order. Each failure names its cause: no table, too few rows (with the count), or too few cells (with the count). |
| `Extraction.ExtractPageOf` | savings_bond.py:32-35 | A table whose row 1 holds a record's fields extracts to that record, whatever the header row holds. |
| `Extraction.ExtractIgnoresRest` | savings_bond.py:32-35 | Tables that agree on cells 0 to 9 of row 1 extract to the same record; other rows and further cells do not matter. |
| `TreasuryDirect.Lookup` | savings_bond.py:43-44 | A form field is found exactly when some parameter carries that name. |
| `TreasuryDirect.RequestFor` | savings_bond.py:42-45 | The form is posted to the fixed pricing-service address and carries exactly six fields. |
| `TreasuryDirect.RequestCarriesBond` | savings_bond.py:43-44 | The bond's serial, series, issue date and redemption date are sent under SerialNumber, Series, IssueDate and RedemptionDate. |
| `TreasuryDirect.RequestCarriesAmount` | savings_bond.py:43-44 | The amount is sent as decimal digits that read back as the amount, and the form asks for the calculation. |
| `TreasuryDirect.HandleResponse` | savings_bond.py:46-49 | The body is returned exactly when the status is 200; any other status is an error carrying that status. |
| `Decimal.ShowNat` | savings_bond.py:43-44 | The form-encoded amount is a non-empty run of decimal digits with no leading zero other than `0` itself. |
| `Decimal.ParseShow` | savings_bond.py:43-44 | The decimal text of a non-negative integer, as form-encoded, reads back as that integer. |
| `FixedWidth.Pad` | savings_bond.py:52 | A padded field starts with the field and continues with blanks only. Its length is the larger of the field's length and the width, so a field is never truncated. |
| `FixedWidth.Render` | savings_bond.py:52 | A row is as long as its padded columns plus one blank between each pair. |
| `FixedWidth.ColumnsRender` | savings_bond.py:52 | When no field ends in a blank and every field but the last fits its width, reading the row's columns back gives exactly the fields. |
| `FormatSpec.FieldWidthOfShow` | savings_bond.py:52 | A field body `:w`, with the positive width `w` written in decimal, sets the minimum width `w`. |
| `FormatSpec.ParseRowTemplate` | savings_bond.py:52 | A template of `{:w}` fields separated by blanks, all widths positive, parses into one width field per column with a blank literal between each pair. |
| `FormatSpec.ApplyRow` | savings_bond.py:57-60 | Filling the parsed row template with at least as many arguments as columns gives the padded, blank-joined row of the first arguments. Extra arguments are ignored. |
| `FormatSpec.ApplyRowTooFew` | savings_bond.py:57-60 | Filling the parsed row template with fewer arguments than columns fails, as Python's `IndexError` does. |
| `Report.TableFormatColumns` | savings_bond.py:52 | The table template is the row template of the widths 10, 6, 6, 10, 11, 13, 10, 8, 12, 5, one width per record field, and parses as such. |
| `Report.FormatRow` | savings_bond.py:52-60 | A formatted line is 9 characters longer than the sum, over the ten fields, of the larger of the field's length and its column width. |
| `Report.FormatRowIsTemplate` | savings_bond.py:55-60 | Python's formatting of the table template with ten fields yields the fixed-width line of those fields. |
| `Report.FormatTooFewFields` | savings_bond.py:52-60 | Formatting the table template with fewer than ten fields fails. |
| `Report.PrintBondIsFormat` | savings_bond.py:55-60 | A bond's line is Python's formatting of the table template with the bond's ten fields in declared order. |
| `Report.HeaderLineIsFormat` | savings_bond.py:66-68 | The header line is Python's formatting of the table template with the ten column titles. |
| `Report.HeaderLineShape` | savings_bond.py:66-68 | The header line is 100 characters wide and reads back, column by column, as the ten titles. |
| `Report.PrintBonds` | savings_bond.py:64-70 | The table is the header line followed by exactly one printed line per bond, in input order. An empty input gives only the header. |
| `Report.BondLines` | savings_bond.py:69-70 | Line `i` is the formatted line of bond `i`, with one line per bond. |
| `Report.PrintBondsIgnoresSortKey` | savings_bond.py:63-64 | The table does not depend on the sort key. |
| `Report.ParsePrintBonds` | savings_bond.py:64-70 | When every bond's fields fit their columns and end in no blank, reading the printed table back gives exactly the bonds, in order. |
| `Report.ParseBondLinesRoundTrip` | savings_bond.py:69-70 | When every bond's fields fit their columns and end in no blank, the bond lines read back as the bonds, in order. |
| `Report.ParseLinesEach` | savings_bond.py:69-70 | Lines that each read back as a record read back, together, as those records in the same order. |
| `Report.ValueAmount` | savings_bond.py:77 | The summed amount is a contiguous part of the value that neither starts nor ends with `$`, and every character removed before or after it is `$`. |
| `Report.ValueAmountOfDollars` | savings_bond.py:77 | A value written as `$` followed by an amount yields that amount. |
| `Text.LStrip` | savings_bond.py:77 | Left stripping keeps a suffix that does not start with the character and removes only that character. |
| `Text.RStrip` | savings_bond.py:77 | Right stripping keeps a prefix that does not end with the character and removes only that character. |
| `Text.Strip` | savings_bond.py:77 | The result is a contiguous substring of the input, with every character removed before and after it equal to `$`, and it neither starts nor ends with `$`. |
| `Text.StripPadded` | savings_bond.py:77 | Stripping `$` padding of any length on both sides of a text that neither starts nor ends with `$` gives back that text. |
| `Text.StripSplits` | savings_bond.py:77 | Every input is some `$` characters, then its stripped form, then some more `$` characters. |
| `Text.StripIdempotent` | savings_bond.py:77 | Stripping twice gives the same as stripping once. |

## Left out

- The HTTP post itself (savings_bond.py:45). The status code and body of the response are parameters of `TreasuryDirect.HandleResponse`.
- The `Denomination` value is sent as the integer `bond.amount`, which the form encoding turns into its decimal text. The model makes that text explicit and restricts the amount to non-negative integers.
- HTML parsing with BeautifulSoup and lxml (savings_bond.py:29-30, 33). The page is given as the texts of the `td` cells of each `tr` row of the `bnddata` table, so a header row made of `th` cells is a row with no cells. `None` stands for a page without a body or without that table, where the program raises `AttributeError`.
- `td.get_text()` details, such as the text of nested tags and whitespace inside cells, are not modelled. The cells already arrive as text.
- The float conversion, the float sum and the printing of the total (savings_bond.py:75-81). These are floating-point arithmetic and float-to-text conversion; only the `strip('$')` step is modelled.
- Writing to standard output, the separator line, the total line, and the `__main__` driver with its private `bonds` module (savings_bond.py:79-80, 84-110). These are I/O and code that is not part of this model.
- `str.format` features outside the template's subset. The arguments are strings by type, as every field of a record is text. `FormatSpec.ParseFormat` returns `None` for explicit field indexes or names, conversions, fill, alignment, sign, zero-padding and precision; the table template uses none of them.
- `Report.ParsePrintBonds`: the reader only recovers bonds whose fields fit their columns and end in no blank. A longer field shifts the later columns of its line, so the printed table alone does not determine such a bond.
- `Report.ParseBondLinesRoundTrip`: the same condition applies line by line. Only bonds whose fields fit their columns and end in no blank are recovered from their lines.
