/**
 * The part of a spreadsheet the report uses: a sheet is a map from row index
 * to row, a row a map from column index to cell. Creating a row puts an empty
 * row at its index; creating a cell puts a cell into an existing row.
 */
module Workbook {
  import opened Wrappers
  import opened CellStyles

  datatype Value = Blank | Text(text: string) | Number(number: int)

  /** A cell created without a style has the workbook's default style (`None`). */
  datatype Cell = Cell(value: Value, style: Option<Style>)

  type Row = map<nat, Cell>

  type Sheet = map<nat, Row>

  /** What `row.createCell(col)` leaves when nothing more is set. */
  const BLANK: Cell := Cell(Blank, None)
}
