/**
 * The worksheet as the parser sees it through openpyxl (loaded with `data_only=True`,
 * so a formula cell holds its cached value). Rows and columns are 1-based.
 */
module Worksheet {

  /** A cell value. */
  datatype Cell =
    | Empty                             // `cell.value is None`
    | Num(value: real, shown: string)   // an int or float (a bool too); `shown` is `str(cell.value)`
    | Str(text: string)                 // a string
    | Other(shown: string)              // any other value (a date, a time); `shown` is `str(cell.value)`

  /** Python truthiness of `cell.value`: None, 0 and "" are false. */
  predicate Truthy(c: Cell)
  {
    match c
    case Empty => false
    case Num(v, _) => v != 0.0
    case Str(t) => t != ""
    case Other(_) => true
  }

  /** `str(cell.value)`. */
  function Shown(c: Cell): string
  {
    match c
    case Empty => "None"
    case Num(_, s) => s
    case Str(t) => t
    case Other(s) => s
  }

  /** `str(cell.value or "")`: the text of a truthy cell, otherwise the empty string. */
  function TextOr(c: Cell): (r: string)
    ensures !Truthy(c) ==> r == ""
    ensures c.Str? ==> r == c.text
  {
    if Truthy(c) then Shown(c) else ""
  }

  /**
   * A worksheet: its `max_row`, its `max_column` and the cells openpyxl holds.
   * Any position without an entry, or outside the used range, reads as an empty cell.
   */
  datatype Sheet = Sheet(maxRow: nat, maxColumn: nat, cells: map<(int, int), Cell>)

  /** A (row, column) position, as `find_cell_by_text` returns it. */
  type Pos = (int, int)

  /** Whether a position lies in the range `iter_rows()` walks. */
  predicate InRange(sheet: Sheet, row: int, col: int)
  {
    1 <= row <= sheet.maxRow && 1 <= col <= sheet.maxColumn
  }

  /** `sheet.cell(row, col)`. */
  function CellAt(sheet: Sheet, row: int, col: int): (c: Cell)
    ensures !InRange(sheet, row, col) ==> c == Empty
  {
    if InRange(sheet, row, col) && (row, col) in sheet.cells then sheet.cells[(row, col)] else Empty
  }

  /** One entry of `wb.sheetnames` with the sheet `wb[name]`. */
  datatype NamedSheet = NamedSheet(name: string, sheet: Sheet)

  /** A workbook: its sheets in `wb.sheetnames` order. */
  type Workbook = seq<NamedSheet>
}
