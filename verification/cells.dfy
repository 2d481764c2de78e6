/**
 * The values a worksheet cell can hold once the workbook is loaded with cached values
 * (`data_only=True`), and a worksheet as a sparse grid of such cells.
 */
module Cells {
  import opened Strings

  /**
   * A cell value by its Python runtime type. `Null` is Python's `None`. A float keeps only
   * what the core looks at: whether it is zero (falsy) and its `str()` text. A datetime keeps
   * its `isoformat()` text and its `str()` text.
   */
  datatype Value =
    | Null
    | Text(s: string)
    | Int(i: int)
    | Bool(b: bool)
    | Float(isZero: bool, repr: string)
    | DateTime(iso: string, repr: string)

  /** Python truthiness of a cell value. */
  predicate Truthy(v: Value)
  {
    match v
    case Null => false
    case Text(s) => s != ""
    case Int(i) => i != 0
    case Bool(b) => b
    case Float(isZero, _) => !isZero
    case DateTime(_, _) => true
  }

  /** Python's `str(v)`. */
  function PyStr(v: Value): string
  {
    match v
    case Null => "None"
    case Text(s) => s
    case Int(i) => IntToString(i)
    case Bool(b) => if b then "True" else "False"
    case Float(_, repr) => repr
    case DateTime(_, repr) => repr
  }

  /** A worksheet cell: its value and whether its number format marks it as a date. */
  datatype Cell = Cell(value: Value, isDate: bool)

  /**
   * A worksheet: its title, its used range (`max_row`, `max_column`) and the cells that are
   * stored, keyed by 1-based (row, column).
   */
  datatype Sheet = Sheet(title: string, maxRow: nat, maxColumn: nat, cells: map<(int, int), Cell>)

  /** `sheet.cell(row=row, column=col)`: a cell that is not stored reads as an empty one. */
  function CellAt(sheet: Sheet, row: int, col: int): (c: Cell)
    ensures (row, col) !in sheet.cells ==> c == Cell(Null, false)
  {
    if (row, col) in sheet.cells then sheet.cells[(row, col)] else Cell(Null, false)
  }
}
