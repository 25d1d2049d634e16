/** Cell values of a worksheet as openpyxl hands them to the converter. */
module Cells {

  datatype Option<+T> = None | Some(value: T)

  /** Python's `a or b` on values that are either None or a non-empty string. */
  function Or<T>(a: Option<T>, b: Option<T>): Option<T> {
    if a.Some? then a else b
  }

  /** The value held by one cell.  `Empty` is Python's None; `Other` stands for a value of any
      other type (a date, a time, ...), given by its `str()` rendering. Floats are not modelled. */
  datatype Cell =
    | Empty
    | Integer(n: int)
    | Boolean(b: bool)
    | Text(s: string)
    | Other(rendering: string)

  /** A worksheet's cells, keyed by (row, column), both 1-based. */
  type Grid = map<(int, int), Cell>

  /** `ws.cell(r, c).value`: a cell that was never written holds None. */
  function At(g: Grid, r: int, c: int): Cell {
    if (r, c) in g then g[(r, c)] else Empty
  }
}
