/** Flat data rows as the backend reads them from a CSV snapshot with
    casting on: a map from column name to a cell that is either a string or
    a number. Equality on cells is strict, so a number never equals a string. */
module Rows {
  import opened Wrappers

  datatype Cell = Str(s: string) | Num(n: real)

  type Row = map<string, Cell>

  /** A filter object, from a query string or a parsed JSON segment. */
  type FilterObject = map<string, Cell>

  /** JavaScript truthiness of a cell: the empty string and zero are falsy. */
  predicate Truthy(c: Cell) {
    match c
    case Str(s) => s != ""
    case Num(n) => n != 0.0
  }

  /** `row[column]`: `None` stands for `undefined`. */
  function Get(row: Row, column: string): Option<Cell> {
    if column in row then Some(row[column]) else None
  }
}
