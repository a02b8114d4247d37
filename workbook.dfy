/**
 * The parsed workbook as the data service reads it: named worksheets, each a
 * sequence of rows that the reader may or may not hold, each row a number and
 * its cells from column 1 on.
 *
 * A row's cells are taken to end at its last non-empty cell, as the reader's
 * `row.values` does.
 */
module Workbook {
  import opened JsValues

  /** A row object: its `number` and the values of its cells in columns 1, 2, ... */
  datatype Row = Row(number: int, cells: seq<Value>)

  /** A worksheet: `rows[i]` is the row object the reader returns for row number `i + 1`, if any. */
  datatype Sheet = Sheet(rows: seq<Option<Row>>)

  /** A workbook: worksheets by name. */
  type Book = map<string, Sheet>

  /** `row.values`: the reader's 1-based array, whose slot 0 is an unused hole. */
  function Values(row: Row): (vals: seq<Value>)
    ensures |vals| == |row.cells| + 1 && vals[0] == Null
    ensures forall c :: 1 <= c < |vals| ==> vals[c] == row.cells[c - 1]
  {
    [Null] + row.cells
  }

  /** `ws.findRow(n)`: the row the sheet holds under number `n`, or undefined. */
  function FindRow(ws: Sheet, n: int): (r: Option<Row>)
    ensures r.Some? ==> 1 <= n <= |ws.rows|
  {
    if 1 <= n <= |ws.rows| then ws.rows[n - 1] else None
  }

  /**
   * `ws.getRow(n)`: the row the sheet holds, and otherwise a new empty row
   * numbered `n`; it is never undefined.
   */
  function GetRow(ws: Sheet, n: int): (row: Row)
    ensures FindRow(ws, n).Some? ==> row == FindRow(ws, n).value
    ensures FindRow(ws, n).None? ==> row == Row(n, [])
  {
    match FindRow(ws, n)
    case Some(r) => r
    case None => Row(n, [])
  }

  /** Every row the sheet holds carries its own number, as the reader builds them. */
  predicate WellNumbered(ws: Sheet) {
    forall i :: 0 <= i < |ws.rows| && ws.rows[i].Some? ==> ws.rows[i].value.number == i + 1
  }

  /** In a well-numbered sheet `getRow(n)` always has number `n`. */
  lemma GetRowNumber(ws: Sheet, n: int)
    requires WellNumbered(ws)
    ensures GetRow(ws, n).number == n
  {
    if 1 <= n <= |ws.rows| && ws.rows[n - 1].Some? {
      assert ws.rows[n - 1].value.number == n;
    }
  }

  /** `row.getCell(col).value`; a cell past the end of the row is empty. */
  function CellAt(row: Row, col: int): (v: Value)
    ensures v != Null ==> 1 <= col <= |row.cells|
    ensures 1 <= col <= |row.cells| ==> v == Values(row)[col]
  {
    if 1 <= col <= |row.cells| then row.cells[col - 1] else Null
  }

  /** `row.hasValues`: some cell is not empty. */
  predicate HasValues(row: Row) {
    exists c :: 0 <= c < |row.cells| && row.cells[c] != Null
  }

  /** `ws.getRow(1)?.values ?? []`: since `getRow` always gives a row, the header row's values. */
  function HeaderValues(ws: Sheet): (vals: seq<Value>)
    ensures |vals| >= 1
  {
    Values(GetRow(ws, 1))
  }
}
