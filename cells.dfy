/** Values held in one cell of a survey table, and the error a table lookup can raise. */
module Cells {

  /** A numeric survey value, or the missing marker (NaN in the pandas table). */
  datatype Cell = Missing | Val(v: real)

  /** The error raised when a named column is absent; it names the absent columns. */
  datatype KeyError = KeyError(names: seq<string>)

  datatype Result<+T, +E> = Success(value: T) | Failure(error: E)

  /** The cell-wise image of a column under a per-cell rule. */
  function MapColumn(col: seq<Cell>, f: Cell -> Cell): (r: seq<Cell>)
    ensures |r| == |col|
    ensures forall i :: 0 <= i < |col| ==> r[i] == f(col[i])
  {
    seq(|col|, i requires 0 <= i < |col| => f(col[i]))
  }
}
