/**
 * The calls the interpreter makes into its collaborators. The grid
 * functions and the diagnostics log have no bodies in this model: each
 * call is recorded, with its arguments, at the end of a trace.
 */
module Trace {
  import opened Bytes

  /** One call into the character grid, in the argument order of the C functions. */
  datatype GridOp =
    | SetColors(foreground: int, background: int)
    | Set(row: int, col: int, c: byte)
    | ScrollUp(top: int, bottom: int, amount: int)
    | ScrollDown(top: int, bottom: int, amount: int)
    | Clear(row: int, col: int, rows: int, cols: int, background: int)
    | ClearRange(row0: int, col0: int, row1: int, col1: int, background: int)
    | Copy(srcRow: int, srcCol: int, rows: int, cols: int, dstRow: int, dstCol: int)

  /** The first destination column of a one-row clear or copy. */
  function Start(op: GridOp): int {
    match op
    case Clear(_, col, _, _, _) => col
    case Copy(_, _, _, _, _, dstCol) => dstCol
    case _ => 0
  }

  /** The column after the last destination column of a one-row clear or copy. */
  function End(op: GridOp): int {
    match op
    case Clear(_, col, _, cols, _) => col + cols
    case Copy(_, _, _, cols, _, dstCol) => dstCol + cols
    case _ => 0
  }

  /** A clear or copy that writes one row, `row`, and at least one cell of it. */
  predicate OnRow(op: GridOp, row: int) {
    match op
    case Clear(r, _, rows, cols, _) => r == row && rows == 1 && cols >= 1
    case Copy(srcRow, _, rows, cols, dstRow, _) => srcRow == row && dstRow == row && rows == 1 && cols >= 1
    case _ => false
  }

  /**
   * The operations, read left to right, write the columns `lo` up to (not
   * including) `hi` of `row`, each column exactly once and nothing else.
   */
  predicate Tiles(ops: seq<GridOp>, row: int, lo: int, hi: int)
    decreases |ops|
  {
    if ops == [] then lo == hi
    else OnRow(ops[0], row) && Start(ops[0]) == lo && Tiles(ops[1..], row, End(ops[0]), hi)
  }

  /** One diagnostic message sent to the client log. */
  datatype LogEntry =
    | UnhandledEscape(c: byte)
    | UnhandledRendition(value: nat)
    | UnhandledCsi(c: byte)
}
