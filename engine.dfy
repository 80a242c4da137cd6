/**
 * The embedded storage engine, seen only through the interface the driver
 * uses: a compiled statement is a list of column names, the rows it will
 * produce and the number of parameter slots it has; stepping walks the rows.
 * Bind calls are stored as the engine's own storage cells.
 */
module Engine {
  import opened Values

  /** One cell as the engine stores it, tagged by its storage class. */
  datatype Cell =
    | IntegerCell(i: Int64)
    | FloatCell(d: Double)
    | TextCell(text: string)
    | BlobCell(bytes: seq<bv8>)
    | NullCell

  /** The engine's numeric storage-class codes (SQLITE_INTEGER ... SQLITE_NULL). */
  const SQLITE_INTEGER: int := 1
  const SQLITE_FLOAT: int := 2
  const SQLITE_TEXT: int := 3
  const SQLITE_BLOB: int := 4
  const SQLITE_NULL: int := 5

  function StorageClass(c: Cell): int
  {
    match c
    case IntegerCell(_) => SQLITE_INTEGER
    case FloatCell(_) => SQLITE_FLOAT
    case TextCell(_) => SQLITE_TEXT
    case BlobCell(_) => SQLITE_BLOB
    case NullCell => SQLITE_NULL
  }

  /** The cell the engine stores for a bound value when no conversion applies. */
  function Stored(call: BindCall): Cell
  {
    match call
    case BindNull => NullCell
    case BindInt64(i) => IntegerCell(i)
    case BindDouble(d) => FloatCell(d)
    case BindText(t) => TextCell(t)
    case BindBlob(b) => BlobCell(b)
  }

  ghost predicate RowsFit(names: seq<string>, rows: seq<seq<Cell>>)
  {
    forall k :: 0 <= k < |rows| ==> |rows[k]| == |names|
  }

  datatype RawProgram = RawProgram(names: seq<string>, rows: seq<seq<Cell>>, paramCount: nat)

  /** A compiled statement: every row has one cell per column. */
  type Program = p: RawProgram | RowsFit(p.names, p.rows) witness RawProgram([], [], 0)

  /** The engine's side of a compiled statement handle: `stepped` rows have
      been produced in the current pass, `atEnd` records that the last step
      reported no row, and `bound` logs the bind calls the engine accepted. */
  datatype Cursor = Cursor(prog: Program, stepped: nat, atEnd: bool, bound: seq<(nat, BindCall)>)

  ghost predicate CursorOk(c: Cursor)
  {
    c.stepped <= |c.prog.rows|
  }

  function Fresh(p: Program): (c: Cursor)
    ensures CursorOk(c)
  {
    Cursor(p, 0, false, [])
  }

  /** The rows the next steps will produce, in order. A step after the end
      restarts the statement from its first row (the engine resets it). */
  function Upcoming(c: Cursor): seq<seq<Cell>>
    requires CursorOk(c)
  {
    if c.atEnd then c.prog.rows else c.prog.rows[c.stepped..]
  }

  /** True when the last step produced a row, which the column calls then read. */
  predicate OnRow(c: Cursor)
  {
    !c.atEnd && c.stepped > 0
  }

  /** One engine step: produce the next row, or report that there is none. */
  function Step(c: Cursor): (d: Cursor)
    requires CursorOk(c)
    ensures CursorOk(d) && d.prog == c.prog && d.bound == c.bound
    ensures Upcoming(c) == [] ==> d.atEnd && Upcoming(d) == c.prog.rows
    ensures Upcoming(c) != [] ==>
      OnRow(d) && d.prog.rows[d.stepped - 1] == Upcoming(c)[0] && Upcoming(d) == Upcoming(c)[1..]
  {
    var start := if c.atEnd then c.(stepped := 0, atEnd := false) else c;
    if start.stepped < |start.prog.rows| then start.(stepped := start.stepped + 1)
    else start.(atEnd := true)
  }

  /** The cells the column calls read: those of the current row, or NULL in
      every column when the statement is not positioned on a row. */
  function CurrentRow(c: Cursor): (cells: seq<Cell>)
    requires CursorOk(c)
    ensures |cells| == |c.prog.names|
  {
    if OnRow(c) then c.prog.rows[c.stepped - 1] else seq(|c.prog.names|, _ => NullCell)
  }

  /** The connection's engine as the driver sees it: compiling statement
      text (None when the engine reports an error), answering bind calls,
      and the count of rows the last statement changed. */
  datatype Connection = Connection(
    compile: string -> Option<Program>,
    accept: (nat, BindCall) -> bool,
    changes: int)
}
