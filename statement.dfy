/**
 * The prepared-statement object: prepare once, bind, execute (which only
 * opens a transaction), then walk the rows with next/fetchRow or fetch them
 * in bounded batches; reset releases everything.
 */
module Statement {
  import opened Values
  import opened Engine
  import opened Placeholders
  import opened Binder
  import opened Columns
  import opened Assembly

  const PREPARE_TAG: string := "SQLITE3-PREPARE-ERROR"
  const STATEMENT_BIND_TAG: string := "SQLITE3-STATEMENT-BIND-ERROR"

  /** The statement's engine handle: none yet, a live compiled statement, or
      one that was finalized but whose pointer was kept. */
  datatype Handle = NoStmt | Live(cur: Cursor) | Finalized

  /** What prepare leaves behind: the retained statement text, the collected
      arguments, the compiled program and the error raised, if any. */
  datatype PrepareOutcome = PrepareOutcome(sql: Option<string>, realArgs: seq<Value>,
                                           compiled: Option<Program>, err: Option<Failure>)

  /** Whether prepare gets as far as compiling: the text converts and, when
      parsing, the placeholders parse. */
  predicate ReachesCompile(text: string, args: Option<seq<Value>>, parse: bool, f: Foreign)
  {
    f.convert(text).Some? && (!parse || Parse(f.convert(text).value, args, [], f).error.None?)
  }

  /** prepare: convert the text, rewrite its placeholders in place when
      `parse` is set (the collected arguments are kept even when parsing
      fails part way), and compile the rewritten text. A statement is
      compiled exactly when no error is raised; every error but the encoding
      one is tagged SQLITE3-PREPARE-ERROR; without parsing nothing is
      collected. */
  function PrepareSpec(text: string, args: Option<seq<Value>>, parse: bool, conn: Connection, f: Foreign)
    : (o: PrepareOutcome)
    ensures o.err.None? <==> o.compiled.Some?
    ensures o.compiled.Some? ==> ReachesCompile(text, args, parse, f)
    ensures o.err.Some? ==>
      (o.err.value.EncodingFailed? ||
       ((o.err.value.ParseFailed? || o.err.value.CompileFailed?) && o.err.value.tag == PREPARE_TAG))
    ensures !parse ==> o.realArgs == [] && (o.err.Some? ==> !o.err.value.ParseFailed?)
    ensures o.sql.None? <==> f.convert(text).None?
  {
    match f.convert(text)
    case None => PrepareOutcome(None, [], None, Some(EncodingFailed))
    case Some(converted) =>
      var p := if parse then Parse(converted, args, [], f) else ParseResult(converted, [], None);
      if p.error.Some? then PrepareOutcome(Some(p.text), p.binds, None, Some(ParseFailed(PREPARE_TAG, p.error.value)))
      else
        match conn.compile(CPrefix(p.text))
        case None => PrepareOutcome(Some(p.text), p.binds, None, Some(CompileFailed(PREPARE_TAG)))
        case Some(prog) => PrepareOutcome(Some(p.text), p.binds, Some(prog), None)
  }

  /** After a successful prepare with parsing, the retained text is the
      rewritten statement and there is one collected argument per ?N marker
      written into it. */
  lemma PrepareCollectsMarkerArgs(text: string, args: Option<seq<Value>>, conn: Connection, f: Foreign)
    requires PrepareSpec(text, args, true, conn, f).err.None?
    ensures var o := PrepareSpec(text, args, true, conn, f);
      var converted := f.convert(text).value;
      var t := Trace(converted, Start([]), args, f);
      o.sql == Some(Parse(converted, args, [], f).text) &&
      o.realArgs == MarkerArgs(t) && |o.realArgs| == |Numbers(t)|
  {
    ParseProperties.ParseRewritesMarkers(f.convert(text).value, args, [], f);
  }

  /** The number of rows a batch fetch returns: maxrows, or fewer when the
      statement runs out of rows first. */
  function Taken(upcoming: seq<seq<Cell>>, maxrows: int): (k: nat)
    requires maxrows > 0
    ensures k <= |upcoming| && k <= maxrows
    ensures k == maxrows || k == |upcoming|
  {
    if maxrows < |upcoming| then maxrows else |upcoming|
  }

  /** fetchColumns' hash: no keys at all when no row was fetched, otherwise
      the column hash of the rows fetched. */
  function BatchColumns(names: seq<string>, rows: seq<seq<Cell>>): map<string, seq<Value>>
    requires RowsFit(names, rows)
  {
    if rows == [] then map[] else ColumnsOf(names, rows)
  }

  /** Unlike select, a batch that fetched no row has no keys, even when the
      statement has columns; a batch with rows has one key per column. */
  lemma BatchColumnsKeys(names: seq<string>, rows: seq<seq<Cell>>)
    requires RowsFit(names, rows)
    ensures |BatchColumns(names, rows)| == 0 <==> rows == [] || names == []
  {
    if rows != [] && names != [] {
      assert names[0] in BatchColumns(names, rows);
    }
  }

  /** One more row in a batch: the keys are made if there are none yet,
      then the row's cells are appended. */
  lemma BatchStep(names: seq<string>, rows: seq<seq<Cell>>, cells: seq<Cell>)
    requires RowsFit(names, rows) && |cells| == |names|
    ensures RowsFit(names, rows + [cells])
    ensures var h := BatchColumns(names, rows);
      var base := if |h| == 0 then EmptyColumns(names) else h;
      (forall n :: n in names ==> n in base) &&
      BatchColumns(names, rows + [cells]) == AppendCells(base, names, cells, |names|)
  {
    var rows' := rows + [cells];
    assert rows'[..|rows|] == rows;
    assert ColumnsOf(names, rows') == AppendCells(ColumnsOf(names, rows), names, cells, |names|);
    if rows == [] {
      assert ColumnsOf(names, rows) == EmptyColumns(names);
    } else if names == [] {
      var h := ColumnsOf(names, rows);
      assert h.Keys == {};
      assert h == EmptyColumns(names);
    } else {
      assert names[0] in ColumnsOf(names, rows);
    }
  }

  /** The body of getOutputHash's loop: make the keys on the first row,
      then push the row's cells. */
  method AddBatchRow(rv: map<string, seq<Value>>, names: seq<string>, ghost rows: seq<seq<Cell>>,
                     cells: seq<Cell>) returns (rv': map<string, seq<Value>>)
    requires RowsFit(names, rows) && |cells| == |names| && rv == BatchColumns(names, rows)
    ensures RowsFit(names, rows + [cells]) && rv' == BatchColumns(names, rows + [cells])
  {
    BatchStep(names, rows, cells);
    var base := rv;
    if |rv| == 0 {
      base := EmptyColumns(names);
    }
    rv' := PushRow(base, names, cells);
  }

  /** One more row hash at the end of getOutputList's list. */
  method AddListRow(rv: seq<map<string, Value>>, names: seq<string>, ghost rows: seq<seq<Cell>>,
                    cells: seq<Cell>) returns (rv': seq<map<string, Value>>)
    requires RowsFit(names, rows) && |cells| == |names| && rv == RowsOf(names, rows)
    ensures RowsFit(names, rows + [cells]) && rv' == RowsOf(names, rows + [cells])
  {
    ghost var rows' := rows + [cells];
    assert rows'[..|rows|] == rows && rows'[|rows|] == cells;
    var head := RowHash(names, cells);
    rv' := rv + [head];
  }

  /** A step taken `k` rows into a pass whose rows are `up`: the next row
      is `up[k]` and the rest follow it, or there is none when `k` is past
      the last row. */
  lemma StepAlong(c: Cursor, up: seq<seq<Cell>>, k: nat)
    requires CursorOk(c) && k <= |up| && Upcoming(c) == up[k..]
    ensures var d := Step(c);
      CursorOk(d) && (OnRow(d) <==> k < |up|) &&
      (k < |up| ==> CurrentRow(d) == up[k] && Upcoming(d) == up[k + 1..])
  {
    if k < |up| {
      assert up[k..][0] == up[k] && up[k..][1..] == up[k + 1..];
    }
  }

  class PreparedStatement {
    const conn: Connection
    const f: Foreign
    var sql: Option<string>
    var stmt: Handle
    var realArgs: seq<Value>
    var sqlActive: bool
    var rowCount: int

    ghost predicate Valid()
      reads this
    {
      rowCount >= -1 && (stmt.Live? ==> CursorOk(stmt.cur))
    }

    /** A new statement object: nothing prepared, inactive, not started. */
    constructor(conn: Connection, f: Foreign)
      ensures Valid()
      ensures this.conn == conn && this.f == f
      ensures sql.None? && stmt.NoStmt? && realArgs == [] && !sqlActive && rowCount == -1
    {
      this.conn := conn;
      this.f := f;
      sql := None;
      stmt := NoStmt;
      realArgs := [];
      sqlActive := false;
      rowCount := -1;
    }

    /** prepare: only on an object with no text and no collected arguments,
        and (the handle check being made just before compiling) with no
        handle when compiling is reached. */
    method Prepare(text: string, args: Option<seq<Value>>, parse: bool) returns (err: Option<Failure>)
      requires Valid()
      requires sql.None? && realArgs == []
      requires args.Some? ==> parse
      requires ReachesCompile(text, args, parse, f) ==> stmt.NoStmt?
      modifies this
      ensures Valid()
      ensures var o := PrepareSpec(text, args, parse, conn, f);
        sql == o.sql && realArgs == o.realArgs && err == o.err &&
        stmt == (if o.compiled.Some? then Live(Fresh(o.compiled.value)) else old(stmt))
      ensures sqlActive == old(sqlActive) && rowCount == old(rowCount)
    {
      var converted := f.convert(text);
      if converted.None? {
        sql := None;
        return Some(EncodingFailed);
      }
      sql := converted;
      if parse {
        var rewritten, collected, error := ParseForBind(converted.value, args, realArgs, f);
        sql, realArgs := Some(rewritten), collected;
        if error.Some? {
          return Some(ParseFailed(PREPARE_TAG, error.value));
        }
      }
      var prog := conn.compile(CPrefix(sql.value));
      if prog.None? {
        return Some(CompileFailed(PREPARE_TAG));
      }
      stmt := Live(Fresh(prog.value));
      return None;
    }

    /** bind: the list passed in is ignored; the arguments collected by
        prepare are bound again, and only when there are any. */
    method Bind(l: seq<Value>) returns (err: Option<Failure>)
      requires Valid() && !stmt.NoStmt?
      requires |realArgs| > 0 ==> stmt.Live?
      modifies this
      ensures Valid()
      ensures |old(realArgs)| == 0 ==> err.None? && stmt == old(stmt)
      ensures |old(realArgs)| > 0 ==>
        var b := BindFrom(realArgs, 0, old(stmt.cur.prog.paramCount), conn.accept, f);
        stmt == Live(old(stmt.cur).(bound := old(stmt.cur.bound) + b.calls)) &&
        err == (if b.error.Some? then Some(BindFailed(STATEMENT_BIND_TAG, b.error.value)) else None)
      ensures sql == old(sql) && realArgs == old(realArgs) && sqlActive == old(sqlActive) && rowCount == old(rowCount)
    {
      if |realArgs| > 0 {
        var cur, error := BindParameters(realArgs, stmt.cur, conn.accept, f);
        stmt := Live(cur);
        if error.Some? {
          return Some(BindFailed(STATEMENT_BIND_TAG, error.value));
        }
      }
      return None;
    }

    /** exec: opens a transaction (`beginOk` is its outcome) and marks the
        statement active; it does not step. */
    method Exec(beginOk: bool) returns (err: Option<Failure>)
      requires Valid() && sql.Some? && !stmt.NoStmt? && !sqlActive
      modifies this
      ensures Valid()
      ensures err.None? <==> beginOk
      ensures err.Some? ==> err.value == BeginFailed
      ensures sqlActive == beginOk
      ensures sql == old(sql) && stmt == old(stmt) && realArgs == old(realArgs) && rowCount == old(rowCount)
    {
      if !beginOk {
        return Some(BeginFailed);
      }
      sqlActive := true;
      return None;
    }

    /** next: when active, step once; a row advances the row counter (from
        -1 to 1, otherwise by one), no row makes the statement inactive. */
    method Next() returns (b: bool)
      requires Valid()
      requires sqlActive ==> stmt.Live?
      modifies this`stmt, this`sqlActive, this`rowCount
      ensures Valid()
      ensures !old(sqlActive) ==> !b && stmt == old(stmt) && !sqlActive && rowCount == old(rowCount)
      ensures old(sqlActive) ==>
        stmt == Live(Step(old(stmt.cur))) &&
        (b <==> Upcoming(old(stmt.cur)) != []) && sqlActive == b &&
        rowCount == (if !b then old(rowCount) else if old(rowCount) == -1 then 1 else old(rowCount) + 1)
    {
      if !sqlActive {
        return false;
      }
      var c := Step(stmt.cur);
      stmt := Live(c);
      if !OnRow(c) {
        sqlActive := false;
        return false;
      }
      if rowCount == -1 {
        rowCount := 1;
      } else {
        rowCount := rowCount + 1;
      }
      return true;
    }

    /** fetchRow: the current row as a hash, without stepping; an error
        unless the statement is active and next has produced a row. */
    method FetchRow() returns (r: Result<map<string, Value>>)
      requires Valid() && sql.Some? && !stmt.NoStmt?
      requires sqlActive && rowCount != -1 ==> stmt.Live?
      ensures !sqlActive || rowCount == -1 ==> r == Err(FetchRowError)
      ensures sqlActive && rowCount != -1 ==>
        r == Ok(RowMap(stmt.cur.prog.names, CurrentRow(stmt.cur)))
    {
      if !sqlActive || rowCount == -1 {
        return Err(FetchRowError);
      }
      var h := RowHash(stmt.cur.prog.names, CurrentRow(stmt.cur));
      return Ok(h);
    }

    /** One `next` inside a batch that is `k` rows into the pass `up`. */
    method NextInBatch(ghost up: seq<seq<Cell>>, ghost k: nat) returns (more: bool)
      requires Valid() && stmt.Live? && sqlActive && rowCount >= 0
      requires k <= |up| && Upcoming(stmt.cur) == up[k..]
      modifies this`stmt, this`sqlActive, this`rowCount
      ensures Valid() && stmt.Live? && stmt.cur.prog == old(stmt.cur.prog)
      ensures more <==> k < |up|
      ensures sqlActive == more
      ensures !more ==> rowCount == old(rowCount)
      ensures more ==> CurrentRow(stmt.cur) == up[k] && Upcoming(stmt.cur) == up[k + 1..] &&
                       rowCount == old(rowCount) + 1
    {
      StepAlong(stmt.cur, up, k);
      more := Next();
    }

    /** getOutputList: up to maxrows more rows as row hashes. The batch ends
        when the row counter reaches its start plus maxrows, leaving the
        statement active, or when the rows run out, making it inactive. */
    method GetOutputList(maxrows: int) returns (rv: seq<map<string, Value>>)
      requires Valid() && sql.Some? && stmt.Live? && sqlActive && rowCount != -1 && maxrows > 0
      modifies this`stmt, this`sqlActive, this`rowCount
      ensures Valid() && stmt.Live? && stmt.cur.prog == old(stmt.cur.prog)
      ensures var k := Taken(Upcoming(old(stmt.cur)), maxrows);
        rv == RowsOf(stmt.cur.prog.names, Upcoming(old(stmt.cur))[..k]) &&
        rowCount == old(rowCount) + k &&
        sqlActive == (k == maxrows) &&
        (sqlActive ==> Upcoming(stmt.cur) == Upcoming(old(stmt.cur))[k..])
    {
      var end := rowCount + maxrows;
      var names := stmt.cur.prog.names;
      ghost var prog := stmt.cur.prog;
      ghost var up := Upcoming(stmt.cur);
      ghost var k := 0;
      rv := [];
      assert up[..0] == [] && up[0..] == up;
      while true
        invariant Valid() && stmt.Live? && stmt.cur.prog == prog && sqlActive
        invariant k < maxrows && k <= |up| && Upcoming(stmt.cur) == up[k..]
        invariant rowCount == old(rowCount) + k && end == old(rowCount) + maxrows
        invariant rv == RowsOf(names, up[..k])
        decreases |up| - k
      {
        var more := NextInBatch(up, k);
        if !more {
          break;
        }
        assert up[..k + 1] == up[..k] + [up[k]];
        rv := AddListRow(rv, names, up[..k], CurrentRow(stmt.cur));
        k := k + 1;
        if rowCount == end {
          break;
        }
      }
    }

    /** getOutputHash: up to maxrows more rows as a column hash whose keys
        are made on the first row fetched. Same batch bounds as
        getOutputList. */
    method GetOutputHash(maxrows: int) returns (rv: map<string, seq<Value>>)
      requires Valid() && sql.Some? && stmt.Live? && sqlActive && rowCount != -1 && maxrows > 0
      modifies this`stmt, this`sqlActive, this`rowCount
      ensures Valid() && stmt.Live? && stmt.cur.prog == old(stmt.cur.prog)
      ensures var k := Taken(Upcoming(old(stmt.cur)), maxrows);
        rv == BatchColumns(stmt.cur.prog.names, Upcoming(old(stmt.cur))[..k]) &&
        rowCount == old(rowCount) + k &&
        sqlActive == (k == maxrows) &&
        (sqlActive ==> Upcoming(stmt.cur) == Upcoming(old(stmt.cur))[k..])
    {
      var end := rowCount + maxrows;
      var names := stmt.cur.prog.names;
      ghost var prog := stmt.cur.prog;
      ghost var up := Upcoming(stmt.cur);
      ghost var k := 0;
      rv := map[];
      assert up[..0] == [] && up[0..] == up;
      while true
        invariant Valid() && stmt.Live? && stmt.cur.prog == prog && sqlActive
        invariant k < maxrows && k <= |up| && Upcoming(stmt.cur) == up[k..]
        invariant rowCount == old(rowCount) + k && end == old(rowCount) + maxrows
        invariant rv == BatchColumns(names, up[..k])
        decreases |up| - k
      {
        var more := NextInBatch(up, k);
        if !more {
          break;
        }
        assert up[..k + 1] == up[..k] + [up[k]];
        rv := AddBatchRow(rv, names, up[..k], CurrentRow(stmt.cur));
        k := k + 1;
        if rowCount == end {
          break;
        }
      }
    }

    /** fetchRows: an error when inactive; otherwise a counter of -1 becomes
        0 and the batch is fetched as getOutputList does. */
    method FetchRows(maxrows: int) returns (r: Result<seq<map<string, Value>>>)
      requires Valid() && sql.Some? && !stmt.NoStmt?
      requires sqlActive ==> stmt.Live? && maxrows > 0
      modifies this`stmt, this`sqlActive, this`rowCount
      ensures Valid()
      ensures !old(sqlActive) ==> r == Err(FetchRowsError) && unchanged(this)
      ensures old(sqlActive) ==>
        var start := if old(rowCount) == -1 then 0 else old(rowCount);
        var k := Taken(Upcoming(old(stmt.cur)), maxrows);
        stmt.Live? && stmt.cur.prog == old(stmt.cur.prog) &&
        r == Ok(RowsOf(stmt.cur.prog.names, Upcoming(old(stmt.cur))[..k])) &&
        rowCount == start + k && sqlActive == (k == maxrows) &&
        (sqlActive ==> Upcoming(stmt.cur) == Upcoming(old(stmt.cur))[k..])
    {
      if !sqlActive {
        return Err(FetchRowsError);
      }
      if rowCount == -1 {
        rowCount := 0;
      }
      var rows := GetOutputList(maxrows);
      return Ok(rows);
    }

    /** fetchColumns: an error when inactive; otherwise a counter of -1
        becomes 0 and the batch is fetched as getOutputHash does. */
    method FetchColumns(maxrows: int) returns (r: Result<map<string, seq<Value>>>)
      requires Valid() && sql.Some? && !stmt.NoStmt?
      requires sqlActive ==> stmt.Live? && maxrows > 0
      modifies this`stmt, this`sqlActive, this`rowCount
      ensures Valid()
      ensures !old(sqlActive) ==> r == Err(FetchColumnsError) && unchanged(this)
      ensures old(sqlActive) ==>
        var start := if old(rowCount) == -1 then 0 else old(rowCount);
        var k := Taken(Upcoming(old(stmt.cur)), maxrows);
        stmt.Live? && stmt.cur.prog == old(stmt.cur.prog) &&
        r == Ok(BatchColumns(stmt.cur.prog.names, Upcoming(old(stmt.cur))[..k])) &&
        rowCount == start + k && sqlActive == (k == maxrows) &&
        (sqlActive ==> Upcoming(stmt.cur) == Upcoming(old(stmt.cur))[k..])
    {
      if !sqlActive {
        return Err(FetchColumnsError);
      }
      if rowCount == -1 {
        rowCount := 0;
      }
      var h := GetOutputHash(maxrows);
      return Ok(h);
    }

    /** describe: one entry per column of the compiled statement, typed by
        the storage class of the current row's cell; a statement that was
        never compiled has no columns. Unavailable when the engine was built
        without column metadata (`supported` false). */
    method Describe(supported: bool) returns (r: Result<map<string, ColumnInfo>>)
      requires Valid() && !stmt.Finalized?
      ensures !supported ==> r == Err(DescribeUnsupported)
      ensures supported && stmt.NoStmt? ==> r == Ok(map[])
      ensures supported && stmt.Live? ==>
        r == Ok(Description(stmt.cur.prog.names, CurrentRow(stmt.cur)))
    {
      if !supported {
        return Err(DescribeUnsupported);
      }
      if stmt.NoStmt? {
        return Ok(map[]);
      }
      var names := stmt.cur.prog.names;
      var cells := CurrentRow(stmt.cur);
      var infos := Infos(names, cells);
      var h := map[];
      for i := 0 to |names|
        invariant h == LastWins(names[..i], infos[..i])
      {
        assert names[..i + 1][..i] == names[..i] && infos[..i + 1][..i] == infos[..i];
        h := h[names[i] := Info(names[i], cells[i])];
      }
      assert names[..|names|] == names && infos[..|names|] == infos;
      return Ok(h);
    }

    /** reset: finalizes the engine handle but keeps the pointer, so the
        handle reads as finalized rather than absent; text, arguments, the
        active flag and the row counter are cleared. */
    method Reset()
      requires Valid()
      modifies this
      ensures Valid()
      ensures stmt == (if old(stmt).NoStmt? then NoStmt else Finalized)
      ensures sql.None? && realArgs == [] && !sqlActive && rowCount == -1
    {
      if !stmt.NoStmt? {
        stmt := Finalized;
      }
      sql := None;
      realArgs := [];
      sqlActive := false;
      rowCount := -1;
    }
  }
}
