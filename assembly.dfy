/**
 * The eager entry points of the executor: exec, execRaw and select build a
 * hash of column name to the list of that column's values, select_rows a
 * list of one hash per row. All four share one front part: convert the
 * statement to the connection encoding, rewrite its placeholders, compile
 * it and bind the collected arguments.
 */
module Assembly {
  import opened Values
  import opened Engine
  import opened Placeholders
  import opened ParseProperties
  import opened Binder
  import opened Columns

  /** What exec, execRaw and select return: the column hash when the
      statement has columns, otherwise the engine's change count. */
  datatype Outcome = Table(h: map<string, seq<Value>>) | Changed(count: int)

  const EXEC_TAG: string := "SQLITE3-EXEC"
  const EXECRAW_TAG: string := "SQLITE3-EXECRAW"
  const SELECT_TAG: string := "SQLITE3-SELECT"
  const SELECT_ROWS_TAG: string := "SQLITE3-SELECT-ROWS"

  ghost predicate Distinct(names: seq<string>)
  {
    forall a, b :: 0 <= a < b < |names| ==> names[a] != names[b]
  }

  // ---- the front part ----------------------------------------------------

  /** Convert, rewrite (when binding), compile and bind (when binding). The
      engine reads the statement text as a C string, up to its first NUL.
      Every error but the encoding one carries the caller's tag; parse and
      bind errors only occur when binding; a statement prepared without
      binding has no bind calls; the cursor starts before the first row. */
  function Prepared(sql: string, args: Option<seq<Value>>, binding: bool, tag: string,
                    conn: Connection, f: Foreign): (r: Result<Cursor>)
    ensures r.Err? ==>
      (r.error.EncodingFailed? ||
       ((r.error.ParseFailed? || r.error.CompileFailed? || r.error.BindFailed?) && r.error.tag == tag))
    ensures r.Err? && (r.error.ParseFailed? || r.error.BindFailed?) ==> binding
    ensures r.Ok? ==> CursorOk(r.value) && r.value.stepped == 0 && !r.value.atEnd
    ensures r.Ok? && !binding ==> r.value.bound == []
  {
    match f.convert(sql)
    case None => Err(EncodingFailed)
    case Some(text) =>
      var p := if binding then Parse(text, args, [], f) else ParseResult(text, [], None);
      if p.error.Some? then Err(ParseFailed(tag, p.error.value))
      else
        match conn.compile(CPrefix(p.text))
        case None => Err(CompileFailed(tag))
        case Some(prog) =>
          if !binding then Ok(Fresh(prog))
          else
            var b := BindFrom(p.binds, 0, prog.paramCount, conn.accept, f);
            if b.error.Some? then Err(BindFailed(tag, b.error.value))
            else Ok(Fresh(prog).(bound := b.calls))
  }

  method Prepare(sql: string, args: Option<seq<Value>>, binding: bool, tag: string,
                 conn: Connection, f: Foreign) returns (r: Result<Cursor>)
    ensures r == Prepared(sql, args, binding, tag, conn, f)
  {
    var converted := f.convert(sql);
    if converted.None? {
      return Err(EncodingFailed);
    }
    var text := converted.value;
    var binds: seq<Value> := [];
    if binding {
      var parsed, realArgs, error := ParseForBind(text, args, [], f);
      if error.Some? {
        return Err(ParseFailed(tag, error.value));
      }
      text, binds := parsed, realArgs;
    }
    var prog := conn.compile(CPrefix(text));
    if prog.None? {
      return Err(CompileFailed(tag));
    }
    var cur := Fresh(prog.value);
    if binding {
      var bound, err := BindParameters(binds, cur, conn.accept, f);
      if err.Some? {
        return Err(BindFailed(tag, err.value));
      }
      assert [] + bound.bound[|cur.bound|..] == bound.bound;
      cur := bound;
    }
    return Ok(cur);
  }

  // ---- the column hash -----------------------------------------------------

  /** The hash before any row: every column name mapped to an empty list. */
  function EmptyColumns(names: seq<string>): (h: map<string, seq<Value>>)
    ensures h.Keys == set n | n in names
    ensures forall n :: n in h ==> h[n] == []
  {
    map n | n in names :: []
  }

  /** Appending the first i cells of a row to their columns' lists. Columns
      sharing a name push onto the same list. */
  function AppendCells(h: map<string, seq<Value>>, names: seq<string>, cells: seq<Cell>, i: nat)
    : (h': map<string, seq<Value>>)
    requires |cells| == |names| && i <= |names|
    requires forall n :: n in names ==> n in h
    ensures h'.Keys == h.Keys
    decreases i
  {
    if i == 0 then h
    else
      var h0 := AppendCells(h, names, cells, i - 1);
      h0[names[i - 1] := h0[names[i - 1]] + [ColumnValue(cells[i - 1])]]
  }

  /** The column hash select_internal builds from the rows produced. */
  function ColumnsOf(names: seq<string>, rows: seq<seq<Cell>>): (h: map<string, seq<Value>>)
    requires RowsFit(names, rows)
    ensures h.Keys == set n | n in names
    decreases |rows|
  {
    if rows == [] then EmptyColumns(names)
    else
      var n := |rows| - 1;
      AppendCells(ColumnsOf(names, rows[..n]), names, rows[n], |names|)
  }

  /** With distinct column names, appending a row adds exactly that column's
      cell to each list. */
  lemma {:induction false} AppendCellsAt(h: map<string, seq<Value>>, names: seq<string>, cells: seq<Cell>,
                                         i: nat, j: nat)
    requires |cells| == |names| && i <= |names| && j < |names| && Distinct(names)
    requires forall n :: n in names ==> n in h
    ensures AppendCells(h, names, cells, i)[names[j]]
         == h[names[j]] + (if j < i then [ColumnValue(cells[j])] else [])
    decreases i
  {
    if i > 0 {
      AppendCellsAt(h, names, cells, i - 1, j);
    }
  }

  /** With distinct column names, each column's list holds that column's
      values, one per row, in row order. */
  lemma {:induction false} ColumnsOfColumn(names: seq<string>, rows: seq<seq<Cell>>, j: nat)
    requires RowsFit(names, rows) && Distinct(names) && j < |names|
    ensures var col := ColumnsOf(names, rows)[names[j]];
      |col| == |rows| && forall r :: 0 <= r < |rows| ==> col[r] == ColumnValue(rows[r][j])
    decreases |rows|
  {
    if rows != [] {
      var n := |rows| - 1;
      ColumnsOfColumn(names, rows[..n], j);
      AppendCellsAt(ColumnsOf(names, rows[..n]), names, rows[n], |names|, j);
    }
  }

  /** A statement that produces no rows still yields one key per column,
      each with an empty list; only a statement without columns yields an
      empty hash. */
  lemma NoRowsGivesEmptyLists(names: seq<string>)
    ensures forall n :: n in names ==> ColumnsOf(names, [])[n] == []
    ensures |ColumnsOf(names, [])| == 0 <==> names == []
  {
    if names != [] {
      assert names[0] in ColumnsOf(names, []);
    }
  }

  /** The inner loop of select_internal: push each cell of the current row
      onto its column's list. */
  method PushRow(h: map<string, seq<Value>>, names: seq<string>, cells: seq<Cell>)
    returns (h': map<string, seq<Value>>)
    requires |cells| == |names|
    requires forall n :: n in names ==> n in h
    ensures h' == AppendCells(h, names, cells, |names|)
  {
    h' := h;
    for i := 0 to |names|
      invariant h' == AppendCells(h, names, cells, i)
    {
      h' := h'[names[i] := h'[names[i]] + [ColumnValue(cells[i])]];
    }
  }

  /** The step loop of select_internal: the column hash of every row the
      statement produces, starting from its first. */
  method CollectColumns(cur: Cursor) returns (h: map<string, seq<Value>>)
    requires CursorOk(cur) && cur.stepped == 0 && !cur.atEnd
    ensures h == ColumnsOf(cur.prog.names, cur.prog.rows)
  {
    var names := cur.prog.names;
    ghost var rows := cur.prog.rows;
    h := EmptyColumns(names);
    var c := cur;
    ghost var k := 0;
    assert rows[..0] == [];
    while true
      invariant CursorOk(c) && c.prog == cur.prog && !c.atEnd
      invariant k <= |rows| && Upcoming(c) == rows[k..]
      invariant h == ColumnsOf(names, rows[..k])
      decreases |rows| - k
    {
      c := Step(c);
      if !OnRow(c) {
        break;
      }
      assert CurrentRow(c) == rows[k];
      assert rows[..k + 1][..k] == rows[..k];
      h := PushRow(h, names, CurrentRow(c));
      k := k + 1;
    }
    assert rows[..k] == rows;
  }

  // ---- the row list ------------------------------------------------------

  /** The hash select_rows builds for one row: column name to value, the
      later of two columns with the same name winning. */
  function RowMap(names: seq<string>, cells: seq<Cell>): map<string, Value>
    requires |cells| == |names|
  {
    LastWins(names, RowValues(cells))
  }

  /** The list select_rows builds: one row hash per row, in order. */
  function RowsOf(names: seq<string>, rows: seq<seq<Cell>>): (res: seq<map<string, Value>>)
    requires RowsFit(names, rows)
    ensures |res| == |rows|
    decreases |rows|
  {
    if rows == [] then []
    else
      var n := |rows| - 1;
      RowsOf(names, rows[..n]) + [RowMap(names, rows[n])]
  }

  /** The list holds, at each position, the hash of the row at that position. */
  lemma {:induction false} RowsOfAt(names: seq<string>, rows: seq<seq<Cell>>, k: nat)
    requires RowsFit(names, rows) && k < |rows|
    ensures RowsOf(names, rows)[k] == RowMap(names, rows[k])
    decreases |rows|
  {
    var n := |rows| - 1;
    if k < n {
      assert RowsFit(names, rows[..n]);
      RowsOfAt(names, rows[..n], k);
    }
  }

  /** Each row hash has one key per column name, and a column that is the
      last with its name gives that key its value. */
  lemma RowMapAt(names: seq<string>, cells: seq<Cell>, j: nat)
    requires |cells| == |names| && j < |names|
    requires forall k :: j < k < |names| ==> names[k] != names[j]
    ensures RowMap(names, cells).Keys == set n | n in names
    ensures RowMap(names, cells)[names[j]] == ColumnValue(cells[j])
  {
    LastWinsAt(names, RowValues(cells), j);
  }

  /** The inner loop of select_rows: one row hash. */
  method RowHash(names: seq<string>, cells: seq<Cell>) returns (m: map<string, Value>)
    requires |cells| == |names|
    ensures m == RowMap(names, cells)
  {
    var vals := RowValues(cells);
    m := map[];
    for i := 0 to |names|
      invariant m == LastWins(names[..i], vals[..i])
    {
      assert names[..i + 1][..i] == names[..i] && vals[..i + 1][..i] == vals[..i];
      m := m[names[i] := ColumnValue(cells[i])];
    }
    assert names[..|names|] == names && vals[..|names|] == vals;
  }

  /** The step loop of select_rows: one row hash per row produced. */
  method CollectRows(cur: Cursor) returns (res: seq<map<string, Value>>)
    requires CursorOk(cur) && cur.stepped == 0 && !cur.atEnd
    ensures res == RowsOf(cur.prog.names, cur.prog.rows)
  {
    var names := cur.prog.names;
    ghost var rows := cur.prog.rows;
    res := [];
    var c := cur;
    ghost var k := 0;
    assert rows[..0] == [];
    while true
      invariant CursorOk(c) && c.prog == cur.prog && !c.atEnd
      invariant k <= |rows| && Upcoming(c) == rows[k..]
      invariant res == RowsOf(names, rows[..k])
      decreases |rows| - k
    {
      c := Step(c);
      if !OnRow(c) {
        break;
      }
      assert CurrentRow(c) == rows[k];
      assert rows[..k + 1][..k] == rows[..k];
      var head := RowHash(names, CurrentRow(c));
      res := res + [head];
      k := k + 1;
    }
    assert rows[..k] == rows;
  }

  // ---- the entry points ----------------------------------------------------

  /** select_internal: the column hash of the statement's rows. */
  function Selected(sql: string, args: Option<seq<Value>>, binding: bool, tag: string,
                    conn: Connection, f: Foreign): Result<map<string, seq<Value>>>
  {
    match Prepared(sql, args, binding, tag, conn, f)
    case Err(e) => Err(e)
    case Ok(c) => Ok(ColumnsOf(c.prog.names, c.prog.rows))
  }

  /** The common tail of exec, execRaw and select: a non-empty hash is the
      result, otherwise the change count. */
  function Finish(r: Result<map<string, seq<Value>>>, changes: int): Result<Outcome>
  {
    match r
    case Err(e) => Err(e)
    case Ok(h) => if |h| > 0 then Ok(Table(h)) else Ok(Changed(changes))
  }

  method SelectInternal(sql: string, args: Option<seq<Value>>, binding: bool, tag: string,
                        conn: Connection, f: Foreign) returns (r: Result<map<string, seq<Value>>>)
    ensures r == Selected(sql, args, binding, tag, conn, f)
  {
    var prepared := Prepare(sql, args, binding, tag, conn, f);
    if prepared.Err? {
      return Err(prepared.error);
    }
    var h := CollectColumns(prepared.value);
    return Ok(h);
  }

  /** exec: with binding, tagged SQLITE3-EXEC. */
  method Exec(sql: string, args: Option<seq<Value>>, conn: Connection, f: Foreign) returns (r: Result<Outcome>)
    ensures r == Finish(Selected(sql, args, true, EXEC_TAG, conn, f), conn.changes)
  {
    var h := SelectInternal(sql, args, true, EXEC_TAG, conn, f);
    r := Finish(h, conn.changes);
  }

  /** execRaw: no placeholder rewriting and no binding, tagged SQLITE3-EXECRAW. */
  method ExecRaw(sql: string, conn: Connection, f: Foreign) returns (r: Result<Outcome>)
    ensures r == Finish(Selected(sql, None, false, EXECRAW_TAG, conn, f), conn.changes)
  {
    var h := SelectInternal(sql, None, false, EXECRAW_TAG, conn, f);
    r := Finish(h, conn.changes);
  }

  /** select: with binding, tagged SQLITE3-SELECT. */
  method Select(sql: string, args: Option<seq<Value>>, conn: Connection, f: Foreign) returns (r: Result<Outcome>)
    ensures r == Finish(Selected(sql, args, true, SELECT_TAG, conn, f), conn.changes)
  {
    var h := SelectInternal(sql, args, true, SELECT_TAG, conn, f);
    r := Finish(h, conn.changes);
  }

  /** select_rows: with binding, tagged SQLITE3-SELECT-ROWS. */
  method SelectRows(sql: string, args: Option<seq<Value>>, conn: Connection, f: Foreign)
    returns (r: Result<seq<map<string, Value>>>)
    ensures r.Err? <==> Prepared(sql, args, true, SELECT_ROWS_TAG, conn, f).Err?
    ensures r.Err? ==> r.error == Prepared(sql, args, true, SELECT_ROWS_TAG, conn, f).error
    ensures r.Ok? ==>
      var c := Prepared(sql, args, true, SELECT_ROWS_TAG, conn, f).value;
      r.value == RowsOf(c.prog.names, c.prog.rows)
  {
    var prepared := Prepare(sql, args, true, SELECT_ROWS_TAG, conn, f);
    if prepared.Err? {
      return Err(prepared.error);
    }
    var rows := CollectRows(prepared.value);
    return Ok(rows);
  }

  // ---- what the entry points promise ----------------------------------------

  /** exec, execRaw and select return the change count exactly when the
      compiled statement has no columns, and otherwise the column hash, with
      one key per column name; they fail exactly when the front part fails,
      with its error. */
  lemma FinishShape(sql: string, args: Option<seq<Value>>, binding: bool, tag: string,
                    conn: Connection, f: Foreign)
    ensures var p := Prepared(sql, args, binding, tag, conn, f);
      var r := Finish(Selected(sql, args, binding, tag, conn, f), conn.changes);
      (r.Err? <==> p.Err?) && (r.Err? ==> r.error == p.error) &&
      (r.Ok? ==>
         (r.value.Changed? <==> p.value.prog.names == []) &&
         (r.value.Changed? ==> r.value.count == conn.changes) &&
         (r.value.Table? ==>
            r.value.h == ColumnsOf(p.value.prog.names, p.value.prog.rows) &&
            r.value.h.Keys == set n | n in p.value.prog.names))
  {
    var p := Prepared(sql, args, binding, tag, conn, f);
    if p.Ok? && p.value.prog.names != [] {
      assert p.value.prog.names[0] in ColumnsOf(p.value.prog.names, p.value.prog.rows);
    }
  }

  /** The arguments are never counted against the parameter slots: a
      statement without markers, run with binding, compiles the same text
      as without binding and binds every parameter slot to NULL. */
  lemma PlainStatementBindsNulls(sql: string, args: Option<seq<Value>>, tag: string,
                                 conn: Connection, f: Foreign)
    requires f.convert(sql).Some? && Plain(f.convert(sql).value)
    ensures var raw := Prepared(sql, args, false, tag, conn, f);
      var bound := Prepared(sql, args, true, tag, conn, f);
      (raw.Err? ==> bound == raw) &&
      (raw.Ok? && bound.Ok? ==>
         bound.value.prog == raw.value.prog &&
         forall k :: 0 <= k < |bound.value.bound| ==> bound.value.bound[k] == (k + 1, BindNull))
  {
    var text := f.convert(sql).value;
    PlainTextUnchanged(text, args, [], f);
    match conn.compile(CPrefix(text))
    case None =>
    case Some(prog) =>
      MissingArgumentsBindNull([], prog.paramCount, conn.accept, f);
  }
}
