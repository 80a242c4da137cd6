# sqlite3 driver executor, modelled in Dafny

This project models the executor of the qore sqlite3 database driver
(`src/sqlite3executor.cc`). The executor sits between the host language's
dynamically typed values and the embedded SQLite engine. It has five parts:

- **The placeholder rewriter `parseForBind`.** It scans statement text left
  to right and edits the buffer in place:
  - `%d` and `%s` are replaced by inline literals;
  - `%v` becomes the positional marker `?N`, and its argument is appended to
    the bind list;
  - a quote character right after `%v` switches a quote mode on or off.
- **The binder `bindParameters`.** It walks the engine's parameter slots and
  dispatches each collected argument, by kind, to one engine bind call.
- **The column reader `columnValue` and the type table of `describe`.** They
  turn a stored cell into a value and into a column description.
- **The eager entry points.** `select_rows` builds a list of row hashes.
  `select_internal` builds a column hash, and `exec`, `select` and `execRaw`
  build on it, falling back to the engine's change count when the hash has
  no keys.
- **The prepared statement `QoreSqlite3PreparedStatement`.** Its life cycle
  is prepare, bind, exec, then `next`/`fetchRow` or bounded batch fetches,
  then reset.

Modules, one per file:

| file | module | contents |
|---|---|---|
| `values.dfy` | `Values` | host values, the foreign collaborators (literal rendering, truthiness, date and number formatting, encoding conversion), error results |
| `engine.dfy` | `Engine` | the engine as the driver sees it: storage cells, compiled programs (column names, rows, parameter count), a cursor and its step, the connection |
| `placeholders.dfy` | `Placeholders` | `Scan`, the specification of the rewriter, and `ParseForBind`, the in-place loop proved equal to it |
| `parse_properties.dfy` | `ParseProperties` | what the rewriter promises, proved about `Scan` |
| `binder.dfy` | `Binder` | `Dispatch`, the specification `BindFrom` and the loop `BindParameters` |
| `columns.dfy` | `Columns` | `ColumnValue`, the bind/read round trip, the `describe` table, last-key-wins hashes |
| `assembly.dfy` | `Assembly` | the eager paths: `Exec`, `ExecRaw`, `Select`, `SelectRows` |
| `statement.dfy` | `Statement` | the class `PreparedStatement` and its batch specifications |

How the model represents the parts it abstracts:

- **The engine.** A compiled statement is a `Program`: column names, the rows
  the statement yields and its parameter count. A `Cursor` walks the rows.
  As SQLite does, a step after the end restarts from the first row. Column
  reads with no current row see NULL cells.
- **Compiling and binding.** The connection's `compile` and `accept` are
  oracles. Accepted bind calls are logged in the cursor. The rows do not
  depend on the bound values.
- **Foreign calls.** `DBI_concat_numeric`, `DBI_concat_string`, truthiness,
  date and number formatting and encoding conversion are total functions in
  a `Foreign` record. The string renderer and the conversion may fail.
- **Text.** The statement text is a `string`, and each `char` stands for
  one byte of the text after encoding conversion, as the C code scans it
  byte by byte. A character of several bytes appears as its bytes, and
  `IsAlpha` is `isalpha` in the C locale (the ASCII letters).
- **C `assert`s.** They become `requires`. Operations on a finalized engine
  handle are undefined behaviour in SQLite, so they are excluded by
  `requires` too.

Behaviour of the code that a reader might not expect, which the model
keeps as written:

- **Argument count.** `parseForBind` counts the markers it handles
  (`src/sqlite3executor.cc:31`, `:44`) but never compares the count with
  the arguments given, and `bindParameters` (`:102-113`) walks the engine's
  parameter slots without comparing them with the collected list. A missing
  argument reads as Nothing and is bound as NULL
  (`MissingArgumentBindsNothing`, `MissingArgumentsBindNull`).
- **Zero-row select.** `select_internal` creates one key per column before
  it steps (`:346-350`), so a select with no rows gives keys mapped to empty
  lists (`NoRowsGivesEmptyLists`). Only `getOutputHash` creates its keys on
  the first row fetched (`:445-451`, `BatchColumnsKeys`).
- **Parse failure.** `prepare` stores the converted text and lets
  `parseForBind` edit it and fill the argument list before the error is
  raised (`:367`, `:377-380`). The prepared statement keeps the partly
  rewritten text and the arguments collected so far (`PrepareSpec`).
- **Reset.** `reset` finalizes the engine handle but does not clear the
  pointer (`:608-610`), so a later `prepare` that reaches compilation would
  fail the no-handle assertion (`:382`). The model keeps a `Finalized`
  handle, and `Prepare` requires no handle on that path. The module's close
  forwarder (`src/sqlite3module.cc:274-281`) deletes the object right after
  `reset`, so a second prepare on a reset object is not reachable through
  the module.
- **The header.** `src/sqlite3executor.h` declares older signatures and
  "true on success" results. The model follows the `.cc` file, where 0 means
  success.

## Model

| member | source | states |
|---|---|---|
| Placeholders.ParseForBind | src/sqlite3executor.cc:25-96 | the in-place loop (buffer edits, cursor re-derived from the offset, counters, quote flag) returns exactly the text, bind list and error of the scan specification `Parse` |
| Placeholders.HandleMarker | src/sqlite3executor.cc:38-92 | one marker edits the buffer as the specification's step does: on an error the buffer holds the step's output followed by the unscanned marker; otherwise the text before the new cursor is the step's output, the text after it is the rest to scan, and the counters, quote flag and bind list are the step's new state |
| Placeholders.HandleValueMarker | src/sqlite3executor.cc:66-92 | the `%v` branch: a letter after `v` stops with the marker unscanned; otherwise `?N` replaces the marker, the argument is appended, and a following quote is copied and toggles quote mode |
| Placeholders.Replace | src/sqlite3executor.cc:48 | replacing the two-character marker at `offset` keeps the text before it, inserts the new text and keeps the text after the marker |
| ParseProperties.AdvanceAccounts | src/sqlite3executor.cc:33-92 | one step either stops with the output and bind list unchanged, or consumes a piece whose source is a prefix of the text: its rendering is appended to the output, a `%v` marker appends its argument and is numbered with the new parameter count, a copied character is neither '%' nor NUL, a `%d`/`%s` literal is its argument's rendering, and any marker consumes the next argument |
| ParseProperties.ValueMarkerAccounts | src/sqlite3executor.cc:66-92 | the `%v` step leaves the state untouched when it stops, and otherwise appends `?N` and the argument with N one more than before |
| ParseProperties.ScanAccounts | src/sqlite3executor.cc:33-93 | the input is the sources of the scanned pieces followed by the unscanned tail; the result text is their renderings followed by the same tail; the bind list grows by the `%v` arguments in order; a scan with no error ends at the end of the text |
| ParseProperties.ScanNumbers | src/sqlite3executor.cc:75-77 | the `%v` markers made from a state are numbered consecutively after the markers already made |
| ParseProperties.ScanConsumes | src/sqlite3executor.cc:43 | the markers, of every kind, consume the arguments in order from the current index |
| ParseProperties.ScanPieces | src/sqlite3executor.cc:33-58 | only characters other than '%' and NUL are copied unchanged; every `%d` piece's literal is `DBI_concat_numeric` of its argument and every `%s` piece's literal is the string `DBI_concat_string` gave for its argument |
| ParseProperties.ScanStops | src/sqlite3executor.cc:53-71 | a scan that stops with an error stops at a marker in the unscanned tail: an invalid specifier is the character after the introducer and is not d, s or v; a letter after `%v` is the character after `v`; a failed `%s` is an `s` specifier whose argument, the next unconsumed one, cannot be rendered |
| ParseProperties.QuoteFreeMarkersStartWithPercent | src/sqlite3executor.cc:33-37 | in text without quote characters, every marker starts with '%' |
| ParseProperties.ScanSkipsPlain | src/sqlite3executor.cc:33-37 | outside quote mode, text without '%' is copied and scanning continues after it |
| ParseProperties.ParseRewritesMarkers | src/sqlite3executor.cc:25-96 | for every input: the statement is the pieces plus the tail, the result their rendering plus the tail, the bind list is the earlier list followed by the `%v` arguments in order, one per `?N` marker, the markers are numbered 1, 2, …, the k-th marker consumes argument k, only non-'%' characters are copied, each `%d`/`%s` piece becomes its argument's literal, success means the whole text was scanned, and a failure stopped at the marker that raised it, with the error that marker and its argument give |
| ParseProperties.PlainTextUnchanged | src/sqlite3executor.cc:33-37 | text with no '%' and no NUL comes back unchanged, with the bind list unchanged and no error |
| ParseProperties.StopAtMarker | src/sqlite3executor.cc:33-71 | from any state, after plain text outside quote mode or at once in quote mode, a marker whose step stops ends the scan with that step's error, the text unchanged from the marker on, and the bind list of the state reached |
| ParseProperties.UnknownSpecifierFails | src/sqlite3executor.cc:61-65 | wherever the scan has got to, a marker followed by anything but d, s or v fails with that character, and the rest of the text and the bind list are left as they were |
| ParseProperties.TrailingPercentFails | src/sqlite3executor.cc:61-65 | wherever the scan has got to, a marker introducer at the end of the text fails as an invalid specifier (NUL) |
| ParseProperties.LetterAfterValueMarkerFails | src/sqlite3executor.cc:66-71 | wherever the scan has got to, `%v` followed by a letter fails with that letter, and nothing more is bound |
| ParseProperties.FailedStringLiteralFails | src/sqlite3executor.cc:53-55 | wherever the scan has got to, a `%s` whose argument (the next unconsumed one) cannot be rendered fails with the conversion error |
| ParseProperties.MissingArgumentBindsNothing | src/sqlite3executor.cc:43-44 | a `%v` with no argument left is not an error: it becomes `?1` and binds Nothing |
| ParseProperties.ScanQuotedValueMarker | src/sqlite3executor.cc:86-92 | a `%v` followed by a quote writes `?N` and the quote, updates the quote flag, and scanning resumes after the quote |
| ParseProperties.QuoteAfterValueMarkerCapturesNextChar | src/sqlite3executor.cc:34-34 | after `%v'` the next character, whatever it is, is taken as a marker introducer, so a following non-specifier makes the parse fail |
| ParseProperties.ScanQuotedPair | src/sqlite3executor.cc:86-92 | `%v'%v'` from normal mode, with a true second argument, leaves quote mode off |
| ParseProperties.PairState | src/sqlite3executor.cc:73-84 | the two quoted markers write `?1'?2'` and bind the first two arguments |
| ParseProperties.QuotedPairOfMarkers | src/sqlite3executor.cc:86-92 | `pre %v'%v' post` with a true second argument becomes `pre ?1'?2' post`, binds two arguments and succeeds |
| ParseProperties.InlinedLiteralNotRescanned | src/sqlite3executor.cc:46-58 | from any state outside quote mode, a `%d` or `%s` literal (the rendering of the next argument) is spliced in as it is and never re-scanned, even if it contains markers, and adds no bind entry |
| Binder.Dispatch | src/sqlite3executor.cc:106-173 | exactly the unsupported kinds have no bind call |
| Binder.BindFromCalls | src/sqlite3executor.cc:102-169 | the k-th bind call goes to slot k+1 and is the dispatch of list element k, for slots below the engine's parameter count; on success there is one call per slot |
| Binder.BindFromError | src/sqlite3executor.cc:102-174 | binding fails exactly when some slot's value is unsupported or refused; the error names the first such slot, and no later slot is bound |
| Binder.MissingArgumentsBindNull | src/sqlite3executor.cc:102-113 | slots past the end of the list are bound to NULL |
| Binder.BindParameters | src/sqlite3executor.cc:98-177 | the loop logs exactly the specification's calls on the cursor and returns its error |
| Columns.Wrap32 | src/sqlite3executor.cc:184 | the 32-bit read is in the int32 range, congruent to the stored value modulo 2^32, and exact within the range |
| Columns.CPrefix | src/sqlite3executor.cc:204 | a C-string read is the longest NUL-free prefix of the stored text |
| Columns.CPrefixOfPlain | src/sqlite3executor.cc:204 | NUL-free text is read back whole |
| Columns.ColumnValue | src/sqlite3executor.cc:179-205 | the value is an int, float, string, binary or null; null exactly for a NULL cell; ints within 32 bits; strings without NUL |
| Columns.RoundTrip | src/sqlite3executor.cc:106-204 | a supported value that is bound and read back is unchanged exactly when it is NULL, a float, a binary, a string without NUL or an int within 32 bits (Nothing reads back as NULL, booleans as 1/0, dates and numbers as text) |
| Columns.BooleanReadsBackAsInteger | src/sqlite3executor.cc:134-139 | a boolean reads back as the integer 1 or 0 |
| Columns.NativeType | src/sqlite3executor.cc:566-595 | a NULL cell, and only it, has no type code, and its native type is "unknown" |
| Columns.DescribeAgreesWithColumnValue | src/sqlite3executor.cc:566-595 | describe's type code is the kind `columnValue` produces for the same cell, and NULL cells have none |
| Columns.LastWins | src/sqlite3executor.cc:302-304 | a hash built by repeated `setKeyValue` has exactly the given names as keys |
| Columns.LastWinsAt | src/sqlite3executor.cc:302-304 | a name not repeated later keeps the value set with it |
| Columns.DescriptionOfColumn | src/sqlite3executor.cc:555-598 | describe's hash has one key per column name; a column that is the last with its name is described by its name, storage class, type code, native type and maxsize -1 |
| Assembly.Prepared | src/sqlite3executor.cc:318-343 | errors carry the call's tag (or are encoding failures); parse and bind errors only occur when binding; success gives a fresh cursor, with no binds when not binding |
| Assembly.Prepare | src/sqlite3executor.cc:318-343 | the front part (convert, parse, compile the C-string prefix, bind) computes `Prepared` |
| Assembly.EmptyColumns | src/sqlite3executor.cc:346-350 | one key per column name, each mapped to an empty list |
| Assembly.AppendCells | src/sqlite3executor.cc:354-357 | appending a row keeps the key set |
| Assembly.ColumnsOf | src/sqlite3executor.cc:346-358 | the column hash has exactly the column names as keys |
| Assembly.AppendCellsAt | src/sqlite3executor.cc:354-357 | with distinct names, appending a row adds that column's value to the end of its list |
| Assembly.ColumnsOfColumn | src/sqlite3executor.cc:346-358 | with distinct names, each list has one value per row, the column's value in row order |
| Assembly.NoRowsGivesEmptyLists | src/sqlite3executor.cc:346-350 | a statement with no rows still has one key per column, each mapped to an empty list; the hash is empty only without columns |
| Assembly.PushRow | src/sqlite3executor.cc:354-357 | the inner loop appends the row's cells to their lists |
| Assembly.CollectColumns | src/sqlite3executor.cc:346-360 | the step loop builds the column hash of all rows |
| Assembly.RowsOf | src/sqlite3executor.cc:297-306 | one row hash per row |
| Assembly.RowsOfAt | src/sqlite3executor.cc:297-306 | the k-th hash is the hash of the k-th row |
| Assembly.RowMapAt | src/sqlite3executor.cc:300-304 | a row hash has one key per column name, and a column that is the last with its name gives that key its value |
| Assembly.RowHash | src/sqlite3executor.cc:300-304 | the inner loop builds the row hash |
| Assembly.CollectRows | src/sqlite3executor.cc:297-308 | the step loop builds the hashes of all rows, in order |
| Assembly.SelectInternal | src/sqlite3executor.cc:311-361 | select_internal returns the front part's error, or the column hash of all rows |
| Assembly.Exec | src/sqlite3executor.cc:214-230 | exec is select_internal with binding, then the hash or the change count |
| Assembly.ExecRaw | src/sqlite3executor.cc:232-247 | execRaw is select_internal without arguments or binding |
| Assembly.Select | src/sqlite3executor.cc:249-265 | select behaves as exec with its own tag |
| Assembly.SelectRows | src/sqlite3executor.cc:267-309 | select_rows fails exactly when its front part fails, with that error, and otherwise returns one hash per row |
| Assembly.FinishShape | src/sqlite3executor.cc:225-229 | exec/select/execRaw fall back to the change count exactly when the statement has no columns; otherwise the result is the column hash, keyed by the column names |
| Assembly.PlainStatementBindsNulls | src/sqlite3executor.cc:325-343 | for text without '%', binding and not binding compile the same statement, and binding only sets NULL in every slot |
| Statement.PrepareSpec | src/sqlite3executor.cc:363-390 | prepare succeeds exactly when it compiles, and compiles only after conversion and parsing succeeded; errors are encoding failures or carry the prepare tag; without parsing nothing is collected; the text is kept exactly when it converted |
| Statement.PrepareCollectsMarkerArgs | src/sqlite3executor.cc:377-383 | after a successful prepare the kept text is the rewritten text and the collected arguments are the `%v` arguments, one per `?N` marker |
| Statement.Taken | src/sqlite3executor.cc:441-458 | a batch takes maxrows rows, or all remaining rows when fewer are left |
| Statement.BatchColumnsKeys | src/sqlite3executor.cc:445-451 | the batch column hash is empty exactly when no row was fetched or there are no columns |
| Statement.BatchStep | src/sqlite3executor.cc:445-454 | fetching one more row creates the keys if the hash is empty, then appends the row's cells |
| Statement.AddBatchRow | src/sqlite3executor.cc:445-454 | the loop body of getOutputHash extends the batch hash by one row |
| Statement.AddListRow | src/sqlite3executor.cc:473-479 | the loop body of getOutputList appends one row hash |
| Statement.StepAlong | src/sqlite3executor.cc:420 | a step k rows into a pass yields row k and leaves the rows after it, or reports no row when none is left |
| Statement.PreparedStatement.constructor | src/sqlite3module.cc:185 | a new statement has no text, no handle, no arguments, is inactive and has row counter -1 |
| Statement.PreparedStatement.Prepare | src/sqlite3executor.cc:363-390 | the new text, collected arguments and error are those of `PrepareSpec`; the handle becomes a fresh cursor exactly when compiling succeeded |
| Statement.PreparedStatement.Bind | src/sqlite3executor.cc:392-401 | the list argument is ignored; with no collected arguments nothing happens; otherwise the collected arguments are bound again and a failure carries the statement bind tag |
| Statement.PreparedStatement.Exec | src/sqlite3executor.cc:403-412 | exec succeeds and activates the statement exactly when the transaction begins; it does not step |
| Statement.PreparedStatement.Next | src/sqlite3executor.cc:414-430 | inactive: false and no change; otherwise one step, true exactly when a row remained, inactive after no row, and the counter moves from -1 to 1 or up by one |
| Statement.PreparedStatement.FetchRow | src/sqlite3executor.cc:489-506 | an error unless active with a counter other than -1; otherwise the hash of the current row; it never steps |
| Statement.PreparedStatement.NextInBatch | src/sqlite3executor.cc:474 | a `next` inside a batch yields the next remaining row, or ends the batch inactive |
| Statement.PreparedStatement.GetOutputList | src/sqlite3executor.cc:463-487 | returns the hashes of the first min(maxrows, remaining) rows; the counter grows by that number; the statement stays active exactly when maxrows rows were taken, positioned after them |
| Statement.PreparedStatement.GetOutputHash | src/sqlite3executor.cc:432-461 | the column hash of the same batch (no keys when no row was fetched), with the same counter and activity |
| Statement.PreparedStatement.FetchRows | src/sqlite3executor.cc:508-523 | inactive: an error and no change; otherwise a counter of -1 becomes 0 and the getOutputList batch is returned; a statement still active is positioned after the batch, so the next batch continues from there |
| Statement.PreparedStatement.FetchColumns | src/sqlite3executor.cc:525-540 | inactive: an error and no change; otherwise a counter of -1 becomes 0 and the getOutputHash batch is returned; a statement still active is positioned after the batch |
| Statement.PreparedStatement.Describe | src/sqlite3executor.cc:546-605 | without describe support an error; otherwise the description of the current row's columns, empty when nothing was compiled |
| Statement.PreparedStatement.Reset | src/sqlite3executor.cc:607-629 | text, arguments, active flag and counter are cleared; a handle that existed is finalized but not dropped |

## Left out

- `rowsAffected` (src/sqlite3executor.cc:542-544) only returns the engine's change counter. The model keeps that counter as the connection's `changes` field and uses it in the eager paths.
- The module glue in `src/sqlite3module.cc` is not modelled: method registration, thread initialisation, open and close, and the one-line forwarders. The forwarders create a fresh executor per call, so the eager paths start with an empty bind list. Both prepare entry points pass parse = true.
- Connection operations (`begin`, `commit`, `rollback`, `close`, the server version) are thin engine wrappers. The outcome of `begin` is the `beginOk` parameter of `PreparedStatement.Exec`.
- Encoding conversion, literal rendering, date and number formatting and the truthiness of host values are foreign. They are fields of `Foreign` and are not looked into. This includes how truthiness decides whether a quote after `%v` closes quote mode.
- Floating-point values are opaque bit patterns. No numeric property of them is stated.
- The engine is abstract. Compilation, the rows a statement yields, and acceptance of bind calls are oracles. Rows do not depend on the values bound.
- The order of keys in hashes is not modelled: hashes are Dafny maps.
- Reference counting, `ReferenceHolder`, `ON_BLOCK_EXIT` finalization, `malloc`/`memcpy` of blobs and the buffer reallocation inside `replace` are memory management. They are not modelled. This includes a zero-length blob read with a null pointer.
- A second `reset` finalizes the same engine handle again. That is undefined behaviour in SQLite, and the model only records the handle as `Finalized`.
- Calls on a finalized handle (bind, step, column reads after reset) are undefined behaviour. The model excludes them with `requires`.
- The `SQLITE_DESCRIBE` build flag is the `supported` parameter of `PreparedStatement.Describe`.
- Statement.PreparedStatement.GetOutputList: the C `int` arithmetic of `row_count` and `end` is modelled unbounded, so overflow after 2^31 rows is not captured.
- Statement.PreparedStatement.GetOutputHash: same unbounded `int` arithmetic of `row_count` and `end` as getOutputList.
- The declaration of `QoreSqlite3PreparedStatement` and its constructor body are not part of this model. The initial field values follow the sentinels that `reset`, `next` and `fetchRow` use.
- Step errors are not modelled. Every step loop in the source stops at the first step that does not yield a row (`src/sqlite3executor.cc:299`, `:353`, `:444`, `:473`, and `next` at `:420`), so a failing step (busy, constraint violation, other errors) ends the rows and raises nothing; an `exec` whose statement fails then returns the change count. A `Program`'s rows stand for the rows before the first failing step, and the model, like the driver, reports no step error.
- Placeholders.Replace: the source inserts the literal through `c_str()` and advances by its `strlen` (`src/sqlite3executor.cc:48-49`, `:56-57`), so a rendered literal holding a NUL would be cut there; the model inserts the whole literal. The renderers are foreign, and the model states nothing about NUL inside their output.
- Statement text is not restricted to byte values: a `char` above 255 has no counterpart in the source's byte string, and the model does not derive the byte sequence from the host string's encoding (that is part of the foreign conversion).
- An empty or comment-only statement: `sqlite3_prepare_v2` then succeeds with a null handle, whereas the model's successful compile always yields a live cursor over a `Program`. For the eager paths a `Program` with no columns, rows or parameters gives the same results; for the prepared statement the source's `bind` and `exec` would then fail their handle assertions (`:393`, `:405`), which the model does not capture.
- `bind_placeholders` and `get_output` only raise "not supported" errors in the glue, so they are not modelled.
