/**
 * Reading one column of the current row back into a runtime value, and the
 * per-column description the statement's describe call reports.
 */
module Columns {
  import opened Values
  import opened Engine
  import opened Binder

  const INT32_MIN: int := -0x8000_0000
  const INT32_MAX: int := 0x7fff_ffff

  /** The 32-bit column read: the low 32 bits of the stored 64-bit integer,
      as a signed value. */
  function Wrap32(i: Int64): (r: Int64)
    ensures INT32_MIN <= r <= INT32_MAX
    ensures (r - i) % 0x1_0000_0000 == 0
    ensures INT32_MIN <= i <= INT32_MAX ==> r == i
  {
    (i + 0x8000_0000) % 0x1_0000_0000 - 0x8000_0000
  }

  /** Text read through a C string: everything before the first NUL. */
  function CPrefix(s: string): (r: string)
    ensures |r| <= |s| && r == s[..|r|]
    ensures forall k :: 0 <= k < |r| ==> r[k] != '\0'
    ensures |r| < |s| ==> s[|r|] == '\0'
  {
    if s == [] || s[0] == '\0' then [] else [s[0]] + CPrefix(s[1..])
  }

  /** columnValue: the runtime value of one cell. Integers are read at 32-bit
      width, text up to its first NUL; the storage class picks the kind. */
  function ColumnValue(c: Cell): (r: Value)
    ensures r.Int? || r.Float? || r.Str? || r.Binary? || r.Null?
    ensures r.Null? <==> c.NullCell?
    ensures r.Int? ==> INT32_MIN <= r.i <= INT32_MAX
    ensures r.Str? ==> forall k :: 0 <= k < |r.s| ==> r.s[k] != '\0'
  {
    match c
    case IntegerCell(i) => Int(Wrap32(i))
    case FloatCell(d) => Float(d)
    case BlobCell(bytes) => Binary(bytes)
    case NullCell => Null
    case TextCell(t) => Str(CPrefix(t))
  }

  /** The values that survive being bound and read back unchanged. */
  predicate SurvivesRoundTrip(v: Value)
  {
    match v
    case Null => true
    case Float(_) => true
    case Binary(_) => true
    case Str(s) => forall k :: 0 <= k < |s| ==> s[k] != '\0'
    case Int(i) => INT32_MIN <= i <= INT32_MAX
    case _ => false
  }

  lemma CPrefixOfPlain(s: string)
    requires forall k :: 0 <= k < |s| ==> s[k] != '\0'
    ensures CPrefix(s) == s
  {
  }

  /** Binding a value and reading the cell back gives the same value exactly
      for NULL, floats, binaries, text without NUL and integers in the 32-bit
      range: NOTHING reads back as NULL, booleans as 1 and 0, dates and
      numbers as text, wider integers truncated, text cut at its first NUL. */
  lemma RoundTrip(v: Value, f: Foreign)
    requires !v.Other?
    ensures ColumnValue(Stored(Dispatch(v, f).value)) == v <==> SurvivesRoundTrip(v)
  {
    if v.Str? && SurvivesRoundTrip(v) {
      CPrefixOfPlain(v.s);
    }
    if v.Str? && !SurvivesRoundTrip(v) {
      var r := CPrefix(v.s);
      assert |r| < |v.s|;
    }
    if v.Int? && !SurvivesRoundTrip(v) {
      assert ColumnValue(Stored(Dispatch(v, f).value)).i != v.i;
    }
  }

  /** A boolean argument reads back as the integer 1 or 0. */
  lemma BooleanReadsBackAsInteger(b: bool, f: Foreign)
    ensures ColumnValue(Stored(Dispatch(Boolean(b), f).value)) == Int(if b then 1 else 0)
  {
  }

  /** One entry of the describe hash. `typeCode` is the runtime type the
      column maps to, None for the -1 the source reports for other classes. */
  datatype ColumnInfo = ColumnInfo(name: string, internalId: int, typeCode: Option<Kind>,
                                   nativeType: string, maxsize: int)

  /** The native type name and runtime type of a cell's storage class. */
  function NativeType(c: Cell): (r: (string, Option<Kind>))
    ensures r.1.None? <==> c.NullCell?
    ensures r.1.None? <==> r.0 == "unknown"
  {
    match c
    case IntegerCell(_) => ("int", Some(KInt))
    case FloatCell(_) => ("float", Some(KFloat))
    case BlobCell(_) => ("blob", Some(KBinary))
    case TextCell(_) => ("text", Some(KString))
    case NullCell => ("unknown", None)
  }

  function Info(name: string, c: Cell): ColumnInfo
  {
    var (native, code) := NativeType(c);
    ColumnInfo(name, StorageClass(c), code, native, -1)
  }

  /** describe's type column agrees with the kind columnValue produces for
      the same cell, except for NULL cells, reported as unknown. */
  lemma DescribeAgreesWithColumnValue(c: Cell)
    ensures !c.NullCell? ==> Info("", c).typeCode == Some(KindOf(ColumnValue(c)))
    ensures c.NullCell? ==> Info("", c).typeCode.None? && ColumnValue(c) == Null
  {
  }

  /** The hash built by setting, column by column, the key `names[k]` to
      `vals[k]`: one entry per distinct name, and when two columns share a
      name the later one wins. */
  function LastWins<T>(names: seq<string>, vals: seq<T>): (h: map<string, T>)
    requires |vals| == |names|
    ensures h.Keys == set n | n in names
    decreases |names|
  {
    if names == [] then map[]
    else
      var n := |names| - 1;
      assert names == names[..n] + [names[n]];
      LastWins(names[..n], vals[..n])[names[n] := vals[n]]
  }

  /** A column that is the last with its name determines that key's value. */
  lemma {:induction false} LastWinsAt<T>(names: seq<string>, vals: seq<T>, j: nat)
    requires |vals| == |names| && j < |names|
    requires forall k :: j < k < |names| ==> names[k] != names[j]
    ensures LastWins(names, vals)[names[j]] == vals[j]
    decreases |names|
  {
    var n := |names| - 1;
    if j < n {
      LastWinsAt(names[..n], vals[..n], j);
    }
  }

  /** Column values of a row, one per cell. */
  function RowValues(cells: seq<Cell>): (vs: seq<Value>)
    ensures |vs| == |cells|
  {
    seq(|cells|, i requires 0 <= i < |cells| => ColumnValue(cells[i]))
  }

  /** The describe entries of a row, one per column. */
  function Infos(names: seq<string>, cells: seq<Cell>): (infos: seq<ColumnInfo>)
    requires |cells| == |names|
    ensures |infos| == |names|
  {
    seq(|names|, i requires 0 <= i < |names| => Info(names[i], cells[i]))
  }

  /** The describe hash: column name to its entry. */
  function Description(names: seq<string>, cells: seq<Cell>): map<string, ColumnInfo>
    requires |cells| == |names|
  {
    LastWins(names, Infos(names, cells))
  }

  /** The describe hash has one key per column name; a column that is the
      last with its name is described by its own name, storage class,
      native type and runtime type, with maxsize -1. */
  lemma DescriptionOfColumn(names: seq<string>, cells: seq<Cell>, j: nat)
    requires |cells| == |names| && j < |names|
    requires forall k :: j < k < |names| ==> names[k] != names[j]
    ensures Description(names, cells).Keys == set n | n in names
    ensures Description(names, cells)[names[j]] == Info(names[j], cells[j])
    ensures Description(names, cells)[names[j]].maxsize == -1
  {
    LastWinsAt(names, Infos(names, cells), j);
  }
}
