/**
 * The dynamically typed values that flow between the host runtime and the
 * driver, the driver's error results, and the foreign collaborators (value
 * formatting, truthiness, encoding conversion) the driver calls but does not
 * implement.
 */
module Values {

  /** A signed 64-bit integer, the width of the runtime's integer values. */
  type Int64 = i: int | -0x8000_0000_0000_0000 <= i < 0x8000_0000_0000_0000

  /** A double-precision float, kept as its bit pattern and never interpreted. */
  datatype Double = Double(bits: bv64)

  /** An absolute date/time value; only ever rendered by the foreign formatter. */
  datatype DateTime = DateTime(repr: int)

  /** An arbitrary-precision number; only ever rendered by the foreign formatter. */
  datatype Decimal = Decimal(repr: int)

  /** One dynamically typed value. `Other` stands for every kind the binder
      does not support (lists, hashes, objects, ...), carrying its type name. */
  datatype Value =
    | Nothing
    | Null
    | Int(i: Int64)
    | Float(d: Double)
    | Str(s: string)
    | Boolean(b: bool)
    | Date(t: DateTime)
    | Number(n: Decimal)
    | Binary(bytes: seq<bv8>)
    | Other(typeName: string)

  /** The runtime type tag of a value. */
  datatype Kind = KNothing | KNull | KInt | KFloat | KString | KBoolean | KDate | KNumber | KBinary | KOther

  function KindOf(v: Value): Kind
  {
    match v
    case Nothing => KNothing
    case Null => KNull
    case Int(_) => KInt
    case Float(_) => KFloat
    case Str(_) => KString
    case Boolean(_) => KBoolean
    case Date(_) => KDate
    case Number(_) => KNumber
    case Binary(_) => KBinary
    case Other(_) => KOther
  }

  /** The argument at a 0-based position of an optional argument list:
      a missing list or an index past its end reads as Nothing. */
  function ArgAt(args: Option<seq<Value>>, i: nat): Value
  {
    if args.Some? && i < |args.value| then args.value[i] else Nothing
  }

  datatype Option<+T> = None | Some(value: T)

  /** Foreign collaborators, each a total function the model does not look into. */
  datatype Foreign = Foreign(
    // DBI_concat_numeric: render a value as an inline numeric literal
    concatNumeric: Value -> string,
    // DBI_concat_string: render a value as an inline string literal; None when it raises
    concatString: Value -> Option<string>,
    // the boolean test of a runtime value
    truthy: Value -> bool,
    // DateTimeNode::format with the "IF" format
    formatDate: DateTime -> string,
    // QoreNumberNode::toString
    numberText: Decimal -> string,
    // conversion of the statement text to the connection's encoding; None when it raises
    convert: string -> Option<string>)

  /** Why the placeholder rewriter stopped (raised as SQLITE3-PARSE-EXCEPTION). */
  datatype ParseError =
    | InvalidSpecifier(got: char)   // marker followed by a character other than d, s, v
    | LetterAfterV(got: char)       // "%v" immediately followed by a letter
    | StringConversionFailed        // the %s literal could not be rendered

  /** An engine bind call: what is bound to one 1-based parameter slot. */
  datatype BindCall =
    | BindNull
    | BindInt64(i: Int64)
    | BindDouble(d: Double)
    | BindText(text: string)
    | BindBlob(bytes: seq<bv8>)

  /** Why the binder stopped (raised as SQLITE3-BIND-EXCEPTION). */
  datatype BindError =
    | Rejected(slot: nat, call: BindCall)   // the engine refused this call
    | Unsupported(typeName: string)         // "Cannot bind unsupported type"

  /** An error raised to the caller: the call-specific tag and its cause. */
  datatype Failure =
    | EncodingFailed
    | ParseFailed(tag: string, parse: ParseError)
    | CompileFailed(tag: string)
    | BindFailed(tag: string, bind: BindError)
    | BeginFailed
    | FetchRowError
    | FetchRowsError
    | FetchColumnsError
    | DescribeUnsupported

  datatype Result<+T> = Ok(value: T) | Err(error: Failure)
}
