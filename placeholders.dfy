/**
 * The placeholder rewriter (parseForBind). It scans the statement text left
 * to right and edits the buffer in place: `%d` and `%s` become inline
 * literals, `%v` becomes the positional marker `?N` and its argument is
 * appended to the bind list.
 *
 * `Scan` specifies one run over the not yet scanned text; `Trace` and `Tail`
 * describe the same run as a sequence of pieces (what each scanned part of
 * the input became) and the part left unscanned. The lemmas relate the two.
 */
module Placeholders {
  import opened Values

  predicate IsAlpha(c: char)
  {
    'A' <= c <= 'Z' || 'a' <= c <= 'z'
  }

  predicate IsQuote(c: char)
  {
    c == '\'' || c == '"'
  }

  function Digit(d: nat): char
    requires d < 10
  {
    "0123456789"[d]
  }

  /** The decimal text of a natural number, as printed by "%d". */
  function DecimalText(n: nat): (s: string)
    ensures |s| > 0
    ensures forall i :: 0 <= i < |s| ==> '0' <= s[i] <= '9'
  {
    if n < 10 then [Digit(n)] else DecimalText(n / 10) + [Digit(n % 10)]
  }

  /** The positional marker "?N" the engine understands. */
  function MarkerText(n: nat): string
  {
    "?" + DecimalText(n)
  }

  /** The character at a position of a C string: past the end it is the terminator. */
  function CharAt(s: string, i: nat): char
  {
    if i < |s| then s[i] else '\0'
  }

  /** The scanner's variables: the rewritten text before the cursor, the next
      argument index, the markers made so far, the markers handled, the quote
      flag ('\0' when off) and the bind list. */
  datatype ScanState = ScanState(
    out: string, index: nat, nParams: nat, nIterations: nat, quote: char, binds: seq<Value>)

  datatype ParseResult = ParseResult(text: string, binds: seq<Value>, error: Option<ParseError>)

  /** What one scanned part of the input became. */
  datatype Piece =
    | Copied(c: char)
    | Inlined(introducer: char, spec: char, arg: Value, literal: string)
    | Marker(introducer: char, n: nat, arg: Value, quote: Option<char>)

  function SourcePiece(p: Piece): string
  {
    match p
    case Copied(c) => [c]
    case Inlined(i, s, _, _) => [i, s]
    case Marker(i, _, _, q) => [i, 'v'] + (if q.Some? then [q.value] else [])
  }

  function RenderPiece(p: Piece): string
  {
    match p
    case Copied(c) => [c]
    case Inlined(_, _, _, lit) => lit
    case Marker(_, n, _, q) => MarkerText(n) + (if q.Some? then [q.value] else [])
  }

  function Source(ps: seq<Piece>): string
  {
    if ps == [] then [] else SourcePiece(ps[0]) + Source(ps[1..])
  }

  function Render(ps: seq<Piece>): string
  {
    if ps == [] then [] else RenderPiece(ps[0]) + Render(ps[1..])
  }

  /** The numbers of the positional markers, in order. */
  function Numbers(ps: seq<Piece>): seq<nat>
  {
    if ps == [] then [] else (if ps[0].Marker? then [ps[0].n] else []) + Numbers(ps[1..])
  }

  /** The arguments the positional markers bind, in order. */
  function MarkerArgs(ps: seq<Piece>): (vs: seq<Value>)
    ensures |vs| == |Numbers(ps)|
  {
    if ps == [] then [] else (if ps[0].Marker? then [ps[0].arg] else []) + MarkerArgs(ps[1..])
  }

  /** The arguments consumed by markers of any kind, in order. */
  function Consumed(ps: seq<Piece>): seq<Value>
  {
    if ps == [] then [] else (if ps[0].Copied? then [] else [ps[0].arg]) + Consumed(ps[1..])
  }

  /** The outcome of handling the character under the cursor. */
  datatype Move =
    | Stop(error: ParseError, st: ScanState)
    | Continue(piece: Piece, rest: string, st: ScanState)

  /** Handle the character at the head of `rest` (not the terminator). Outside
      quote mode only '%' starts a marker; in quote mode every character does,
      and the character after it is the specifier. */
  function Advance(rest: string, st: ScanState, args: Option<seq<Value>>, f: Foreign): (m: Move)
    requires rest != [] && rest[0] != '\0'
    ensures m.Continue? ==> |m.rest| < |rest|
  {
    if st.quote == '\0' && rest[0] != '%' then
      Continue(Copied(rest[0]), rest[1..], st.(out := st.out + [rest[0]]))
    else
      var v := ArgAt(args, st.index);
      var st1 := st.(index := if args.Some? then st.index + 1 else st.index,
                     nIterations := st.nIterations + 1);
      var spec := CharAt(rest, 1);
      if spec == 'd' then
        var lit := f.concatNumeric(v);
        Continue(Inlined(rest[0], 'd', v, lit), rest[2..], st1.(out := st1.out + lit))
      else if spec == 's' then
        match f.concatString(v)
        case None => Stop(StringConversionFailed, st1)
        case Some(lit) => Continue(Inlined(rest[0], 's', v, lit), rest[2..], st1.(out := st1.out + lit))
      else if spec != 'v' then
        Stop(InvalidSpecifier(spec), st1)
      else
        ValueMarker(rest, st1, v, f)
  }

  /** A "%v" marker (the introducer and 'v' head `rest`): rejected when a
      letter follows, otherwise written as ?N with N the next parameter
      number, its argument appended to the bind list. A quote right after it
      is copied and turns quote mode on, or off when the argument is true. */
  function ValueMarker(rest: string, st1: ScanState, v: Value, f: Foreign): (m: Move)
    requires |rest| >= 2
    ensures m.Continue? ==> |m.rest| < |rest|
  {
    var next := CharAt(rest, 2);
    if IsAlpha(next) then
      Stop(LetterAfterV(next), st1)
    else
      var n := st1.nParams + 1;
      var st2 := st1.(nParams := n, out := st1.out + MarkerText(n), binds := st1.binds + [v]);
      if IsQuote(next) then
        var q := if st1.quote == '\0' then next else if f.truthy(v) then '\0' else st1.quote;
        Continue(Marker(rest[0], n, v, Some(next)), rest[3..], st2.(out := st2.out + [next], quote := q))
      else
        Continue(Marker(rest[0], n, v, None), rest[2..], st2)
  }

  predicate AtEnd(rest: string)
  {
    rest == [] || rest[0] == '\0'
  }

  /** The result of scanning `rest` from state `st`: the final buffer (the
      rewritten prefix followed by whatever was not scanned), the bind list,
      and the error that stopped the scan, if any. */
  function Scan(rest: string, st: ScanState, args: Option<seq<Value>>, f: Foreign): ParseResult
    decreases |rest|
  {
    if AtEnd(rest) then ParseResult(st.out + rest, st.binds, None)
    else
      match Advance(rest, st, args, f)
      case Stop(e, st1) => ParseResult(st1.out + rest, st1.binds, Some(e))
      case Continue(_, rest', st') => Scan(rest', st', args, f)
  }

  /** The pieces that scanning `rest` from `st` produces, in order. */
  function Trace(rest: string, st: ScanState, args: Option<seq<Value>>, f: Foreign): seq<Piece>
    decreases |rest|
  {
    if AtEnd(rest) then []
    else
      match Advance(rest, st, args, f)
      case Stop(_, _) => []
      case Continue(p, rest', st') => [p] + Trace(rest', st', args, f)
  }

  /** The part of `rest` left unscanned: the terminator onwards, or the
      marker where an error stopped the scan. */
  function Tail(rest: string, st: ScanState, args: Option<seq<Value>>, f: Foreign): string
    decreases |rest|
  {
    if AtEnd(rest) then rest
    else
      match Advance(rest, st, args, f)
      case Stop(_, _) => rest
      case Continue(_, rest', st') => Tail(rest', st', args, f)
  }

  function Start(realArgs: seq<Value>): ScanState
  {
    ScanState([], 0, 0, 0, '\0', realArgs)
  }

  function Parse(sql: string, args: Option<seq<Value>>, realArgs: seq<Value>, f: Foreign): ParseResult
  {
    Scan(sql, Start(realArgs), args, f)
  }

  /** Replace the two characters at `offset` by `tmp`, as the buffer's replace does. */
  function Replace(str: string, offset: nat, tmp: string): (r: string)
    requires offset + 2 <= |str|
    ensures |r| == |str| - 2 + |tmp|
    ensures r[..offset + |tmp|] == str[..offset] + tmp
    ensures r[offset + |tmp|..] == str[offset + 2..]
  {
    str[..offset] + tmp + str[offset + 2..]
  }

  /**
   * parseForBind: rewrite `sql` in place. The cursor `p` is an offset into the
   * buffer; after a marker is replaced it is recomputed as the offset of the
   * marker plus the length of the inserted text, so inserted text is never
   * scanned. Returns the final buffer (partly rewritten when an error stops
   * the scan), the bind list extended by one argument per `%v`, and the
   * error raised.
   */
  method ParseForBind(sql: string, args: Option<seq<Value>>, realArgs: seq<Value>, f: Foreign)
    returns (text: string, binds: seq<Value>, error: Option<ParseError>)
    ensures ParseResult(text, binds, error) == Parse(sql, args, realArgs, f)
  {
    var str := sql;
    var quote: char := '\0';
    var p: nat := 0;
    var index: nat := 0;
    var nParams: nat := 0;
    var nIterations: nat := 0;
    binds := realArgs;
    while p < |str| && str[p] != '\0'
      invariant p <= |str|
      invariant Scan(str[p..], ScanState(str[..p], index, nParams, nIterations, quote, binds), args, f)
             == Parse(sql, args, realArgs, f)
      decreases |str| - p
    {
      ghost var rest := str[p..];
      ghost var st := ScanState(str[..p], index, nParams, nIterations, quote, binds);
      assert !AtEnd(rest);
      if quote == '\0' && str[p] != '%' {
        assert str[..p + 1] == str[..p] + [str[p]] && rest[1..] == str[p + 1..];
        p := p + 1;
        continue;
      }
      // found a value marker
      var str', p', error';
      str', p', index, nParams, nIterations, quote, binds, error' :=
        HandleMarker(str, p, index, nParams, nIterations, quote, binds, args, f);
      if error'.Some? {
        text, error := str', error';
        return;
      }
      str, p := str', p';
    }
    text, error := str, None;
  }

  /** The body of the scan for one marker: `str[offset]` starts it (a '%',
      or any character in quote mode). The new scanner variables are those of
      one `Advance` step. */
  method HandleMarker(str: string, offset: nat, index: nat, nParams: nat, nIterations: nat, quote: char,
                      binds: seq<Value>, args: Option<seq<Value>>, f: Foreign)
    returns (str': string, p': nat, index': nat, nParams': nat, nIterations': nat, quote': char,
             binds': seq<Value>, error: Option<ParseError>)
    requires offset < |str| && str[offset] != '\0'
    requires quote != '\0' || str[offset] == '%'
    ensures p' <= |str'|
    ensures var m := Advance(str[offset..], ScanState(str[..offset], index, nParams, nIterations, quote, binds), args, f);
      m.Stop? ==> error == Some(m.error) && str' == m.st.out + str[offset..] && binds' == m.st.binds
    ensures var m := Advance(str[offset..], ScanState(str[..offset], index, nParams, nIterations, quote, binds), args, f);
      m.Continue? ==>
        (error.None? && str'[p'..] == m.rest &&
         ScanState(str'[..p'], index', nParams', nIterations', quote', binds') == m.st)
  {
    ghost var rest := str[offset..];
    ghost var st := ScanState(str[..offset], index, nParams, nIterations, quote, binds);
    ghost var m := Advance(rest, st, args, f);
    str', index', nParams', nIterations', quote', binds' := str, index, nParams, nIterations, quote, binds;
    var p := offset + 1;
    var v := ArgAt(args, index);
    if args.Some? {
      index' := index + 1;
    }
    nIterations' := nIterations + 1;
    ghost var st1 := st.(index := index', nIterations := nIterations');
    var spec := if p < |str| then str[p] else '\0';
    assert spec == CharAt(rest, 1);
    if spec == 'd' {
      var tmp := f.concatNumeric(v);
      assert m == Continue(Inlined(rest[0], 'd', v, tmp), rest[2..], st1.(out := str[..offset] + tmp));
      str', p', error := Replace(str, offset, tmp), offset + |tmp|, None;
      return;
    }
    if spec == 's' {
      var lit := f.concatString(v);
      if lit.None? {
        assert m == Stop(StringConversionFailed, st1);
        p', error := p, Some(StringConversionFailed);
        return;
      }
      var tmp := lit.value;
      assert m == Continue(Inlined(rest[0], 's', v, tmp), rest[2..], st1.(out := str[..offset] + tmp));
      str', p', error := Replace(str, offset, tmp), offset + |tmp|, None;
      return;
    }
    if spec != 'v' {
      assert m == Stop(InvalidSpecifier(spec), st1);
      p', error := p, Some(InvalidSpecifier(spec));
      return;
    }
    assert m == ValueMarker(rest, st1, v, f);
    str', p', nParams', quote', binds', error :=
      HandleValueMarker(str, offset, nParams, quote, binds, v, f, st1);
  }

  /** The "%v" part of the scan: `str[offset..]` starts with the introducer
      and 'v'; `st1` is the scan state after the argument was taken. */
  method HandleValueMarker(str: string, offset: nat, nParams: nat, quote: char, binds: seq<Value>,
                           v: Value, f: Foreign, ghost st1: ScanState)
    returns (str': string, p': nat, nParams': nat, quote': char, binds': seq<Value>, error: Option<ParseError>)
    requires offset + 2 <= |str| && str[offset + 1] == 'v'
    requires st1.out == str[..offset] && st1.nParams == nParams && st1.quote == quote && st1.binds == binds
    ensures p' <= |str'|
    ensures var m := ValueMarker(str[offset..], st1, v, f);
      m.Stop? ==> error == Some(m.error) && str' == m.st.out + str[offset..] && binds' == m.st.binds
    ensures var m := ValueMarker(str[offset..], st1, v, f);
      m.Continue? ==>
        (error.None? && str'[p'..] == m.rest &&
         str'[..p'] == m.st.out && nParams' == m.st.nParams && quote' == m.st.quote && binds' == m.st.binds)
  {
    ghost var rest := str[offset..];
    ghost var m := ValueMarker(rest, st1, v, f);
    str', nParams', quote', binds' := str, nParams, quote, binds;
    var p := offset + 2;
    var next := if p < |str| then str[p] else '\0';
    assert next == CharAt(rest, 2);
    if IsAlpha(next) {
      p', error := p, Some(LetterAfterV(next));
      return;
    }
    // replace the value marker with "?<num>"
    nParams' := nParams + 1;
    var tmp := MarkerText(nParams');
    ghost var st2 := st1.(nParams := nParams', out := st1.out + tmp, binds := binds + [v]);
    str', p' := Replace(str, offset, tmp), offset + |tmp|;
    binds' := binds + [v];
    error := None;
    if p' < |str'| && IsQuote(str'[p']) {
      if quote == '\0' {
        quote' := str'[p'];
      } else if f.truthy(v) {
        quote' := '\0';
      }
      assert m == Continue(Marker(rest[0], nParams', v, Some(next)), rest[3..], st2.(out := st2.out + [next], quote := quote'));
      assert str'[..p' + 1] == st2.out + [next];
      p' := p' + 1;
    } else {
      assert m == Continue(Marker(rest[0], nParams', v, None), rest[2..], st2);
    }
  }
}
