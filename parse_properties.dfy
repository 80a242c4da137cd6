/**
 * What the placeholder rewriter promises, stated on its specification:
 * the input splits into the pieces the scan produced plus an unscanned
 * tail, the output is their rendering, `%v` markers are numbered 1, 2, ...
 * and bind their arguments in order, and the error cases.
 */
module ParseProperties {
  import opened Values
  import opened Placeholders

  /** Text that the scan copies unchanged outside quote mode. */
  predicate Plain(s: string)
  {
    forall i :: 0 <= i < |s| ==> s[i] != '%' && s[i] != '\0'
  }

  /** `lit` is what the `%d` or `%s` specifier `spec` renders for `v`: the
      numeric literal, or the string literal when it can be rendered. */
  predicate Renders(spec: char, v: Value, lit: string, f: Foreign)
  {
    (spec == 'd' && lit == f.concatNumeric(v)) || (spec == 's' && f.concatString(v) == Some(lit))
  }

  /** A piece the scan can produce: a copied character is neither '%' nor
      the terminator, and an inlined literal is its argument's rendering. */
  predicate WellMade(p: Piece, f: Foreign)
  {
    match p
    case Copied(c) => c != '%' && c != '\0'
    case Inlined(_, spec, v, lit) => Renders(spec, v, lit, f)
    case Marker(_, _, _, _) => true
  }

  /** One step of the scan, in the terms the lemmas use: where the piece
      came from, what it renders to, what it binds and consumes. */
  lemma AdvanceAccounts(rest: string, st: ScanState, args: Option<seq<Value>>, f: Foreign)
    requires !AtEnd(rest)
    ensures var m := Advance(rest, st, args, f);
      m.Stop? ==> m.st.out == st.out && m.st.binds == st.binds
    ensures var m := Advance(rest, st, args, f);
      m.Continue? ==>
        (rest == SourcePiece(m.piece) + m.rest &&
         m.st.out == st.out + RenderPiece(m.piece) &&
         m.st.binds == st.binds + (if m.piece.Marker? then [m.piece.arg] else []) &&
         m.st.nParams == st.nParams + (if m.piece.Marker? then 1 else 0) &&
         (m.piece.Marker? ==> m.piece.n == m.st.nParams) &&
         WellMade(m.piece, f) &&
         (m.piece.Copied? ==> m.st.index == st.index) &&
         (!m.piece.Copied? ==>
            m.piece.arg == ArgAt(args, st.index) &&
            m.st.index == (if args.Some? then st.index + 1 else st.index)))
  {
    if !(st.quote == '\0' && rest[0] != '%') {
      var v := ArgAt(args, st.index);
      var st1 := st.(index := if args.Some? then st.index + 1 else st.index,
                     nIterations := st.nIterations + 1);
      var spec := CharAt(rest, 1);
      if spec == 'd' || spec == 's' {
        assert rest == rest[..2] + rest[2..];
      } else if spec == 'v' {
        assert Advance(rest, st, args, f) == ValueMarker(rest, st1, v, f);
        ValueMarkerAccounts(rest, st1, v, f);
      }
    }
  }

  /** The bookkeeping of a "%v" step. */
  lemma ValueMarkerAccounts(rest: string, st1: ScanState, v: Value, f: Foreign)
    requires |rest| >= 2 && rest[1] == 'v'
    ensures var m := ValueMarker(rest, st1, v, f);
      m.Stop? ==> m.st == st1
    ensures var m := ValueMarker(rest, st1, v, f);
      m.Continue? ==>
        (m.piece.Marker? && m.piece.arg == v && rest == SourcePiece(m.piece) + m.rest &&
         m.st.out == st1.out + RenderPiece(m.piece) &&
         m.st.binds == st1.binds + [v] && m.st.nParams == st1.nParams + 1 &&
         m.piece.n == m.st.nParams && m.st.index == st1.index)
  {
    var m := ValueMarker(rest, st1, v, f);
    if m.Continue? && m.piece.quote.Some? {
      assert rest == rest[..3] + rest[3..];
    } else if m.Continue? {
      assert rest == rest[..2] + rest[2..];
    }
  }

  /** A scan that takes a step continues from where the step left off. */
  lemma Unfold(rest: string, st: ScanState, args: Option<seq<Value>>, f: Foreign)
    requires !AtEnd(rest) && Advance(rest, st, args, f).Continue?
    ensures var m := Advance(rest, st, args, f);
      Scan(rest, st, args, f) == Scan(m.rest, m.st, args, f) &&
      Trace(rest, st, args, f) == [m.piece] + Trace(m.rest, m.st, args, f) &&
      Tail(rest, st, args, f) == Tail(m.rest, m.st, args, f)
  {
  }

  /** The folds over pieces, one piece at a time. */
  lemma SourceCons(p: Piece, t: seq<Piece>)
    ensures Source([p] + t) == SourcePiece(p) + Source(t)
  {
    assert ([p] + t)[0] == p && ([p] + t)[1..] == t;
  }

  lemma RenderCons(p: Piece, t: seq<Piece>)
    ensures Render([p] + t) == RenderPiece(p) + Render(t)
  {
    assert ([p] + t)[0] == p && ([p] + t)[1..] == t;
  }

  lemma NumbersCons(p: Piece, t: seq<Piece>)
    ensures Numbers([p] + t) == (if p.Marker? then [p.n] else []) + Numbers(t)
  {
    assert ([p] + t)[0] == p && ([p] + t)[1..] == t;
  }

  lemma MarkerArgsCons(p: Piece, t: seq<Piece>)
    ensures MarkerArgs([p] + t) == (if p.Marker? then [p.arg] else []) + MarkerArgs(t)
  {
    assert ([p] + t)[0] == p && ([p] + t)[1..] == t;
  }

  /** Sequence algebra for one step of the accounts: what the step read
      (or wrote) joined with what the rest of the scan read (or wrote). */
  lemma JoinFront<T>(rest: seq<T>, head: seq<T>, mrest: seq<T>, part: seq<T>, tl: seq<T>, whole: seq<T>)
    requires rest == head + mrest && mrest == part + tl && whole == head + part
    ensures rest == whole + tl
  {
    assert head + (part + tl) == (head + part) + tl;
  }

  lemma JoinBack<T>(text: seq<T>, out: seq<T>, head: seq<T>, mid: seq<T>, part: seq<T>, tl: seq<T>, whole: seq<T>)
    requires mid == out + head && text == mid + part + tl && whole == head + part
    ensures text == out + whole + tl
  {
    assert (out + head) + part == out + (head + part);
  }

  /** The input is the source of the pieces followed by the unscanned tail;
      the output is their rendering followed by the same tail; the bind list
      grows by the arguments of the positional markers; a scan that reports
      no error stopped at the end of the text. */
  lemma {:induction false} ScanAccounts(rest: string, st: ScanState, args: Option<seq<Value>>, f: Foreign)
    ensures var r := Scan(rest, st, args, f);
      var t := Trace(rest, st, args, f);
      var tl := Tail(rest, st, args, f);
      rest == Source(t) + tl &&
      r.text == st.out + Render(t) + tl &&
      r.binds == st.binds + MarkerArgs(t) &&
      (r.error.None? ==> AtEnd(tl))
    decreases |rest|
  {
    if AtEnd(rest) {
      assert st.out + [] == st.out && st.binds + [] == st.binds;
    } else {
      var m := Advance(rest, st, args, f);
      AdvanceAccounts(rest, st, args, f);
      if m.Continue? {
        Unfold(rest, st, args, f);
        ScanAccounts(m.rest, m.st, args, f);
        var t' := Trace(m.rest, m.st, args, f);
        var tl := Tail(m.rest, m.st, args, f);
        var r' := Scan(m.rest, m.st, args, f);
        var extra := if m.piece.Marker? then [m.piece.arg] else [];
        SourceCons(m.piece, t');
        JoinFront(rest, SourcePiece(m.piece), m.rest, Source(t'), tl, Source([m.piece] + t'));
        RenderCons(m.piece, t');
        JoinBack(r'.text, st.out, RenderPiece(m.piece), m.st.out, Render(t'), tl, Render([m.piece] + t'));
        MarkerArgsCons(m.piece, t');
        JoinBack(r'.binds, st.binds, extra, m.st.binds, MarkerArgs(t'), [], MarkerArgs([m.piece] + t'));
      } else {
        assert Trace(rest, st, args, f) == [] && Tail(rest, st, args, f) == rest;
        assert st.out + [] == st.out && st.binds + [] == st.binds;
      }
    }
  }

  /** The positional markers made from state `st` are numbered consecutively
      after the markers already made. */
  lemma {:induction false} ScanNumbers(rest: string, st: ScanState, args: Option<seq<Value>>, f: Foreign)
    ensures var ns := Numbers(Trace(rest, st, args, f));
      forall i :: 0 <= i < |ns| ==> ns[i] == st.nParams + 1 + i
    decreases |rest|
  {
    if !AtEnd(rest) {
      AdvanceAccounts(rest, st, args, f);
      var m := Advance(rest, st, args, f);
      if m.Continue? {
        Unfold(rest, st, args, f);
        ScanNumbers(m.rest, m.st, args, f);
        var t' := Trace(m.rest, m.st, args, f);
        NumbersCons(m.piece, t');
        var ns' := Numbers(t');
        var ns := Numbers([m.piece] + t');
        if m.piece.Marker? {
          assert ns == [m.piece.n] + ns';
          forall i | 0 <= i < |ns| ensures ns[i] == st.nParams + 1 + i {
            if i > 0 { assert ns[i] == ns'[i - 1]; }
          }
        } else {
          assert ns == ns';
        }
      }
    }
  }

  /** The `n` arguments from position `i` on (Nothing past the end). */
  function ArgsFrom(args: Option<seq<Value>>, i: nat, n: nat): (r: seq<Value>)
    ensures |r| == n && forall k :: 0 <= k < n ==> r[k] == ArgAt(args, i + k)
  {
    seq(n, k requires 0 <= k < n => ArgAt(args, i + k))
  }

  /** Taking the argument at `i` and then those after it: without an
      argument list the position does not move, and every one is Nothing. */
  lemma ArgsFromCons(args: Option<seq<Value>>, i: nat, n: nat)
    ensures ArgsFrom(args, i, n + 1) == [ArgAt(args, i)] + ArgsFrom(args, if args.Some? then i + 1 else i, n)
  {
    var i' := if args.Some? then i + 1 else i;
    var l := ArgsFrom(args, i, n + 1);
    var r := [ArgAt(args, i)] + ArgsFrom(args, i', n);
    forall k | 0 <= k < n + 1 ensures l[k] == r[k] {
      if k > 0 {
        assert r[k] == ArgsFrom(args, i', n)[k - 1] == ArgAt(args, i' + k - 1);
      }
    }
  }

  /** One step of the consumption account, on its own. */
  lemma ConsumesStep(p: Piece, t': seq<Piece>, args: Option<seq<Value>>, index: nat, index': nat)
    requires !p.Copied? ==> p.arg == ArgAt(args, index) && index' == (if args.Some? then index + 1 else index)
    requires p.Copied? ==> index' == index
    requires Consumed(t') == ArgsFrom(args, index', |Consumed(t')|)
    ensures Consumed([p] + t') == ArgsFrom(args, index, |Consumed([p] + t')|)
  {
    assert ([p] + t')[0] == p && ([p] + t')[1..] == t';
    if !p.Copied? {
      ArgsFromCons(args, index, |Consumed(t')|);
    }
  }

  /** Every marker, of any kind, consumes the next argument in order. */
  lemma {:induction false} ScanConsumes(rest: string, st: ScanState, args: Option<seq<Value>>, f: Foreign)
    ensures Consumed(Trace(rest, st, args, f)) == ArgsFrom(args, st.index, |Consumed(Trace(rest, st, args, f))|)
    decreases |rest|
  {
    if !AtEnd(rest) {
      var m := Advance(rest, st, args, f);
      if m.Continue? {
        ScanConsumes(m.rest, m.st, args, f);
        AdvanceAccounts(rest, st, args, f);
        Unfold(rest, st, args, f);
        ConsumesStep(m.piece, Trace(m.rest, m.st, args, f), args, st.index, m.st.index);
      }
    }
  }

  /** Only characters other than '%' (and the terminator) are copied, and
      every `%d`/`%s` literal is the rendering of the argument it consumed. */
  lemma {:induction false} ScanPieces(rest: string, st: ScanState, args: Option<seq<Value>>, f: Foreign)
    ensures var t := Trace(rest, st, args, f);
      forall i :: 0 <= i < |t| ==> WellMade(t[i], f)
    decreases |rest|
  {
    if !AtEnd(rest) {
      AdvanceAccounts(rest, st, args, f);
      var m := Advance(rest, st, args, f);
      if m.Continue? {
        Unfold(rest, st, args, f);
        ScanPieces(m.rest, m.st, args, f);
        var t := [m.piece] + Trace(m.rest, m.st, args, f);
        assert forall i :: 1 <= i < |t| ==> t[i] == Trace(m.rest, m.st, args, f)[i - 1];
      }
    }
  }

  /** Without quote characters the quote flag never turns on, so only '%'
      introduces a marker. */
  lemma {:induction false} QuoteFreeMarkersStartWithPercent(rest: string, st: ScanState, args: Option<seq<Value>>, f: Foreign)
    requires st.quote == '\0'
    requires forall i :: 0 <= i < |rest| ==> !IsQuote(rest[i])
    ensures var t := Trace(rest, st, args, f);
      forall i :: 0 <= i < |t| && !t[i].Copied? ==> t[i].introducer == '%'
    decreases |rest|
  {
    if !AtEnd(rest) {
      var m := Advance(rest, st, args, f);
      if m.Continue? {
        AdvanceAccounts(rest, st, args, f);
        assert m.st.quote == '\0';
        assert m.piece.Copied? || m.piece.introducer == '%';
        assert rest == SourcePiece(m.piece) + m.rest;
        assert forall i :: 0 <= i < |m.rest| ==> m.rest[i] == rest[|SourcePiece(m.piece)| + i];
        QuoteFreeMarkersStartWithPercent(m.rest, m.st, args, f);
        Unfold(rest, st, args, f);
        var t := [m.piece] + Trace(m.rest, m.st, args, f);
        assert forall i :: 1 <= i < |t| ==> t[i] == Trace(m.rest, m.st, args, f)[i - 1];
      }
    }
  }

  /** Outside quote mode, plain text is copied and scanning carries on after it. */
  lemma {:induction false} ScanSkipsPlain(pre: string, rest: string, st: ScanState, args: Option<seq<Value>>, f: Foreign)
    requires st.quote == '\0' && Plain(pre)
    ensures Scan(pre + rest, st, args, f) == Scan(rest, st.(out := st.out + pre), args, f)
    decreases |pre|
  {
    if pre == [] {
      assert pre + rest == rest && st.out + pre == st.out;
      assert st.(out := st.out + pre) == st;
    } else {
      var st' := st.(out := st.out + [pre[0]]);
      assert (pre + rest)[0] == pre[0];
      assert (pre + rest)[1..] == pre[1..] + rest;
      assert Advance(pre + rest, st, args, f) == Continue(Copied(pre[0]), pre[1..] + rest, st');
      ScanSkipsPlain(pre[1..], rest, st', args, f);
      assert st'.out + pre[1..] == st.out + pre;
    }
  }

  /** The argument fold, one piece at a time. */
  lemma ConsumedCons(p: Piece, t: seq<Piece>)
    ensures Consumed([p] + t) == (if p.Copied? then [] else [p.arg]) + Consumed(t)
  {
    assert ([p] + t)[0] == p && ([p] + t)[1..] == t;
  }

  /** The error `e` is the one the marker at the head of the unscanned tail
      `tl` raises, `v` being the argument that marker takes. */
  predicate Reports(e: ParseError, tl: string, v: Value, f: Foreign)
  {
    match e
    case InvalidSpecifier(c) => c == CharAt(tl, 1) && c != 'd' && c != 's' && c != 'v'
    case LetterAfterV(c) => CharAt(tl, 1) == 'v' && CharAt(tl, 2) == c && IsAlpha(c)
    case StringConversionFailed => CharAt(tl, 1) == 's' && f.concatString(v) == None
  }

  /** A scan that stops with an error stops at a marker: the unscanned tail
      is not at the end of the text, and the error is the one that marker,
      with the next unconsumed argument, raises. */
  lemma {:induction false} ScanStops(rest: string, st: ScanState, args: Option<seq<Value>>, f: Foreign)
    ensures var r := Scan(rest, st, args, f);
      var tl := Tail(rest, st, args, f);
      r.error.Some? ==>
        !AtEnd(tl) &&
        Reports(r.error.value, tl, ArgAt(args, st.index + |Consumed(Trace(rest, st, args, f))|), f)
    decreases |rest|
  {
    if !AtEnd(rest) {
      var m := Advance(rest, st, args, f);
      if m.Continue? {
        Unfold(rest, st, args, f);
        AdvanceAccounts(rest, st, args, f);
        ScanStops(m.rest, m.st, args, f);
        ConsumedCons(m.piece, Trace(m.rest, m.st, args, f));
      } else {
        assert Trace(rest, st, args, f) == [] && Tail(rest, st, args, f) == rest;
      }
    }
  }

  // ---- the rewriter as a whole -----------------------------------------

  /** parseForBind rewrites exactly the markers: the statement is the source
      of the scanned pieces followed by an unscanned tail, the result is the
      pieces' rendering followed by that tail, the `%v` markers become ?1, ?2,
      ... in order and their arguments are appended to the bind list in the
      same order, `%d`/`%s` add no bind entry and are replaced by their
      argument's literal, every marker consumes the next argument (a missing
      one reads as Nothing), only non-'%' characters are copied, a
      successful parse scanned the whole text, and a failed one stopped at
      the marker that raised the error. */
  lemma ParseRewritesMarkers(sql: string, args: Option<seq<Value>>, realArgs: seq<Value>, f: Foreign)
    ensures var r := Parse(sql, args, realArgs, f);
      var t := Trace(sql, Start(realArgs), args, f);
      var tl := Tail(sql, Start(realArgs), args, f);
      sql == Source(t) + tl &&
      r.text == Render(t) + tl &&
      r.binds == realArgs + MarkerArgs(t) &&
      |r.binds| == |realArgs| + |Numbers(t)| &&
      (forall i :: 0 <= i < |Numbers(t)| ==> Numbers(t)[i] == i + 1) &&
      (forall k :: 0 <= k < |Consumed(t)| ==> Consumed(t)[k] == ArgAt(args, k)) &&
      (forall i :: 0 <= i < |t| ==> WellMade(t[i], f)) &&
      (r.error.None? ==> AtEnd(tl)) &&
      (r.error.Some? ==> !AtEnd(tl) && Reports(r.error.value, tl, ArgAt(args, |Consumed(t)|), f))
  {
    ScanAccounts(sql, Start(realArgs), args, f);
    ScanNumbers(sql, Start(realArgs), args, f);
    ScanConsumes(sql, Start(realArgs), args, f);
    ScanPieces(sql, Start(realArgs), args, f);
    ScanStops(sql, Start(realArgs), args, f);
    assert [] + Render(Trace(sql, Start(realArgs), args, f)) == Render(Trace(sql, Start(realArgs), args, f));
  }

  /** Text without markers passes through unchanged and binds nothing. */
  lemma PlainTextUnchanged(sql: string, args: Option<seq<Value>>, realArgs: seq<Value>, f: Foreign)
    requires Plain(sql)
    ensures Parse(sql, args, realArgs, f) == ParseResult(sql, realArgs, None)
  {
    ScanSkipsPlain(sql, [], Start(realArgs), args, f);
    assert sql + [] == sql && [] + sql == sql;
  }

  /** The scan, from state `st`, reaches the introducer `i` after `pre`:
      outside quote mode `pre` is plain text and `i` is '%'; in quote mode
      every character is an introducer, so `pre` is empty. */
  predicate MarkerAhead(pre: string, i: char, st: ScanState)
  {
    i != '\0' &&
    (st.quote == '\0' ==> Plain(pre) && i == '%') &&
    (st.quote != '\0' ==> pre == [])
  }

  /** Scanning `pre + marker` stops at the marker when its step stops: the
      text and bind list are those of the state the marker was reached in. */
  lemma StopAtMarker(pre: string, i: char, marker: string, st: ScanState,
                     args: Option<seq<Value>>, f: Foreign)
    requires MarkerAhead(pre, i, st) && |marker| > 0 && marker[0] == i
    requires Advance(marker, st.(out := st.out + pre), args, f).Stop?
    ensures Scan(pre + marker, st, args, f)
         == ParseResult(st.out + pre + marker, st.binds,
                        Some(Advance(marker, st.(out := st.out + pre), args, f).error))
  {
    if st.quote == '\0' {
      ScanSkipsPlain(pre, marker, st, args, f);
    } else {
      assert pre + marker == marker && st.(out := st.out + pre) == st;
    }
    assert (st.out + pre) + marker == st.out + pre + marker;
  }

  /** Wherever the scan has got to, a marker followed by anything but d, s
      or v (another '%', a NUL, any other character) is a parse error; the
      text is left as it was and the bind list is that of the state reached. */
  lemma UnknownSpecifierFails(pre: string, i: char, c: char, post: string, st: ScanState,
                              args: Option<seq<Value>>, f: Foreign)
    requires MarkerAhead(pre, i, st) && c != 'd' && c != 's' && c != 'v'
    ensures Scan(pre + [i, c] + post, st, args, f)
         == ParseResult(st.out + pre + [i, c] + post, st.binds, Some(InvalidSpecifier(c)))
  {
    var marker := [i, c] + post;
    assert CharAt(marker, 1) == c;
    assert pre + [i, c] + post == pre + marker;
    StopAtMarker(pre, i, marker, st, args, f);
  }

  /** A marker introducer at the very end of the text is a parse error. */
  lemma TrailingPercentFails(pre: string, i: char, st: ScanState, args: Option<seq<Value>>, f: Foreign)
    requires MarkerAhead(pre, i, st)
    ensures Scan(pre + [i], st, args, f)
         == ParseResult(st.out + pre + [i], st.binds, Some(InvalidSpecifier('\0')))
  {
    assert CharAt([i], 1) == '\0';
    StopAtMarker(pre, i, [i], st, args, f);
  }

  /** Wherever the scan has got to, "%v" directly followed by a letter is a
      parse error. */
  lemma LetterAfterValueMarkerFails(pre: string, i: char, c: char, post: string, st: ScanState,
                                    args: Option<seq<Value>>, f: Foreign)
    requires MarkerAhead(pre, i, st) && IsAlpha(c)
    ensures Scan(pre + [i, 'v', c] + post, st, args, f)
         == ParseResult(st.out + pre + [i, 'v', c] + post, st.binds, Some(LetterAfterV(c)))
  {
    var marker := [i, 'v', c] + post;
    assert CharAt(marker, 1) == 'v' && CharAt(marker, 2) == c;
    assert pre + [i, 'v', c] + post == pre + marker;
    StopAtMarker(pre, i, marker, st, args, f);
  }

  /** Wherever the scan has got to, a `%s` whose argument (the next one
      unconsumed) cannot be rendered is a parse error. */
  lemma FailedStringLiteralFails(pre: string, i: char, post: string, st: ScanState,
                                 args: Option<seq<Value>>, f: Foreign)
    requires MarkerAhead(pre, i, st) && f.concatString(ArgAt(args, st.index)) == None
    ensures Scan(pre + [i, 's'] + post, st, args, f)
         == ParseResult(st.out + pre + [i, 's'] + post, st.binds, Some(StringConversionFailed))
  {
    var marker := [i, 's'] + post;
    assert CharAt(marker, 1) == 's';
    assert pre + [i, 's'] + post == pre + marker;
    StopAtMarker(pre, i, marker, st, args, f);
  }

  /** Too few arguments is not an error: the missing one binds as Nothing. */
  lemma MissingArgumentBindsNothing(pre: string, f: Foreign)
    requires Plain(pre)
    ensures Parse(pre + ['%', 'v'], Some([]), [], f) == ParseResult(pre + "?1", [Nothing], None)
  {
    ScanSkipsPlain(pre, ['%', 'v'], Start([]), Some([]), f);
    assert MarkerText(1) == "?1";
    var m := Advance(['%', 'v'], Start([]).(out := [] + pre), Some([]), f);
    assert m.Continue? && m.rest == [] && m.st.out == pre + "?1" && m.st.binds == [Nothing];
  }

  /** The scan state after a "%v" marker at the head of the text. */
  function AfterValueMarker(st: ScanState, args: Option<seq<Value>>, quoteChar: Option<char>, f: Foreign): ScanState
  {
    var v := ArgAt(args, st.index);
    var n := st.nParams + 1;
    var st2 := st.(index := if args.Some? then st.index + 1 else st.index,
                   nIterations := st.nIterations + 1,
                   nParams := n, out := st.out + MarkerText(n), binds := st.binds + [v]);
    match quoteChar
    case None => st2
    case Some(q) =>
      st2.(out := st2.out + [q],
           quote := if st.quote == '\0' then q else if f.truthy(v) then '\0' else st.quote)
  }

  /** Scanning a "%v" marker directly followed by a quote writes ?N and the
      quote, toggles quote mode, and carries on after the quote. */
  lemma ScanQuotedValueMarker(introducer: char, q: char, rest: string, st: ScanState,
                              args: Option<seq<Value>>, f: Foreign)
    requires IsQuote(q) && (introducer == '%' || st.quote != '\0') && introducer != '\0'
    ensures Scan([introducer, 'v', q] + rest, st, args, f)
         == Scan(rest, AfterValueMarker(st, args, Some(q), f), args, f)
  {
    var text := [introducer, 'v', q] + rest;
    assert CharAt(text, 1) == 'v' && CharAt(text, 2) == q;
    assert text[3..] == rest;
  }

  /** The quote quirk: a quote right after "%v" turns quote mode on, and the
      next character, whatever it is, is then taken as a marker introducer,
      so the character after it must be a specifier. */
  lemma QuoteAfterValueMarkerCapturesNextChar(pre: string, q: char, x: char, y: char, post: string,
                                              args: Option<seq<Value>>, f: Foreign)
    requires Plain(pre) && IsQuote(q) && x != '\0' && y != 'd' && y != 's' && y != 'v'
    ensures Parse(pre + ['%', 'v', q, x, y] + post, args, [], f)
         == ParseResult(pre + "?1" + [q, x, y] + post, [ArgAt(args, 0)], Some(InvalidSpecifier(y)))
  {
    var tail := [x, y] + post;
    assert pre + ['%', 'v', q, x, y] + post == pre + (['%', 'v', q] + tail);
    ScanSkipsPlain(pre, ['%', 'v', q] + tail, Start([]), args, f);
    var st0 := Start([]).(out := [] + pre);
    ScanQuotedValueMarker('%', q, tail, st0, args, f);
    var st1 := AfterValueMarker(st0, args, Some(q), f);
    assert MarkerText(1) == "?1";
    assert st1.out == pre + "?1" + [q] && st1.quote == q && st1.binds == [ArgAt(args, 0)];
    UnknownSpecifierFails([], x, y, post, st1, args, f);
    assert [] + [x, y] + post == tail;
    assert st1.out + [] + [x, y] + post == pre + "?1" + [q, x, y] + post;
  }

  /** The two steps of "%v'%v'" from normal mode, when the second argument
      is true: back in normal mode afterwards. */
  lemma ScanQuotedPair(post: string, st: ScanState, args: Option<seq<Value>>, f: Foreign)
    requires st.quote == '\0'
    requires f.truthy(ArgAt(args, if args.Some? then st.index + 1 else st.index))
    ensures var st2 := AfterValueMarker(AfterValueMarker(st, args, Some('\''), f), args, Some('\''), f);
      Scan(['%', 'v', '\'', '%', 'v', '\''] + post, st, args, f) == Scan(post, st2, args, f) &&
      st2.quote == '\0'
  {
    var second := ['%', 'v', '\''] + post;
    assert ['%', 'v', '\'', '%', 'v', '\''] + post == ['%', 'v', '\''] + second;
    ScanQuotedValueMarker('%', '\'', second, st, args, f);
    var st1 := AfterValueMarker(st, args, Some('\''), f);
    ScanQuotedValueMarker('%', '\'', post, st1, args, f);
  }

  /** Quote mode ends only at a later "%v" whose argument is true, followed
      by a quote: "%v'%v'" then behaves as two markers and normal scanning
      resumes after it. */
  lemma QuotedPairOfMarkers(pre: string, post: string, args: Option<seq<Value>>, f: Foreign)
    requires Plain(pre) && Plain(post) && f.truthy(ArgAt(args, 1))
    ensures Parse(pre + ['%', 'v', '\'', '%', 'v', '\''] + post, args, [], f)
         == ParseResult(pre + "?1'?2'" + post, [ArgAt(args, 0), ArgAt(args, 1)], None)
  {
    var pair := ['%', 'v', '\'', '%', 'v', '\''] + post;
    assert pre + ['%', 'v', '\'', '%', 'v', '\''] + post == pre + pair;
    ScanSkipsPlain(pre, pair, Start([]), args, f);
    var st0 := Start([]).(out := [] + pre);
    if args.None? {
      assert ArgAt(args, 1) == ArgAt(args, 0);
    }
    ScanQuotedPair(post, st0, args, f);
    var st2 := AfterValueMarker(AfterValueMarker(st0, args, Some('\''), f), args, Some('\''), f);
    PairState(pre, args, f);
    ScanSkipsPlain(post, [], st2, args, f);
    assert post + [] == post;
  }

  lemma PairState(pre: string, args: Option<seq<Value>>, f: Foreign)
    ensures var st2 := AfterValueMarker(AfterValueMarker(Start([]).(out := [] + pre), args, Some('\''), f),
                                        args, Some('\''), f);
      st2.out == pre + "?1'?2'" && st2.binds == [ArgAt(args, 0), ArgAt(args, 1)]
  {
    assert MarkerText(1) == "?1" && MarkerText(2) == "?2";
  }

  /** An inlined literal is never re-scanned: whatever `%d` or `%s`
      renders, even text holding markers of its own, lands in the output as
      it is, and adds no bind entry. */
  lemma InlinedLiteralNotRescanned(pre: string, c: char, lit: string, post: string, st: ScanState,
                                   args: Option<seq<Value>>, f: Foreign)
    requires st.quote == '\0' && Plain(pre) && Plain(post) && Renders(c, ArgAt(args, st.index), lit, f)
    ensures Scan(pre + ['%', c] + post, st, args, f) == ParseResult(st.out + pre + lit + post, st.binds, None)
  {
    var rest := ['%', c] + post;
    assert pre + ['%', c] + post == pre + rest;
    ScanSkipsPlain(pre, rest, st, args, f);
    var m := Advance(rest, st.(out := st.out + pre), args, f);
    assert CharAt(rest, 1) == c && rest[2..] == post;
    assert m.Continue? && m.rest == post && m.st.quote == '\0' && m.st.out == st.out + pre + lit;
    ScanSkipsPlain(post, [], m.st, args, f);
    assert post + [] == post;
  }
}
