/**
 * Binding the collected arguments to the parameter slots of a compiled
 * statement: slot i+1 receives argument i, one bind call per slot, chosen
 * by the argument's type; the first refusal or unsupported type stops it.
 */
module Binder {
  import opened Values
  import opened Engine

  /** The bind call a value is bound with, or None for a type the binder
      does not support. Booleans bind as the integers 1 and 0; dates and
      arbitrary-precision numbers bind as their text. */
  function Dispatch(v: Value, f: Foreign): (r: Option<BindCall>)
    ensures r.None? <==> v.Other?
  {
    match v
    case Nothing => Some(BindNull)
    case Null => Some(BindNull)
    case Int(i) => Some(BindInt64(i))
    case Float(d) => Some(BindDouble(d))
    case Str(s) => Some(BindText(s))
    case Boolean(b) => Some(BindInt64(if b then 1 else 0))
    case Date(t) => Some(BindText(f.formatDate(t)))
    case Number(n) => Some(BindText(f.numberText(n)))
    case Binary(bytes) => Some(BindBlob(bytes))
    case Other(name) => None
  }

  /** The bind calls the engine accepted, as (slot, call) pairs, and the
      error that stopped binding, if any. */
  datatype Binding = Binding(calls: seq<(nat, BindCall)>, error: Option<BindError>)

  /** Binding slots i+1 .. count from the argument list; `accept` is the
      engine's answer to a bind call. */
  function BindFrom(args: seq<Value>, i: nat, count: nat, accept: (nat, BindCall) -> bool, f: Foreign): Binding
    decreases count - i
  {
    if i >= count then Binding([], None)
    else
      var v := ArgAt(Some(args), i);
      match Dispatch(v, f)
      case None => Binding([], Some(Unsupported(v.typeName)))
      case Some(call) =>
        if !accept(i + 1, call) then Binding([], Some(Rejected(i + 1, call)))
        else
          var rest := BindFrom(args, i + 1, count, accept, f);
          Binding([(i + 1, call)] + rest.calls, rest.error)
  }

  /** Whether every slot from i+1 up to count binds. */
  ghost predicate AllBind(args: seq<Value>, i: nat, count: nat, accept: (nat, BindCall) -> bool, f: Foreign)
  {
    forall j :: i <= j < count ==>
      Dispatch(ArgAt(Some(args), j), f).Some? && accept(j + 1, Dispatch(ArgAt(Some(args), j), f).value)
  }

  /** Binding walks the slots in order: the k-th accepted call is for slot
      i+k+1 and carries the bind call of that slot's argument; when binding
      succeeds every slot was bound. */
  lemma {:induction false} BindFromCalls(args: seq<Value>, i: nat, count: nat,
                                         accept: (nat, BindCall) -> bool, f: Foreign)
    ensures var b := BindFrom(args, i, count, accept, f);
      (forall k :: 0 <= k < |b.calls| ==>
         i + k < count &&
         Dispatch(ArgAt(Some(args), i + k), f) == Some(b.calls[k].1) &&
         b.calls[k].0 == i + k + 1)
    ensures var b := BindFrom(args, i, count, accept, f);
      b.error.None? ==> |b.calls| == if i <= count then count - i else 0
    decreases count - i
  {
    if i < count {
      var v := ArgAt(Some(args), i);
      if Dispatch(v, f).Some? && accept(i + 1, Dispatch(v, f).value) {
        BindFromCalls(args, i + 1, count, accept, f);
        var rest := BindFrom(args, i + 1, count, accept, f);
        var b := BindFrom(args, i, count, accept, f);
        assert b.calls == [(i + 1, Dispatch(v, f).value)] + rest.calls;
        forall k | 0 <= k < |b.calls|
          ensures i + k < count && Dispatch(ArgAt(Some(args), i + k), f) == Some(b.calls[k].1)
          ensures b.calls[k].0 == i + k + 1
        {
          if k == 0 {
            assert b.calls[0] == (i + 1, Dispatch(v, f).value);
          } else {
            assert b.calls[k] == rest.calls[k - 1];
            assert ArgAt(Some(args), i + 1 + (k - 1)) == ArgAt(Some(args), i + k);
          }
        }
      }
    }
  }

  /** Binding fails exactly when some slot does not bind, and then it stops
      at the first such slot, reporting the unsupported type or the refused
      call; no later slot is bound. */
  lemma {:induction false} BindFromError(args: seq<Value>, i: nat, count: nat,
                                         accept: (nat, BindCall) -> bool, f: Foreign)
    ensures var b := BindFrom(args, i, count, accept, f);
      b.error.None? <==> AllBind(args, i, count, accept, f)
    ensures var b := BindFrom(args, i, count, accept, f);
      b.error.Some? ==>
        var j := i + |b.calls|;
        j < count && AllBind(args, i, j, accept, f) &&
        var v := ArgAt(Some(args), j);
        b.error.value == (if v.Other? then Unsupported(v.typeName) else Rejected(j + 1, Dispatch(v, f).value))
    decreases count - i
  {
    if i < count {
      var v := ArgAt(Some(args), i);
      if Dispatch(v, f).Some? && accept(i + 1, Dispatch(v, f).value) {
        BindFromError(args, i + 1, count, accept, f);
      }
    }
  }

  /** Missing arguments are not an error: a slot past the end of the
      argument list binds NULL. */
  lemma MissingArgumentsBindNull(args: seq<Value>, count: nat, accept: (nat, BindCall) -> bool, f: Foreign)
    ensures forall k :: |args| <= k < |BindFrom(args, 0, count, accept, f).calls| ==>
      BindFrom(args, 0, count, accept, f).calls[k] == (k + 1, BindNull)
  {
    BindFromCalls(args, 0, count, accept, f);
  }

  /** bindParameters: one bind call per parameter slot the engine reports,
      slot i+1 taking argument i (Nothing past the end of the list). The
      accepted calls are recorded on the statement; the first failure stops. */
  method BindParameters(realArgs: seq<Value>, cur: Cursor, accept: (nat, BindCall) -> bool, f: Foreign)
    returns (cur': Cursor, err: Option<BindError>)
    ensures var b := BindFrom(realArgs, 0, cur.prog.paramCount, accept, f);
      cur' == cur.(bound := cur.bound + b.calls) && err == b.error
  {
    var count := cur.prog.paramCount;
    var calls: seq<(nat, BindCall)> := [];
    var i := 0;
    while i < count
      invariant 0 <= i <= count
      invariant var b := BindFrom(realArgs, i, count, accept, f);
        BindFrom(realArgs, 0, count, accept, f) == Binding(calls + b.calls, b.error)
    {
      var arg := ArgAt(Some(realArgs), i);
      var call := Dispatch(arg, f);
      if call.None? {
        return cur.(bound := cur.bound + calls), Some(Unsupported(arg.typeName));
      }
      if !accept(i + 1, call.value) {
        return cur.(bound := cur.bound + calls), Some(Rejected(i + 1, call.value));
      }
      ghost var rest := BindFrom(realArgs, i + 1, count, accept, f);
      assert calls + ([(i + 1, call.value)] + rest.calls) == (calls + [(i + 1, call.value)]) + rest.calls;
      calls := calls + [(i + 1, call.value)];
      i := i + 1;
    }
    assert calls + [] == calls;
    return cur.(bound := cur.bound + calls), None;
  }
}
