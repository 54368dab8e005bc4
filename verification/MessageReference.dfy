/** References to streamed messages in templates: which of them `??` and `defined()` may absorb. */
module MessageReference {
  import opened Tokens
  import opened Ast
  import opened Values
  import opened Evaluator
  import Buf = StreamBuffer
  import opened Options

  /** Why receiving stopped. A status may be one that this side made up when its context ended. */
  datatype ReceiveError = Eof | Status(code: nat) | Other(text: string)

  /** What the stream is closed with: nothing when the peer ended it, the error otherwise. */
  function End(contextEnded: bool, err: ReceiveError): Option<ReceiveError> {
    if err.Eof? then None
    else if contextEnded then Some(err)
    else if err.Status? then None
    else Some(err)
  }

  /** What a lookup makes of a fate. */
  function ItemOf(fate: Buf.Fate<Value, ReceiveError>): Item {
    match fate
    case Message(m) => Item.Message(m)
    case Closed => NoMessage
    case Stopped(_) => Broken
    case Interrupted(_) => Broken
  }

  /** The expression `response.messages[index]`. */
  function Reference(index: Expr): Expr {
    IndexExpr(SelectorExpr(IdentExpr("response"), "messages"), index)
  }

  /** The expression evaluates its index to `n` and reads message `n` of the stream `id`. */
  predicate Reads(w: World, data: Value, dollar: Option<Value>, index: Expr, id: nat, n: int) {
    && "response" !in w.builtins
    && data.Object? && "response" in data.fields && data.fields["response"] == Stream(id)
    && var o := Eval(w, data, dollar, index); o.Val? && o.v.Int? && o.v.i == n
  }

  lemma ReferenceValue(w: World, data: Value, dollar: Option<Value>, index: Expr, id: nat, n: int)
    requires Reads(w, data, dollar, index, id, n)
    ensures var item := w.item(id, n);
      Query(w, data, dollar, Reference(index)) ==
      if item.Message? then Val(item.v) else if item.NoMessage? then NotDefined else Failed
  {
    var path := [Key("response"), Key("messages")];
    assert BuildPath(w, data, dollar, SelectorExpr(IdentExpr("response"), "messages")) == Path(path);
    assert BuildPath(w, data, dollar, Reference(index)) == Path(path + [At(n)]);
    WalkToMessage(w, data, id, n);
  }

  lemma WalkToMessage(w: World, data: Value, id: nat, n: int)
    requires data.Object? && "response" in data.fields && data.fields["response"] == Stream(id)
    ensures var item := w.item(id, n);
      Walk(w, data, [Key("response"), Key("messages")] + [At(n)]) ==
      if item.Message? then Val(item.v) else if item.NoMessage? then NotDefined else Failed
  {
    var path := [Key("response"), Key("messages")] + [At(n)];
    var rest, last := [Key("messages"), At(n)], [At(n)];
    assert path[1..] == rest && rest[1..] == last && last[1..] == [];
    assert Walk(w, data, path) == Walk(w, Stream(id), rest) == Walk(w, Stream(id), last);
    var item := w.item(id, n);
    if item.Message? {
      assert Walk(w, Stream(id), last) == Walk(w, item.v, []) == Val(item.v);
    }
  }

  /** What `??` and `defined` make of what is there. */
  lemma Absorbed(w: World, data: Value, dollar: Option<Value>, index: Expr, fallback: Expr, id: nat, n: int)
    requires Reads(w, data, dollar, index, id, n)
    ensures Eval(w, data, dollar, BinaryExpr(Coalescing, Reference(index), fallback)) ==
      match w.item(id, n)
      case Message(m) => if m == Nil then Eval(w, data, dollar, fallback) else Val(m)
      case NoMessage => Eval(w, data, dollar, fallback)
      case Broken => Failed
    ensures Eval(w, data, dollar, DefinedExpr(Reference(index))) ==
      match w.item(id, n)
      case Message(_) => Val(Bool(true))
      case NoMessage => Val(Bool(false))
      case Broken => Failed
  {
    ReferenceValue(w, data, dollar, index, id, n);
  }

  /** A fate that a waiting caller was told, in some run of the stream. */
  ghost predicate Told(actions: seq<Buf.Action<Value, ReceiveError>>, caller: nat, n: int,
                       fate: Buf.Fate<Value, ReceiveError>)
  {
    Buf.Runs(Buf.Init(), actions) &&
    var s := Buf.Exec(Buf.Init(), actions);
    caller < |s.waiters| && s.waiters[caller].index == n && s.waiters[caller].phase == Buf.Back(fate)
  }

  lemma ToldOfProduced(actions: seq<Buf.Action<Value, ReceiveError>>, caller: nat, n: int,
                       fate: Buf.Fate<Value, ReceiveError>)
    requires Told(actions, caller, n, fate)
    ensures var items, end := Buf.Produced(actions), Buf.Ended(actions);
      match fate
      case Message(m) =>
        -|items| <= n < |items| && (n < 0 ==> end == Some(None)) && m == if n >= 0 then items[n] else items[|items| + n]
      case Closed => end == Some(None) && !(-|items| <= n < |items|)
      case Stopped(reason) => end == Some(Some(reason)) && !(0 <= n < |items|)
      case Interrupted(_) => true
  {
    var k := Buf.ToldWhatWasProduced(actions, caller);
    Buf.AskedFor(actions, caller);
  }

  /** `response.messages[n] ?? fallback` takes the fallback, and `defined(response.messages[n])` is
      false, exactly when the stream ended cleanly without message `n` (or, for `??`, when that
      message is nil); a stopped stream or an interrupted wait makes both fail. */
  lemma OnlyAbsenceIsAbsorbed(w: World, data: Value, dollar: Option<Value>, index: Expr, fallback: Expr, id: nat,
                              n: int, actions: seq<Buf.Action<Value, ReceiveError>>, caller: nat,
                              fate: Buf.Fate<Value, ReceiveError>)
    requires Reads(w, data, dollar, index, id, n)
    requires Told(actions, caller, n, fate) && w.item(id, n) == ItemOf(fate)
    ensures var items, end := Buf.Produced(actions), Buf.Ended(actions);
      var coalesced := Eval(w, data, dollar, BinaryExpr(Coalescing, Reference(index), fallback));
      var defined := Eval(w, data, dollar, DefinedExpr(Reference(index)));
      if fate.Message? then
        && -|items| <= n < |items| && (n < 0 ==> end == Some(None))
        && defined == Val(Bool(true))
        && var m := if n >= 0 then items[n] else items[|items| + n];
          coalesced == if m == Nil then Eval(w, data, dollar, fallback) else Val(m)
      else if fate.Closed? then
        && end == Some(None) && !(-|items| <= n < |items|)
        && defined == Val(Bool(false)) && coalesced == Eval(w, data, dollar, fallback)
      else
        && (fate.Stopped? ==> end == Some(Some(fate.reason)) && !(0 <= n < |items|))
        && defined == Failed && coalesced == Failed
  {
    ToldOfProduced(actions, caller, n, fate);
    Absorbed(w, data, dollar, index, fallback, id, n);
  }
}
