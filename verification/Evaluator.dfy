/** Evaluation of template expressions. */
module Evaluator {
  import opened Tokens
  import opened Ast
  import opened Values
  import Arithmetic
  import opened Options

  datatype Item = Message(v: Value) | NoMessage | Broken
  datatype Call = Returns(v: Value) | Fails

  /** What an evaluation asks of the outside; calls are pure. `item` reads a streamed message,
      `methodOf` finds a method of a value, and `arrow` gives the value of a left-arrow call. */
  datatype World = World(
    builtins: set<string>,
    item: (nat, int) -> Item,
    call: (string, seq<Value>) -> Call,
    methodOf: (Value, string) -> Option<string>,
    arrow: Expr -> Call)

  datatype Segment = Key(key: string) | At(index: int)

  /** Follows a path into a value. */
  function Walk(w: World, v: Value, path: seq<Segment>): (out: Out)
    ensures !out.Suspended?
    decreases |path|
  {
    if path == [] then Val(v)
    else if path[0].Key? then
      if v.Stream? && path[0].key == "messages" then Walk(w, v, path[1..])
      else if v.Object? && path[0].key in v.fields then Walk(w, v.fields[path[0].key], path[1..]) else NotDefined
    else if v.List? then
      if 0 <= path[0].index < |v.items| then Walk(w, v.items[path[0].index], path[1..]) else NotDefined
    else if v.Stream? then
      var item := w.item(v.id, path[0].index);
      if item.Message? then Walk(w, item.v, path[1..]) else if item.Broken? then Failed else NotDefined
    else NotDefined
  }

  /** A path below `$`, which no builtin hides. */
  predicate AsksDollar(w: World, path: seq<Segment>) {
    path != [] && path[0].Key? && !(path[0].key in w.builtins && |path| == 1) && path[0].key == "$"
  }

  /** Tries the builtins before the data. */
  function Extract(w: World, data: Value, dollar: Option<Value>, path: seq<Segment>): (out: Out)
    ensures out.Suspended? <==> dollar.None? && AsksDollar(w, path)
  {
    if path == [] || !path[0].Key? then NotDefined
    else if path[0].key in w.builtins && |path| == 1 then Val(Function(path[0].key))
    else if path[0].key == "$" then
      if dollar.None? then Suspended else Walk(w, dollar.value, path[1..])
    else Walk(w, data, path)
  }

  /** What the builtins have at a path: functions, by name. */
  function FromBuiltins(w: World, path: seq<Segment>): Out {
    if |path| == 1 && path[0].Key? && path[0].key in w.builtins then Val(Function(path[0].key)) else NotDefined
  }

  /** What the data has there, or `$`, which waits until it has a value. */
  function FromData(w: World, data: Value, dollar: Option<Value>, path: seq<Segment>): Out {
    if path == [] || !path[0].Key? then NotDefined
    else if path[0].key != "$" then Walk(w, data, path)
    else if dollar.None? then Suspended
    else Walk(w, dollar.value, path[1..])
  }

  /** Targets are tried in order: only an absence moves on to the next one. */
  function FirstFound(outs: seq<Out>): Out {
    if outs == [] then NotDefined else if outs[0].NotDefined? then FirstFound(outs[1..]) else outs[0]
  }

  /** The loop over the targets, with what each of them has. */
  method ExtractFirst(outs: seq<Out>) returns (out: Out)
    ensures out == FirstFound(outs)
    ensures out.NotDefined? <==> forall o <- outs :: o.NotDefined?
    ensures !out.NotDefined? ==>
      exists k | 0 <= k < |outs| :: outs[k] == out && forall j | 0 <= j < k :: outs[j].NotDefined?
  {
    for k := 0 to |outs|
      invariant FirstFound(outs) == FirstFound(outs[k..])
      invariant forall j | 0 <= j < k :: outs[j].NotDefined?
    {
      if !outs[k].NotDefined? {
        return outs[k];
      }
      assert outs[k..][1..] == outs[k + 1..];
    }
    return NotDefined;
  }

  /** A lookup asks the builtins and then the data: a builtin hides data of its name, and a failure or
      a wait is the outcome of the whole lookup, which waits only below `$` where no builtin is. */
  lemma ExtractIsFirst(w: World, data: Value, dollar: Option<Value>, path: seq<Segment>)
    ensures Extract(w, data, dollar, path).Suspended? <==> dollar.None? && AsksDollar(w, path)
    ensures Extract(w, data, dollar, path) == FirstFound([FromBuiltins(w, path), FromData(w, data, dollar, path)])
  {
    var outs := [FromBuiltins(w, path), FromData(w, data, dollar, path)];
    assert outs[1..][1..] == [];
    assert FirstFound(outs[1..]) == FromData(w, data, dollar, path);
  }

  /** Expressions that name a place in the data. */
  predicate IsQuery(e: Expr) {
    e.IdentExpr? || e.SelectorExpr? || e.IndexExpr?
  }

  datatype Built = Path(path: seq<Segment>) | Stop(out: Out)

  /** The path segment an index stands for. */
  function Segmented(path: seq<Segment>, index: Value): (b: Built)
    ensures b.Stop? ==> b.out == Failed
  {
    if index.Int? then Path(path + [At(index.i)])
    else if index.Uint? then if index.u > Arithmetic.MAX_INT64 then Stop(Failed) else Path(path + [At(index.u)])
    else if index.Str? then Path(path + [Key(index.s)])
    else Stop(Failed)
  }

  datatype Target = Target(name: string, receiver: seq<Value>) | NoTarget(out: Out)

  /** What a call of the member `sel` of a value calls: a function found there, or else a method. */
  function Member(w: World, x: Value, sel: string): (target: Target)
    ensures target.NoTarget? ==> !target.out.Suspended?
  {
    if sel in w.builtins then Target(sel, [])
    else
      var o := Walk(w, x, [Key(sel)]);
      if o.Val? then Callee(w, o.v)
      else if o.NotDefined? && x.Nil? then NoTarget(Failed) // looking for a method of nil panics
      else if o.NotDefined? && w.methodOf(x, sel).Some? then Target(w.methodOf(x, sel).value, [x])
      else NoTarget(o)
  }

  /** A function, or a value that has a method `Call`. */
  function Callee(w: World, f: Value): (target: Target)
    ensures target.NoTarget? ==> !target.out.Suspended?
  {
    if f.Function? then Target(f.name, [])
    else if f.Nil? then NoTarget(Failed)
    else if w.methodOf(f, "Call").Some? then Target(w.methodOf(f, "Call").value, [f])
    else NoTarget(Failed)
  }

  function Returned(c: Call): (out: Out)
    ensures out.Val? || out.Failed?
  {
    if c.Returns? then Val(c.v) else Failed
  }

  function Eval(w: World, data: Value, dollar: Option<Value>, e: Expr): Out
    decreases e, 2
  {
    match e
    case NoExpr => Failed
    case BasicLit(kind, text) => Literal(kind, text)
    case ParameterExpr(_, x) => if x.NoExpr? then Val(Str("")) else Eval(w, data, dollar, x)
    case ParenExpr(x) => Eval(w, data, dollar, x)
    case UnaryExpr(op, x) =>
      var o := Eval(w, data, dollar, x);
      if o.Val? then Unary(op, o.v) else o
    case BinaryExpr(op, x, y) =>
      if op == Coalescing then
        var o := if IsQuery(x) then Query(w, data, dollar, x) else Eval(w, data, dollar, x);
        if o == Val(Nil) || (IsQuery(x) && o.NotDefined?) then Eval(w, data, dollar, y) else o
      else
        var o := Eval(w, data, dollar, x);
        if !o.Val? then o
        else
          var p := Eval(w, data, dollar, y);
          if p.Val? then Binary(op, o.v, p.v) else p
    case ConditionalExpr(c, x, y) =>
      var o := Eval(w, data, dollar, c);
      if !o.Val? then o
      else if !o.v.Bool? then Failed
      else if o.v.b then Eval(w, data, dollar, x) else Eval(w, data, dollar, y)
    case IdentExpr(_) => Query(w, data, dollar, e)
    case SelectorExpr(_, _) => Query(w, data, dollar, e)
    case IndexExpr(_, _) => Query(w, data, dollar, e)
    case CallExpr(fun, args) =>
      if fun.SelectorExpr? then
        var o := Eval(w, data, dollar, fun.x);
        if o.Val? then Apply(w, data, dollar, Member(w, o.v, fun.sel), args) else o
      else
        var o := Eval(w, data, dollar, fun);
        if o.Val? then Apply(w, data, dollar, Callee(w, o.v), args) else o
    case LeftArrowExpr(_, _) => Returned(w.arrow(e))
    case DefinedExpr(arg) =>
      if !IsQuery(arg) then Failed
      else
        var o := Query(w, data, dollar, arg);
        if o.Val? then Val(Bool(true)) else if o.NotDefined? then Val(Bool(false)) else o
  }

  /** The value at the place an expression names. */
  function Query(w: World, data: Value, dollar: Option<Value>, e: Expr): Out
    decreases e, 1
  {
    var b := BuildPath(w, data, dollar, e);
    if b.Path? then Extract(w, data, dollar, b.path) else b.out
  }

  function BuildPath(w: World, data: Value, dollar: Option<Value>, e: Expr): Built
    decreases e, 0
  {
    if e.IdentExpr? then Path([Key(e.name)])
    else if e.SelectorExpr? then
      var b := BuildPath(w, data, dollar, e.x);
      if b.Path? then Path(b.path + [Key(e.sel)]) else b
    else if e.IndexExpr? then
      var b := BuildPath(w, data, dollar, e.x);
      if b.Stop? then b
      else
        var o := Eval(w, data, dollar, e.index);
        if o.Val? then Segmented(b.path, o.v) else Stop(o)
    else Stop(Failed)
  }

  /** Evaluates the arguments from the left, and calls. */
  function Apply(w: World, data: Value, dollar: Option<Value>, target: Target, args: seq<Expr>): Out
    decreases args
  {
    if target.NoTarget? then target.out
    else if args == [] then Returned(w.call(target.name, target.receiver))
    else
      var o := Eval(w, data, dollar, args[0]);
      if o.Val? then Apply(w, data, dollar, target.(receiver := target.receiver + [o.v]), args[1..]) else o
  }
}
