/** Evaluation as a process that can stop where it reads `$` and go on later.

    A template is evaluated in a goroutine of its own, which blocks when it extracts `$`. Its state
    there is what it was doing and a stack of what it has yet to do. */
module Machine {
  import opened Tokens
  import opened Ast
  import opened Values
  import opened Evaluator
  import opened Options

  /** What is left to do with the outcome of a part of an expression. */
  datatype Frame =
    | OnUnary(uop: UnaryOp)
    | OnLeft(op: BinOp, y: Expr)
    | OnRight(op: BinOp, left: Value)
    | OnCoalesce(query: bool, y: Expr)
    | OnCondition(x: Expr, y: Expr)
    | OnMember(sel: string, args: seq<Expr>)
    | OnCallee(args: seq<Expr>)
    | OnArgument(target: Target, args: seq<Expr>)
    | OnDefined
    | OnPath               // extract the path that is being built
    | OnKey(key: string)   // append a key to it
    | OnIndex(index: Expr) // evaluate an index for it
    | OnSegment(path: seq<Segment>)

  datatype Stack = Bottom | Push(top: Frame, rest: Stack)

  datatype Control = Do(e: Expr) | Build(e: Expr) | Ready(path: seq<Segment>) | Return(out: Out)

  datatype Config = Config(control: Control, stack: Stack)

  function Size(e: Expr): nat {
    match e
    case NoExpr => 1
    case BasicLit(_, _) => 1
    case ParameterExpr(_, x) => 1 + Size(x)
    case ParenExpr(x) => 1 + Size(x)
    case UnaryExpr(_, x) => 1 + Size(x)
    case BinaryExpr(_, x, y) => 1 + Size(x) + Size(y)
    case ConditionalExpr(c, x, y) => 1 + Size(c) + Size(x) + Size(y)
    case IdentExpr(_) => 1
    case SelectorExpr(x, _) => 1 + Size(x)
    case IndexExpr(x, index) => 1 + Size(x) + Size(index)
    case CallExpr(fun, args) => 1 + Size(fun) + ArgsSize(args)
    case LeftArrowExpr(_, _) => 1
    case DefinedExpr(arg) => 1 + Size(arg)
  }

  function ArgsSize(args: seq<Expr>): nat {
    if args == [] then 0 else 1 + Size(args[0]) + ArgsSize(args[1..])
  }

  /** Bounds the steps left. */
  function ControlWork(c: Control): nat {
    if c.Do? then 5 * Size(c.e) + 2 else if c.Build? then 5 * Size(c.e) else if c.Ready? then 1 else 0
  }

  function FrameWork(f: Frame): nat {
    match f
    case OnUnary(_) => 1
    case OnLeft(_, y) => 5 * Size(y) + 4
    case OnRight(_, _) => 1
    case OnCoalesce(_, y) => 5 * Size(y) + 3
    case OnCondition(x, y) => 5 * Size(x) + 5 * Size(y) + 3
    case OnMember(_, args) => 5 * ArgsSize(args) + 1
    case OnCallee(args) => 5 * ArgsSize(args) + 1
    case OnArgument(_, args) => 5 * ArgsSize(args) + 1
    case OnDefined => 1
    case OnPath => 1
    case OnKey(_) => 1
    case OnIndex(index) => 5 * Size(index) + 4
    case OnSegment(_) => 2
  }

  function StackWork(k: Stack): nat {
    if k.Bottom? then 0 else FrameWork(k.top) + StackWork(k.rest)
  }

  function Work(c: Config): nat {
    ControlWork(c.control) + StackWork(c.stack)
  }

  predicate Done(c: Config) {
    c.stack.Bottom? && c.control.Return?
  }

  /** The read of `$` comes next. */
  predicate ReadsDollar(w: World, c: Config) {
    c.control.Ready? && c.stack.Push? && c.stack.top.OnPath? && AsksDollar(w, c.control.path)
  }

  function Step(w: World, data: Value, dollar: Option<Value>, c: Config): (c': Config)
    requires !Done(c)
    requires dollar.None? ==> !ReadsDollar(w, c)
    ensures Work(c') < Work(c)
  {
    match c.control
    case Do(e) => StepDo(w, e, c.stack)
    case Build(e) => StepBuild(e, c.stack)
    case Ready(path) => StepReady(w, data, dollar, path, c.stack)
    case Return(out) => StepReturn(w, out, c.stack.top, c.stack.rest)
  }

  /** The outcome of an extraction goes to the frame `f`. */
  function Extracting(f: Frame, k: Stack): (k': Stack)
    ensures StackWork(k') == 1 + FrameWork(f) + StackWork(k)
  {
    Push(OnPath, Push(f, k))
  }

  function StepDo(w: World, e: Expr, k: Stack): (c': Config)
    ensures Work(c') < 5 * Size(e) + 2 + StackWork(k)
  {
    match e
    case NoExpr => Config(Return(Failed), k)
    case BasicLit(kind, text) => Config(Return(Literal(kind, text)), k)
    case ParameterExpr(_, x) => if x.NoExpr? then Config(Return(Val(Str(""))), k) else Config(Do(x), k)
    case ParenExpr(x) => Config(Do(x), k)
    case UnaryExpr(op, x) => Config(Do(x), Push(OnUnary(op), k))
    case BinaryExpr(op, x, y) =>
      if op == Coalescing then StepCoalesce(x, y, k) else Config(Do(x), Push(OnLeft(op, y), k))
    case ConditionalExpr(cond, x, y) => Config(Do(cond), Push(OnCondition(x, y), k))
    case IdentExpr(_) => Config(Build(e), Push(OnPath, k))
    case SelectorExpr(_, _) => Config(Build(e), Push(OnPath, k))
    case IndexExpr(_, _) => Config(Build(e), Push(OnPath, k))
    case CallExpr(fun, args) => StepCall(fun, args, k)
    case LeftArrowExpr(_, _) => Config(Return(Returned(w.arrow(e))), k)
    case DefinedExpr(arg) =>
      if IsQuery(arg) then Config(Build(arg), Extracting(OnDefined, k)) else Config(Return(Failed), k)
  }

  function StepCall(fun: Expr, args: seq<Expr>, k: Stack): (c': Config)
    ensures Work(c') < 5 * (1 + Size(fun) + ArgsSize(args)) + 2 + StackWork(k)
  {
    if fun.SelectorExpr? then Config(Do(fun.x), Push(OnMember(fun.sel, args), k))
    else Config(Do(fun), Push(OnCallee(args), k))
  }

  function StepCoalesce(x: Expr, y: Expr, k: Stack): (c': Config)
    ensures Work(c') < 5 * (1 + Size(x) + Size(y)) + 2 + StackWork(k)
  {
    if IsQuery(x) then Config(Build(x), Extracting(OnCoalesce(true, y), k))
    else Config(Do(x), Push(OnCoalesce(false, y), k))
  }

  function StepBuild(e: Expr, k: Stack): (c': Config)
    ensures Work(c') < 5 * Size(e) + StackWork(k)
  {
    if e.IdentExpr? then Config(Ready([Key(e.name)]), k)
    else if e.SelectorExpr? then Config(Build(e.x), Push(OnKey(e.sel), k))
    else if e.IndexExpr? then Config(Build(e.x), Push(OnIndex(e.index), k))
    else Config(Return(Failed), k)
  }

  function StepReady(w: World, data: Value, dollar: Option<Value>, path: seq<Segment>, k: Stack): (c': Config)
    ensures Work(c') < 1 + StackWork(k)
  {
    if k.Bottom? then Config(Return(Failed), k)
    else if k.top.OnPath? then Config(Return(Extract(w, data, dollar, path)), k.rest)
    else if k.top.OnKey? then Config(Ready(path + [Key(k.top.key)]), k.rest)
    else if k.top.OnIndex? then Config(Do(k.top.index), Push(OnSegment(path), k.rest))
    else Config(Return(Failed), k.rest)
  }

  /** Starts a call, or goes on with its arguments. */
  function Proceed(w: World, target: Target, args: seq<Expr>, k: Stack): (c': Config)
    ensures Work(c') < 5 * ArgsSize(args) + 1 + StackWork(k)
  {
    if target.NoTarget? then Config(Return(target.out), k)
    else if args == [] then Config(Return(Returned(w.call(target.name, target.receiver))), k)
    else Config(Do(args[0]), Push(OnArgument(target, args[1..]), k))
  }

  function StepReturn(w: World, out: Out, f: Frame, k: Stack): (c': Config)
    ensures Work(c') < FrameWork(f) + StackWork(k)
  {
    if f.OnCoalesce? then
      if out == Val(Nil) || (f.query && out.NotDefined?) then Config(Do(f.y), k) else Config(Return(out), k)
    else if f.OnDefined? then
      Config(Return(if out.Val? then Val(Bool(true)) else if out.NotDefined? then Val(Bool(false)) else out), k)
    else if !out.Val? || f.OnPath? || f.OnKey? || f.OnIndex? then Config(Return(out), k)
    else StepValue(w, out.v, f, k)
  }

  function StepValue(w: World, v: Value, f: Frame, k: Stack): (c': Config)
    requires !(f.OnCoalesce? || f.OnDefined? || f.OnPath? || f.OnKey? || f.OnIndex?)
    ensures Work(c') < FrameWork(f) + StackWork(k)
  {
    if f.OnUnary? then Config(Return(Unary(f.uop, v)), k)
    else if f.OnLeft? then Config(Do(f.y), Push(OnRight(f.op, v), k))
    else if f.OnRight? then Config(Return(Binary(f.op, f.left, v)), k)
    else if f.OnCondition? then
      if !v.Bool? then Config(Return(Failed), k)
      else if v.b then Config(Do(f.x), k) else Config(Do(f.y), k)
    else if f.OnMember? then Proceed(w, Member(w, v, f.sel), f.args, k)
    else if f.OnCallee? then Proceed(w, Callee(w, v), f.args, k)
    else if f.OnArgument? then
      if f.target.NoTarget? then Config(Return(f.target.out), k)
      else Proceed(w, f.target.(receiver := f.target.receiver + [v]), f.args, k)
    else
      var b := Segmented(f.path, v);
      if b.Path? then Config(Ready(b.path), k) else Config(Return(b.out), k)
  }

  datatype Final = Finished(out: Out) | Waiting(at: Config)

  /** Runs to the end or, without a value for `$`, to where it is read. */
  function Exec(w: World, data: Value, dollar: Option<Value>, c: Config): Final
    decreases Work(c)
  {
    if Done(c) then Finished(c.control.out)
    else if dollar.None? && ReadsDollar(w, c) then Waiting(c)
    else Exec(w, data, dollar, Step(w, data, dollar, c))
  }
}
