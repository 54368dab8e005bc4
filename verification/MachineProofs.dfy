/** The process computes what evaluation from scratch does, wherever it stopped on the way. */
module MachineProofs {
  import opened Tokens
  import opened Ast
  import opened Values
  import opened Evaluator
  import opened Machine
  import opened Options

  /** Where the process gets from `c` if the part it works on has the outcome `out`. */
  ghost predicate Gives(w: World, data: Value, dollar: Option<Value>, c: Config, out: Out, k: Stack) {
    if out.Suspended? then Exec(w, data, dollar, c).Waiting?
    else Exec(w, data, dollar, c) == Exec(w, data, dollar, Config(Return(out), k))
  }

  ghost predicate GivesPath(w: World, data: Value, dollar: Option<Value>, c: Config, b: Built, k: Stack) {
    if b.Path? then Exec(w, data, dollar, c) == Exec(w, data, dollar, Config(Ready(b.path), k))
    else Gives(w, data, dollar, c, b.out, k)
  }

  /** Going on after a value for `$` has come is as if it had been there from the start. */
  lemma {:induction false} Resumes(w: World, data: Value, v: Value, c: Config)
    ensures var stopped := Exec(w, data, None, c);
      Exec(w, data, Some(v), c) ==
      if stopped.Waiting? then Exec(w, data, Some(v), stopped.at) else stopped
    decreases Work(c)
  {
    if !Done(c) && !ReadsDollar(w, c) {
      StepIgnoresDollar(w, data, v, c);
      Resumes(w, data, v, Step(w, data, None, c));
    }
  }

  lemma StepIgnoresDollar(w: World, data: Value, v: Value, c: Config)
    requires !Done(c) && !ReadsDollar(w, c)
    ensures Step(w, data, None, c) == Step(w, data, Some(v), c)
  {
  }

  lemma ExecStep(w: World, data: Value, dollar: Option<Value>, c: Config)
    requires !Done(c) && (dollar.None? ==> !ReadsDollar(w, c))
    ensures Exec(w, data, dollar, c) == Exec(w, data, dollar, Step(w, data, dollar, c))
  {
  }

  lemma ExecReturn(w: World, data: Value, dollar: Option<Value>, out: Out, f: Frame, k: Stack)
    ensures Exec(w, data, dollar, Config(Return(out), Push(f, k))) == Exec(w, data, dollar, StepReturn(w, out, f, k))
  {
  }

  /** The process on an expression gives what evaluation gives. */
  lemma {:induction false} DoGives(w: World, data: Value, dollar: Option<Value>, e: Expr, k: Stack)
    ensures Gives(w, data, dollar, Config(Do(e), k), Eval(w, data, dollar, e), k)
    decreases e, 2, 0
  {
    ExecStep(w, data, dollar, Config(Do(e), k));
    match e
    case NoExpr =>
    case BasicLit(_, _) =>
    case ParameterExpr(_, x) => if !x.NoExpr? { DoGives(w, data, dollar, x, k); }
    case ParenExpr(x) => DoGives(w, data, dollar, x, k);
    case UnaryExpr(op, x) =>
      DoGives(w, data, dollar, x, Push(OnUnary(op), k));
      ExecReturn(w, data, dollar, Eval(w, data, dollar, x), OnUnary(op), k);
    case BinaryExpr(op, x, y) =>
      if op == Coalescing { CoalescingGives(w, data, dollar, e, k); } else { BinaryGives(w, data, dollar, e, k); }
    case ConditionalExpr(_, _, _) => ConditionalGives(w, data, dollar, e, k);
    case IdentExpr(_) => QueryGives(w, data, dollar, e, k);
    case SelectorExpr(_, _) => QueryGives(w, data, dollar, e, k);
    case IndexExpr(_, _) => QueryGives(w, data, dollar, e, k);
    case CallExpr(_, _) => CallGives(w, data, dollar, e, k);
    case LeftArrowExpr(_, _) =>
    case DefinedExpr(arg) =>
      if IsQuery(arg) {
        QueryGives(w, data, dollar, arg, Push(OnDefined, k));
        ExecReturn(w, data, dollar, Query(w, data, dollar, arg), OnDefined, k);
      }
  }

  lemma {:induction false} CoalescingGives(w: World, data: Value, dollar: Option<Value>, e: Expr, k: Stack)
    requires e.BinaryExpr? && e.op == Coalescing
    ensures Gives(w, data, dollar, StepDo(w, e, k), Eval(w, data, dollar, e), k)
    decreases e, 1, 1
  {
    if IsQuery(e.x) {
      QueriedGives(w, data, dollar, e, k);
    } else {
      UnqueriedGives(w, data, dollar, e, k);
    }
  }

  lemma {:induction false} QueriedGives(w: World, data: Value, dollar: Option<Value>, e: Expr, k: Stack)
    requires e.BinaryExpr? && e.op == Coalescing && IsQuery(e.x)
    ensures Gives(w, data, dollar, StepDo(w, e, k), Eval(w, data, dollar, e), k)
    decreases e, 1, 0
  {
    var f := OnCoalesce(true, e.y);
    QueryGives(w, data, dollar, e.x, Push(f, k));
    ExecReturn(w, data, dollar, Query(w, data, dollar, e.x), f, k);
    DoGives(w, data, dollar, e.y, k);
  }

  lemma {:induction false} UnqueriedGives(w: World, data: Value, dollar: Option<Value>, e: Expr, k: Stack)
    requires e.BinaryExpr? && e.op == Coalescing && !IsQuery(e.x)
    ensures Gives(w, data, dollar, StepDo(w, e, k), Eval(w, data, dollar, e), k)
    decreases e, 1, 0
  {
    var f := OnCoalesce(false, e.y);
    DoGives(w, data, dollar, e.x, Push(f, k));
    ExecReturn(w, data, dollar, Eval(w, data, dollar, e.x), f, k);
    DoGives(w, data, dollar, e.y, k);
  }

  lemma {:induction false} BinaryGives(w: World, data: Value, dollar: Option<Value>, e: Expr, k: Stack)
    requires e.BinaryExpr? && e.op != Coalescing
    ensures Gives(w, data, dollar, StepDo(w, e, k), Eval(w, data, dollar, e), k)
    decreases e, 1, 0
  {
    var o := Eval(w, data, dollar, e.x);
    DoGives(w, data, dollar, e.x, Push(OnLeft(e.op, e.y), k));
    ExecReturn(w, data, dollar, o, OnLeft(e.op, e.y), k);
    if o.Val? {
      DoGives(w, data, dollar, e.y, Push(OnRight(e.op, o.v), k));
      ExecReturn(w, data, dollar, Eval(w, data, dollar, e.y), OnRight(e.op, o.v), k);
    }
  }

  lemma {:induction false} ConditionalGives(w: World, data: Value, dollar: Option<Value>, e: Expr, k: Stack)
    requires e.ConditionalExpr?
    ensures Gives(w, data, dollar, StepDo(w, e, k), Eval(w, data, dollar, e), k)
    decreases e, 1, 0
  {
    var o := Eval(w, data, dollar, e.cond);
    DoGives(w, data, dollar, e.cond, Push(OnCondition(e.x, e.y), k));
    ExecReturn(w, data, dollar, o, OnCondition(e.x, e.y), k);
    if o.Val? && o.v.Bool? {
      DoGives(w, data, dollar, if o.v.b then e.x else e.y, k);
    }
  }

  lemma {:induction false} CallGives(w: World, data: Value, dollar: Option<Value>, e: Expr, k: Stack)
    requires e.CallExpr?
    ensures Gives(w, data, dollar, StepDo(w, e, k), Eval(w, data, dollar, e), k)
    decreases e, 1, 1
  {
    if e.fun.SelectorExpr? {
      MemberCallGives(w, data, dollar, e, k);
    } else {
      var o, f := Eval(w, data, dollar, e.fun), OnCallee(e.args);
      DoGives(w, data, dollar, e.fun, Push(f, k));
      ExecReturn(w, data, dollar, o, f, k);
      if o.Val? {
        ProceedGives(w, data, dollar, Callee(w, o.v), e.args, k);
      }
    }
  }

  lemma {:induction false} MemberCallGives(w: World, data: Value, dollar: Option<Value>, e: Expr, k: Stack)
    requires e.CallExpr? && e.fun.SelectorExpr?
    ensures Gives(w, data, dollar, StepDo(w, e, k), Eval(w, data, dollar, e), k)
    decreases e, 1, 0
  {
    var o, f := Eval(w, data, dollar, e.fun.x), OnMember(e.fun.sel, e.args);
    DoGives(w, data, dollar, e.fun.x, Push(f, k));
    ExecReturn(w, data, dollar, o, f, k);
    if o.Val? {
      ProceedGives(w, data, dollar, Member(w, o.v, e.fun.sel), e.args, k);
    }
  }

  lemma {:induction false} ProceedGives(w: World, data: Value, dollar: Option<Value>, target: Target,
                                        args: seq<Expr>, k: Stack)
    requires target.NoTarget? ==> !target.out.Suspended?
    ensures Gives(w, data, dollar, Proceed(w, target, args, k), Apply(w, data, dollar, target, args), k)
    decreases args, 0, 0
  {
    if target.Target? && args != [] {
      var o, f := Eval(w, data, dollar, args[0]), OnArgument(target, args[1..]);
      DoGives(w, data, dollar, args[0], Push(f, k));
      ExecReturn(w, data, dollar, o, f, k);
      if o.Val? {
        ProceedGives(w, data, dollar, target.(receiver := target.receiver + [o.v]), args[1..], k);
      }
    }
  }

  /** The process that builds a path and extracts it. */
  lemma {:induction false} QueryGives(w: World, data: Value, dollar: Option<Value>, e: Expr, k: Stack)
    ensures Gives(w, data, dollar, Config(Build(e), Push(OnPath, k)), Query(w, data, dollar, e), k)
    decreases e, 1, 0
  {
    var b := BuildPath(w, data, dollar, e);
    BuildGives(w, data, dollar, e, Push(OnPath, k));
    if b.Path? {
      if !(dollar.None? && AsksDollar(w, b.path)) {
        ExecStep(w, data, dollar, Config(Ready(b.path), Push(OnPath, k)));
      }
    } else {
      ExecReturn(w, data, dollar, b.out, OnPath, k);
    }
  }

  lemma {:induction false} BuildGives(w: World, data: Value, dollar: Option<Value>, e: Expr, k: Stack)
    ensures GivesPath(w, data, dollar, Config(Build(e), k), BuildPath(w, data, dollar, e), k)
    decreases e, 0, 1
  {
    ExecStep(w, data, dollar, Config(Build(e), k));
    if e.SelectorExpr? {
      var b, f := BuildPath(w, data, dollar, e.x), OnKey(e.sel);
      BuildGives(w, data, dollar, e.x, Push(f, k));
      if b.Path? {
        ExecStep(w, data, dollar, Config(Ready(b.path), Push(f, k)));
      } else {
        ExecReturn(w, data, dollar, b.out, f, k);
      }
    } else if e.IndexExpr? {
      var b, f := BuildPath(w, data, dollar, e.x), OnIndex(e.index);
      BuildGives(w, data, dollar, e.x, Push(f, k));
      if b.Path? {
        IndexGives(w, data, dollar, b.path, e, k);
      } else {
        ExecReturn(w, data, dollar, b.out, f, k);
      }
    }
  }

  lemma {:induction false} IndexGives(w: World, data: Value, dollar: Option<Value>, path: seq<Segment>,
                                      e: Expr, k: Stack)
    requires e.IndexExpr?
    ensures var o := Eval(w, data, dollar, e.index);
      GivesPath(w, data, dollar, Config(Ready(path), Push(OnIndex(e.index), k)),
                if o.Val? then Segmented(path, o.v) else Stop(o), k)
    decreases e, 0, 0
  {
    var o := Eval(w, data, dollar, e.index);
    ExecStep(w, data, dollar, Config(Ready(path), Push(OnIndex(e.index), k)));
    DoGives(w, data, dollar, e.index, Push(OnSegment(path), k));
    ExecReturn(w, data, dollar, o, OnSegment(path), k);
  }

  /** Evaluation from scratch with a value for `$` is never suspended. */
  lemma NeverSuspended(w: World, data: Value, v: Value, e: Expr)
    ensures !Eval(w, data, Some(v), e).Suspended?
  {
    DoGives(w, data, Some(v), e, Bottom);
    NeverWaits(w, data, v, Config(Do(e), Bottom));
  }

  lemma {:induction false} NeverWaits(w: World, data: Value, v: Value, c: Config)
    ensures Exec(w, data, Some(v), c).Finished?
    decreases Work(c)
  {
    if !Done(c) {
      NeverWaits(w, data, v, Step(w, data, Some(v), c));
    }
  }

  /** Started without a value for `$`, the process stops exactly when evaluation needs one, and
      otherwise ends with the plain value. */
  lemma StartsLikeEval(w: World, data: Value, e: Expr)
    ensures var start, out := Exec(w, data, None, Config(Do(e), Bottom)), Eval(w, data, None, e);
      if out.Suspended? then start.Waiting? else start == Finished(out)
  {
    DoGives(w, data, None, e, Bottom);
  }

  /** Resumed with a value for `$`, the stopped process ends as evaluation from scratch with that value does. */
  lemma ResumesLikeEval(w: World, data: Value, e: Expr, v: Value)
    requires Exec(w, data, None, Config(Do(e), Bottom)).Waiting?
    ensures Exec(w, data, Some(v), Exec(w, data, None, Config(Do(e), Bottom)).at)
      == Finished(Eval(w, data, Some(v), e))
  {
    DoGives(w, data, Some(v), e, Bottom);
    NeverSuspended(w, data, v, e);
    Resumes(w, data, v, Config(Do(e), Bottom));
  }

  /** An expression that does not read `$` has the same value whatever `$` is. */
  lemma DollarUnread(w: World, data: Value, e: Expr, v: Value)
    requires !Eval(w, data, None, e).Suspended?
    ensures Eval(w, data, Some(v), e) == Eval(w, data, None, e)
  {
    StartsLikeEval(w, data, e);
    DoGives(w, data, Some(v), e, Bottom);
    NeverSuspended(w, data, v, e);
    Resumes(w, data, v, Config(Do(e), Bottom));
  }

  /** A failure is the end: no part of an expression absorbs it. */
  lemma {:induction false} FailureSurfaces(w: World, data: Value, dollar: Option<Value>, k: Stack)
    ensures Exec(w, data, dollar, Config(Return(Failed), k)) == Finished(Failed)
  {
    if k.Push? {
      ExecReturn(w, data, dollar, Failed, k.top, k.rest);
      FailureSurfaces(w, data, dollar, k.rest);
    }
  }
}
