/** Templates whose evaluation waits for the actual value. */
module Lazy {
  import opened Ast
  import opened Values
  import opened Evaluator
  import opened Machine
  import opened MachineProofs
  import opened Options

  /** One execution of a template in a goroutine: where it is, and the value of `$` once it is set. */
  class Execution {
    const world: World
    const data: Value
    const expr: Expr
    var config: Config
    var actual: Option<Value>

    ghost function Result(): Final
      reads this
    {
      Exec(world, data, actual, config)
    }

    constructor (world: World, data: Value, expr: Expr)
      ensures this.world == world && this.data == data && this.expr == expr && actual.None?
      ensures config == Config(Do(expr), Bottom)
    {
      this.world, this.data, this.expr := world, data, expr;
      config, actual := Config(Do(expr), Bottom), None;
    }

    /** Lets the goroutine run until it is over or blocked. */
    method Run() returns (finished: bool)
      modifies this`config
      ensures Result() == old(Result())
      ensures finished <==> Result().Finished?
      ensures if finished then Done(config) else old(Result()) == Waiting(config)
    {
      while !Done(config) && !(actual.None? && ReadsDollar(world, config))
        invariant Result() == old(Result())
        decreases Work(config)
      {
        config := Step(world, data, actual, config);
      }
      finished := Done(config);
    }

    /** Sets the actual value, which can be done once. */
    method Set(v: Value) returns (ok: bool)
      modifies this`actual
      ensures ok <==> old(actual).None?
      ensures actual == if ok then Some(v) else old(actual)
    {
      if actual.Some? {
        return false;
      }
      actual := Some(v);
      return true;
    }
  }

  /** A function of the actual value. The first call goes on with the execution that is waiting;
      every later one executes the template again. */
  class Deferred {
    const world: World
    const data: Value
    const expr: Expr
    const waiting: Execution
    var called: bool

    ghost predicate Valid()
      reads this, waiting
    {
      && waiting.world == world && waiting.data == data && waiting.expr == expr
      && (!called ==>
        && waiting.actual.None?
        && Exec(world, data, None, Config(Do(expr), Bottom)) == Waiting(waiting.config))
    }

    constructor (waiting: Execution)
      requires waiting.actual.None?
      requires Exec(waiting.world, waiting.data, None, Config(Do(waiting.expr), Bottom)) == Waiting(waiting.config)
      ensures Valid() && !called && this.waiting == waiting
      ensures world == waiting.world && data == waiting.data && expr == waiting.expr
    {
      world, data, expr := waiting.world, waiting.data, waiting.expr;
      this.waiting, called := waiting, false;
    }

    /** Each call evaluates the template from scratch with its own value of `$`, as far as its result
        tells. Calls at the same time are the subject of `LazyCalls`. */
    method Call(v: Value) returns (out: Out)
      requires Valid()
      modifies this`called, waiting
      ensures Valid() && called
      ensures out == Eval(world, data, Some(v), expr)
    {
      var c := waiting;
      if called {
        c := new Execution(world, data, expr);
        FromScratch(world, data, expr, v);
      } else {
        called := true;
        ResumesLikeEval(world, data, expr, v);
      }
      var ok := c.Set(v);
      var finished := c.Run();
      out := c.config.control.out;
    }
  }

  lemma FromScratch(w: World, data: Value, e: Expr, v: Value)
    ensures Exec(w, data, Some(v), Config(Do(e), Bottom)) == Finished(Eval(w, data, Some(v), e))
  {
    DoGives(w, data, Some(v), e, Bottom);
    NeverSuspended(w, data, v, e);
  }

  datatype Executed = Plain(out: Out) | Lazily(f: Deferred)

  /** A template that does not read `$` gives its value, any other one a function. */
  method Execute(world: World, data: Value, expr: Expr) returns (r: Executed)
    ensures r.Lazily? <==> Eval(world, data, None, expr).Suspended?
    ensures r.Plain? ==> r.out == Eval(world, data, None, expr)
    ensures r.Lazily? ==>
      (fresh(r.f) && fresh(r.f.waiting) && r.f.Valid() &&
       r.f.world == world && r.f.data == data && r.f.expr == expr)
  {
    StartsLikeEval(world, data, expr);
    var execution := new Execution(world, data, expr);
    var finished := execution.Run();
    if finished {
      r := Plain(execution.config.control.out);
    } else {
      var f := new Deferred(execution);
      r := Lazily(f);
    }
  }
}
