/** Integer expressions evaluate to their exact value or to an error. */
module ExactArithmetic {
  import opened Tokens
  import opened Ast
  import opened Values
  import opened Evaluator
  import Arithmetic
  import opened Options

  /** The variable `name` of the data is an int. */
  predicate BindsInt(w: World, data: Value, name: string) {
    name !in w.builtins && name != "$" && data.Object? && name in data.fields && data.fields[name].Int?
  }

  /** Int literals and variables under unary minus, `+`, `-`, `*` and parentheses. */
  predicate IntExpr(w: World, data: Value, e: Expr) {
    match e
    case BasicLit(kind, text) => kind == INT && IsDecimal(text)
    case IdentExpr(name) => BindsInt(w, data, name)
    case ParenExpr(x) => IntExpr(w, data, x)
    case UnaryExpr(op, x) => op == Neg && IntExpr(w, data, x)
    case BinaryExpr(op, x, y) => (op == Add || op == Sub || op == Mul) && IntExpr(w, data, x) && IntExpr(w, data, y)
    case NoExpr => false
    case ParameterExpr(_, _) => false
    case ConditionalExpr(_, _, _) => false
    case SelectorExpr(_, _) => false
    case IndexExpr(_, _) => false
    case CallExpr(_, _) => false
    case LeftArrowExpr(_, _) => false
    case DefinedExpr(_) => false
  }

  /** The mathematical value of an integer expression. */
  function Meaning(w: World, data: Value, e: Expr): int
    requires IntExpr(w, data, e)
  {
    if e.BasicLit? then DecimalValue(e.text)
    else if e.IdentExpr? then data.fields[e.name].i
    else if e.ParenExpr? then Meaning(w, data, e.x)
    else if e.UnaryExpr? then -Meaning(w, data, e.x)
    else Combined(e.op, Meaning(w, data, e.x), Meaning(w, data, e.y))
  }

  function Combined(op: BinOp, x: int, y: int): int
    requires op == Add || op == Sub || op == Mul
  {
    if op == Add then x + y else if op == Sub then x - y else x * y
  }

  /** No value on the way to the result leaves the 64-bit range. */
  predicate Representable(w: World, data: Value, e: Expr)
    requires IntExpr(w, data, e)
  {
    && Arithmetic.Fits(Meaning(w, data, e))
    && (e.ParenExpr? || e.UnaryExpr? ==> Representable(w, data, e.x))
    && (e.BinaryExpr? ==> Representable(w, data, e.x) && Representable(w, data, e.y))
  }

  predicate ExactAt(w: World, data: Value, dollar: Option<Value>, e: Expr)
    requires IntExpr(w, data, e)
  {
    Eval(w, data, dollar, e) == if Representable(w, data, e) then Val(Int(Meaning(w, data, e))) else Failed
  }

  /** An integer expression evaluates to its exact value exactly when it and all its parts fit in 64
      bits; otherwise it evaluates to an error, never to a wrong number. */
  lemma {:induction false} ExactOrFailed(w: World, data: Value, dollar: Option<Value>, e: Expr)
    requires IntExpr(w, data, e)
    ensures var out := Eval(w, data, dollar, e);
      if Representable(w, data, e) then out == Val(Int(Meaning(w, data, e))) else out == Failed
  {
    if e.IdentExpr? {
      VariableExact(w, data, dollar, e.name);
    } else if e.UnaryExpr? {
      ExactOrFailed(w, data, dollar, e.x);
      NegExact(w, data, dollar, e);
    } else if e.BinaryExpr? {
      ExactOrFailed(w, data, dollar, e.x);
      ExactOrFailed(w, data, dollar, e.y);
      BinaryExact(w, data, dollar, e);
    } else if e.ParenExpr? {
      ExactOrFailed(w, data, dollar, e.x);
    }
  }

  lemma VariableExact(w: World, data: Value, dollar: Option<Value>, name: string)
    requires BindsInt(w, data, name) || BindsUint(w, data, name)
    ensures Eval(w, data, dollar, IdentExpr(name)) == Val(data.fields[name])
  {
    var e := IdentExpr(name);
    assert Eval(w, data, dollar, e) == Query(w, data, dollar, e) == Walk(w, data, [Key(name)]);
    assert Walk(w, data.fields[name], [Key(name)][1..]) == Val(data.fields[name]);
  }

  lemma NegExact(w: World, data: Value, dollar: Option<Value>, e: Expr)
    requires e.UnaryExpr? && IntExpr(w, data, e) && ExactAt(w, data, dollar, e.x)
    ensures ExactAt(w, data, dollar, e)
  {
    if Representable(w, data, e.x) {
      Arithmetic.NegExact(Meaning(w, data, e.x));
    }
  }

  lemma BinaryExact(w: World, data: Value, dollar: Option<Value>, e: Expr)
    requires e.BinaryExpr? && IntExpr(w, data, e)
    requires ExactAt(w, data, dollar, e.x) && ExactAt(w, data, dollar, e.y)
    ensures ExactAt(w, data, dollar, e)
  {
    if Representable(w, data, e.x) && Representable(w, data, e.y) {
      var x, y := Meaning(w, data, e.x), Meaning(w, data, e.y);
      OperationExact(e.op, x, y);
      assert Eval(w, data, dollar, e) == Binary(e.op, Int(x), Int(y));
      assert Representable(w, data, e) == Arithmetic.Fits(Combined(e.op, x, y));
    } else {
      assert !Representable(w, data, e);
    }
  }

  lemma OperationExact(op: BinOp, x: Arithmetic.Int64, y: Arithmetic.Int64)
    requires op == Add || op == Sub || op == Mul
    ensures var z := Combined(op, x, y);
      Binary(op, Int(x), Int(y)) == if Arithmetic.Fits(z) then Val(Int(z)) else Failed
  {
    if op == Add {
      Arithmetic.AddExact(x, y);
    } else if op == Sub {
      Arithmetic.SubExact(x, y);
    } else {
      Arithmetic.MulExact(x, y);
    }
  }

  predicate BindsUint(w: World, data: Value, name: string) {
    name !in w.builtins && name != "$" && data.Object? && name in data.fields && data.fields[name].Uint?
  }

  /** Unsigned variables under `+`, `-`, `*` and parentheses; literals are ints, and there is no
      unary minus. */
  predicate UintExpr(w: World, data: Value, e: Expr) {
    || (e.IdentExpr? && BindsUint(w, data, e.name))
    || (e.ParenExpr? && UintExpr(w, data, e.x))
    || (e.BinaryExpr? && (e.op == Add || e.op == Sub || e.op == Mul)
        && UintExpr(w, data, e.x) && UintExpr(w, data, e.y))
  }

  function UintMeaning(w: World, data: Value, e: Expr): int
    requires UintExpr(w, data, e)
  {
    if e.IdentExpr? then data.fields[e.name].u
    else if e.ParenExpr? then UintMeaning(w, data, e.x)
    else Combined(e.op, UintMeaning(w, data, e.x), UintMeaning(w, data, e.y))
  }

  /** No value on the way to the result leaves the range of unsigned numbers, and nothing is
      multiplied by a zero on the right. */
  predicate UintRepresentable(w: World, data: Value, e: Expr)
    requires UintExpr(w, data, e)
  {
    && Arithmetic.FitsUnsigned(UintMeaning(w, data, e))
    && (e.ParenExpr? ==> UintRepresentable(w, data, e.x))
    && (e.BinaryExpr? ==>
          && UintRepresentable(w, data, e.x) && UintRepresentable(w, data, e.y)
          && (e.op == Mul ==> UintMeaning(w, data, e.y) != 0))
  }

  /** An unsigned expression evaluates to its exact value exactly when it and all its parts are in
      range and no product has a zero on the right; otherwise it evaluates to an error. */
  lemma {:induction false} UintExactOrFailed(w: World, data: Value, dollar: Option<Value>, e: Expr)
    requires UintExpr(w, data, e)
    ensures var out := Eval(w, data, dollar, e);
      if UintRepresentable(w, data, e) then out == Val(Uint(UintMeaning(w, data, e))) else out == Failed
  {
    if e.IdentExpr? {
      VariableExact(w, data, dollar, e.name);
    } else if e.ParenExpr? {
      UintExactOrFailed(w, data, dollar, e.x);
    } else {
      UintExactOrFailed(w, data, dollar, e.x);
      UintExactOrFailed(w, data, dollar, e.y);
      if UintRepresentable(w, data, e.x) && UintRepresentable(w, data, e.y) {
        var x, y := UintMeaning(w, data, e.x), UintMeaning(w, data, e.y);
        UintOperationExact(e.op, x, y);
        assert Eval(w, data, dollar, e) == Binary(e.op, Uint(x), Uint(y));
      }
    }
  }

  lemma UintOperationExact(op: BinOp, x: Arithmetic.Uint64, y: Arithmetic.Uint64)
    requires op == Add || op == Sub || op == Mul
    ensures var z := Combined(op, x, y);
      Binary(op, Uint(x), Uint(y)) ==
      if Arithmetic.FitsUnsigned(z) && !(op == Mul && y == 0) then Val(Uint(z)) else Failed
  {
    if op == Add {
      Arithmetic.UintAddExact(x, y);
    } else if op == Sub {
      Arithmetic.UintSubExact(x, y);
    } else {
      Arithmetic.UintMulExact(x, y);
    }
  }
}
