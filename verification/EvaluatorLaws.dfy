/** What expressions evaluate to, operator by operator, in terms of what their operands evaluate to. */
module EvaluatorLaws {
  import opened Tokens
  import opened Ast
  import opened Values
  import opened Evaluator
  import opened Options
  import Arithmetic

  /** What an expression is evaluated in. */
  datatype Scope = Scope(world: World, data: Value, dollar: Option<Value>) {
    function Of(e: Expr): Out {
      Eval(world, data, dollar, e)
    }

    function Op(x: Expr, op: BinOp, y: Expr): Out {
      Of(BinaryExpr(op, x, y))
    }
  }

  // Operands.

  /** Apart from `??`, an operator needs the values of both operands: whatever else the first one, or
      else the second one, comes to is what the whole comes to. */
  lemma BothOperands(s: Scope, x: Expr, op: BinOp, y: Expr)
    requires op != Coalescing
    ensures !s.Of(x).Val? ==> s.Op(x, op, y) == s.Of(x)
    ensures s.Of(x).Val? && !s.Of(y).Val? ==> s.Op(x, op, y) == s.Of(y)
  {
  }

  // Comparisons.

  /** The lexicographic order: a proper beginning comes first, else the first difference decides. */
  ghost predicate Before(a: string, b: string) {
    exists k | 0 <= k <= |a| && k <= |b| :: FirstDifference(a, b, k)
  }

  predicate FirstDifference(a: string, b: string, k: nat)
    requires k <= |a| && k <= |b|
  {
    a[..k] == b[..k] && k < |b| && (k == |a| || a[k] < b[k])
  }

  ghost predicate Precedes(v: Value, u: Value)
    requires Ordered(v, u)
  {
    if v.Int? then v.i < u.i else if v.Uint? then v.u < u.u else Before(v.s, u.s)
  }

  /** Both ints, both uints or both strings. */
  predicate Ordered(v: Value, u: Value) {
    (v.Int? && u.Int?) || (v.Uint? && u.Uint?) || (v.Str? && u.Str?)
  }

  lemma {:induction false} TextOrderMeans(a: string, b: string)
    ensures TextOrder(a, b) == Less <==> Before(a, b)
    ensures TextOrder(a, b) == Greater <==> Before(b, a)
    ensures TextOrder(a, b) == Same <==> a == b
    ensures TextOrder(a, b) != Unordered
    decreases |a|
  {
    if a == [] || b == [] || a[0] != b[0] {
      EarlyDifference(a, b);
      EarlyDifference(b, a);
    } else {
      TextOrderMeans(a[1..], b[1..]);
      LaterDifference(a, b);
      LaterDifference(b, a);
      assert a == [a[0]] + a[1..] && b == [b[0]] + b[1..];
    }
  }

  lemma EarlyDifference(a: string, b: string)
    requires a == [] || b == [] || a[0] != b[0]
    ensures Before(a, b) <==> b != [] && (a == [] || a[0] < b[0])
  {
    if b != [] && (a == [] || a[0] < b[0]) {
      assert FirstDifference(a, b, 0);
    }
    forall k | 0 < k <= |a| && k <= |b| ensures a[..k] != b[..k] {
      assert a[..k][0] == a[0] && b[..k][0] == b[0];
    }
  }

  lemma LaterDifference(a: string, b: string)
    requires a != [] && b != [] && a[0] == b[0]
    ensures Before(a, b) <==> Before(a[1..], b[1..])
  {
    if k :| 0 <= k <= |a| && k <= |b| && FirstDifference(a, b, k) {
      assert a[1..][..k - 1] == a[..k][1..] && b[1..][..k - 1] == b[..k][1..];
      assert FirstDifference(a[1..], b[1..], k - 1);
    }
    if k :| 0 <= k <= |a| - 1 && k <= |b| - 1 && FirstDifference(a[1..], b[1..], k) {
      assert a[..k + 1] == [a[0]] + a[1..][..k] && b[..k + 1] == [b[0]] + b[1..][..k];
      assert FirstDifference(a, b, k + 1);
    }
  }

  lemma CompareMeans(v: Value, u: Value)
    ensures Ordered(v, u) ==>
      && (Compare(v, u) == Less <==> Precedes(v, u)) && (Compare(v, u) == Greater <==> Precedes(u, v))
      && (Compare(v, u) == Same <==> v == u)
    ensures Compare(v, u) == Unordered <==> !Ordered(v, u)
  {
    if v.Str? && u.Str? {
      TextOrderMeans(v.s, u.s);
    }
  }

  /** Ints and uints compare as numbers, strings lexicographically, and nothing else compares. */
  lemma Comparisons(s: Scope, x: Expr, y: Expr, v: Value, u: Value)
    requires s.Of(x) == Val(v) && s.Of(y) == Val(u)
    ensures Ordered(v, u) ==>
      && s.Op(x, Lss, y) == Val(Bool(Precedes(v, u))) && s.Op(x, Leq, y) == Val(Bool(Precedes(v, u) || v == u))
      && s.Op(x, Gtr, y) == Val(Bool(Precedes(u, v))) && s.Op(x, Geq, y) == Val(Bool(Precedes(u, v) || v == u))
    ensures !Ordered(v, u) ==>
      && s.Op(x, Lss, y) == Failed && s.Op(x, Leq, y) == Failed
      && s.Op(x, Gtr, y) == Failed && s.Op(x, Geq, y) == Failed
  {
    Upwards(s, x, y, v, u);
    Downwards(s, x, y, v, u);
  }

  lemma Upwards(s: Scope, x: Expr, y: Expr, v: Value, u: Value)
    requires s.Of(x) == Val(v) && s.Of(y) == Val(u)
    ensures s.Op(x, Lss, y) == if Ordered(v, u) then Val(Bool(Precedes(v, u))) else Failed
    ensures s.Op(x, Leq, y) == if Ordered(v, u) then Val(Bool(Precedes(v, u) || v == u)) else Failed
  {
    CompareMeans(v, u);
  }

  lemma Downwards(s: Scope, x: Expr, y: Expr, v: Value, u: Value)
    requires s.Of(x) == Val(v) && s.Of(y) == Val(u)
    ensures s.Op(x, Gtr, y) == if Ordered(v, u) then Val(Bool(Precedes(u, v))) else Failed
    ensures s.Op(x, Geq, y) == if Ordered(v, u) then Val(Bool(Precedes(u, v) || v == u)) else Failed
  {
    CompareMeans(v, u);
  }

  /** Values that can be told apart: of one kind among nil, bools, numbers and strings, or a stream
      and anything. */
  predicate Comparable(v: Value, u: Value) {
    || (v.Nil? && u.Nil?) || (v.Bool? && u.Bool?) || (v.Int? && u.Int?) || (v.Uint? && u.Uint?)
    || (v.Str? && u.Str?) || v.Stream?
  }

  lemma Equality(s: Scope, x: Expr, y: Expr, v: Value, u: Value)
    requires s.Of(x) == Val(v) && s.Of(y) == Val(u)
    ensures s.Op(x, Eql, y) == if Comparable(v, u) then Val(Bool(v == u)) else Failed
    ensures s.Op(x, Neq, y) == if Comparable(v, u) then Val(Bool(v != u)) else Failed
  {
  }

  // Logic.

  lemma Connectives(s: Scope, x: Expr, y: Expr, v: Value, u: Value)
    requires s.Of(x) == Val(v) && s.Of(y) == Val(u)
    ensures s.Op(x, LAnd, y) == if v.Bool? && u.Bool? then Val(Bool(v.b && u.b)) else Failed
    ensures s.Op(x, LOr, y) == if v.Bool? && u.Bool? then Val(Bool(v.b || u.b)) else Failed
    ensures s.Of(UnaryExpr(LogicalNot, x)) == if v.Bool? then Val(Bool(!v.b)) else Failed
  {
  }

  /** Only the branch that is chosen counts. */
  lemma Choices(s: Scope, c: Expr, x: Expr, y: Expr)
    ensures s.Of(c) == Val(Bool(true)) ==> s.Of(ConditionalExpr(c, x, y)) == s.Of(x)
    ensures s.Of(c) == Val(Bool(false)) ==> s.Of(ConditionalExpr(c, x, y)) == s.Of(y)
    ensures !s.Of(c).Val? ==> s.Of(ConditionalExpr(c, x, y)) == s.Of(c)
    ensures s.Of(c).Val? && !s.Of(c).v.Bool? ==> s.Of(ConditionalExpr(c, x, y)) == Failed
  {
  }

  /** `x ?? y` is `y` if `x` is nil or names a place where there is nothing, and `x` otherwise. */
  lemma Coalescings(s: Scope, x: Expr, y: Expr)
    ensures s.Op(x, Coalescing, y) ==
      if s.Of(x) == Val(Nil) || ((x.IdentExpr? || x.SelectorExpr? || x.IndexExpr?) && s.Of(x) == NotDefined)
      then s.Of(y) else s.Of(x)
    ensures s.Of(DefinedExpr(x)) ==
      if !(x.IdentExpr? || x.SelectorExpr? || x.IndexExpr?) then Failed
      else match s.Of(x)
        case Val(_) => Val(Bool(true))
        case NotDefined => Val(Bool(false))
        case o => o
  {
  }

  // Numbers.

  /** The number if it fits in 64 bits, a failure otherwise. */
  function ExactInt(n: int): Out {
    if -0x8000_0000_0000_0000 <= n <= 0x7FFF_FFFF_FFFF_FFFF then var m: Arithmetic.Int64 := n; Val(Int(m)) else Failed
  }

  function ExactUint(n: int): Out {
    if 0 <= n <= 0xFFFF_FFFF_FFFF_FFFF then var m: Arithmetic.Uint64 := n; Val(Uint(m)) else Failed
  }

  lemma IntSums(s: Scope, x: Expr, y: Expr, a: Arithmetic.Int64, b: Arithmetic.Int64)
    requires s.Of(x) == Val(Int(a)) && s.Of(y) == Val(Int(b))
    ensures s.Op(x, Add, y) == ExactInt(a + b) && s.Op(x, Sub, y) == ExactInt(a - b)
    ensures s.Op(x, Mul, y) == ExactInt(a * b) && s.Of(UnaryExpr(Neg, x)) == ExactInt(0 - a)
  {
    Arithmetic.AddExact(a, b);
    Arithmetic.SubExact(a, b);
    Arithmetic.MulExact(a, b);
    Arithmetic.NegExact(a);
  }

  /** A product of uints with a zero on the right fails. */
  lemma UintSums(s: Scope, x: Expr, y: Expr, a: Arithmetic.Uint64, b: Arithmetic.Uint64)
    requires s.Of(x) == Val(Uint(a)) && s.Of(y) == Val(Uint(b))
    ensures s.Op(x, Add, y) == ExactUint(a + b) && s.Op(x, Sub, y) == ExactUint(a - b)
    ensures s.Op(x, Mul, y) == if b == 0 then Failed else ExactUint(a * b)
  {
    Arithmetic.UintAddExact(a, b);
    Arithmetic.UintSubExact(a, b);
    Arithmetic.UintMulExact(a, b);
  }

  /** The quotient rounded towards zero and the remainder that goes with it. */
  predicate Divides(a: int, b: int, q: int, r: int) {
    && a == b * q + r
    && Arithmetic.Abs(r) < Arithmetic.Abs(b)
    && (r != 0 ==> (r < 0 <==> a < 0))
  }

  /** Division of ints; a divisor of zero fails, and the smallest int divided by -1 wraps around. */
  lemma IntQuotients(s: Scope, x: Expr, y: Expr, a: Arithmetic.Int64, b: Arithmetic.Int64)
    requires s.Of(x) == Val(Int(a)) && s.Of(y) == Val(Int(b))
    ensures b == 0 ==> s.Op(x, Quo, y) == Failed && s.Op(x, Rem, y) == Failed
    ensures b != 0 ==>
      var q, r := s.Op(x, Quo, y), s.Op(x, Rem, y);
      && q.Val? && q.v.Int? && r.Val? && r.v.Int?
      && if a == -0x8000_0000_0000_0000 && b == -1 then q.v.i == a && r.v.i == 0 else Divides(a, b, q.v.i, r.v.i)
  {
    if b != 0 {
      Arithmetic.DivExact(a, b);
      Arithmetic.ModExact(a, b);
      Arithmetic.QuotientRemainder(a, b);
      QuotientFits(a, b);
    }
  }

  lemma QuotientFits(a: Arithmetic.Int64, b: Arithmetic.Int64)
    requires b != 0
    ensures !(a == Arithmetic.MIN_INT64 && b == -1) ==> Arithmetic.Fits(Arithmetic.Quotient(a, b))
  {
    Arithmetic.QuotientSize(a, b);
    if Arithmetic.Abs(b) > 1 {
      Arithmetic.HalfOrLess(Arithmetic.Abs(a), Arithmetic.Abs(b));
    }
  }

  lemma UintQuotients(s: Scope, x: Expr, y: Expr, a: Arithmetic.Uint64, b: Arithmetic.Uint64)
    requires s.Of(x) == Val(Uint(a)) && s.Of(y) == Val(Uint(b))
    ensures b == 0 ==> s.Op(x, Quo, y) == Failed && s.Op(x, Rem, y) == Failed
    ensures b != 0 ==>
      var q, r := s.Op(x, Quo, y), s.Op(x, Rem, y);
      q.Val? && q.v.Uint? && r.Val? && r.v.Uint? && a == b * q.v.u + r.v.u && r.v.u < b
  {
  }

  /** Numbers of different kinds do not mix, and nothing but strings can be added beside numbers. */
  lemma NothingElse(s: Scope, x: Expr, y: Expr, op: BinOp, v: Value, u: Value)
    requires s.Of(x) == Val(v) && s.Of(y) == Val(u) && op in {Add, Sub, Mul, Quo, Rem}
    requires !(v.Int? && u.Int?) && !(v.Uint? && u.Uint?)
    ensures s.Op(x, op, y) == if op == Add && v.Str? && u.Str? then Val(Str(v.s + u.s)) else Failed
    ensures !v.Int? ==> s.Of(UnaryExpr(Neg, x)) == Failed
  {
  }

  // Texts.

  predicate HasText(v: Value) {
    v.Str? || v.Int? || v.Uint?
  }

  function Text(v: Value): string
    requires HasText(v)
  {
    if v.Str? then v.s else Decimal(if v.Int? then v.i else v.u)
  }

  /** Texts that stand side by side are joined, numbers by their decimal form. */
  lemma Joins(s: Scope, x: Expr, y: Expr, v: Value, u: Value)
    requires s.Of(x) == Val(v) && s.Of(y) == Val(u)
    ensures s.Op(x, Concat, y) == if HasText(v) && HasText(u) then Val(Str(Text(v) + Text(u))) else Failed
  {
  }

  /** A number reads back from its decimal form, after the sign that it has if it is below zero. */
  lemma DecimalForm(n: nat)
    ensures n > 0 ==> Decimal(0 - n) == "-" + Decimal(n)
    ensures IsDecimal(Decimal(n)) && DecimalValue(Decimal(n)) == n
  {
    DigitsValue(n);
  }

  /** Literals: strings stand for themselves, digits for their number where it fits in 64 bits. */
  lemma Literals(s: Scope, text: string)
    ensures s.Of(BasicLit(STRING, text)) == Val(Str(text)) && s.Of(BasicLit(NIL, text)) == Val(Nil)
    ensures s.Of(BasicLit(BOOL, "true")) == Val(Bool(true)) && s.Of(BasicLit(BOOL, "false")) == Val(Bool(false))
    ensures IsDecimal(text) ==> s.Of(BasicLit(INT, text)) == ExactInt(DecimalValue(text))
  {
  }

  lemma Brackets(s: Scope, quoted: bool, x: Expr, arg: Expr)
    ensures s.Of(ParenExpr(x)) == s.Of(x)
    ensures s.Of(ParameterExpr(quoted, x)) == if x.NoExpr? then Val(Str("")) else s.Of(x)
    ensures s.Of(LeftArrowExpr(x, arg)) ==
      match s.world.arrow(LeftArrowExpr(x, arg))
      case Returns(v) => Val(v)
      case Fails => Failed
  {
  }

  // Places in the data.

  lemma OneStep(w: World, v: Value, key: string)
    ensures Walk(w, v, [Key(key)]) ==
      if v.Object? && key in v.fields then Val(v.fields[key])
      else if v.Stream? && key == "messages" then Val(v)
      else NotDefined
  {
    assert [Key(key)][1..] == [];
  }

  lemma QueryOf(s: Scope, x: Expr)
    requires IsQuery(x)
    ensures var b := BuildPath(s.world, s.data, s.dollar, x);
      s.Of(x) == if b.Path? then Extract(s.world, s.data, s.dollar, b.path) else b.out
  {
    assert s.Of(x) == Query(s.world, s.data, s.dollar, x);
  }

  /** A name is a builtin function, the actual value, or a field of the data. */
  lemma Names(s: Scope, name: string)
    ensures s.Of(IdentExpr(name)) ==
      if name in s.world.builtins then Val(Function(name))
      else if name == "$" then (if s.dollar.Some? then Val(s.dollar.value) else Suspended)
      else if s.data.Object? && name in s.data.fields then Val(s.data.fields[name])
      else if s.data.Stream? && name == "messages" then Val(s.data)
      else NotDefined
  {
    assert [Key(name)][1..] == [];
    QueryOf(s, IdentExpr(name));
    OneStep(s.world, s.data, name);
  }

  lemma {:induction false} WalkOn(w: World, v: Value, path: seq<Segment>, more: seq<Segment>)
    ensures Walk(w, v, path + more) == var o := Walk(w, v, path); if o.Val? then Walk(w, o.v, more) else o
    decreases |path|
  {
    if path == [] {
      assert path + more == more;
    } else {
      assert (path + more)[1..] == path[1..] + more && (path + more)[0] == path[0];
      if path[0].Key? {
        if v.Stream? && path[0].key == "messages" {
          WalkOn(w, v, path[1..], more);
        } else if v.Object? && path[0].key in v.fields {
          WalkOn(w, v.fields[path[0].key], path[1..], more);
        }
      } else {
        WalkOnAt(w, v, path, more);
      }
    }
  }

  lemma {:induction false} WalkOnAt(w: World, v: Value, path: seq<Segment>, more: seq<Segment>)
    requires path != [] && path[0].At?
    ensures Walk(w, v, path + more) == var o := Walk(w, v, path); if o.Val? then Walk(w, o.v, more) else o
    decreases |path|, 0
  {
    assert (path + more)[1..] == path[1..] + more && (path + more)[0] == path[0];
    var i := path[0].index;
    if v.List? && 0 <= i < |v.items| {
      WalkOn(w, v.items[i], path[1..], more);
    } else if v.Stream? && w.item(v.id, i).Message? {
      WalkOn(w, w.item(v.id, i).v, path[1..], more);
    }
  }

  /** An expression that names a place other than a builtin function. */
  predicate Place(s: Scope, x: Expr) {
    (x.IdentExpr? && x.name !in s.world.builtins) || x.SelectorExpr? || x.IndexExpr?
  }

  /** What lies one step below a place. */
  lemma Below(s: Scope, x: Expr, e: Expr, path: seq<Segment>, step: Segment)
    requires Place(s, x) && IsQuery(e)
    requires BuildPath(s.world, s.data, s.dollar, x) == Path(path)
    requires BuildPath(s.world, s.data, s.dollar, e) == Path(path + [step])
    ensures s.Of(x).Val? ==> s.Of(e) == Walk(s.world, s.Of(x).v, [step])
    ensures !s.Of(x).Val? ==> s.Of(e) == s.Of(x)
  {
    PathBegins(s, x);
    assert (path + [step])[0] == path[0];
    QueryOf(s, x);
    QueryOf(s, e);
    if path[0].key == "$" {
      assert (path + [step])[1..] == path[1..] + [step];
      if s.dollar.Some? {
        WalkOn(s.world, s.dollar.value, path[1..], [step]);
      }
    } else {
      WalkOn(s.world, s.data, path, [step]);
    }
  }

  lemma {:induction false} PathBegins(s: Scope, x: Expr)
    requires Place(s, x) && BuildPath(s.world, s.data, s.dollar, x).Path?
    ensures var path := BuildPath(s.world, s.data, s.dollar, x).path;
      path != [] && path[0].Key? && (|path| == 1 ==> x.IdentExpr? && path[0].key !in s.world.builtins)
    decreases x
  {
    if !x.IdentExpr? {
      assert BuildPath(s.world, s.data, s.dollar, x.x).Path?;
      PathBeginsBelow(s, x.x);
    }
  }

  lemma {:induction false} PathBeginsBelow(s: Scope, x: Expr)
    requires BuildPath(s.world, s.data, s.dollar, x).Path?
    ensures BuildPath(s.world, s.data, s.dollar, x).path != [] && BuildPath(s.world, s.data, s.dollar, x).path[0].Key?
    decreases x
  {
    if !x.IdentExpr? {
      PathBeginsBelow(s, x.x);
    }
  }

  lemma {:induction false} StoppedWithout(s: Scope, x: Expr)
    requires s.Of(x).Val? && IsQuery(x)
    ensures BuildPath(s.world, s.data, s.dollar, x).Path?
  {
    QueryOf(s, x);
    NoValueStops(s, x);
  }

  lemma {:induction false} NoValueStops(s: Scope, x: Expr)
    ensures var b := BuildPath(s.world, s.data, s.dollar, x); b.Stop? ==> !b.out.Val?
    decreases x
  {
    if x.SelectorExpr? || x.IndexExpr? {
      NoValueStops(s, x.x);
    }
  }

  /** A selector takes the field of that name; the messages of a stream are the stream. */
  lemma Selectors(s: Scope, x: Expr, v: Value, name: string)
    requires Place(s, x) && s.Of(x) == Val(v)
    ensures s.Of(SelectorExpr(x, name)) ==
      if v.Object? && name in v.fields then Val(v.fields[name])
      else if v.Stream? && name == "messages" then Val(v)
      else NotDefined
  {
    StoppedWithout(s, x);
    Below(s, x, SelectorExpr(x, name), BuildPath(s.world, s.data, s.dollar, x).path, Key(name));
    OneStep(s.world, v, name);
  }

  /** An index takes the element at that place, counted from zero, or the message that a stream has for it. */
  lemma Indexes(s: Scope, x: Expr, v: Value, index: Expr, i: Arithmetic.Int64)
    requires Place(s, x) && s.Of(x) == Val(v)
    requires s.Of(index) == Val(Int(i)) || (i >= 0 && s.Of(index) == Val(Uint(i)))
    ensures s.Of(IndexExpr(x, index)) ==
      if v.List? then (if 0 <= i < |v.items| then Val(v.items[i]) else NotDefined)
      else if v.Stream? then
        (match s.world.item(v.id, i)
         case Message(m) => Val(m)
         case NoMessage => NotDefined
         case Broken => Failed)
      else NotDefined
  {
    StoppedWithout(s, x);
    Below(s, x, IndexExpr(x, index), BuildPath(s.world, s.data, s.dollar, x).path, At(i));
    assert [At(i)][1..] == [];
  }

  /** An index that is a string is a selector. */
  lemma StringIndexes(s: Scope, x: Expr, index: Expr, name: string)
    requires Place(s, x) && s.Of(x).Val? && s.Of(index) == Val(Str(name))
    ensures s.Of(IndexExpr(x, index)) == s.Of(SelectorExpr(x, name))
  {
    StoppedWithout(s, x);
    var path := BuildPath(s.world, s.data, s.dollar, x).path;
    Below(s, x, IndexExpr(x, index), path, Key(name));
    Below(s, x, SelectorExpr(x, name), path, Key(name));
  }

  // Calls.

  /** The arguments, in source order, evaluate to these values. */
  predicate Arguments(s: Scope, args: seq<Expr>, values: seq<Value>) {
    |args| == |values| && forall i | 0 <= i < |args| :: s.Of(args[i]) == Val(values[i])
  }

  lemma {:induction false} ApplyMeans(s: Scope, target: Target, args: seq<Expr>, values: seq<Value>)
    requires target.Target? && Arguments(s, args, values)
    ensures Apply(s.world, s.data, s.dollar, target, args) ==
      Returned(s.world.call(target.name, target.receiver + values))
    decreases |args|
  {
    if args == [] {
      assert target.receiver + values == target.receiver;
    } else {
      ApplyMeans(s, target.(receiver := target.receiver + [values[0]]), args[1..], values[1..]);
      assert target.receiver + [values[0]] + values[1..] == target.receiver + values;
    }
  }

  /** A function gets the values of its arguments in the order in which they are written. */
  lemma FunctionCalls(s: Scope, fun: Expr, args: seq<Expr>, values: seq<Value>, name: string)
    requires !fun.SelectorExpr? && s.Of(fun) == Val(Function(name)) && Arguments(s, args, values)
    ensures s.Of(CallExpr(fun, args)) ==
      match s.world.call(name, values)
      case Returns(v) => Val(v)
      case Fails => Failed
  {
    ApplyMeans(s, Target(name, []), args, values);
    assert [] + values == values;
  }

  /** A function in a field is called as such; otherwise a method of that name, with the value it
      belongs to in front of the arguments. */
  lemma MemberCalls(s: Scope, x: Expr, v: Value, sel: string, args: seq<Expr>, values: seq<Value>)
    requires s.Of(x) == Val(v) && sel !in s.world.builtins && Arguments(s, args, values)
    ensures v.Object? && sel in v.fields && v.fields[sel].Function? ==>
      s.Of(CallExpr(SelectorExpr(x, sel), args)) == Returned(s.world.call(v.fields[sel].name, values))
    ensures !v.Nil? && !(v.Object? && sel in v.fields) && !(v.Stream? && sel == "messages") ==>
      s.Of(CallExpr(SelectorExpr(x, sel), args)) ==
      match s.world.methodOf(v, sel)
      case Some(found) => Returned(s.world.call(found, [v] + values))
      case None => NotDefined
  {
    OneStep(s.world, v, sel);
    var target := Member(s.world, v, sel);
    assert s.Of(CallExpr(SelectorExpr(x, sel), args)) == Apply(s.world, s.data, s.dollar, target, args);
    if target.Target? {
      ApplyMeans(s, target, args, values);
      assert [] + values == values;
    }
  }

  /** The first argument that has no value is what the call comes to. */
  lemma {:induction false} FirstArgumentFails(s: Scope, target: Target, args: seq<Expr>, k: nat)
    requires target.Target? && k < |args| && !s.Of(args[k]).Val? && forall i | 0 <= i < k :: s.Of(args[i]).Val?
    ensures Apply(s.world, s.data, s.dollar, target, args) == s.Of(args[k])
    decreases k
  {
    if k > 0 {
      FirstArgumentFails(s, target.(receiver := target.receiver + [s.Of(args[0]).v]), args[1..], k - 1);
    }
  }

  lemma FailingCalls(s: Scope, fun: Expr, args: seq<Expr>, name: string, k: nat)
    requires !fun.SelectorExpr? && s.Of(fun) == Val(Function(name))
    requires k < |args| && !s.Of(args[k]).Val? && forall i | 0 <= i < k :: s.Of(args[i]).Val?
    ensures s.Of(CallExpr(fun, args)) == s.Of(args[k])
  {
    FirstArgumentFails(s, Target(name, []), args, k);
  }
}
