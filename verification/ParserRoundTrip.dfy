/** Parsing and listing are inverse.

    Forward: a tree that respects the precedence table is read back, exactly, from its own
    token listing, and the parser stops at the first token that cannot extend the tree.
    Backward: an error-free parse of any token list yields a tree whose listing is exactly
    the tokens consumed. */
module ParserRoundTrip {
  import opened Tokens
  import opened Ast
  import opened ParserSpec

  /** Identifiers followed by selectors, indexes and calls. */
  predicate IsChain(e: Expr) {
    e.IdentExpr? || e.SelectorExpr? || e.IndexExpr? || e.CallExpr?
  }

  function OpLevel(op: BinOp): nat {
    if op == Concat then 5 else OpPrecedence(op)
  }

  /** Whether the leftmost token is a string or an opening double brace. */
  predicate StartsLikeConcat(e: Expr) {
    match e
    case BasicLit(kind, _) => kind == STRING
    case ParameterExpr(_, _) => true
    case BinaryExpr(_, x, _) => StartsLikeConcat(x)
    case _ => false
  }

  /** How tightly the root of a tree binds, provided the tree respects the precedence table
      throughout; 0 when it does not. Left operands are at least as tight as the operator,
      right operands strictly tighter, conditionals nest to the right, concatenated operands
      begin with a string or a parameter, and there are no left-arrow nodes. Brackets and
      arguments may be left empty. */
  function Tightness(e: Expr): nat {
    match e
    case NoExpr => 0
    case BasicLit(_, _) => HIGHEST_PREC
    case ParameterExpr(_, x) => if x.NoExpr? || Tightness(x) > 0 then HIGHEST_PREC else 0
    case ParenExpr(x) => if x.NoExpr? || Tightness(x) > 0 then HIGHEST_PREC else 0
    case UnaryExpr(_, x) => if Tightness(x) == HIGHEST_PREC then HIGHEST_PREC else 0
    case BinaryExpr(op, x, y) =>
      if && Tightness(x) >= OpLevel(op)
         && Tightness(y) > OpLevel(op)
         && (op == Concat ==> StartsLikeConcat(y))
      then OpLevel(op) else 0
    case ConditionalExpr(c, x, y) =>
      if Tightness(c) > 1 && Tightness(x) > 0 && Tightness(y) > 0 then 1 else 0
    case IdentExpr(_) => HIGHEST_PREC
    case SelectorExpr(x, _) => if IsChain(x) && Tightness(x) > 0 then HIGHEST_PREC else 0
    case IndexExpr(x, index) =>
      if IsChain(x) && Tightness(x) > 0 && (index.NoExpr? || Tightness(index) > 0)
      then HIGHEST_PREC else 0
    case CallExpr(fun, args) =>
      if && IsChain(fun) && Tightness(fun) > 0
         && args != [NoExpr]
         && forall a <- args :: a.NoExpr? || Tightness(a) > 0
      then HIGHEST_PREC else 0
    case LeftArrowExpr(_, _) => 0
    case DefinedExpr(arg) => if arg.NoExpr? || Tightness(arg) > 0 then HIGHEST_PREC else 0
  }

  predicate Canonical(e: Expr) {
    Tightness(e) > 0
  }

  /** Whether `t` cannot extend an operand read at precedence `prec`. */
  predicate Stops(prec: nat, t: Token) {
    t.LineBreak? || Precedence(t) < prec || t.Colon?
  }

  /** The precedence at which the last operand of the root was read. */
  function EdgeLevel(e: Expr): nat {
    match e
    case BinaryExpr(op, _, _) => OpLevel(op) + 1
    case ConditionalExpr(_, _, _) => 1
    case _ => HIGHEST_PREC + 1
  }

  /** Whether the tree ends in an identifier, selector, index or call. */
  predicate EndsInChain(e: Expr) {
    match e
    case UnaryExpr(_, x) => EndsInChain(x)
    case BinaryExpr(_, _, y) => EndsInChain(y)
    case ConditionalExpr(_, _, y) => EndsInChain(y)
    case _ => IsChain(e)
  }

  /** Whether the right edge of a canonical tree does not absorb `t`. */
  predicate Detached(e: Expr, t: Token) {
    Stops(EdgeLevel(e), t) && (EndsInChain(e) ==> !ContinuesChain(t))
  }

  // ----- regrouping concatenations

  lemma Glue3(a: seq<Token>, b: seq<Token>, c: seq<Token>)
    ensures a + (b + c) == a + b + c
  {
  }

  lemma GluePair(s: Token, t: Token, a: seq<Token>)
    ensures [s] + ([t] + a) == [s, t] + a
  {
  }

  lemma Glue4(a: seq<Token>, b: seq<Token>, c: seq<Token>, d: seq<Token>)
    ensures a + (b + (c + d)) == a + b + c + d
  {
    Glue3(b, c, d);
    Glue3(a, b + c, d);
    Glue3(a, b, c);
  }

  lemma Glue5(a: seq<Token>, b: seq<Token>, c: seq<Token>, d: seq<Token>, e: seq<Token>)
    ensures a + (b + (c + (d + e))) == a + b + c + d + e
  {
    Glue3(c, d, e);
    Glue4(a, b, c + d, e);
    Glue3(a + b, c, d);
  }

  lemma Glue6(a: seq<Token>, b: seq<Token>, c: seq<Token>, d: seq<Token>, e: seq<Token>, f: seq<Token>)
    ensures a + (b + (c + (d + (e + f)))) == a + b + c + d + e + f
  {
    Glue3(d, e, f);
    Glue5(a, b, c, d + e, f);
    Glue3(a + b + c, d, e);
  }

  // ----- from trees to tokens and back

  /** A canonical tree lists at least one token, and the first one begins an operand. */
  lemma {:induction false} FirstToken(e: Expr)
    requires Canonical(e)
    ensures Listing(e) != [] && StartsUnary(Listing(e)[0])
    ensures StartsLikeConcat(e) ==> StartsConcat(Listing(e)[0])
  {
    if e.BinaryExpr? {
      FirstToken(e.x);
      HeadOf(Listing(e.x), OpListing(e.op), Listing(e.y));
    } else if e.SelectorExpr? {
      FirstToken(e.x);
      HeadOf(Listing(e.x), [Period, Ident(e.sel)], []);
    } else if e.IndexExpr? {
      FirstToken(e.x);
      HeadOf(Listing(e.x), [LBrack], Listing(e.index));
    } else if e.ConditionalExpr? {
      FirstToken(e.cond);
      HeadOf(Listing(e.cond), [Question], Listing(e.x));
    } else if e.CallExpr? {
      FirstToken(e.fun);
      HeadOf(Listing(e.fun), [LParen], ArgsListing(e.args));
    }
  }

  lemma HeadOf(a: seq<Token>, b: seq<Token>, c: seq<Token>)
    requires a != []
    ensures (a + b)[0] == (a + b + c)[0] == a[0]
  {
  }

  /** The rest of the tokens, after `t`. */
  function After(t: Token, ts: seq<Token>, errs: seq<ParseError>): (s: Stream)
    ensures s.Head() == t && s.Next() == Stream(ts, errs)
    ensures forall want | Matches(t, want) :: s.Expect(want) == Stream(ts, errs)
  {
    var s := Stream([t] + ts, errs);
    assert s.ts[1..] == ts;
    s
  }

  lemma StopsHere(prec: nat, x: Expr, s: Stream)
    requires 1 <= prec && Stops(prec, s.Head())
    ensures ParseOperators(prec, x, s) == Parsed(x, s)
  {
  }

  /** One round of the operator loop. */
  lemma Round(prec: nat, x: Expr, s: Stream)
    requires 1 <= prec <= Precedence(s.Head()) && Extends(s.Head()) && !s.Head().LArrow?
    ensures ParseOperators(prec, x, s) == ParseOperators(prec, Extend(x, s).x, Extend(x, s).s)
  {
  }

  /** Reading the expression of a bracket or an argument, which may be missing. */
  lemma {:induction false} ReadExpr(e: Expr, rest: Stream)
    requires e.NoExpr? || Canonical(e)
    requires Stops(1, rest.Head()) && !ContinuesChain(rest.Head())
    requires e.NoExpr? ==> !StartsUnary(rest.Head())
    ensures ParseExpr(rest.(ts := Listing(e) + rest.ts)) == Parsed(e, rest)
    decreases e, 5
  {
    StopsHere(1, e, rest);
    if e.NoExpr? {
      assert Listing(e) + rest.ts == rest.ts;
      assert ParseUnary(rest) == Parsed(e, rest);
    } else {
      ReadBinary(e, 1, rest);
    }
  }

  /** The heart of the forward direction: reading a canonical tree leaves the operator loop
      holding exactly that tree, whatever follows that its right edge does not absorb. */
  lemma {:induction false} ReadBinary(e: Expr, prec: nat, rest: Stream)
    requires 1 <= prec <= Tightness(e)
    requires Detached(e, rest.Head())
    ensures ParseBinary(prec, rest.(ts := Listing(e) + rest.ts)) == ParseOperators(prec, e, rest)
    decreases e, 4
  {
    if e.BinaryExpr? {
      ReadOperation(e, prec, rest);
    } else if e.ConditionalExpr? {
      ReadConditional(e, rest);
    } else {
      ReadUnary(e, rest);
    }
  }

  lemma {:induction false} ReadOperation(e: Expr, prec: nat, rest: Stream)
    requires e.BinaryExpr?
    requires 1 <= prec <= Tightness(e)
    requires Detached(e, rest.Head())
    ensures ParseBinary(prec, rest.(ts := Listing(e) + rest.ts)) == ParseOperators(prec, e, rest)
    decreases e, 3
  {
    StopsHere(OpLevel(e.op) + 1, e.y, rest);
    ReadBinary(e.y, OpLevel(e.op) + 1, rest);
    ReadBinary(e.x, prec, OperatorTail(e, rest));
    OperatorRound(e, prec, rest);
  }

  /** The round of the loop that reads the operator and its right operand. */
  lemma OperatorRound(e: Expr, prec: nat, rest: Stream)
    requires e.BinaryExpr? && 1 <= prec <= Tightness(e)
    requires ParseBinary(OpLevel(e.op) + 1, rest.(ts := Listing(e.y) + rest.ts)) == Parsed(e.y, rest)
    ensures ParseOperators(prec, e.x, OperatorTail(e, rest)) == ParseOperators(prec, e, rest)
  {
    ExtendsToWhole(e, rest);
    Round(prec, e.x, OperatorTail(e, rest));
  }

  lemma ExtendsToWhole(e: Expr, rest: Stream)
    requires e.BinaryExpr? && 1 <= Tightness(e)
    ensures var tail, y := OperatorTail(e, rest), ParseBinary(OpLevel(e.op) + 1, rest.(ts := Listing(e.y) + rest.ts));
      && Extends(tail.Head()) && !tail.Head().LArrow? && Precedence(tail.Head()) == OpLevel(e.op)
      && Extend(e.x, tail) == Parsed(BinaryExpr(e.op, e.x, y.x), y.s)
  {
    ExtendsFrom(e.op, e.x, OperatorTail(e, rest), rest.(ts := Listing(e.y) + rest.ts));
  }

  /** At an operator, or at the operand of a concatenation, `y` being what follows the operator. */
  lemma ExtendsFrom(op: BinOp, x: Expr, tail: Stream, y: Stream)
    requires if op == Concat then tail == y && StartsConcat(tail.Head()) else tail.Head() == Op(op) && tail.Next() == y
    ensures Extends(tail.Head()) && !tail.Head().LArrow? && Precedence(tail.Head()) == OpLevel(op)
    ensures var right := ParseBinary(OpLevel(op) + 1, y);
      Extend(x, tail) == Parsed(BinaryExpr(op, x, right.x), right.s)
  {
  }

  /** What follows the left operand; a concatenation has no operator of its own. */
  function OperatorTail(e: Expr, rest: Stream): (tail: Stream)
    requires e.BinaryExpr? && Tightness(e) >= 1
    ensures tail.errs == rest.errs && Listing(e.x) + tail.ts == Listing(e) + rest.ts
    ensures if e.op == Concat then tail.ts == Listing(e.y) + rest.ts && StartsConcat(tail.Head())
            else tail.Head() == Op(e.op) && tail.Next() == rest.(ts := Listing(e.y) + rest.ts)
  {
    if e.op == Concat then
      FirstToken(e.y);
      HeadOf(Listing(e.y), rest.ts, []);
      assert Listing(e.x) + [] == Listing(e.x);
      Glue3(Listing(e.x), Listing(e.y), rest.ts);
      rest.(ts := Listing(e.y) + rest.ts)
    else
      Glue4(Listing(e.x), [Op(e.op)], Listing(e.y), rest.ts);
      After(Op(e.op), Listing(e.y) + rest.ts, rest.errs)
  }

  lemma {:induction false} ReadConditional(e: Expr, rest: Stream)
    requires e.ConditionalExpr? && Canonical(e)
    requires Detached(e, rest.Head())
    ensures ParseBinary(1, rest.(ts := Listing(e) + rest.ts)) == ParseOperators(1, e, rest)
    decreases e, 3
  {
    var tail := After(Question, Listing(e.x) + ([Colon] + (Listing(e.y) + rest.ts)), rest.errs);
    ReadBranches(e, rest);
    ReadBinary(e.cond, 1, tail);
    Round(1, e.cond, tail);
    Glue6(Listing(e.cond), [Question], Listing(e.x), [Colon], Listing(e.y), rest.ts);
  }

  /** The branches of a conditional, from the question mark on. */
  lemma {:induction false} ReadBranches(e: Expr, rest: Stream)
    requires e.ConditionalExpr? && Canonical(e)
    requires Detached(e, rest.Head())
    ensures Extend(e.cond, rest.(ts := [Question] + (Listing(e.x) + ([Colon] + (Listing(e.y) + rest.ts)))))
      == Parsed(e, rest)
    decreases e, 2
  {
    StopsHere(1, e.y, rest);
    ReadBinary(e.y, 1, rest);
    var colon := After(Colon, Listing(e.y) + rest.ts, rest.errs);
    ReadExpr(e.x, colon);
    var tail := After(Question, Listing(e.x) + colon.ts, rest.errs);
  }

  lemma {:induction false} ReadUnary(e: Expr, rest: Stream)
    requires Tightness(e) == HIGHEST_PREC
    requires Detached(e, rest.Head())
    ensures ParseUnary(rest.(ts := Listing(e) + rest.ts)) == Parsed(e, rest)
    decreases e, 3
  {
    if e.BasicLit? {
      var _ := After(Lit(e.kind, e.text), rest.ts, rest.errs);
    } else if e.ParameterExpr? || e.ParenExpr? {
      ReadEnclosed(e, rest);
    } else if e.UnaryExpr? {
      ReadPrefixed(e, rest);
    } else if e.DefinedExpr? {
      ReadDefined(e, rest);
    } else {
      ReadChain(e, rest);
    }
  }

  lemma {:induction false} ReadEnclosed(e: Expr, rest: Stream)
    requires (e.ParameterExpr? || e.ParenExpr?) && Canonical(e)
    ensures ParseUnary(rest.(ts := Listing(e) + rest.ts)) == Parsed(e, rest)
    decreases e, 2
  {
    if e.ParameterExpr? {
      ReadDelimited(e.x, LDBrace(e.quoted), RDBrace, rest);
    } else {
      ReadDelimited(e.x, LParen, RParen, rest);
    }
  }

  lemma {:induction false} ReadPrefixed(e: Expr, rest: Stream)
    requires e.UnaryExpr? && Canonical(e) && Detached(e, rest.Head())
    ensures ParseUnary(rest.(ts := Listing(e) + rest.ts)) == Parsed(e, rest)
    decreases e, 2
  {
    PrefixFirst(e, rest);
    ReadUnary(e.x, rest);
  }

  lemma PrefixFirst(e: Expr, rest: Stream)
    requires e.UnaryExpr?
    ensures var x := ParseUnary(rest.(ts := Listing(e.x) + rest.ts));
      ParseUnary(rest.(ts := Listing(e) + rest.ts)) == Parsed(UnaryExpr(e.uop, x.x), x.s)
  {
    var _ := After(UnaryToken(e.uop), Listing(e.x) + rest.ts, rest.errs);
    Glue3([UnaryToken(e.uop)], Listing(e.x), rest.ts);
  }

  lemma GlueDefined(a: seq<Token>, rest: seq<Token>)
    ensures [Defined, LParen] + a + [RParen] + rest == [Defined] + ([LParen] + a + [RParen] + rest)
  {
  }

  lemma {:induction false} ReadDefined(e: Expr, rest: Stream)
    requires e.DefinedExpr? && Canonical(e)
    ensures ParseUnary(rest.(ts := Listing(e) + rest.ts)) == Parsed(e, rest)
    decreases e, 2
  {
    var inner := [LParen] + Listing(e.arg) + [RParen] + rest.ts;
    ReadDelimited(e.arg, LParen, RParen, rest);
    var _ := After(Defined, inner, rest.errs);
    GlueDefined(Listing(e.arg), rest.ts);
  }

  /** An expression between an opening and a closing token. */
  lemma {:induction false} ReadDelimited(x: Expr, open: Token, close: Token, rest: Stream)
    requires x.NoExpr? || Canonical(x)
    requires close.RDBrace? || close.RParen? || close.RBrack?
    ensures var s := rest.(ts := [open] + Listing(x) + [close] + rest.ts);
      && s.Head() == open
      && s.Next() == s.Expect(open)
      && ParseExpr(s.Next()).x == x
      && ParseExpr(s.Next()).s.Expect(close) == rest
    decreases x, 6
  {
    var end := After(close, rest.ts, rest.errs);
    var _ := After(open, Listing(x) + end.ts, rest.errs);
    Glue4([open], Listing(x), [close], rest.ts);
    ReadExpr(x, end);
  }

  lemma {:induction false} ReadChain(e: Expr, rest: Stream)
    requires Canonical(e) && IsChain(e)
    ensures ParseUnary(rest.(ts := Listing(e) + rest.ts)) == ParseChain(e, rest)
    decreases e, 2
  {
    if e.IdentExpr? {
      var _ := After(Ident(e.name), rest.ts, rest.errs);
    } else if e.SelectorExpr? {
      var sel := After(Ident(e.sel), rest.ts, rest.errs);
      var tail := After(Period, sel.ts, rest.errs);
      assert Listing(e) == Listing(e.x) + [Period] + [Ident(e.sel)];
      Glue4(Listing(e.x), [Period], [Ident(e.sel)], rest.ts);
      ReadChain(e.x, tail);
    } else if e.IndexExpr? {
      var link := [LBrack] + Listing(e.index) + [RBrack];
      ReadDelimited(e.index, LBrack, RBrack, rest);
      Glue4(Listing(e.x), [LBrack], Listing(e.index), [RBrack]);
      Glue3([LBrack], Listing(e.index), [RBrack]);
      Glue3(Listing(e.x), link, rest.ts);
      ReadChain(e.x, rest.(ts := link + rest.ts));
    } else {
      ReadCall(e, rest);
    }
  }

  lemma {:induction false} ReadCall(e: Expr, rest: Stream)
    requires Canonical(e) && e.CallExpr?
    ensures ParseUnary(rest.(ts := Listing(e) + rest.ts)) == ParseChain(e, rest)
    decreases e, 1
  {
    var close := After(RParen, rest.ts, rest.errs);
    var tail := After(LParen, ArgsListing(e.args) + close.ts, rest.errs);
    Glue5(Listing(e.fun), [LParen], ArgsListing(e.args), [RParen], rest.ts);
    ReadChain(e.fun, tail);
    ReadArgs(e.args, close);
    CallExtends(e.fun, e.args, tail, close);
  }

  lemma CallExtends(fun: Expr, args: seq<Expr>, s: Stream, close: Stream)
    requires s.Head().LParen? && ParseArgs(s.Next()) == Parsed(args, close)
    ensures ParseChain(fun, s) == ParseChain(CallExpr(fun, args), close.Expect(RParen))
  {
  }

  lemma {:induction false} ReadArgs(args: seq<Expr>, close: Stream)
    requires args != [NoExpr] && close.Head() == RParen
    requires forall a <- args :: a.NoExpr? || Canonical(a)
    ensures ParseArgs(close.(ts := ArgsListing(args) + close.ts)) == Parsed(args, close)
    decreases args, 1
  {
    if args == [] {
      assert ArgsListing(args) + close.ts == close.ts;
    } else {
      Glue3(Listing(args[0]), MoreArgsListing(args[1..]), close.ts);
      FirstArgHead(args, close);
      ReadOneArg(args[0], args[1..], close);
      ReadMoreArgs([args[0]], args[1..], close);
      assert [args[0]] + args[1..] == args;
    }
  }

  /** A nonempty argument list does not look like an empty one. */
  lemma FirstArgHead(args: seq<Expr>, close: Stream)
    requires args != [] && args != [NoExpr] && close.Head() == RParen
    requires args[0].NoExpr? || Canonical(args[0])
    ensures close.(ts := ArgsListing(args) + close.ts).Head() != RParen
  {
    if !args[0].NoExpr? {
      FirstToken(args[0]);
    }
  }

  lemma MoreArgsHead(args: seq<Expr>, close: Stream)
    requires close.Head() == RParen
    ensures close.(ts := MoreArgsListing(args) + close.ts).Head() == if args == [] then RParen else Comma
  {
    if args == [] {
      assert MoreArgsListing(args) + close.ts == close.ts;
    }
  }

  lemma {:induction false} ReadMoreArgs(before: seq<Expr>, args: seq<Expr>, close: Stream)
    requires close.Head() == RParen
    requires forall a <- args :: a.NoExpr? || Canonical(a)
    ensures ParseMoreArgs(before, close.(ts := MoreArgsListing(args) + close.ts)) == Parsed(before + args, close)
    decreases args, 0
  {
    if args == [] {
      assert MoreArgsListing(args) + close.ts == close.ts;
      assert before + args == before;
    } else {
      var tail := close.(ts := MoreArgsListing(args[1..]) + close.ts);
      var _ := After(Comma, Listing(args[0]) + tail.ts, close.errs);
      Glue4([Comma], Listing(args[0]), MoreArgsListing(args[1..]), close.ts);
      ReadOneArg(args[0], args[1..], close);
      ReadMoreArgs(before + [args[0]], args[1..], close);
      GlueArgs(before, args);
    }
  }

  lemma GlueArgs(before: seq<Expr>, args: seq<Expr>)
    requires args != []
    ensures before + [args[0]] + args[1..] == before + args
  {
  }

  lemma {:induction false} ReadOneArg(a: Expr, args: seq<Expr>, close: Stream)
    requires close.Head() == RParen
    requires a.NoExpr? || Canonical(a)
    ensures var tail := close.(ts := MoreArgsListing(args) + close.ts);
      ParseExpr(tail.(ts := Listing(a) + tail.ts)) == Parsed(a, tail)
    decreases a, 6
  {
    MoreArgsHead(args, close);
    ReadExpr(a, close.(ts := MoreArgsListing(args) + close.ts));
  }

  /** Forward direction: parsing the listing of a canonical tree, followed by any token that
      cannot extend it, returns that tree, adds no error, and stops at that token. */
  lemma {:induction false} ParseOfListing(e: Expr, prec: nat, rest: Stream)
    requires 1 <= prec <= Tightness(e)
    requires Detached(e, rest.Head()) && Stops(prec, rest.Head())
    ensures ParseBinary(prec, rest.(ts := Listing(e) + rest.ts)) == Parsed(e, rest)
  {
    ReadBinary(e, prec, rest);
    StopsHere(prec, e, rest);
  }

  /** The stopping condition is the right one: a token that violates it is consumed, by the right edge
      of the tree or by the loop that has read it. */
  lemma {:induction false} ParseGoesOn(e: Expr, prec: nat, rest: Stream)
    requires 1 <= prec <= Tightness(e)
    requires !(Detached(e, rest.Head()) && Stops(prec, rest.Head()))
    ensures |ParseBinary(prec, rest.(ts := Listing(e) + rest.ts)).s.ts| < |rest.ts|
    decreases e, 2
  {
    if Detached(e, rest.Head()) {
      ReadBinary(e, prec, rest);
      OperatorsGoOn(prec, e, rest);
    } else if e.BinaryExpr? {
      OperationGoesOn(e, prec, rest);
    } else if e.ConditionalExpr? {
      ConditionalGoesOn(e, rest);
    } else {
      ChainGoesOn(e, rest);
    }
  }

  lemma {:induction false} OperationGoesOn(e: Expr, prec: nat, rest: Stream)
    requires e.BinaryExpr? && 1 <= prec <= Tightness(e) && !Detached(e, rest.Head())
    ensures |ParseBinary(prec, rest.(ts := Listing(e) + rest.ts)).s.ts| < |rest.ts|
    decreases e, 1
  {
    var tail := OperatorTail(e, rest);
    ParseGoesOn(e.y, OpLevel(e.op) + 1, rest);
    ReadBinary(e.x, prec, tail);
    ExtendsToWhole(e, rest);
    Round(prec, e.x, tail);
  }

  lemma {:induction false} ConditionalGoesOn(e: Expr, rest: Stream)
    requires e.ConditionalExpr? && Canonical(e) && !Detached(e, rest.Head())
    ensures |ParseBinary(1, rest.(ts := Listing(e) + rest.ts)).s.ts| < |rest.ts|
    decreases e, 1
  {
    var tail := After(Question, Listing(e.x) + ([Colon] + (Listing(e.y) + rest.ts)), rest.errs);
    BranchesGoOn(e, rest);
    ReadBinary(e.cond, 1, tail);
    Round(1, e.cond, tail);
    Glue6(Listing(e.cond), [Question], Listing(e.x), [Colon], Listing(e.y), rest.ts);
  }

  lemma {:induction false} BranchesGoOn(e: Expr, rest: Stream)
    requires e.ConditionalExpr? && Canonical(e) && !Detached(e, rest.Head())
    ensures var tail := rest.(ts := [Question] + (Listing(e.x) + ([Colon] + (Listing(e.y) + rest.ts))));
      |Extend(e.cond, tail).s.ts| < |rest.ts|
    decreases e, 0
  {
    ParseGoesOn(e.y, 1, rest);
    var colon := After(Colon, Listing(e.y) + rest.ts, rest.errs);
    ReadExpr(e.x, colon);
    var tail := After(Question, Listing(e.x) + colon.ts, rest.errs);
  }

  lemma {:induction false} ChainGoesOn(e: Expr, rest: Stream)
    requires Tightness(e) == HIGHEST_PREC && EndsInChain(e) && ContinuesChain(rest.Head())
    ensures |ParseUnary(rest.(ts := Listing(e) + rest.ts)).s.ts| < |rest.ts|
    decreases e
  {
    if e.UnaryExpr? {
      PrefixFirst(e, rest);
      ChainGoesOn(e.x, rest);
    } else {
      ReadChain(e, rest);
    }
  }

  lemma OperatorsGoOn(prec: nat, x: Expr, s: Stream)
    requires 1 <= prec && !Stops(prec, s.Head())
    ensures |ParseOperators(prec, x, s).s.ts| < |s.ts|
  {
    if !s.Head().LArrow? {
      Round(prec, x, s);
    }
  }

  /** Forward direction for a whole template. */
  lemma TemplateRoundTrip(e: Expr)
    requires Canonical(e)
    ensures ParseTemplate(Listing(e)) == Parsed(e, Stream([], []))
  {
    assert Listing(e) + [] == Listing(e);
    FirstToken(e);
    ReadExpr(e, Stream([], []));
  }

  /** Two different canonical trees never have the same listing. */
  lemma ListingIsInjective(e: Expr, e': Expr)
    requires Canonical(e) && Canonical(e')
    requires Listing(e) == Listing(e')
    ensures e == e'
  {
    TemplateRoundTrip(e);
    TemplateRoundTrip(e');
  }

  // ----- from tokens to trees and back

  /** The tokens as the parser sees them: the end of a left-arrow argument is invisible,
      and when text follows it on the same line the parser re-reads it as a string. */
  function Seen(ts: seq<Token>): seq<Token> {
    if ts == [] then []
    else (if !ts[0].LineBreak? then [ts[0]]
          else if ts[0].text != "" then [Lit(STRING, ts[0].text)]
          else []) + Seen(ts[1..])
  }

  lemma SeenNext(s: Stream)
    requires s.ts != [] && !s.Head().LineBreak?
    ensures Seen(s.ts) == [s.Head()] + Seen(s.Next().ts)
  {
  }

  lemma SeenExpect(s: Stream, want: Token)
    requires !want.LineBreak? && !want.Ident? && !want.Eof?
    requires s.Expect(want).errs == []
    ensures s.errs == [] && Seen(s.ts) == [want] + Seen(s.Expect(want).ts)
  {
  }

  lemma SeenEndArgument(s: Stream)
    requires s.Head().LineBreak?
    ensures Seen(EndArgument(s).ts) == Seen(s.ts)
  {
    var text := s.Head().text;
    if text != "" {
      assert ([Lit(STRING, text)] + s.ts[1..])[1..] == s.ts[1..];
    }
  }

  lemma {:induction false} ListedExpr(s: Stream)
    requires ParseExpr(s).s.errs == []
    ensures s.errs == [] && Seen(s.ts) == Listing(ParseExpr(s).x) + Seen(ParseExpr(s).s.ts)
    decreases |s.ts|, 5
  {
    ListedBinary(1, s);
  }

  lemma {:induction false} ListedBinary(prec: nat, s: Stream)
    requires 1 <= prec
    requires ParseBinary(prec, s).s.errs == []
    ensures var r := ParseBinary(prec, s); s.errs == [] && Seen(s.ts) == Listing(r.x) + Seen(r.s.ts)
    decreases |s.ts|, 4
  {
    var u := ParseUnary(s);
    ListedOperators(prec, u.x, u.s);
    ListedUnary(s);
  }

  lemma {:induction false} ListedOperators(prec: nat, x: Expr, s: Stream)
    requires 1 <= prec
    requires ParseOperators(prec, x, s).s.errs == []
    ensures var r := ParseOperators(prec, x, s);
      s.errs == [] && Listing(x) + Seen(s.ts) == Listing(r.x) + Seen(r.s.ts)
    decreases |s.ts|, if StartsConcat(s.Head()) then 6 else 1
  {
    var t := s.Head();
    if !(t.LineBreak? || Precedence(t) < prec || !Extends(t)) {
      var e := Extend(x, s);
      if t.LArrow? && e.s.Head().LineBreak? {
        SeenEndArgument(e.s);
      } else {
        ListedOperators(prec, e.x, e.s);
      }
      ListedExtend(x, s);
    }
  }

  lemma {:induction false} ListedExtend(x: Expr, s: Stream)
    requires Extends(s.Head())
    requires Extend(x, s).s.errs == []
    ensures var r := Extend(x, s); s.errs == [] && Listing(x) + Seen(s.ts) == Listing(r.x) + Seen(r.s.ts)
    decreases |s.ts|, if StartsConcat(s.Head()) then 5 else 0, 1
  {
    var t := s.Head();
    SeenNext(s);
    if t.Op? {
      var y := ParseBinary(Precedence(t) + 1, s.Next());
      ListedBinary(Precedence(t) + 1, s.Next());
      Glue4(Listing(x), [t], Listing(y.x), Seen(y.s.ts));
    } else if t.LArrow? {
      ListedLeftArrow(x, s);
    } else if t.Question? {
      ListedBranches(x, s);
    } else {
      ListedConcat(x, s);
    }
  }

  lemma {:induction false} ListedConcat(x: Expr, s: Stream)
    requires StartsConcat(s.Head())
    requires Extend(x, s).s.errs == []
    ensures var r := Extend(x, s); s.errs == [] && Listing(x) + Seen(s.ts) == Listing(r.x) + Seen(r.s.ts)
    decreases |s.ts|, 5, 0
  {
    var p := Precedence(s.Head()) + 1;
    var y := ParseBinary(p, s);
    ListedBinary(p, s);
    Glue3(Listing(x), Listing(y.x), Seen(y.s.ts));
    assert Listing(x) + [] == Listing(x);
  }

  lemma {:induction false} ListedLeftArrow(x: Expr, s: Stream)
    requires s.Head().LArrow?
    requires Extend(x, s).s.errs == []
    ensures var r := Extend(x, s); s.errs == [] && Listing(x) + Seen(s.ts) == Listing(r.x) + Seen(r.s.ts)
    decreases |s.ts|, 0, 0
  {
    var start := s.Next().Expect(RDBrace);
    var arg := ParseExpr(start);
    ListedExpr(start);
    SeenExpect(s.Next(), RDBrace);
    GluePair(LArrow, RDBrace, Seen(start.ts));
    Glue4(Listing(x), [LArrow, RDBrace], Listing(arg.x), Seen(arg.s.ts));
  }

  lemma {:induction false} ListedBranches(x: Expr, s: Stream)
    requires s.Head().Question?
    requires Extend(x, s).s.errs == []
    ensures var r := Extend(x, s); s.errs == [] && Listing(x) + Seen(s.ts) == Listing(r.x) + Seen(r.s.ts)
    decreases |s.ts|, 0, 0
  {
    var expr1 := ParseExpr(s.Next());
    var expr2 := ParseExpr(expr1.s.Expect(Colon));
    ListedExpr(expr1.s.Expect(Colon));
    SeenExpect(expr1.s, Colon);
    ListedExpr(s.Next());
    Glue6(Listing(x), [Question], Listing(expr1.x), [Colon], Listing(expr2.x), Seen(expr2.s.ts));
  }

  lemma {:induction false} ListedUnary(s: Stream)
    requires ParseUnary(s).s.errs == []
    ensures s.errs == [] && Seen(s.ts) == Listing(ParseUnary(s).x) + Seen(ParseUnary(s).s.ts)
    decreases |s.ts|, 2
  {
    var t := s.Head();
    if t.LParen? {
      ListedDelimited(s, RParen);
    } else if t.Ident? {
      ListedChain(IdentExpr(t.name), s.Next());
    } else if t.LDBrace? {
      if ParseExpr(s.Next()).x.LeftArrowExpr? {
        ListedArrowParameter(s);
      } else {
        ListedDelimited(s, RDBrace);
      }
    } else if t == Op(Sub) || t.Not? {
      ListedPrefixed(s);
    } else if t.Defined? {
      ListedDefined(s);
    }
  }

  lemma {:induction false} ListedArrowParameter(s: Stream)
    requires s.Head().LDBrace? && ParseExpr(s.Next()).x.LeftArrowExpr? && ParseUnary(s).s.errs == []
    ensures s.errs == [] && Seen(s.ts) == Listing(ParseUnary(s).x) + Seen(ParseUnary(s).s.ts)
    decreases |s.ts|, 1
  {
    var t, x := s.Head(), ParseExpr(s.Next());
    ListedExpr(s.Next());
    Glue3([t], Listing(x.x), Seen(x.s.ts));
    assert [t] + Listing(x.x) + [] == [t] + Listing(x.x);
  }

  lemma {:induction false} ListedPrefixed(s: Stream)
    requires (s.Head() == Op(Sub) || s.Head().Not?) && ParseUnary(s).s.errs == []
    ensures s.errs == [] && Seen(s.ts) == Listing(ParseUnary(s).x) + Seen(ParseUnary(s).s.ts)
    decreases |s.ts|, 1
  {
    var t, x := s.Head(), ParseUnary(s.Next());
    ListedUnary(s.Next());
    Glue3([t], Listing(x.x), Seen(x.s.ts));
  }

  lemma {:induction false} ListedDefined(s: Stream)
    requires s.Head().Defined? && ParseUnary(s).s.errs == []
    ensures s.errs == [] && Seen(s.ts) == Listing(ParseUnary(s).x) + Seen(ParseUnary(s).s.ts)
    decreases |s.ts|, 1
  {
    var open := s.Next();
    var arg := ParseExpr(open.Expect(LParen));
    var rest := Seen(arg.s.Expect(RParen).ts);
    SeenExpect(arg.s, RParen);
    ListedExpr(open.Expect(LParen));
    SeenExpect(open, LParen);
    Glue5([Defined], [LParen], Listing(arg.x), [RParen], rest);
    assert [Defined, LParen] == [Defined] + [LParen];
  }

  /** An expression between the current token and a closing one. */
  lemma {:induction false} ListedDelimited(s: Stream, close: Token)
    requires close.RDBrace? || close.RParen? || close.RBrack?
    requires s.ts != [] && !s.Head().LineBreak?
    requires ParseExpr(s.Next()).s.Expect(close).errs == []
    ensures var x := ParseExpr(s.Next());
      s.errs == [] && Seen(s.ts) == [s.Head()] + Listing(x.x) + [close] + Seen(x.s.Expect(close).ts)
    decreases |s.ts|, 0, 0
  {
    var x := ParseExpr(s.Next());
    SeenExpect(x.s, close);
    ListedExpr(s.Next());
    Glue4([s.Head()], Listing(x.x), [close], Seen(x.s.Expect(close).ts));
  }

  lemma {:induction false} ListedChain(e: Expr, s: Stream)
    requires ParseChain(e, s).s.errs == []
    ensures var r := ParseChain(e, s); s.errs == [] && Listing(e) + Seen(s.ts) == Listing(r.x) + Seen(r.s.ts)
    decreases |s.ts|, 1
  {
    if ContinuesChain(s.Head()) {
      var link := ExtendChain(e, s);
      ListedChain(link.x, link.s);
      ListedExtendChain(e, s);
    }
  }

  lemma {:induction false} ListedExtendChain(e: Expr, s: Stream)
    requires ContinuesChain(s.Head())
    requires ExtendChain(e, s).s.errs == []
    ensures var r := ExtendChain(e, s); s.errs == [] && Listing(e) + Seen(s.ts) == Listing(r.x) + Seen(r.s.ts)
    decreases |s.ts|, 0, 2
  {
    if s.Head().Period? {
      ListedSelector(e, s);
    } else if s.Head().LBrack? {
      ListedIndex(e, s);
    } else {
      ListedCall(e, s);
    }
  }

  lemma {:induction false} ListedSelector(e: Expr, s: Stream)
    requires s.Head().Period?
    requires ExtendChain(e, s).s.errs == []
    ensures var r := ExtendChain(e, s); s.errs == [] && Listing(e) + Seen(s.ts) == Listing(r.x) + Seen(r.s.ts)
  {
    var name := ParseIdent(s.Next()).x;
    var rest := Seen(s.Next().Next().ts);
    SeenNext(s);
    SeenNext(s.Next());
    Glue3([Period], [Ident(name)], rest);
    assert [Period] + [Ident(name)] == [Period, Ident(name)];
    Glue3(Listing(e), [Period, Ident(name)], rest);
  }

  lemma {:induction false} ListedIndex(e: Expr, s: Stream)
    requires s.Head().LBrack?
    requires ExtendChain(e, s).s.errs == []
    ensures var r := ExtendChain(e, s); s.errs == [] && Listing(e) + Seen(s.ts) == Listing(r.x) + Seen(r.s.ts)
    decreases |s.ts|, 0, 1
  {
    var index := Listing(ParseExpr(s.Next()).x);
    var rest := Seen(ExtendChain(e, s).s.ts);
    ListedDelimited(s, RBrack);
    Glue4([LBrack], index, [RBrack], rest);
    Glue5(Listing(e), [LBrack], index, [RBrack], rest);
  }

  lemma {:induction false} ListedCall(e: Expr, s: Stream)
    requires s.Head().LParen?
    requires ExtendChain(e, s).s.errs == []
    ensures var r := ExtendChain(e, s); s.errs == [] && Listing(e) + Seen(s.ts) == Listing(r.x) + Seen(r.s.ts)
    decreases |s.ts|, 0, 0
  {
    var args := ParseArgs(s.Next());
    var rest := Seen(args.s.Expect(RParen).ts);
    SeenExpect(args.s, RParen);
    ListedArgs(s.Next());
    Glue5(Listing(e), [LParen], ArgsListing(args.x), [RParen], rest);
  }

  lemma {:induction false} ListedArgs(s: Stream)
    requires ParseArgs(s).s.errs == []
    ensures s.errs == [] && Seen(s.ts) == ArgsListing(ParseArgs(s).x) + Seen(ParseArgs(s).s.ts)
    decreases |s.ts|, 6
  {
    if !s.Head().RParen? {
      var a := ParseExpr(s);
      ListedMoreArgs([a.x], a.s);
      ListedExpr(s);
      assert ArgsListing([a.x]) == Listing(a.x);
    }
  }

  lemma {:induction false} ListedMoreArgs(args: seq<Expr>, s: Stream)
    requires args != [] && ParseMoreArgs(args, s).s.errs == []
    ensures var r := ParseMoreArgs(args, s);
      s.errs == [] && ArgsListing(args) + Seen(s.ts) == ArgsListing(r.x) + Seen(r.s.ts)
    decreases |s.ts|, 3
  {
    if s.Head().Comma? {
      var a := ParseExpr(s.Next());
      ListedMoreArgs(args + [a.x], a.s);
      ListedExpr(s.Next());
      ArgsListingAppend(args, a.x);
      Glue4(ArgsListing(args), [Comma], Listing(a.x), Seen(a.s.ts));
    }
  }

  lemma {:induction false} ArgsListingAppend(args: seq<Expr>, a: Expr)
    requires args != []
    ensures ArgsListing(args + [a]) == ArgsListing(args) + [Comma] + Listing(a)
  {
    assert (args + [a])[1..] == args[1..] + [a];
    MoreArgsListingAppend(args[1..], a);
  }

  lemma {:induction false} MoreArgsListingAppend(args: seq<Expr>, a: Expr)
    ensures MoreArgsListing(args + [a]) == MoreArgsListing(args) + [Comma] + Listing(a)
  {
    if args == [] {
      assert MoreArgsListing([]) == [] && ([a])[1..] == [];
      assert [] + [a] == [a];
    } else {
      assert (args + [a])[1..] == args[1..] + [a];
      MoreArgsListingAppend(args[1..], a);
    }
  }

  /** Backward direction: an error-free parse of a nonempty template lists exactly the
      tokens it consumed. */
  lemma ListingOfParse(ts: seq<Token>)
    requires ts != [] && ts[0] != Eof
    requires ParseTemplate(ts).s.errs == []
    ensures var r := ParseTemplate(ts); Seen(ts) == Listing(r.x) + Seen(r.s.ts)
  {
    ListedExpr(Stream(ts, []));
  }
}
