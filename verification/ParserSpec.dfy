/** What each parsing procedure returns and leaves behind, as a function of the tokens still
    to be read and the errors found so far.

    The token list stands for the scanner's output: its head is the current token, and past
    the end the scanner reports end-of-file for ever. */
module ParserSpec {
  import opened Tokens
  import opened Ast

  /** "expected want, found found" */
  datatype ParseError = ParseError(want: Token, found: Token)

  datatype Stream = Stream(ts: seq<Token>, errs: seq<ParseError>) {
    function Head(): Token {
      if ts == [] then Eof else ts[0]
    }

    function Next(): Stream {
      if ts == [] then this else Stream(ts[1..], errs)
    }

    /** `expect` always moves on, whether or not the token is the wanted one. */
    function Expect(want: Token): Stream {
      Stream(Next().ts, if Matches(Head(), want) then errs else errs + [ParseError(want, Head())])
    }

    /** Nothing is given back and no error is withdrawn. */
    predicate To(later: Stream) {
      |later.ts| <= |ts| && |errs| <= |later.errs|
    }
  }

  datatype Parsed<T> = Parsed(x: T, s: Stream)

  predicate Matches(t: Token, want: Token) {
    t == want || (t.Ident? && want.Ident?)
  }

  /** Tokens that begin an operand. */
  predicate StartsUnary(t: Token) {
    t.Lit? || t.LParen? || t.Ident? || t.LDBrace? || t == Op(Sub) || t.Not? || t.Defined?
  }

  /** Tokens that begin an implicitly concatenated operand. */
  predicate StartsConcat(t: Token) {
    t.LDBrace? || (t.Lit? && t.kind == STRING)
  }

  /** The tokens for which the loop of `parseBinaryExpr` has a case. Its case for the `CALL`
      token is absent: that token has the lowest precedence and `prec` is at least 1. */
  predicate Extends(t: Token) {
    (t.Op? && t.op != Concat) || t.LArrow? || StartsConcat(t) || t.Question?
  }

  predicate ContinuesChain(t: Token) {
    t.Period? || t.LBrack? || t.LParen?
  }

  function ParseExpr(s: Stream): (r: Parsed<Expr>)
    ensures s.To(r.s)
    ensures StartsUnary(s.Head()) ==> |r.s.ts| < |s.ts|
    decreases |s.ts|, 5
  {
    ParseBinary(LOWEST_PREC + 1, s)
  }

  function ParseBinary(prec: nat, s: Stream): (r: Parsed<Expr>)
    requires 1 <= prec
    ensures s.To(r.s)
    ensures StartsUnary(s.Head()) ==> |r.s.ts| < |s.ts|
    decreases |s.ts|, 4
  {
    var u := ParseUnary(s);
    ParseOperators(prec, u.x, u.s)
  }

  /** The loop of `parseBinaryExpr`: extends the operand `x` while the current token binds
      at least as tightly as `prec`. The end of a left-arrow argument ends the expression. */
  function ParseOperators(prec: nat, x: Expr, s: Stream): (r: Parsed<Expr>)
    requires 1 <= prec
    ensures s.To(r.s)
    decreases |s.ts|, if StartsConcat(s.Head()) then 6 else 1
  {
    var t := s.Head();
    if t.LineBreak? || Precedence(t) < prec || !Extends(t) then Parsed(x, s)
    else
      var e := Extend(x, s);
      if t.LArrow? && e.s.Head().LineBreak? then Parsed(e.x, EndArgument(e.s))
      else ParseOperators(prec, e.x, e.s)
  }

  /** Text after the end of a left-arrow argument is re-read as a string. */
  function EndArgument(s: Stream): (r: Stream)
    requires s.Head().LineBreak?
    ensures s.To(r)
  {
    var text := s.Head().text;
    if text != "" then s.(ts := [Lit(STRING, text)] + s.ts[1..]) else s.Next()
  }

  /** One round of that loop. */
  function Extend(x: Expr, s: Stream): (r: Parsed<Expr>)
    requires Extends(s.Head())
    ensures s.To(r.s) && |r.s.ts| < |s.ts|
    decreases |s.ts|, if StartsConcat(s.Head()) then 5 else 0
  {
    var t := s.Head();
    if t.Op? then
      var y := ParseBinary(Precedence(t) + 1, s.Next());
      Parsed(BinaryExpr(t.op, x, y.x), y.s)
    else if t.LArrow? then
      var arg := ParseExpr(s.Next().Expect(RDBrace));
      Parsed(LeftArrowExpr(x, arg.x), arg.s)
    else if t.Question? then
      var expr1 := ParseExpr(s.Next());
      var expr2 := ParseExpr(expr1.s.Expect(Colon));
      Parsed(ConditionalExpr(x, expr1.x, expr2.x), expr2.s)
    else
      var y := ParseBinary(Precedence(t) + 1, s);
      Parsed(BinaryExpr(Concat, x, y.x), y.s)
  }

  function ParseUnary(s: Stream): (r: Parsed<Expr>)
    ensures s.To(r.s)
    ensures StartsUnary(s.Head()) ==> |r.s.ts| < |s.ts|
    ensures !StartsUnary(s.Head()) ==> r == Parsed(NoExpr, s)
    decreases |s.ts|, 2
  {
    var t := s.Head();
    if t.Lit? then Parsed(BasicLit(t.kind, t.text), s.Next())
    else if t.LParen? then
      var x := ParseExpr(s.Next());
      Parsed(ParenExpr(x.x), x.s.Expect(RParen))
    else if t.Ident? then ParseChain(IdentExpr(t.name), s.Next())
    else if t.LDBrace? then
      var x := ParseExpr(s.Next());
      Parsed(ParameterExpr(t.quoted, x.x), if x.x.LeftArrowExpr? then x.s else x.s.Expect(RDBrace))
    else if t == Op(Sub) || t.Not? then
      var x := ParseUnary(s.Next());
      Parsed(UnaryExpr(if t.Not? then LogicalNot else Neg, x.x), x.s)
    else if t.Defined? then
      var arg := ParseExpr(s.Next().Expect(LParen));
      Parsed(DefinedExpr(arg.x), arg.s.Expect(RParen))
    else Parsed(NoExpr, s)
  }

  /** The loop over selectors, indexes and calls after an identifier. */
  function ParseChain(e: Expr, s: Stream): (r: Parsed<Expr>)
    ensures s.To(r.s)
    decreases |s.ts|, 1
  {
    if !ContinuesChain(s.Head()) then Parsed(e, s)
    else
      var link := ExtendChain(e, s);
      ParseChain(link.x, link.s)
  }

  /** One round of that loop. */
  function ExtendChain(e: Expr, s: Stream): (r: Parsed<Expr>)
    requires ContinuesChain(s.Head())
    ensures s.To(r.s) && |r.s.ts| < |s.ts|
    decreases |s.ts|, 0
  {
    var t := s.Head();
    if t.Period? then
      var name := ParseIdent(s.Next());
      Parsed(SelectorExpr(e, name.x), name.s)
    else if t.LBrack? then
      var index := ParseExpr(s.Next());
      Parsed(IndexExpr(e, index.x), index.s.Expect(RBrack))
    else
      var args := ParseArgs(s.Next());
      Parsed(CallExpr(e, args.x), args.s.Expect(RParen))
  }

  /** A missing identifier is named "_". */
  function ParseIdent(s: Stream): (r: Parsed<string>)
    ensures s.To(r.s)
  {
    Parsed(if s.Head().Ident? then s.Head().name else "_", s.Expect(Ident("_")))
  }

  function ParseArgs(s: Stream): (r: Parsed<seq<Expr>>)
    ensures s.To(r.s)
    decreases |s.ts|, 6
  {
    if s.Head().RParen? then Parsed([], s)
    else
      var a := ParseExpr(s);
      ParseMoreArgs([a.x], a.s)
  }

  function ParseMoreArgs(args: seq<Expr>, s: Stream): (r: Parsed<seq<Expr>>)
    ensures s.To(r.s)
    decreases |s.ts|, 3
  {
    if !s.Head().Comma? then Parsed(args, s)
    else
      var a := ParseExpr(s.Next());
      ParseMoreArgs(args + [a.x], a.s)
  }

  /** `Parse`: the empty input is the empty string literal. */
  function ParseTemplate(ts: seq<Token>): Parsed<Expr> {
    var s := Stream(ts, []);
    if s.Head().Eof? then Parsed(BasicLit(STRING, ""), s) else ParseExpr(s)
  }
}
