/** The parser object: one token of lookahead and a growing list of errors. Every method is
    proved to return, to consume and to report exactly what `ParserSpec` says. */
module Parser {
  import opened Tokens
  import opened Ast
  import Spec = ParserSpec

  class Parser {
    var input: seq<Token>        // what the scanner has still to deliver
    var tok: Token               // the current token
    var errors: seq<Spec.ParseError>

    ghost predicate Valid()
      reads this
    {
      Eof !in input && (tok == Eof ==> input == [])
    }

    /** The tokens not consumed yet, the current one first, and the errors so far. */
    ghost function State(): Spec.Stream
      reads this
    {
      Spec.Stream(if tok == Eof then [] else [tok] + input, errors)
    }

    constructor (tokens: seq<Token>)
      requires Eof !in tokens
      ensures input == tokens && errors == []
    {
      input, tok, errors := tokens, Illegal(""), [];
    }

    method Next()
      requires Eof !in input
      modifies this`input, this`tok
      ensures Valid() && State() == Spec.Stream(old(input), errors)
    {
      if input == [] {
        tok := Eof;
      } else {
        tok, input := input[0], input[1..];
      }
    }

    method Parse() returns (e: Expr)
      requires Eof !in input && errors == []
      modifies this
      ensures Valid() && Spec.Parsed(e, State()) == Spec.ParseTemplate(old(input))
    {
      Next();
      if tok == Eof {
        return BasicLit(STRING, "");
      }
      e := ParseExpr();
    }

    method ParseExpr() returns (e: Expr)
      requires Valid()
      modifies this
      ensures Valid() && Spec.Parsed(e, State()) == Spec.ParseExpr(old(State()))
      decreases |State().ts|, 5
    {
      e := ParseBinaryExpr(LOWEST_PREC + 1);
    }

    method ParseBinaryExpr(prec: nat) returns (x: Expr)
      requires Valid() && 1 <= prec
      modifies this
      ensures Valid() && Spec.Parsed(x, State()) == Spec.ParseBinary(prec, old(State()))
      decreases |State().ts|, 4
    {
      ghost var start := State();
      x := ParseUnaryExpr();
      while !tok.LineBreak? && Precedence(tok) >= prec && Spec.Extends(tok)
        invariant Valid() && |State().ts| <= |start.ts|
        invariant |State().ts| == |start.ts| ==> !Spec.StartsUnary(tok)
        invariant Spec.ParseOperators(prec, x, State()) == Spec.ParseBinary(prec, start)
        decreases |State().ts|
      {
        var arrow := tok.LArrow?;
        x := Extend(x);
        if arrow && tok.LineBreak? {
          if tok.text != "" {
            tok := Lit(STRING, tok.text);
            return;
          }
          Next();
          return;
        }
      }
    }

    /** The body of the loop of `parseBinaryExpr`, up to the end of a left-arrow argument. */
    method Extend(x: Expr) returns (e: Expr)
      requires Valid() && Spec.Extends(tok)
      modifies this
      ensures Valid() && Spec.Parsed(e, State()) == Spec.Extend(x, old(State()))
      decreases |State().ts|, if Spec.StartsConcat(tok) then 5 else 0
    {
      if tok.Op? {
        var op := tok.op;
        Next();
        var y := ParseBinaryExpr(OpPrecedence(op) + 1);
        e := BinaryExpr(op, x, y);
      } else if tok.LArrow? {
        Next();
        Expect(RDBrace);
        var arg := ParseExpr();
        e := LeftArrowExpr(x, arg);
      } else if tok.Question? {
        Next();
        var expr1 := ParseExpr();
        Expect(Colon);
        var expr2 := ParseExpr();
        e := ConditionalExpr(x, expr1, expr2);
      } else {
        var y := ParseBinaryExpr(Precedence(tok) + 1);
        e := BinaryExpr(Concat, x, y);
      }
    }

    method ParseUnaryExpr() returns (e: Expr)
      requires Valid()
      modifies this
      ensures Valid() && Spec.Parsed(e, State()) == Spec.ParseUnary(old(State()))
      decreases |State().ts|, 2
    {
      if tok.Lit? {
        e := BasicLit(tok.kind, tok.text);
        Next();
      } else if tok.LParen? {
        Next();
        var x := ParseExpr();
        Expect(RParen);
        e := ParenExpr(x);
      } else if tok.Ident? {
        e := ParseOperand();
      } else if tok.LDBrace? {
        e := ParseParameter();
      } else if tok == Op(Sub) {
        Next();
        var x := ParseUnaryExpr();
        e := UnaryExpr(Neg, x);
      } else if tok.Not? {
        Next();
        var x := ParseUnaryExpr();
        e := UnaryExpr(LogicalNot, x);
      } else if tok.Defined? {
        Next();
        Expect(LParen);
        var arg := ParseExpr();
        Expect(RParen);
        e := DefinedExpr(arg);
      } else {
        e := NoExpr;
      }
    }

    /** The identifier case of `parseUnaryExpr`, with its loop. */
    method ParseOperand() returns (e: Expr)
      requires Valid() && tok.Ident?
      modifies this
      ensures Valid() && Spec.Parsed(e, State()) == Spec.ParseUnary(old(State()))
      decreases |State().ts|, 1
    {
      ghost var start := State();
      var name := ParseIdent();
      e := IdentExpr(name);
      while Spec.ContinuesChain(tok)
        invariant Valid() && |State().ts| < |start.ts|
        invariant Spec.ParseChain(e, State()) == Spec.ParseUnary(start)
        decreases |State().ts|
      {
        e := ExtendChain(e);
      }
    }

    /** The body of that loop. */
    method ExtendChain(x: Expr) returns (e: Expr)
      requires Valid() && Spec.ContinuesChain(tok)
      modifies this
      ensures Valid() && Spec.Parsed(e, State()) == Spec.ExtendChain(x, old(State()))
      decreases |State().ts|, 0
    {
      if tok.Period? {
        Next();
        var sel := ParseIdent();
        e := SelectorExpr(x, sel);
      } else if tok.LBrack? {
        Next();
        var index := ParseExpr();
        Expect(RBrack);
        e := IndexExpr(x, index);
      } else {
        Next();
        var args := ParseArgs();
        Expect(RParen);
        e := CallExpr(x, args);
      }
    }

    method ParseIdent() returns (name: string)
      requires Valid()
      modifies this
      ensures Valid() && Spec.Parsed(name, State()) == Spec.ParseIdent(old(State()))
    {
      name := "_";
      if tok.Ident? {
        name := tok.name;
        Next();
      } else {
        Expect(Ident("_"));
      }
    }

    method ParseParameter() returns (e: Expr)
      requires Valid() && tok.LDBrace?
      modifies this
      ensures Valid() && Spec.Parsed(e, State()) == Spec.ParseUnary(old(State()))
      decreases |State().ts|, 1
    {
      var quoted := tok.quoted;
      Next();
      var x := ParseExpr();
      e := ParameterExpr(quoted, x);
      if x.LeftArrowExpr? {
        return;
      }
      Expect(RDBrace);
    }

    method ParseArgs() returns (args: seq<Expr>)
      requires Valid()
      modifies this
      ensures Valid() && Spec.Parsed(args, State()) == Spec.ParseArgs(old(State()))
      decreases |State().ts|, 6
    {
      if tok.RParen? {
        return [];
      }
      ghost var start := State();
      var arg := ParseExpr();
      args := [arg];
      while tok.Comma?
        invariant Valid() && |State().ts| <= |start.ts|
        invariant Spec.ParseMoreArgs(args, State()) == Spec.ParseArgs(start)
        decreases |State().ts|
      {
        Next();
        arg := ParseExpr();
        args := args + [arg];
      }
    }

    method Expect(want: Token)
      requires Valid()
      modifies this
      ensures Valid() && State() == old(State()).Expect(want)
    {
      if !Spec.Matches(tok, want) {
        errors := errors + [Spec.ParseError(want, tok)];
      }
      Next();
    }
  }
}
