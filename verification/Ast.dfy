/** Syntax trees of the template language, without source positions. */
module Ast {
  import opened Tokens

  datatype UnaryOp = Neg | LogicalNot

  datatype Expr =
    | NoExpr // the nil expression the parser leaves where an operand is missing
    | BasicLit(kind: LitKind, text: string)
    | ParameterExpr(quoted: bool, x: Expr)
    | ParenExpr(x: Expr)
    | UnaryExpr(uop: UnaryOp, x: Expr)
    | BinaryExpr(op: BinOp, x: Expr, y: Expr)
    | ConditionalExpr(cond: Expr, x: Expr, y: Expr)
    | IdentExpr(name: string)
    | SelectorExpr(x: Expr, sel: string)
    | IndexExpr(x: Expr, index: Expr)
    | CallExpr(fun: Expr, args: seq<Expr>)
    | LeftArrowExpr(fun: Expr, arg: Expr)
    | DefinedExpr(arg: Expr)

  /** The tokens of a tree, in source order. */
  function Listing(e: Expr): seq<Token> {
    match e
    case NoExpr => []
    case BasicLit(kind, text) => [Lit(kind, text)]
    // A parameter that holds a left-arrow call is closed by the call's own braces.
    case ParameterExpr(quoted, x) =>
      [LDBrace(quoted)] + Listing(x) + (if x.LeftArrowExpr? then [] else [RDBrace])
    case ParenExpr(x) => [LParen] + Listing(x) + [RParen]
    case UnaryExpr(op, x) => [UnaryToken(op)] + Listing(x)
    case BinaryExpr(op, x, y) => Listing(x) + OpListing(op) + Listing(y)
    case ConditionalExpr(c, x, y) => Listing(c) + [Question] + Listing(x) + [Colon] + Listing(y)
    case IdentExpr(name) => [Ident(name)]
    case SelectorExpr(x, sel) => Listing(x) + [Period, Ident(sel)]
    case IndexExpr(x, index) => Listing(x) + [LBrack] + Listing(index) + [RBrack]
    case CallExpr(fun, args) => Listing(fun) + [LParen] + ArgsListing(args) + [RParen]
    case LeftArrowExpr(fun, arg) => Listing(fun) + [LArrow, RDBrace] + Listing(arg)
    case DefinedExpr(arg) => [Defined, LParen] + Listing(arg) + [RParen]
  }

  function UnaryToken(op: UnaryOp): Token {
    if op == Neg then Op(Sub) else Not
  }

  /** Implicit concatenation has no token of its own. */
  function OpListing(op: BinOp): seq<Token> {
    if op == Concat then [] else [Op(op)]
  }

  function ArgsListing(args: seq<Expr>): seq<Token> {
    if args == [] then []
    else Listing(args[0]) + MoreArgsListing(args[1..])
  }

  function MoreArgsListing(args: seq<Expr>): seq<Token> {
    if args == [] then []
    else [Comma] + Listing(args[0]) + MoreArgsListing(args[1..])
  }
}
