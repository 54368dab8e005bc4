/** The lexical tokens of the template language and their binding strengths.

    A token carries the literal the scanner attaches to it where the parser reads that
    literal; operators and delimiters need none. `LDBrace` carries the scanner's "quoted"
    indicator, which the parser samples while that token is current. */
module Tokens {

  datatype LitKind = STRING | INT | FLOAT | BOOL | NIL

  datatype BinOp =
    | Add | Sub | Mul | Quo | Rem
    | LAnd | LOr | Coalescing
    | Eql | Neq | Lss | Leq | Gtr | Geq
    | Concat

  datatype Token =
    | Illegal(text: string)
    | Eof
    | Lit(kind: LitKind, text: string)
    | Ident(name: string)
    | Op(op: BinOp)
    | Call
    | Not
    | LParen | RParen
    | LBrack | RBrack
    | LDBrace(quoted: bool) | RDBrace
    | Comma | Period | Question | Colon
    | LArrow
    | LineBreak(text: string)
    | Defined

  const LOWEST_PREC: nat := 0
  const HIGHEST_PREC: nat := 7

  function OpPrecedence(op: BinOp): nat {
    match op
    case LOr | Coalescing => 2
    case LAnd => 3
    case Eql | Neq | Lss | Leq | Gtr | Geq => 4
    case Add | Sub => 5
    case Mul | Quo | Rem => 6
    case Concat => LOWEST_PREC
  }

  /** The precedence table. `CONCAT` and every non-operator have the lowest precedence;
      the tokens that begin an implicitly concatenated operand stand at level 5. */
  function Precedence(t: Token): nat {
    if t.Question? || t.Colon? then 1
    else if t.Op? then OpPrecedence(t.op)
    else if t.LArrow? || t.LDBrace? || (t.Lit? && t.kind == STRING) then 5
    else LOWEST_PREC
  }
}
