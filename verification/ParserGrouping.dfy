/** How operators group, told by a flat reference grammar.

    A row is operands with operators between them, as they are written. Its tree is found without
    reading it from the left: the operator of the loosest group splits it, the last one of them when
    there are several, and both sides are rows again. */
module ParserGrouping {
  import opened Tokens
  import opened Ast
  import opened ParserSpec
  import opened ParserRoundTrip

  datatype Operand =
    | Literal(kind: LitKind, text: string)
    | Chain(name: string, links: seq<Link>)
    | DefinedOf(phrase: Phrase)
    | Parens(phrase: Phrase)
    | Parameter(quoted: bool, phrase: Phrase)
    | Prefixed(uop: UnaryOp, operand: Operand)

  /** What may follow a name. */
  datatype Link = Select(sel: string) | At(phrase: Phrase) | CallWith(args: seq<Phrase>)

  /** A row, or a row in front of `? yes : no`. `Concat` stands between operands with no token between them. */
  datatype Phrase =
    | Row(operands: seq<Operand>, ops: seq<BinOp>)
    | Choice(operands: seq<Operand>, ops: seq<BinOp>, yes: Phrase, no: Phrase)

  /** A row alternates, and an operand without an operator in front begins with a string or a parameter. */
  predicate WellFormed(p: Phrase) {
    && |p.operands| == |p.ops| + 1
    && (forall i | 0 <= i < |p.ops| && p.ops[i] == Concat :: BeginsText(p.operands[i + 1]))
    && (forall o <- p.operands :: WellFormedOperand(o))
    && (p.Choice? ==> WellFormed(p.yes) && WellFormed(p.no))
  }

  predicate WellFormedOperand(o: Operand) {
    match o
    case Literal(_, _) => true
    case Chain(_, links) => forall l <- links :: WellFormedLink(l)
    case DefinedOf(phrase) => WellFormed(phrase)
    case Parens(phrase) => WellFormed(phrase)
    case Parameter(_, phrase) => WellFormed(phrase)
    case Prefixed(_, operand) => WellFormedOperand(operand)
  }

  predicate WellFormedLink(l: Link) {
    match l
    case Select(_) => true
    case At(phrase) => WellFormed(phrase)
    case CallWith(args) => forall a <- args :: WellFormed(a)
  }

  predicate BeginsText(o: Operand) {
    o.Parameter? || (o.Literal? && o.kind == STRING)
  }

  // What is written.

  function Written(p: Phrase): seq<Token>
    requires WellFormed(p)
    decreases p, 1
  {
    var row := WrittenRow(WrittenOperands(p), p.ops);
    if p.Row? then row else row + [Question] + Written(p.yes) + [Colon] + Written(p.no)
  }

  function WrittenOperands(p: Phrase): (written: seq<seq<Token>>)
    requires WellFormed(p)
    ensures |written| == |p.operands|
    decreases p, 0
  {
    seq(|p.operands|, i requires 0 <= i < |p.operands| => WrittenOperand(p.operands[i]))
  }

  function WrittenOperand(o: Operand): seq<Token>
    requires WellFormedOperand(o)
  {
    match o
    case Literal(kind, text) => [Lit(kind, text)]
    case Chain(name, links) => [Ident(name)] + WrittenLinks(links)
    case DefinedOf(phrase) => [Defined, LParen] + Written(phrase) + [RParen]
    case Parens(phrase) => [LParen] + Written(phrase) + [RParen]
    case Parameter(quoted, phrase) => [LDBrace(quoted)] + Written(phrase) + [RDBrace]
    case Prefixed(uop, operand) => [if uop == Neg then Op(Sub) else Not] + WrittenOperand(operand)
  }

  function WrittenLinks(links: seq<Link>): seq<Token>
    requires forall l <- links :: WellFormedLink(l)
    decreases links
  {
    if links == [] then [] else WrittenLink(links[0]) + WrittenLinks(links[1..])
  }

  function WrittenLink(l: Link): seq<Token>
    requires WellFormedLink(l)
    decreases l
  {
    match l
    case Select(sel) => [Period, Ident(sel)]
    case At(phrase) => [LBrack] + Written(phrase) + [RBrack]
    case CallWith(args) => [LParen] + WrittenArgs(args, true) + [RParen]
  }

  /** Arguments with commas between them. */
  function WrittenArgs(args: seq<Phrase>, first: bool): seq<Token>
    requires forall a <- args :: WellFormed(a)
    decreases args
  {
    if args == [] then [] else (if first then [] else [Comma]) + Written(args[0]) + WrittenArgs(args[1..], false)
  }

  function WrittenRow(operands: seq<seq<Token>>, ops: seq<BinOp>): seq<Token>
    requires |operands| == |ops| + 1
    decreases |ops|
  {
    if ops == [] then operands[0]
    else operands[0] + (if ops[0] == Concat then [] else [Op(ops[0])]) + WrittenRow(operands[1..], ops[1..])
  }

  // What it means.

  /** The groups of operators, from the loosest to the tightest. */
  function Group(op: BinOp): nat {
    match op
    case LOr | Coalescing => 0
    case LAnd => 1
    case Eql | Neq | Lss | Leq | Gtr | Geq => 2
    case Add | Sub | Concat => 3
    case Mul | Quo | Rem => 4
  }

  /** The last operator of the loosest group. */
  function Splitter(ops: seq<BinOp>): (k: nat)
    requires ops != []
    ensures k < |ops| && forall i | 0 <= i < |ops| :: Group(ops[k]) <= Group(ops[i])
    ensures forall i | k < i < |ops| :: Group(ops[k]) < Group(ops[i])
  {
    var last := |ops| - 1;
    if last == 0 then 0
    else
      var k := Splitter(ops[..last]);
      if Group(ops[last]) <= Group(ops[k]) then last else k
  }

  function RowTree(operands: seq<Expr>, ops: seq<BinOp>): Expr
    requires |operands| == |ops| + 1
    decreases |ops|
  {
    if ops == [] then operands[0]
    else
      var k := Splitter(ops);
      BinaryExpr(ops[k], RowTree(operands[..k + 1], ops[..k]), RowTree(operands[k + 1..], ops[k + 1..]))
  }

  /** A choice is looser than every operator, and takes all that follows its colon. */
  function Tree(p: Phrase): Expr
    requires WellFormed(p)
    decreases p, 1
  {
    var row := RowTree(OperandTrees(p), p.ops);
    if p.Row? then row else ConditionalExpr(row, Tree(p.yes), Tree(p.no))
  }

  function OperandTrees(p: Phrase): (trees: seq<Expr>)
    requires WellFormed(p)
    ensures |trees| == |p.operands|
    decreases p, 0
  {
    seq(|p.operands|, i requires 0 <= i < |p.operands| => OperandTree(p.operands[i]))
  }

  function OperandTree(o: Operand): Expr
    requires WellFormedOperand(o)
  {
    match o
    case Literal(kind, text) => BasicLit(kind, text)
    case Chain(name, links) => ChainTree(IdentExpr(name), links)
    case DefinedOf(phrase) => DefinedExpr(Tree(phrase))
    case Parens(phrase) => ParenExpr(Tree(phrase))
    case Parameter(quoted, phrase) => ParameterExpr(quoted, Tree(phrase))
    case Prefixed(uop, operand) => UnaryExpr(uop, OperandTree(operand))
  }

  /** Selectors, indexes and calls apply to all that is in front of them. */
  function ChainTree(e: Expr, links: seq<Link>): Expr
    requires forall l <- links :: WellFormedLink(l)
    decreases links
  {
    if links == [] then e else ChainTree(LinkTree(e, links[0]), links[1..])
  }

  function LinkTree(e: Expr, l: Link): Expr
    requires WellFormedLink(l)
    decreases l
  {
    match l
    case Select(sel) => SelectorExpr(e, sel)
    case At(phrase) => IndexExpr(e, Tree(phrase))
    case CallWith(args) => CallExpr(e, ArgTrees(args))
  }

  function ArgTrees(args: seq<Phrase>): (trees: seq<Expr>)
    requires forall a <- args :: WellFormed(a)
    decreases args
  {
    if args == [] then [] else [Tree(args[0])] + ArgTrees(args[1..])
  }

  // The parser finds these trees.

  lemma GroupLevel(op: BinOp)
    ensures OpLevel(op) == Group(op) + 2
  {
  }

  /** A row of tokens falls apart at any operator. */
  lemma {:induction false} SplitRow(operands: seq<seq<Token>>, ops: seq<BinOp>, k: nat)
    requires |operands| == |ops| + 1 && k < |ops|
    ensures WrittenRow(operands, ops) ==
      WrittenRow(operands[..k + 1], ops[..k]) + OpListing(ops[k]) + WrittenRow(operands[k + 1..], ops[k + 1..])
    decreases k
  {
    if k > 0 {
      SplitRow(operands[1..], ops[1..], k - 1);
      assert operands[1..][..k] == operands[..k + 1][1..] && ops[1..][..k - 1] == ops[..k][1..];
      assert operands[1..][k..] == operands[k + 1..] && ops[1..][k..] == ops[k + 1..];
      Glue5(operands[0], OpListing(ops[0]), WrittenRow(operands[..k + 1][1..], ops[..k][1..]), OpListing(ops[k]),
            WrittenRow(operands[k + 1..], ops[k + 1..]));
      Glue3(operands[0], OpListing(ops[0]), WrittenRow(operands[..k + 1][1..], ops[..k][1..]));
    }
  }

  /** Operands of a row that read as such. */
  predicate Operands(operands: seq<Expr>, ops: seq<BinOp>) {
    && |operands| == |ops| + 1
    && (forall i | 0 <= i < |operands| :: Tightness(operands[i]) == HIGHEST_PREC)
    && (forall i | 0 <= i < |ops| && ops[i] == Concat :: StartsLikeConcat(operands[i + 1]))
  }

  function Listings(operands: seq<Expr>): (listings: seq<seq<Token>>) {
    seq(|operands|, i requires 0 <= i < |operands| => Listing(operands[i]))
  }

  /** How tightly the tree of a row binds. */
  function RowLevel(ops: seq<BinOp>): nat {
    if ops == [] then HIGHEST_PREC else Group(ops[Splitter(ops)]) + 2
  }

  lemma SideLevels(ops: seq<BinOp>, k: nat)
    requires ops != [] && k == Splitter(ops)
    ensures RowLevel(ops) == Group(ops[k]) + 2
    ensures RowLevel(ops[..k]) >= Group(ops[k]) + 2 && RowLevel(ops[k + 1..]) > Group(ops[k]) + 2
  {
    if k + 1 < |ops| {
      assert ops[k + 1..][Splitter(ops[k + 1..])] == ops[k + 1 + Splitter(ops[k + 1..])];
    }
  }

  lemma OperandsApart(operands: seq<Expr>, ops: seq<BinOp>, k: nat)
    requires Operands(operands, ops) && k < |ops|
    ensures Operands(operands[..k + 1], ops[..k]) && Operands(operands[k + 1..], ops[k + 1..])
    ensures ops[k] == Concat ==> StartsLikeConcat(operands[k + 1..][0])
  {
  }

  lemma RowTreeSplits(operands: seq<Expr>, ops: seq<BinOp>)
    requires |operands| == |ops| + 1 && ops != []
    ensures var k := Splitter(ops);
      RowTree(operands, ops) ==
      BinaryExpr(ops[k], RowTree(operands[..k + 1], ops[..k]), RowTree(operands[k + 1..], ops[k + 1..]))
  {
  }

  lemma JoinTightness(x: Expr, y: Expr, op: BinOp)
    requires Tightness(x) >= Group(op) + 2 && Tightness(y) > Group(op) + 2
    requires op == Concat ==> StartsLikeConcat(y)
    ensures Tightness(BinaryExpr(op, x, y)) == Group(op) + 2
    ensures StartsLikeConcat(BinaryExpr(op, x, y)) == StartsLikeConcat(x)
  {
    GroupLevel(op);
  }

  lemma {:induction false} RowTightness(operands: seq<Expr>, ops: seq<BinOp>)
    requires Operands(operands, ops)
    ensures Tightness(RowTree(operands, ops)) == RowLevel(ops)
    ensures StartsLikeConcat(RowTree(operands, ops)) == StartsLikeConcat(operands[0])
    decreases |ops|
  {
    if ops != [] {
      var k := Splitter(ops);
      var x, y := RowTree(operands[..k + 1], ops[..k]), RowTree(operands[k + 1..], ops[k + 1..]);
      SidesTightness(operands, ops, k);
      JoinTightness(x, y, ops[k]);
      RowTreeSplits(operands, ops);
    }
  }

  lemma {:induction false} SidesTightness(operands: seq<Expr>, ops: seq<BinOp>, k: nat)
    requires Operands(operands, ops) && ops != [] && k == Splitter(ops)
    ensures var x, y := RowTree(operands[..k + 1], ops[..k]), RowTree(operands[k + 1..], ops[k + 1..]);
      && RowLevel(ops) == Group(ops[k]) + 2
      && Tightness(x) >= Group(ops[k]) + 2 && Tightness(y) > Group(ops[k]) + 2
      && StartsLikeConcat(x) == StartsLikeConcat(operands[0]) && (ops[k] == Concat ==> StartsLikeConcat(y))
    decreases |ops|, 0
  {
    OperandsApart(operands, ops, k);
    SideLevels(ops, k);
    var left, right := operands[..k + 1], operands[k + 1..];
    RowTightness(left, ops[..k]);
    RowTightness(right, ops[k + 1..]);
  }

  lemma {:induction false} RowListing(operands: seq<Expr>, ops: seq<BinOp>)
    requires |operands| == |ops| + 1
    ensures Listing(RowTree(operands, ops)) == WrittenRow(Listings(operands), ops)
    decreases |ops|
  {
    if ops != [] {
      var k := Splitter(ops);
      var x, y := RowTree(operands[..k + 1], ops[..k]), RowTree(operands[k + 1..], ops[k + 1..]);
      RowListing(operands[..k + 1], ops[..k]);
      RowListing(operands[k + 1..], ops[k + 1..]);
      JoinListing(x, y, operands, ops, k);
      RowTreeSplits(operands, ops);
    }
  }

  lemma ListingsApart(operands: seq<Expr>, k: nat)
    requires k <= |operands|
    ensures Listings(operands[..k]) == Listings(operands)[..k] && Listings(operands[k..]) == Listings(operands)[k..]
  {
    forall i | 0 <= i < |operands| - k ensures Listings(operands[k..])[i] == Listings(operands)[k..][i] {
      assert operands[k..][i] == operands[k + i];
    }
  }

  lemma JoinListing(x: Expr, y: Expr, operands: seq<Expr>, ops: seq<BinOp>, k: nat)
    requires |operands| == |ops| + 1 && k < |ops|
    requires Listing(x) == WrittenRow(Listings(operands[..k + 1]), ops[..k])
    requires Listing(y) == WrittenRow(Listings(operands[k + 1..]), ops[k + 1..])
    ensures Listing(BinaryExpr(ops[k], x, y)) == WrittenRow(Listings(operands), ops)
  {
    SplitRow(Listings(operands), ops, k);
    ListingsApart(operands, k + 1);
  }

  lemma {:induction false} OperandReads(o: Operand)
    requires WellFormedOperand(o)
    ensures Tightness(OperandTree(o)) == HIGHEST_PREC && Listing(OperandTree(o)) == WrittenOperand(o)
    ensures BeginsText(o) ==> StartsLikeConcat(OperandTree(o))
    decreases o
  {
    match o
    case Literal(_, _) =>
    case Chain(name, links) => ChainReads(IdentExpr(name), links);
    case DefinedOf(phrase) => TreeReads(phrase);
    case Parens(phrase) => TreeReads(phrase);
    case Parameter(_, phrase) => TreeReads(phrase);
    case Prefixed(_, operand) => OperandReads(operand);
  }

  predicate ReadsAsChain(e: Expr) {
    IsChain(e) && Tightness(e) == HIGHEST_PREC
  }

  lemma {:induction false} ChainReads(e: Expr, links: seq<Link>)
    requires ReadsAsChain(e) && forall l <- links :: WellFormedLink(l)
    ensures ReadsAsChain(ChainTree(e, links)) && Listing(ChainTree(e, links)) == Listing(e) + WrittenLinks(links)
    decreases links
  {
    if links != [] {
      LinkReads(e, links[0]);
      ChainReads(LinkTree(e, links[0]), links[1..]);
      Glue3(Listing(e), WrittenLink(links[0]), WrittenLinks(links[1..]));
    } else {
      assert Listing(e) + [] == Listing(e);
    }
  }

  lemma {:induction false} LinkReads(e: Expr, l: Link)
    requires ReadsAsChain(e) && WellFormedLink(l)
    ensures ReadsAsChain(LinkTree(e, l)) && Listing(LinkTree(e, l)) == Listing(e) + WrittenLink(l)
    decreases l
  {
    match l
    case Select(_) =>
    case At(phrase) =>
      TreeReads(phrase);
      IndexReads(e, Tree(phrase));
    case CallWith(args) =>
      ArgsRead(args);
      CallReads(e, ArgTrees(args));
  }

  lemma IndexReads(e: Expr, x: Expr)
    requires ReadsAsChain(e) && Canonical(x)
    ensures ReadsAsChain(IndexExpr(e, x)) && Listing(IndexExpr(e, x)) == Listing(e) + ([LBrack] + Listing(x) + [RBrack])
  {
    Glue4(Listing(e), [LBrack], Listing(x), [RBrack]);
    Glue3([LBrack], Listing(x), [RBrack]);
  }

  lemma CallReads(e: Expr, args: seq<Expr>)
    requires ReadsAsChain(e) && forall a <- args :: Canonical(a)
    ensures ReadsAsChain(CallExpr(e, args))
    ensures Listing(CallExpr(e, args)) == Listing(e) + ([LParen] + ArgsListing(args) + [RParen])
  {
    assert forall a <- args :: a != NoExpr;
    assert args != [] ==> args[0] in args;
    Glue4(Listing(e), [LParen], ArgsListing(args), [RParen]);
    Glue3([LParen], ArgsListing(args), [RParen]);
  }

  lemma {:induction false} ArgsRead(args: seq<Phrase>)
    requires forall a <- args :: WellFormed(a)
    ensures forall a <- ArgTrees(args) :: Canonical(a)
    ensures ArgsListing(ArgTrees(args)) == WrittenArgs(args, true)
    ensures MoreArgsListing(ArgTrees(args)) == WrittenArgs(args, false)
    decreases args
  {
    if args != [] {
      TreeReads(args[0]);
      ArgsRead(args[1..]);
      assert ArgTrees(args)[1..] == ArgTrees(args[1..]);
      assert [] + Written(args[0]) == Written(args[0]);
    }
  }

  lemma {:induction false} RowReads(p: Phrase)
    requires WellFormed(p)
    ensures var row := RowTree(OperandTrees(p), p.ops);
      Tightness(row) == RowLevel(p.ops) && Listing(row) == WrittenRow(WrittenOperands(p), p.ops)
    decreases p, 0
  {
    forall i | 0 <= i < |p.operands|
      ensures Tightness(OperandTrees(p)[i]) == HIGHEST_PREC
      ensures Listing(OperandTrees(p)[i]) == WrittenOperands(p)[i]
      ensures BeginsText(p.operands[i]) ==> StartsLikeConcat(OperandTrees(p)[i])
    {
      OperandReads(p.operands[i]);
    }
    RowTightness(OperandTrees(p), p.ops);
    RowListing(OperandTrees(p), p.ops);
    assert Listings(OperandTrees(p)) == WrittenOperands(p);
  }

  lemma {:induction false} TreeReads(p: Phrase)
    requires WellFormed(p)
    ensures Canonical(Tree(p)) && !Tree(p).LeftArrowExpr? && Listing(Tree(p)) == Written(p)
    decreases p, 1
  {
    RowReads(p);
    if p.Choice? {
      var row := RowTree(OperandTrees(p), p.ops);
      TreeReads(p.yes);
      TreeReads(p.no);
      ChoiceReads(row, Tree(p.yes), Tree(p.no));
    }
  }

  lemma ChoiceReads(c: Expr, x: Expr, y: Expr)
    requires Tightness(c) > 1 && Canonical(x) && Canonical(y)
    ensures Canonical(ConditionalExpr(c, x, y))
    ensures Listing(ConditionalExpr(c, x, y)) == Listing(c) + [Question] + Listing(x) + [Colon] + Listing(y)
  {
  }

  /** Whatever is written in the reference grammar is parsed to the tree that it means. */
  lemma ParseOfWritten(p: Phrase)
    requires WellFormed(p)
    ensures ParseTemplate(Written(p)) == Parsed(Tree(p), Stream([], []))
  {
    TreeReads(p);
    TemplateRoundTrip(Tree(p));
  }

  lemma PairTree(l: Expr, r: Expr, op: BinOp)
    ensures RowTree([l, r], [op]) == BinaryExpr(op, l, r)
  {
    assert [l, r][..1] == [l] && [l, r][1..] == [r] && [op][..0] == [] && [op][1..] == [];
  }

  lemma TripleTree(l: Expr, m: Expr, r: Expr, o1: BinOp, o2: BinOp)
    ensures RowTree([l, m, r], [o1, o2]) ==
      if Group(o1) < Group(o2) then BinaryExpr(o1, l, BinaryExpr(o2, m, r))
      else BinaryExpr(o2, BinaryExpr(o1, l, m), r)
  {
    var operands, ops := [l, m, r], [o1, o2];
    if Group(o1) < Group(o2) {
      assert Splitter(ops) == 0;
      assert operands[..1] == [l] && operands[1..] == [m, r] && ops[1..] == [o2] && ops[..0] == [];
      PairTree(m, r, o2);
    } else {
      assert Splitter(ops) == 1;
      assert operands[..2] == [l, m] && operands[2..] == [r] && ops[..1] == [o1] && ops[2..] == [];
      PairTree(l, m, o1);
    }
  }

  /** Two operators: the right one takes the middle operand exactly when its group is the tighter one. */
  lemma TwoOperators(x: Operand, y: Operand, z: Operand, o1: BinOp, o2: BinOp)
    requires WellFormed(Row([x, y, z], [o1, o2]))
    ensures ParseTemplate(Written(Row([x, y, z], [o1, o2]))) ==
      Parsed(if Group(o1) < Group(o2)
             then BinaryExpr(o1, OperandTree(x), BinaryExpr(o2, OperandTree(y), OperandTree(z)))
             else BinaryExpr(o2, BinaryExpr(o1, OperandTree(x), OperandTree(y)), OperandTree(z)), Stream([], []))
  {
    var row := Row([x, y, z], [o1, o2]);
    ParseOfWritten(row);
    TripleTree(OperandTree(x), OperandTree(y), OperandTree(z), o1, o2);
    var operands := [OperandTree(x), OperandTree(y), OperandTree(z)];
    assert OperandTrees(row) == operands;
  }

  /** A choice is looser than every operator and nests to the right: its condition is the whole row in
      front of it, and its last branch all that follows, be it another choice. */
  lemma ChoiceIsLoosest(operands: seq<Operand>, ops: seq<BinOp>, yes: Phrase, no: Phrase)
    requires WellFormed(Row(operands, ops)) && WellFormed(yes) && WellFormed(no)
    ensures ParseTemplate(Written(Row(operands, ops)) + [Question] + Written(yes) + [Colon] + Written(no)) ==
      Parsed(ConditionalExpr(ParseTemplate(Written(Row(operands, ops))).x, ParseTemplate(Written(yes)).x,
                             ParseTemplate(Written(no)).x), Stream([], []))
  {
    ParseOfWritten(Row(operands, ops));
    ParseOfWritten(yes);
    ParseOfWritten(no);
    ParseOfWritten(Choice(operands, ops, yes, no));
  }
}
