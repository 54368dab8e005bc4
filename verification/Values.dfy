/** Template values and the operators on them. */
module Values {
  import opened Tokens
  import opened Ast
  import Arithmetic

  /** A value of template data. A stream is what gives access to streamed messages by index. */
  datatype Value =
    | Nil
    | Bool(b: bool)
    | Int(i: Arithmetic.Int64)
    | Uint(u: Arithmetic.Uint64)
    | Str(s: string)
    | Object(fields: map<string, Value>)
    | List(items: seq<Value>)
    | Stream(id: nat)
    | Function(name: string)

  /** How an evaluation ends. `NotDefined` is an error too, but one that says that a value is
      definitively absent; `Suspended` means that it waits for the value of `$`. */
  datatype Out = Val(v: Value) | NotDefined | Failed | Suspended

  function OfInt(r: Arithmetic.Result<Arithmetic.Int64>): (out: Out)
    ensures !out.Suspended?
  {
    if r.Error? then Failed else Val(Int(r.value))
  }

  function OfUint(r: Arithmetic.Result<Arithmetic.Uint64>): (out: Out)
    ensures !out.Suspended?
  {
    if r.Error? then Failed else Val(Uint(r.value))
  }

  function Unary(op: UnaryOp, x: Value): (out: Out)
    ensures !out.Suspended?
  {
    if op == Neg && x.Int? then OfInt(Arithmetic.Neg(x.i))
    else if op == LogicalNot && x.Bool? then Val(Bool(!x.b))
    else Failed
  }

  function Equal(x: Value, y: Value): (out: Out)
    ensures !out.Suspended?
  {
    if x.Object? || x.List? || x.Function? then Failed // not comparable
    else if x.Stream? then Val(Bool(x == y))
    else if (x.Nil? && y.Nil?) || (x.Bool? && y.Bool?) || (x.Int? && y.Int?) || (x.Uint? && y.Uint?)
            || (x.Str? && y.Str?) then Val(Bool(x == y))
    else Failed
  }

  datatype Order = Less | Same | Greater | Unordered

  function IntOrder(x: int, y: int): Order {
    if x < y then Less else if x > y then Greater else Same
  }

  function TextOrder(x: string, y: string): Order {
    if x == y then Same
    else if x == "" then Less
    else if y == "" then Greater
    else if x[0] != y[0] then IntOrder(x[0] as int, y[0] as int)
    else TextOrder(x[1..], y[1..])
  }

  function Compare(x: Value, y: Value): Order {
    if x.Int? && y.Int? then IntOrder(x.i, y.i)
    else if x.Uint? && y.Uint? then IntOrder(x.u, y.u)
    else if x.Str? && y.Str? then TextOrder(x.s, y.s)
    else Unordered
  }

  function OneOf(o: Order, among: set<Order>): (out: Out)
    ensures !out.Suspended?
  {
    if o == Unordered then Failed else Val(Bool(o in among))
  }

  function Decimal(n: int): string {
    if n < 0 then ['-'] + Digits(-n) else Digits(n)
  }

  function Digits(n: nat): string {
    (if n < 10 then [] else Digits(n / 10)) + [('0' as int + n % 10) as char]
  }

  /** The operand of a concatenation as text, where it has one. */
  function AsText(x: Value): Value {
    if x.Int? then Str(Decimal(x.i)) else if x.Uint? then Str(Decimal(x.u)) else x
  }

  function Plus(x: Value, y: Value): (out: Out)
    ensures !out.Suspended?
  {
    if x.Int? && y.Int? then OfInt(Arithmetic.Add(x.i, y.i))
    else if x.Uint? && y.Uint? then OfUint(Arithmetic.UintAdd(x.u, y.u))
    else if x.Str? && y.Str? then Val(Str(x.s + y.s))
    else Failed
  }

  function Arith(op: BinOp, x: Value, y: Value): (out: Out)
    ensures !out.Suspended?
  {
    if x.Int? && y.Int? then
      if op == Sub then OfInt(Arithmetic.Sub(x.i, y.i))
      else if op == Mul then OfInt(Arithmetic.Mul(x.i, y.i))
      else if op == Quo then OfInt(Arithmetic.Div(x.i, y.i))
      else OfInt(Arithmetic.Mod(x.i, y.i))
    else if x.Uint? && y.Uint? then
      if op == Sub then OfUint(Arithmetic.UintSub(x.u, y.u))
      else if op == Mul then OfUint(Arithmetic.UintMul(x.u, y.u))
      else if op == Quo then OfUint(Arithmetic.UintDiv(x.u, y.u))
      else OfUint(Arithmetic.UintMod(x.u, y.u))
    else Failed
  }

  /** Both operands have been evaluated, also those of the logical operators. */
  function Binary(op: BinOp, x: Value, y: Value): (out: Out)
    ensures !out.Suspended?
  {
    match op
    case Eql => Equal(x, y)
    case Neq => var o := Equal(x, y); if o.Val? && o.v.Bool? then Val(Bool(!o.v.b)) else o
    case Lss => OneOf(Compare(x, y), {Less})
    case Leq => OneOf(Compare(x, y), {Less, Same})
    case Gtr => OneOf(Compare(x, y), {Greater})
    case Geq => OneOf(Compare(x, y), {Greater, Same})
    case Concat => Plus(AsText(x), AsText(y))
    case Add => Plus(x, y)
    case Sub => Arith(op, x, y)
    case Mul => Arith(op, x, y)
    case Quo => Arith(op, x, y)
    case Rem => Arith(op, x, y)
    case LAnd => if x.Bool? && y.Bool? then Val(Bool(x.b && y.b)) else Failed
    case LOr => if x.Bool? && y.Bool? then Val(Bool(x.b || y.b)) else Failed
    case Coalescing => Failed
  }

  /** An integer literal as the scanner makes them: digits without a leading zero, which would stand
      for another base. */
  predicate IsDecimal(text: string) {
    text != "" && (|text| > 1 ==> text[0] != '0') && forall c <- text :: '0' <= c <= '9'
  }

  function ParseInt(text: string): Arithmetic.Result<Arithmetic.Int64> {
    if !IsDecimal(text) then Arithmetic.Error
    else Arithmetic.ExactOrError(DecimalValue(text))
  }

  function DecimalValue(text: string): int {
    if text == "" then 0
    else 10 * DecimalValue(text[..|text| - 1]) + (text[|text| - 1] as int - '0' as int)
  }

  function Literal(kind: LitKind, text: string): (out: Out)
    ensures !out.Suspended?
  {
    match kind
    case STRING => Val(Str(text))
    case INT => OfInt(ParseInt(text))
    case BOOL => if text == "true" then Val(Bool(true)) else if text == "false" then Val(Bool(false)) else Failed
    case NIL => Val(Nil)
    case FLOAT => Failed // floats are not part of this model
  }

  /** The text of a number that does not fall short of zero is a literal for it. */
  lemma DecimalRoundTrip(n: nat)
    requires Arithmetic.Fits(n)
    ensures ParseInt(Decimal(n)) == Arithmetic.Exact(n)
  {
    DigitsValue(n);
  }

  lemma {:induction false} DigitsValue(n: nat)
    ensures IsDecimal(Digits(n)) && DecimalValue(Digits(n)) == n && (n > 0 ==> Digits(n)[0] != '0')
  {
    var last := ('0' as int + n % 10) as char;
    var before := if n < 10 then [] else Digits(n / 10);
    assert Digits(n) == before + [last] && '0' <= last <= '9';
    if n >= 10 {
      DigitsValue(n / 10);
    }
    AnotherDigit(before, last);
  }

  lemma AnotherDigit(text: string, c: char)
    requires (text == "" || (IsDecimal(text) && text[0] != '0')) && '0' <= c <= '9'
    ensures IsDecimal(text + [c]) && DecimalValue(text + [c]) == 10 * DecimalValue(text) + (c as int - '0' as int)
  {
    assert (text + [c])[..|text|] == text;
  }
}
