/** The 64-bit operations of template values.

    `Wrap` and `WrapUnsigned` are what the machine operations of the implementation language do to
    a result that does not fit; division truncates towards zero. */
module Arithmetic {

  const MAX_INT64 := 0x7FFF_FFFF_FFFF_FFFF
  const MIN_INT64 := -0x8000_0000_0000_0000
  const MAX_UINT64 := 0xFFFF_FFFF_FFFF_FFFF
  const TWO_64 := 0x1_0000_0000_0000_0000

  type Int64 = n: int | MIN_INT64 <= n <= MAX_INT64
  type Uint64 = n: int | 0 <= n <= MAX_UINT64

  datatype Result<T> = Exact(value: T) | Error

  predicate Fits(n: int) {
    MIN_INT64 <= n <= MAX_INT64
  }

  predicate FitsUnsigned(n: int) {
    0 <= n <= MAX_UINT64
  }

  function Wrap(n: int): Int64 {
    (n - MIN_INT64) % TWO_64 + MIN_INT64
  }

  function WrapUnsigned(n: int): Uint64 {
    n % TWO_64
  }

  /** The quotient rounded towards zero, and the remainder that goes with it. */
  function Quotient(x: int, y: int): int
    requires y != 0
  {
    var q := Abs(x) / Abs(y);
    if (x < 0) == (y < 0) then q else -q
  }

  function Abs(x: int): nat {
    if x < 0 then -x else x
  }

  function Remainder(x: int, y: int): int
    requires y != 0
  {
    x - y * Quotient(x, y)
  }

  function Neg(x: Int64): Result<Int64> {
    if x == MIN_INT64 then Error else Exact(Wrap(-x))
  }

  function Add(x: Int64, y: Int64): Result<Int64> {
    if (y > 0 && x > Wrap(MAX_INT64 - y)) || (y < 0 && x < Wrap(MIN_INT64 - y)) then Error
    else Exact(Wrap(x + y))
  }

  function Sub(x: Int64, y: Int64): Result<Int64> {
    if (y < 0 && x > Wrap(MAX_INT64 + y)) || (y > 0 && x < Wrap(MIN_INT64 + y)) then Error
    else Exact(Wrap(x - y))
  }

  function Mul(x: Int64, y: Int64): Result<Int64> {
    if (x > 0 && y > 0 && x > Wrap(Quotient(MAX_INT64, y)))
       || (x < 0 && y < 0 && x < Wrap(Quotient(MAX_INT64, y)))
       || (x > 0 && y < 0 && y < Wrap(Quotient(MIN_INT64, x)))
       || (x < 0 && y > 0 && x < Wrap(Quotient(MIN_INT64, y)))
    then Error
    else Exact(Wrap(x * y))
  }

  function Div(x: Int64, y: Int64): Result<Int64> {
    if y == 0 then Error else Exact(Wrap(Quotient(x, y)))
  }

  function Mod(x: Int64, y: Int64): Result<Int64> {
    if y == 0 then Error else Exact(Wrap(Remainder(x, y)))
  }

  function UintAdd(x: Uint64, y: Uint64): Result<Uint64> {
    if y > 0 && x > WrapUnsigned(MAX_UINT64 - y) then Error else Exact(WrapUnsigned(x + y))
  }

  function UintSub(x: Uint64, y: Uint64): Result<Uint64> {
    if x < y then Error else Exact(WrapUnsigned(x - y))
  }

  /** The bound is computed by a division, which panics for a zero operand; evaluation turns the
      panic into an error. */
  function UintMul(x: Uint64, y: Uint64): Result<Uint64> {
    if y == 0 then Error
    else if x > MAX_UINT64 / y then Error
    else Exact(WrapUnsigned(x * y))
  }

  function UintDiv(x: Uint64, y: Uint64): Result<Uint64> {
    if y == 0 then Error else Exact(x / y)
  }

  function UintMod(x: Uint64, y: Uint64): Result<Uint64> {
    if y == 0 then Error else Exact(x % y)
  }

  /** The exact result if it is a 64-bit integer, an error otherwise. */
  function ExactOrError(n: int): Result<Int64> {
    if Fits(n) then var m: Int64 := n; Exact(m) else Error
  }

  function UnsignedExactOrError(n: int): Result<Uint64> {
    if FitsUnsigned(n) then var m: Uint64 := n; Exact(m) else Error
  }

  lemma NegExact(x: Int64)
    ensures Neg(x) == ExactOrError(0 - x)
  {
  }

  lemma AddExact(x: Int64, y: Int64)
    ensures Add(x, y) == ExactOrError(x + y)
  {
  }

  lemma SubExact(x: Int64, y: Int64)
    ensures Sub(x, y) == ExactOrError(x - y)
  {
  }

  lemma Multiply(a: nat, b: nat, c: nat)
    requires a <= b
    ensures a * c <= b * c
  {
  }

  /** What the quotient `q` of `n` by `b` says of a factor `a`, for any remainder `r`. */
  lemma FactorBound(a: nat, b: nat, n: nat, q: int, r: int)
    requires b > 0 && n == q * b + r && 0 <= r < b
    ensures a <= q <==> a * b <= n
    ensures 0 <= q <= n
  {
    if q < 0 {
      Multiply(1, -q, b);
      assert false;
    }
    Multiply(1, b, q);
    if a <= q {
      Multiply(a, q, b);
    } else {
      Multiply(q + 1, a, b);
    }
  }

  /** A product stays below a bound exactly when one factor stays below the bound's quotient. */
  lemma ProductBound(a: nat, b: nat, bound: nat)
    requires b > 0
    ensures a <= bound / b <==> a * b <= bound
    ensures 0 <= bound / b <= bound
  {
    FactorBound(a, b, bound, bound / b, bound % b);
  }

  lemma SameSignProduct(x: int, y: int)
    ensures Abs(x) * Abs(y) == Abs(x * y)
    ensures x != 0 && y != 0 ==> (x * y < 0 <==> (x < 0) != (y < 0))
  {
  }

  /** The size of a quotient is the quotient of the sizes. */
  lemma QuotientSize(x: int, y: int)
    requires y != 0
    ensures Abs(Quotient(x, y)) == Abs(x) / Abs(y) <= Abs(x)
  {
    ProductBound(0, Abs(y), Abs(x));
  }

  lemma MulExactPositive(x: Int64, y: Int64)
    requires x > 0 && y > 0
    ensures Mul(x, y) == ExactOrError(x * y)
  {
    SameSignProduct(x, y);
    ProductBound(x, y, MAX_INT64);
    var q := MAX_INT64 / y;
    assert Quotient(MAX_INT64, y) == q && Wrap(q) == q;
    assert x * y > 0;
  }

  lemma MulExactNegative(x: Int64, y: Int64)
    requires x < 0 && y < 0
    ensures Mul(x, y) == ExactOrError(x * y)
  {
    SameSignProduct(x, y);
    ProductBound(Abs(x), Abs(y), MAX_INT64);
    QuotientSize(MAX_INT64, y);
  }

  lemma MulExactSecondNegative(x: Int64, y: Int64)
    requires x > 0 > y
    ensures Mul(x, y) == ExactOrError(x * y)
  {
    SameSignProduct(x, y);
    ProductBound(Abs(y), Abs(x), Abs(MIN_INT64));
    QuotientSize(MIN_INT64, x);
  }

  lemma MulExactFirstNegative(x: Int64, y: Int64)
    requires x < 0 < y
    ensures Mul(x, y) == ExactOrError(x * y)
  {
    SameSignProduct(x, y);
    ProductBound(Abs(x), Abs(y), Abs(MIN_INT64));
    QuotientSize(MIN_INT64, y);
  }

  lemma MulExact(x: Int64, y: Int64)
    ensures Mul(x, y) == ExactOrError(x * y)
  {
    if x == 0 || y == 0 {
      assert x * y == 0;
    } else if x > 0 && y > 0 {
      MulExactPositive(x, y);
    } else if x < 0 && y < 0 {
      MulExactNegative(x, y);
    } else if y < 0 {
      MulExactSecondNegative(x, y);
    } else {
      MulExactFirstNegative(x, y);
    }
  }

  /** Quotient and remainder are those of division that truncates towards zero. */
  lemma QuotientRemainder(x: int, y: int)
    requires y != 0
    ensures x == y * Quotient(x, y) + Remainder(x, y)
    ensures Abs(Remainder(x, y)) < Abs(y)
    ensures Remainder(x, y) != 0 ==> (Remainder(x, y) < 0 <==> x < 0)
  {
    var q := Abs(x) / Abs(y);
    var r := Abs(x) % Abs(y);
    assert Abs(x) == Abs(y) * q + r;
    if (x < 0) == (y < 0) {
      assert y * q == if y < 0 then -(Abs(y) * q) else Abs(y) * q;
    } else {
      assert y * -q == if y < 0 then Abs(y) * q else -(Abs(y) * q);
    }
  }

  /** Division is exact but for one pair of operands, which the implementation does not guard. */
  lemma DivExact(x: Int64, y: Int64)
    ensures (Div(x, y) == if y == 0 then Error else ExactOrError(Quotient(x, y)))
      <==> !(x == MIN_INT64 && y == -1)
  {
    if y != 0 {
      QuotientSize(x, y);
      if Abs(y) > 1 {
        HalfOrLess(Abs(x), Abs(y));
      }
    }
  }

  lemma HalfOrLess(a: nat, b: nat)
    requires b > 1
    ensures a / b <= a / 2
  {
    var q := a / b;
    ProductBound(q, b, a);
    Multiply(2, b, q);
    ProductBound(q, 2, a);
  }

  lemma DivWraps()
    ensures Div(MIN_INT64, -1) == Exact(MIN_INT64) && Quotient(MIN_INT64, -1) == MAX_INT64 + 1
  {
  }

  lemma ModExact(x: Int64, y: Int64)
    ensures Mod(x, y) == if y == 0 then Error else Exact(Remainder(x, y))
  {
    if y != 0 {
      QuotientRemainder(x, y);
    }
  }

  lemma UintAddExact(x: Uint64, y: Uint64)
    ensures UintAdd(x, y) == UnsignedExactOrError(x + y)
  {
  }

  lemma UintSubExact(x: Uint64, y: Uint64)
    ensures UintSub(x, y) == UnsignedExactOrError(x - y)
  {
  }

  lemma UintMulExact(x: Uint64, y: Uint64)
    ensures UintMul(x, y) == if y == 0 then Error else UnsignedExactOrError(x * y)
  {
    if y != 0 {
      ProductBound(x, y, MAX_UINT64);
    }
  }
}
