/**
 * Go's fixed-width signed integers. Go defines signed overflow as two's-complement
 * wrap-around and integer division as truncation toward zero; both are written out
 * here because Dafny's `int` is unbounded and its `/` is Euclidean.
 */
module GoInts {

  const MinInt32: int := -0x8000_0000
  const MaxInt32: int := 0x7fff_ffff
  const MinInt64: int := -0x8000_0000_0000_0000
  const MaxInt64: int := 0x7fff_ffff_ffff_ffff

  newtype int32 = x: int | -0x8000_0000 <= x < 0x8000_0000
  newtype int64 = x: int | -0x8000_0000_0000_0000 <= x < 0x8000_0000_0000_0000

  /** The int32 that a Go conversion or an int32 operation yields for the mathematical value `x`. */
  function Wrap32(x: int): (r: int32)
    ensures MinInt32 <= x <= MaxInt32 ==> r as int == x
    ensures (r as int - x) % 0x1_0000_0000 == 0
  {
    var m := x % 0x1_0000_0000;
    if m <= MaxInt32 then m as int32 else (m - 0x1_0000_0000) as int32
  }

  /** The int64 that an int64 operation yields for the mathematical value `x`. */
  function Wrap64(x: int): (r: int64)
    ensures MinInt64 <= x <= MaxInt64 ==> r as int == x
    ensures (r as int - x) % 0x1_0000_0000_0000_0000 == 0
  {
    var m := x % 0x1_0000_0000_0000_0000;
    if m <= MaxInt64 then m as int64 else (m - 0x1_0000_0000_0000_0000) as int64
  }

  /** Go's `a / b` for a positive divisor: the quotient truncated toward zero. */
  function GoQuot(a: int, b: int): (q: int)
    requires b > 0
    ensures a >= 0 ==> 0 <= q * b <= a < q * b + b
    ensures a < 0 ==> q * b - b < a <= q * b <= 0
  {
    if a >= 0 then
      EuclidBounds(a, b);
      a / b
    else
      EuclidBounds(-a, b);
      NegatedProduct((-a) / b, b);
      -((-a) / b)
  }

  /** For non-negative dividends the Euclidean quotient is the truncated one. */
  lemma EuclidBounds(a: int, b: int)
    requires a >= 0 && b > 0
    ensures 0 <= (a / b) * b <= a < (a / b) * b + b
  {
    var d := a / b;
    assert a == d * b + a % b;
  }

  lemma NegatedProduct(d: int, b: int)
    ensures (-d) * b == -(d * b)
  {
  }

  lemma MulMonotone(a: int, b: int, c: int)
    requires a <= b && c > 0
    ensures a * c <= b * c
  {
    assert b * c - a * c == (b - a) * c;
  }

  /** A product with a positive factor has the sign of the other factor. */
  lemma ProductSignInv(x: int, c: int)
    requires c > 0 && x * c < 0
    ensures x < 0
  {
  }
}
