/** Machine integers and the floor-division facts the program's arithmetic rests on. */
module Numbers {

  const U8_MAX: int := 0xff
  const U16_MAX: int := 0xffff
  const U32_MAX: int := 0xffff_ffff
  const U64_MAX: int := 0xffff_ffff_ffff_ffff
  const U128_MAX: int := 0xffff_ffff_ffff_ffff_ffff_ffff_ffff_ffff
  const I64_MIN: int := -0x8000_0000_0000_0000
  const I64_MAX: int := 0x7fff_ffff_ffff_ffff

  type U8 = n: int | 0 <= n <= U8_MAX
  type U16 = n: int | 0 <= n <= U16_MAX
  type U32 = n: int | 0 <= n <= U32_MAX
  type U64 = n: int | 0 <= n <= U64_MAX
  type U128 = n: int | 0 <= n <= U128_MAX
  type I64 = n: int | I64_MIN <= n <= I64_MAX

  function Min(a: int, b: int): int {
    if a <= b then a else b
  }

  function Max(a: int, b: int): int {
    if a <= b then b else a
  }

  lemma FloorBounds(a: nat, b: nat)
    requires b > 0
    ensures 0 <= a / b * b <= a < a / b * b + b
  {
  }

  lemma MulLe(a: nat, b: nat, c: nat)
    requires a <= b
    ensures a * c <= b * c && c * a <= c * b
  {
  }

  lemma Distribute(c: int, a: int, b: int)
    ensures c * (a + b) == c * a + c * b == (a + b) * c
    ensures c * (a - b) == c * a - c * b == (a - b) * c
  {
  }

  lemma Swap(a: int, b: int, c: int)
    ensures a * (b * c) == b * (a * c) == (a * b) * c
  {
  }

  lemma MulLt(a: int, b: int, c: int)
    requires a < b && c > 0
    ensures c * a < c * b && a * c < b * c
  {
    MulLePositive(b - a, c);
    Distribute(c, b, a);
  }

  lemma MulLePositive(d: int, c: int)
    requires c > 0
    ensures d > 0 ==> d * c > 0
    ensures d >= 0 ==> d * c >= 0
  {
  }

  /** Cancelling a positive common factor. */
  lemma CancelLe(a: int, b: int, c: int)
    requires c > 0 && a * c <= b * c
    ensures a <= b
  {
    MulLePositive(a - b, c);
  }

  lemma CancelLt(a: int, b: int, c: int)
    requires c > 0 && a * c < b * c
    ensures a < b
  {
    MulLePositive(a - b, c);
  }

  function Div(a: nat, b: nat): (q: nat)
    requires b != 0
    ensures q <= a
  {
    DivNoLarger(a, b);
    a / b
  }

  lemma DivNoLarger(a: nat, b: nat)
    requires b != 0
    ensures 0 <= a / b <= a
  {
    MulLe(1, b, a + 1);
    FloorBounds(a, b);
    CancelLt(a / b, a + 1, b);
  }

  /** A quotient is the largest number whose multiple fits. */
  lemma QuotientLe(a: nat, b: nat, q: nat)
    requires b > 0 && a < (q + 1) * b
    ensures a / b <= q
  {
    FloorBounds(a, b);
    CancelLt(a / b, q + 1, b);
  }

  lemma QuotientGe(a: nat, b: nat, q: nat)
    requires b > 0 && q * b <= a
    ensures q <= a / b
  {
    FloorBounds(a, b);
    CancelLt(q, a / b + 1, b);
  }

  lemma QuotientMonotone(a: nat, c: nat, b: nat)
    requires b > 0 && a <= c
    ensures a / b <= c / b
  {
    FloorBounds(a, b);
    QuotientGe(c, b, a / b);
  }

  /** A product of two u64 values fits u128. */
  lemma ProductFitsU128(a: int, b: int)
    requires 0 <= a <= U64_MAX && 0 <= b <= U64_MAX
    ensures 0 <= a * b <= U64_MAX * U64_MAX < U128_MAX
  {
    MulLe(a, U64_MAX, b);
    MulLe(b, U64_MAX, U64_MAX);
  }
}
