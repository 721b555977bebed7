/** Shared vocabulary: optional values, results and Go's fixed-width unsigned integers. */
module Base {

  datatype Option<+T> = None | Some(value: T)

  datatype Result<+T, +E> = Ok(value: T) | Err(error: E)

  const TWO_32: int := 0x1_0000_0000
  const TWO_64: int := 0x1_0000_0000_0000_0000

  type U32 = x: int | 0 <= x < TWO_32
  type U64 = x: int | 0 <= x < TWO_64

  /** Go's wrapping addition on uint64. */
  function Add64(a: U64, b: U64): U64 {
    (a + b) % TWO_64
  }

  /** A `*big.Int`: `None` is the nil pointer. */
  type BigInt = Option<int>

  predicate Positive(n: BigInt) {
    n.Some? && n.value > 0
  }
}
