/** Shared vocabulary: an optional value, Go's 64-bit signed integers and
    their wrap-around arithmetic, and Go's `error` values. */
module Basics {

  /** A present or absent value; stands for Go's nil-able values. */
  datatype Option<+T> = None | Some(value: T)

  const MinInt64: int := -0x8000_0000_0000_0000
  const MaxInt64: int := 0x7FFF_FFFF_FFFF_FFFF
  const TwoTo64: int := 0x1_0000_0000_0000_0000

  /** Go's `int64` (and `int`, on the 64-bit platforms the library targets). */
  type Int64 = x: int | MinInt64 <= x <= MaxInt64

  /** Two's-complement wrap-around of a mathematical integer into 64 bits,
      as Go's integer arithmetic does silently on overflow. */
  function Wrap64(x: int): (r: Int64)
    ensures MinInt64 <= x <= MaxInt64 ==> r == x
    ensures (x - r) % TwoTo64 == 0
  {
    (x - MinInt64) % TwoTo64 + MinInt64
  }

  /** A Go `error`: only its message is observable. */
  datatype Error = Error(message: string)
}
