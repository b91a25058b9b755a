/** Kotlin's nullable types `T?`: `None` is `null`. */
module Wrappers {

  datatype Option<+T> = None | Some(value: T)
}

/** Kotlin's `Int` (32-bit) and `Long` (64-bit) two's-complement integers. */
module Primitives {

  const INT_MIN: int := -0x8000_0000
  const INT_MAX: int := 0x7FFF_FFFF
  const LONG_MIN: int := -0x8000_0000_0000_0000
  const LONG_MAX: int := 0x7FFF_FFFF_FFFF_FFFF

  type Int32 = x: int | INT_MIN <= x <= INT_MAX witness 0
  type Int64 = x: int | LONG_MIN <= x <= LONG_MAX witness 0
}
