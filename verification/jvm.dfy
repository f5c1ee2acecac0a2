/** Kotlin/JVM primitives the module relies on: the fixed-width integer types,
    nullable values, and exceptions as values. */
module Jvm {

  const IntMin: int := -0x8000_0000
  const IntMax: int := 0x7FFF_FFFF
  const LongMin: int := -0x8000_0000_0000_0000
  const LongMax: int := 0x7FFF_FFFF_FFFF_FFFF

  /** Kotlin `Int` (32-bit two's complement). */
  type int32 = x: int | IntMin <= x <= IntMax

  /** Kotlin `Long` (64-bit two's complement): epoch milliseconds and durations. */
  type int64 = x: int | LongMin <= x <= LongMax

  /** Reduces a mathematical integer to the `Long` that JVM arithmetic yields,
      wrapping around modulo 2^64. */
  function WrapLong(x: int): (r: int64)
    ensures LongMin <= x <= LongMax ==> r == x
    ensures (r - x) % 0x1_0000_0000_0000_0000 == 0
  {
    var m := (x - LongMin) % 0x1_0000_0000_0000_0000;
    m + LongMin
  }

  /** A Kotlin nullable value `T?`. */
  datatype Option<+T> = None | Some(value: T)

  /** An exception object; its contents are opaque to the module, which only
      passes it on as the cause of a rejection. */
  datatype Cause = Cause(description: string)

  /** The outcome of a call into the platform: it returned a value or it threw. */
  datatype Attempt<+T> = Returned(value: T) | Threw(cause: Cause)
}
