/** Types shared by the whole model. */
module Basics {

  /** Nanoseconds on CLOCK_MONOTONIC (`MonotonicTime`). */
  type Time = int

  /** An unsigned byte of the wire format. */
  type Byte = b: int | 0 <= b < 256

  datatype Option<+T> = None | Some(value: T)

  /** Increment an unsigned byte as the hardware does: 255 wraps to 0. */
  function Increment(b: Byte): Byte {
    (b + 1) % 256
  }

  /** A product of positive numbers is positive; the product is named so that the solver need not find it. */
  lemma Positive(a: real, b: real, c: real)
    requires a > 0.0 && b > 0.0 && c == a * b
    ensures c > 0.0
  {
  }
}
