/** Numbers that several components take from their formats. */
module Interop {
  /** The largest integer that JSON readers carry exactly, 2^53 - 1. */
  const MAX_SAFE_INTEGER: nat := 9_007_199_254_740_991

  /** The zero instant of the clock in milliseconds, which no valid reading is. */
  const ZERO_TIME: int := -62_135_596_800_000
}
