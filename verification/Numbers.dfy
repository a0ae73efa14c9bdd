/** The number ranges that the servers work with. */
module Numbers {
  /** Number.MAX_SAFE_INTEGER */
  const MAX_SAFE_INTEGER := 0x1F_FFFF_FFFF_FFFF

  predicate IsSafeInteger(n: int) {
    -MAX_SAFE_INTEGER <= n <= MAX_SAFE_INTEGER
  }

  type byte = x: int | 0 <= x < 256
}
