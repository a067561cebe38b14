/** Unsigned 64-bit integers, as `uint64_t` and `size_t` are on the target. */
module Uint {

  const U64_LIMIT: int := 0x1_0000_0000_0000_0000

  type u64 = x: int | 0 <= x < U64_LIMIT

  /** `a - b` on `uint64_t`: the difference wraps around modulo 2^64. */
  function Sub64(a: u64, b: u64): (r: u64)
    ensures (b + r) % U64_LIMIT == a
    ensures r == 0 <==> a == b
    ensures b <= a ==> r == a - b
    ensures a < b ==> r > a
  {
    if b <= a then a - b else a - b + U64_LIMIT
  }
}
