/** Unsigned machine arithmetic used by both lexer drafts: their iterators count
    tokens in a `size_t`, which wraps around modulo 2^64. */
module Platform {

  /** The largest `size_t` value, `std::numeric_limits<size_t>::max()` on a 64-bit target. */
  const SizeMax: int := 0xFFFF_FFFF_FFFF_FFFF

  /** A `size_t` value. */
  type Size = p: int | 0 <= p <= SizeMax

  /** `++p` on a `size_t`: one more, wrapping from the largest value back to zero. */
  function SizeInc(p: Size): (q: Size)
    ensures q == (p + 1) % (SizeMax + 1)
  {
    if p == SizeMax then 0 else p + 1
  }
}
