/** The bounds of `size_t`, the unsigned type of the containers' lengths and
    indices, on a 64-bit target. */
module SizeT {

  /** The largest `size_t` value: what `size - 1` becomes when `size` is 0. */
  const SizeMax: nat := 0xFFFF_FFFF_FFFF_FFFF
}
