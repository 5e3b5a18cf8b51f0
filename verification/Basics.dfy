/** Types shared by every part of the model: bytes, hashes, options and results. */
module Basics {

  type byte = x: int | 0 <= x < 256

  type bytes = seq<byte>

  /** bc.Hash is a 256-bit value; its Bytes() and NewHash are inverse, so it is modelled by its 32 bytes. */
  type Hash = s: bytes | |s| == 32 witness [0, 0, 0, 0, 0, 0, 0, 0, 0, 0, 0, 0, 0, 0, 0, 0, 0, 0, 0, 0, 0, 0, 0, 0, 0, 0, 0, 0, 0, 0, 0, 0]

  const ZERO_HASH: Hash :=
    [0, 0, 0, 0, 0, 0, 0, 0, 0, 0, 0, 0, 0, 0, 0, 0, 0, 0, 0, 0, 0, 0, 0, 0, 0, 0, 0, 0, 0, 0, 0, 0]

  datatype Option<+T> = None | Some(value: T)

  const MAX_INT64: int := 0x7fff_ffff_ffff_ffff
  const MIN_INT64: int := -0x8000_0000_0000_0000
  const TWO_64: int := 0x1_0000_0000_0000_0000
  const TWO_32: int := 0x1_0000_0000
  const MAX_INT32: int := 0x7fff_ffff

  predicate InInt64(n: int)
  {
    MIN_INT64 <= n <= MAX_INT64
  }

  /** int64(x) of a uint64. */
  function AsSigned(x: nat): int
  {
    if x <= MAX_INT64 then x else x - TWO_64
  }

  function Pow2(n: nat): (p: nat)
    ensures p > 0
  {
    if n == 0 then 1 else 2 * Pow2(n - 1)
  }
}
