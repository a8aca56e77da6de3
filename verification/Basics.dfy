/** What several parts share: optional values, bytes, 64-bit arithmetic. */
module Basics {
  datatype Option<+T> = None | Some(value: T)

  type byte = x: int | 0 <= x < 256
  type Bytes = seq<byte>

  /** A predicate of the form `forall seal :: ...` is unfolded only where a proof mentions this value. */
  datatype Seal = Seal

  // ----- 64-bit integers -----

  const TWO_63 := 0x8000_0000_0000_0000
  const MIN_INT64 := -0x8000_0000_0000_0000

  predicate Int64(x: int) {
    MIN_INT64 <= x < TWO_63
  }

  /** What is left of an integer in 64 bits with sign. */
  function Wrap64(x: int): (r: int)
    ensures Int64(r)
  {
    (x + TWO_63) % (2 * TWO_63) - TWO_63
  }

  lemma WrapSmall(x: int)
    ensures Int64(x) <==> Wrap64(x) == x
  {
  }
}
