/** The fixed-width integer types of the Rust source, as bounded newtypes. */
module Ints {

  const U64_LIMIT: int := 0x1_0000_0000_0000_0000

  newtype u8 = x: int | 0 <= x < 0x100
  newtype u64 = x: int | 0 <= x < 0x1_0000_0000_0000_0000
  newtype i64 = x: int | -0x8000_0000_0000_0000 <= x < 0x8000_0000_0000_0000

  /** `usize` on the 64-bit targets the workers run on. */
  type usize = u64

  /** Raw bytes (`Vec<u8>`, `&[u8]`). */
  type Bytes = seq<u8>
}
