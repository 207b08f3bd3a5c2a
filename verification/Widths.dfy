/** The machine integers and byte strings of the source. */
module Widths {
  const U64_MAX: nat := 0xFFFF_FFFF_FFFF_FFFF
  const I64_MAX: int := 0x7FFF_FFFF_FFFF_FFFF
  const I64_MIN: int := -0x8000_0000_0000_0000

  type u8 = x: int | 0 <= x <= 255
  type u64 = x: int | 0 <= x <= U64_MAX
  type i64 = x: int | I64_MIN <= x <= I64_MAX

  /** A public key or a 256-bit digest. */
  type Bytes32 = s: seq<u8> | |s| == 32 witness seq(32, _ => 0)
}
