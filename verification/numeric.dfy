/**
 * Fixed-width Rust integers and the `as` casts the decoders apply.
 *
 * Dafny integers are unbounded; the widths are subset types and the casts are
 * written out.  `%` on `int` is Euclidean in Dafny, which is exactly two's
 * complement truncation for negative operands.
 */
module Numeric {

  const TwoTo32: int := 0x1_0000_0000
  const TwoTo31: int := 0x8000_0000

  type u8 = x: int | 0 <= x < 0x100
  type u16 = x: int | 0 <= x < 0x1_0000
  type u32 = x: int | 0 <= x < 0x1_0000_0000
  type u64 = x: int | 0 <= x < 0x1_0000_0000_0000_0000
  type u128 = x: int | 0 <= x < 0x1_0000_0000_0000_0000_0000_0000_0000_0000
  type i8 = x: int | -0x80 <= x < 0x80
  type i16 = x: int | -0x8000 <= x < 0x8000
  type i32 = x: int | -0x8000_0000 <= x < 0x8000_0000
  type i64 = x: int | -0x8000_0000_0000_0000 <= x < 0x8000_0000_0000_0000
  type i128 = x: int | -0x8000_0000_0000_0000_0000_0000_0000_0000 <= x < 0x8000_0000_0000_0000_0000_0000_0000_0000

  /** `usize` on a 64-bit target. */
  const UsizeMax: nat := 0xFFFF_FFFF_FFFF_FFFF

  /** `v as u32` for any integer `v`: keep the low 32 bits. */
  function AsU32(v: int): (r: u32)
    ensures (r - v) % TwoTo32 == 0
    ensures 0 <= v < TwoTo32 ==> r == v
  {
    v % TwoTo32
  }

  /** `v as i32` for any integer `v`: keep the low 32 bits, read them as two's complement. */
  function AsI32(v: int): (r: i32)
    ensures (r - v) % TwoTo32 == 0
    ensures -TwoTo31 <= v < TwoTo31 ==> r == v
  {
    var w := v % TwoTo32;
    if w >= TwoTo31 then w - TwoTo32 else w
  }

  /** Casting to `u32` first and then to `i32` is the same as casting straight to `i32`. */
  lemma AsI32ThroughU32(v: int)
    ensures AsI32(AsU32(v)) == AsI32(v)
  {
  }
}
