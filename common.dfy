/** Fixed-width integer types, the image-size record and signed unpacking. */
module Common {

  type uint8 = x: int | 0 <= x < 0x100
  type uint16 = x: int | 0 <= x < 0x1_0000
  type uint32 = x: int | 0 <= x < 0x1_0000_0000
  type uint64 = x: int | 0 <= x < 0x1_0000_0000_0000_0000
  type int32 = x: int | -0x8000_0000 <= x < 0x8000_0000

  const U32_LIMIT: nat := 0x1_0000_0000

  /** Width and height of an image or a preview; equality is field-wise. */
  datatype ImageSize = ImageSize(width: uint32, height: uint32)

  /** Integer division rounding toward zero, as Rust's `/` on signed integers. */
  function TruncDiv(a: int, b: nat): (q: int)
    requires b > 0
    ensures a >= 0 ==> q == a / b
    ensures a < 0 ==> q == -((-a) / b)
  {
    if a >= 0 then a / b else -((-a) / b)
  }

  /**
   * `unpack_signed`: an even code maps to a non-positive value and an odd
   * code to a non-negative one, the magnitude being half the code. The
   * intermediate is 64-bit in the source, so nothing overflows.
   */
  function UnpackSigned(v: uint32): (r: int32)
    ensures v % 2 == 0 ==> r == -(v / 2) && r <= 0
    ensures v % 2 == 1 ==> r == v / 2 && r >= 0
    ensures -0x8000_0000 < r
  {
    if v % 2 == 0 then TruncDiv(-(v + 1), 2) else v / 2
  }

  /** A code that `UnpackSigned` maps to `x`; the smallest one. */
  function PackSigned(x: int32): (v: uint32)
    requires -0x8000_0000 < x
  {
    if x <= 0 then -2 * x else 2 * x + 1
  }

  /** Every value but the i32 minimum has a code, and 0 is the only value with two. */
  lemma UnpackSignedPreimages(v: uint32, x: int32)
    requires -0x8000_0000 < x
    ensures UnpackSigned(PackSigned(x)) == x
    ensures UnpackSigned(v) == x <==> v == PackSigned(x) || (x == 0 && v == 1)
  {
  }

  /** The first codes: 0 -> 0, 1 -> 0, 2 -> -1, 3 -> 1, 4 -> -2. */
  lemma UnpackSignedFirstCodes()
    ensures UnpackSigned(0) == 0 && UnpackSigned(1) == 0
    ensures UnpackSigned(2) == -1 && UnpackSigned(3) == 1 && UnpackSigned(4) == -2
  {
  }
}
