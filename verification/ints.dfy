/** Fixed-width unsigned integers of the firmware (a 32-bit ESP32 target),
    modelled as ranges of the unbounded `int`. Wrap-around is written out
    where the firmware relies on it. */
module Ints {

  const U8_LIMIT: int := 0x100
  const U16_LIMIT: int := 0x1_0000
  const U32_LIMIT: int := 0x1_0000_0000

  type u8 = x: int | 0 <= x < U8_LIMIT
  type u16 = x: int | 0 <= x < U16_LIMIT
  type u32 = x: int | 0 <= x < U32_LIMIT

  /** The C conversion `(uint32_t) x`: reduction modulo 2^32. */
  function WrapU32(x: int): (r: u32)
    ensures 0 <= x < U32_LIMIT ==> r == x
    ensures (r - x) % U32_LIMIT == 0
  {
    x % U32_LIMIT
  }

  /** The C conversion `(int8_t) x` of a byte: two's-complement reinterpretation. */
  function AsInt8(x: u8): (r: int)
    ensures -128 <= r < 128
    ensures x < 128 ==> r == x
    ensures (r - x) % U8_LIMIT == 0
  {
    if x < 128 then x else x - U8_LIMIT
  }

  function Min(a: int, b: int): int {
    if a <= b then a else b
  }

  function Max(a: int, b: int): int {
    if a >= b then a else b
  }
}
