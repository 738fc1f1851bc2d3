/** Machine words: the widths that the C declarations give to sequence numbers, counters and octets. */
module Words {
  const MOD32: nat := 0x1_0000_0000

  type byte = x: int | 0 <= x < 0x100
  type u8 = x: int | 0 <= x < 0x100
  type u16 = x: int | 0 <= x < 0x1_0000
  type u32 = x: int | 0 <= x < 0x1_0000_0000

  /** The value left in a `uint32_t` after assigning `x` to it. */
  function U32(x: int): u32 {
    if 0 <= x < MOD32 then x else x % MOD32
  }

  /** The value left in a `uint8_t` after assigning `x` to it. */
  function U8(x: int): u8 {
    if 0 <= x < 0x100 then x else x % 0x100
  }

  function Min(x: int, y: int): int {
    if x > y then y else x
  }

  function Max(x: int, y: int): int {
    if x < y then y else x
  }

  datatype Option<+T> = None | Some(value: T)
}
