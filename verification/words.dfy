/**
 * Fixed-width unsigned integers of the firmware (`uint8_t`, `uint16_t`,
 * `uint32_t`) as subset types of `int`, and the C conversions between them.
 * A C conversion to an unsigned type reduces modulo 2^width; where the
 * firmware relies on that (or could), the model calls these functions
 * explicitly rather than letting unbounded integers hide it.
 */
module Words {

  type byte = x: int | 0 <= x < 0x100
  type u16 = x: int | 0 <= x < 0x1_0000
  type u32 = x: int | 0 <= x < 0x1_0000_0000

  /** `static_cast<uint32_t>(x)` of a C `int` (or any integer). */
  function ToU32(x: int): (r: u32)
    ensures 0 <= x < 0x1_0000_0000 ==> r == x
    ensures (r - x) % 0x1_0000_0000 == 0
  {
    x % 0x1_0000_0000
  }

  /** `static_cast<uint16_t>(x)`. */
  function ToU16(x: int): (r: u16)
    ensures 0 <= x < 0x1_0000 ==> r == x
    ensures (r - x) % 0x1_0000 == 0
  {
    x % 0x1_0000
  }

  /** `static_cast<uint8_t>(v >> 8)`: the most significant byte of a 16-bit value. */
  function HighByte(v: u16): (b: byte) {
    v / 0x100
  }

  /** `static_cast<uint8_t>(v & 0xFF)`: the least significant byte. */
  function LowByte(v: u16): (b: byte) {
    v % 0x100
  }

  /** `(hi << 8) | lo`: two bytes joined into a 16-bit value. */
  function Join16(hi: byte, lo: byte): (v: u16) {
    hi * 0x100 + lo
  }

  /** Splitting a 16-bit value and joining its bytes gives it back, and vice versa. */
  lemma SplitJoin(v: u16, hi: byte, lo: byte)
    ensures Join16(HighByte(v), LowByte(v)) == v
    ensures HighByte(Join16(hi, lo)) == hi && LowByte(Join16(hi, lo)) == lo
  {
  }
}
