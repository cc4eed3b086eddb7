/**
 * Register transport of the CST328 touch controller: every register address
 * goes out on the two-wire bus as two bytes, most significant first, ahead of
 * the payload of a write or the receive phase of a read.
 */
module TouchBus {
  import opened Words

  // Controller addresses and registers.
  const CST328_ADDR_PRIMARY: byte := 0x1A
  const CST328_ADDR_FALLBACK: byte := 0x15
  const REG_READ_XY: u16 := 0xD000
  const REG_READ_NUMBER: u16 := 0xD005
  const REG_INFO_RES_X: u16 := 0xD1F8
  const REG_INFO_RES_Y: u16 := 0xD1FA
  const REG_DEBUG_INFO_MODE: u16 := 0xD101
  const REG_NORMAL_MODE: u16 := 0xD109

  /** Largest payload one write may carry (the frame buffer holds 2 + 32 bytes). */
  const MAX_WRITE_PAYLOAD: nat := 32

  /** The `esp_err_t` outcomes the transport itself produces. */
  datatype Refusal = NoDevice | InvalidArg

  /** A bus transaction the driver issues, as seen on the wire. */
  datatype Txn = Read(reg: u16, len: nat) | Write(reg: u16, payload: seq<byte>)

  /** What the bus answered to one read: a NACK or timeout, or the bytes received. */
  datatype Reply = Nack | Data(bytes: seq<byte>)

  /** A transport call either puts a frame on the wire or is refused before that. */
  datatype Framed = Sent(frame: seq<byte>) | Refused(why: Refusal)

  /** The two address bytes, big-endian. */
  function RegisterBytes(reg: u16): (h: seq<byte>)
    ensures |h| == 2
    ensures Join16(h[0], h[1]) == reg
  {
    [HighByte(reg), LowByte(reg)]
  }

  /** The register a frame addresses: its first two bytes read big-endian. */
  function FrameRegister(frame: seq<byte>): (reg: u16)
    requires |frame| >= 2
  {
    Join16(frame[0], frame[1])
  }

  /**
   * `i2c_write16`: with no attached device nothing is sent; a payload over 32
   * bytes is refused; otherwise the frame is the register followed by the payload.
   */
  function Write16(hasDevice: bool, reg: u16, payload: seq<byte>): (r: Framed)
    ensures !hasDevice ==> r == Refused(NoDevice)
    ensures hasDevice && |payload| > MAX_WRITE_PAYLOAD ==> r == Refused(InvalidArg)
    ensures hasDevice && |payload| <= MAX_WRITE_PAYLOAD ==>
      && r.Sent?
      && |r.frame| == 2 + |payload|
      && FrameRegister(r.frame) == reg
      && r.frame[2..] == payload
  {
    if !hasDevice then Refused(NoDevice)
    else if |payload| > MAX_WRITE_PAYLOAD then Refused(InvalidArg)
    else Sent(RegisterBytes(reg) + payload)
  }

  /**
   * `i2c_read16`: the bytes transmitted before the receive phase. With no
   * attached device the call fails without touching the bus.
   */
  function Read16Header(hasDevice: bool, reg: u16): (r: Framed)
    ensures !hasDevice ==> r == Refused(NoDevice)
    ensures hasDevice ==> r.Sent? && |r.frame| == 2 && FrameRegister(r.frame) == reg
  {
    if !hasDevice then Refused(NoDevice) else Sent(RegisterBytes(reg))
  }

  /** Reads and writes address the register in the same byte order. */
  lemma ReadWriteSameOrder(reg: u16, payload: seq<byte>)
    requires |payload| <= MAX_WRITE_PAYLOAD
    ensures Write16(true, reg, payload).frame[..2] == Read16Header(true, reg).frame
  {
  }

  /** Decoding the register of a frame and encoding it again gives the frame's head back. */
  lemma RegisterBytesRoundTrip(frame: seq<byte>)
    requires |frame| >= 2
    ensures RegisterBytes(FrameRegister(frame)) == frame[..2]
  {
    var reg := FrameRegister(frame);
    SplitJoin(reg, frame[0], frame[1]);
    assert RegisterBytes(reg) == [frame[0], frame[1]];
  }

  /** A zero-length write (the mode switches) sends exactly the two register bytes. */
  lemma ModeSwitchFrame()
    ensures Write16(true, REG_DEBUG_INFO_MODE, []) == Sent([0xD1, 0x01])
    ensures Write16(true, REG_NORMAL_MODE, []) == Sent([0xD1, 0x09])
  {
    assert HighByte(REG_DEBUG_INFO_MODE) == 0xD1 && LowByte(REG_DEBUG_INFO_MODE) == 0x01;
    assert HighByte(REG_NORMAL_MODE) == 0xD1 && LowByte(REG_NORMAL_MODE) == 0x09;
    assert RegisterBytes(REG_DEBUG_INFO_MODE) + [] == [0xD1, 0x01];
    assert RegisterBytes(REG_NORMAL_MODE) + [] == [0xD1, 0x09];
  }
}
