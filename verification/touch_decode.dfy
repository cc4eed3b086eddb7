/**
 * Protocol decoder of the CST328 driver (`read_raw_point`): one poll turns the
 * bus replies into a raw touch sample, trying the count-gated 27-byte read
 * (path A) first and the legacy 8-byte buffer (path B) second.
 */
module TouchDecode {
  import opened Words
  import opened TouchBus

  /** Expected value of byte 6 of a touch report; a mismatch is only warned about. */
  const ALIGNMENT_SENTINEL: byte := 0xAB
  /** Low nibble of byte 0 of the legacy buffer that means "touched". */
  const PRESS_STATUS: byte := 0x06
  const PATH_A_LEN: nat := 27
  const PATH_B_LEN: nat := 8
  /** Most touch points path A accepts in the count register. */
  const MAX_TOUCH_COUNT: nat := 5

  /** A raw touch coordinate pair, in controller units. */
  datatype RawSample = RawSample(x: u16, y: u16)

  /**
   * `parse_xy_CST328_basic`: X is byte 1 followed by the high nibble of byte 3,
   * Y is byte 2 followed by the low nibble of byte 3, each 12 bits wide.
   * Shifting left by 4 and or-ing in a nibble is multiplying by 16 and adding.
   */
  function ParseXY(b: seq<byte>): (s: RawSample)
    requires |b| >= 4
    ensures s.x < 4096 && s.y < 4096
    ensures s.x / 16 == b[1] && s.x % 16 == b[3] / 16
    ensures s.y / 16 == b[2] && s.y % 16 == b[3] % 16
  {
    RawSample(b[1] as int * 16 + b[3] / 16, b[2] as int * 16 + b[3] % 16)
  }

  /** The three report bytes (1, 2 and 3) that carry a 12-bit sample: the inverse of `ParseXY`. */
  function EncodeXY(s: RawSample): (b: seq<byte>)
    requires s.x < 4096 && s.y < 4096
    ensures |b| == 3
  {
    [s.x / 16, s.y / 16, (s.x % 16) * 16 + s.y % 16]
  }

  /** Every 12-bit sample survives encoding and decoding, and every report's bytes 1-3 survive decoding and encoding. */
  lemma ParseEncodeRoundTrip(s: RawSample, b: seq<byte>)
    requires s.x < 4096 && s.y < 4096
    requires |b| >= 4
    ensures ParseXY([0] + EncodeXY(s)) == s
    ensures EncodeXY(ParseXY(b)) == b[1..4]
  {
    var e := [0] + EncodeXY(s);
    assert e[3] / 16 == s.x % 16 && e[3] % 16 == s.y % 16;
    var p := ParseXY(b);
    assert (p.x % 16) * 16 + p.y % 16 == b[3];
  }

  /** Which decode path produced a read. */
  datatype DecodePath = PathA | PathB

  /**
   * The bus as seen by one poll: the reply to each register read the decoder
   * may issue. `count` answers the 1-byte read of the count register,
   * `frame27` the 27-byte read of path A, `frame8` the 8-byte read of path B.
   * Writes (the zero acknowledgement) have their result discarded by the
   * driver, so they need no reply.
   */
  datatype PollBus = PollBus(count: Reply, frame27: Reply, frame8: Reply)

  /** A successful read returns exactly the number of bytes requested. */
  predicate WellFormed(bus: PollBus) {
    && (bus.count.Data? ==> |bus.count.bytes| == 1)
    && (bus.frame27.Data? ==> |bus.frame27.bytes| == PATH_A_LEN)
    && (bus.frame8.Data? ==> |bus.frame8.bytes| == PATH_B_LEN)
  }

  /**
   * Result of `read_raw_point`: its boolean return `ok`, the `pressed` flag and
   * the sample it leaves in its reference parameters (the only caller
   * initialises them to 0, 0 and false, which is what an untouched output
   * holds), whether an alignment warning was logged, and the transactions sent.
   */
  datatype RawRead = RawRead(ok: bool, pressed: bool, sample: RawSample, warned: bool, path: DecodePath, trace: seq<Txn>)

  /** The value the caller's outputs hold when the decoder does not set them. */
  const UNSET: RawSample := RawSample(0, 0)

  /** The touch count carried by the count register: its low nibble. */
  function TouchCount(count: byte): nat {
    count % 16
  }

  /** Path A is taken when the count register could be read and holds 1 to 5 touches. */
  predicate TakesPathA(bus: PollBus)
    requires WellFormed(bus)
  {
    bus.count.Data? && 1 <= TouchCount(bus.count.bytes[0]) <= MAX_TOUCH_COUNT
  }

  /** The acknowledgement: zero written back to the count register. */
  const ACK: Txn := Write(REG_READ_NUMBER, [0])

  /** `read_raw_point`: path A when the count register allows it, path B otherwise. */
  function ReadRawPoint(bus: PollBus): (r: RawRead)
    requires WellFormed(bus)
    ensures r.pressed ==> r.ok
    ensures !r.ok ==> !r.pressed && r.sample == UNSET
    ensures r.pressed ==> r.sample.x < 4096 && r.sample.y < 4096
    ensures |r.trace| >= 2 && r.trace[0] == Read(REG_READ_NUMBER, 1)
    ensures r.path == PathA <==> TakesPathA(bus)
    // Path A: the 27-byte payload alone decides the sample.
    ensures TakesPathA(bus) && bus.frame27.Nack? ==> !r.ok && r.trace == [Read(REG_READ_NUMBER, 1), Read(REG_READ_XY, 27)]
    ensures TakesPathA(bus) && bus.frame27.Data? ==>
      && r.ok && r.pressed
      && r.sample == ParseXY(bus.frame27.bytes)
      && (r.warned <==> bus.frame27.bytes[6] != ALIGNMENT_SENTINEL)
      && r.trace == [Read(REG_READ_NUMBER, 1), Read(REG_READ_XY, 27), ACK]
    // Path B: reached with an acknowledgement when the count was readable, without one when it was not.
    ensures !TakesPathA(bus) ==>
      r.trace == (if bus.count.Data? then [Read(REG_READ_NUMBER, 1), ACK] else [Read(REG_READ_NUMBER, 1)]) + [Read(REG_READ_XY, 8)]
    ensures !TakesPathA(bus) && bus.frame8.Nack? ==> !r.ok
    ensures !TakesPathA(bus) && bus.frame8.Data? ==>
      && r.ok
      && (r.pressed <==> bus.frame8.bytes[0] % 16 == PRESS_STATUS)
      && (r.pressed ==> r.sample == ParseXY(bus.frame8.bytes))
      && (r.pressed ==> (r.warned <==> bus.frame8.bytes[6] != ALIGNMENT_SENTINEL))
    // The sentinel is only ever warned about.
    ensures r.warned ==> r.pressed
  {
    var countRead := Read(REG_READ_NUMBER, 1);
    if TakesPathA(bus) then
      var payloadRead := Read(REG_READ_XY, PATH_A_LEN);
      if bus.frame27.Nack? then
        RawRead(false, false, UNSET, false, PathA, [countRead, payloadRead])
      else
        var buf := bus.frame27.bytes;
        RawRead(true, true, ParseXY(buf), buf[6] != ALIGNMENT_SENTINEL, PathA, [countRead, payloadRead, ACK])
    else
      var before := if bus.count.Data? then [countRead, ACK] else [countRead];
      var trace := before + [Read(REG_READ_XY, PATH_B_LEN)];
      if bus.frame8.Nack? then
        RawRead(false, false, UNSET, false, PathB, trace)
      else
        var b8 := bus.frame8.bytes;
        if b8[0] % 16 != PRESS_STATUS then
          RawRead(true, false, UNSET, false, PathB, trace)
        else
          RawRead(true, true, ParseXY(b8), b8[6] != ALIGNMENT_SENTINEL, PathB, trace)
  }

  /** The decoded outcome of a read, without the log and trace. */
  function Outcome(r: RawRead): (bool, bool, RawSample) {
    (r.ok, r.pressed, r.sample)
  }

  /** Path priority: when path A is taken, the legacy buffer's contents make no difference. */
  lemma PathAIgnoresLegacyBuffer(bus: PollBus, other8: Reply)
    requires WellFormed(bus) && TakesPathA(bus)
    requires other8.Data? ==> |other8.bytes| == PATH_B_LEN
    ensures ReadRawPoint(bus.(frame8 := other8)) == ReadRawPoint(bus)
  {
  }

  /** Byte 6 of a report with a new value. */
  function WithByte6(r: Reply, v: byte): (r': Reply)
    requires r.Data? ==> |r.bytes| >= 7
    ensures r'.Data? <==> r.Data?
    ensures r.Data? ==> |r'.bytes| == |r.bytes|
  {
    if r.Nack? then r else Data(r.bytes[6 := v])
  }

  /** The alignment sentinel never changes whether a touch is reported or where. */
  lemma SentinelIsWarnOnly(bus: PollBus, v: byte)
    requires WellFormed(bus)
    ensures
      var bus' := bus.(frame27 := WithByte6(bus.frame27, v), frame8 := WithByte6(bus.frame8, v));
      WellFormed(bus') && Outcome(ReadRawPoint(bus')) == Outcome(ReadRawPoint(bus))
  {
    var bus' := bus.(frame27 := WithByte6(bus.frame27, v), frame8 := WithByte6(bus.frame8, v));
    if bus.frame27.Data? {
      assert bus'.frame27.bytes[1..4] == bus.frame27.bytes[1..4];
    }
    if bus.frame8.Data? {
      assert bus'.frame8.bytes[..4] == bus.frame8.bytes[..4];
    }
  }

  /** A stale zero count defers to the legacy buffer instead of declaring a release. */
  lemma ZeroCountFallsThrough(bus: PollBus)
    requires WellFormed(bus) && bus.count.Data? && TouchCount(bus.count.bytes[0]) == 0
    requires bus.frame8.Data? && bus.frame8.bytes[0] % 16 == PRESS_STATUS
    ensures ReadRawPoint(bus).pressed
  {
  }

  /** Count 1, payload bytes 1-3 = 05 03 A1 with the sentinel in place: X 90, Y 49, no warning. */
  lemma ScenarioPathA(bus: PollBus)
    requires WellFormed(bus)
    requires bus.count == Data([1])
    requires bus.frame27.Data?
    requires bus.frame27.bytes[1] == 0x05 && bus.frame27.bytes[2] == 0x03 && bus.frame27.bytes[3] == 0xA1
    requires bus.frame27.bytes[6] == 0xAB
    ensures var r := ReadRawPoint(bus); r.ok && r.pressed && r.sample == RawSample(90, 49) && !r.warned
  {
  }

  /** Count read failing, legacy buffer 06 02 04 50 ...: path B reports X 37, Y 64. */
  lemma ScenarioPathB(bus: PollBus)
    requires WellFormed(bus)
    requires bus.count.Nack?
    requires bus.frame8.Data?
    requires bus.frame8.bytes[..4] == [0x06, 0x02, 0x04, 0x50]
    ensures var r := ReadRawPoint(bus); r.ok && r.pressed && r.path == PathB && r.sample == RawSample(37, 64)
  {
    assert bus.frame8.bytes[0] == 0x06 && bus.frame8.bytes[3] == 0x50;
  }
}
