/**
 * Per-poll glue of the touch driver (`indev_read_cb`) and the driver state
 * that `Touch::init` sets up: each poll reads one raw sample, widens the
 * calibration box with it, normalizes, rotates and scales it, and reports a
 * pressed or released pointer event.
 */
module TouchPoll {
  import opened Words
  import opened Wrappers
  import opened TouchBus
  import opened TouchDecode
  import opened Calibration
  import opened Mapper
  import opened Probe

  /** The display the touch mapper is given on this board: `LCD_V_RES` x `LCD_H_RES`. */
  const BOARD_HRES: u16 := 320
  const BOARD_VRES: u16 := 240

  /** The rotation the driver is built with. */
  const ROTATION: Rotation := RotationOf(TOUCH_ROT)

  /** The driver's state between polls. */
  datatype Driver = Driver(dev: Option<Device>, tpXmax: u16, tpYmax: u16, hres: u16, vres: u16, cal: Box) {
    function Geo(): Geometry {
      Geometry(tpXmax, tpYmax, hres, vres)
    }
  }

  /** The pointer event handed to the UI for one poll. */
  datatype PointerEvent = Released | Pressed(x: u16, y: u16)

  datatype PollOutcome = PollOutcome(event: PointerEvent, driver: Driver, trace: seq<Txn>)

  /** `Touch::init` without the GPIO, reset and UI registration: record the display size and probe. */
  function Initialize(hres: u16, vres: u16, replies: Responder): (d: Driver)
    ensures d.cal == PRESET && d.hres == hres && d.vres == vres
    ensures d.dev == ProbeInit(replies).st.dev
    ensures d.tpXmax == ProbeInit(replies).st.tpXmax && d.tpYmax == ProbeInit(replies).st.tpYmax
    ensures d.dev.None? ==> d.tpXmax == 0 && d.tpYmax == 0
  {
    var p := ProbeInit(replies);
    Driver(p.st.dev, p.st.tpXmax, p.st.tpYmax, hres, vres, PRESET)
  }

  /**
   * The initialized driver talks to the first candidate that answers, in the
   * probe order, with that candidate's reported maxima (Y is 0 when its Y
   * read failed); with no candidate answering it has no device and no maxima.
   */
  lemma InitializeTakesFirstResponsive(hres: u16, vres: u16, replies: Responder)
    ensures var d := Initialize(hres, vres, replies);
      var i := FirstResponsive(CANDIDATES, replies);
      && (i < |CANDIDATES| ==>
            var w := replies(CANDIDATES[i].port, CANDIDATES[i].addr);
            && d.dev == Some(CANDIDATES[i])
            && d.tpXmax == WordValue(w.resX)
            && d.tpYmax == (if w.resY.Word? then WordValue(w.resY) else 0))
      && (i == |CANDIDATES| ==> d.dev.None? && d.tpXmax == 0 && d.tpYmax == 0)
  {
    ProbeFollowsCandidateOrder(replies);
  }

  /**
   * `nx_max`: the last index of the nominal X axis, whose length is the
   * reported width, or failing that the display width, or failing that 240.
   */
  function NominalXMax(d: Driver): (m: u16)
    ensures m as int + 1 == (if d.tpXmax != 0 then d.tpXmax as int else if d.hres != 0 then d.hres as int else 240)
  {
    if d.tpXmax != 0 then d.tpXmax - 1 else if d.hres != 0 then d.hres - 1 else 239
  }

  /**
   * `ny_max`: the last index of the nominal Y axis, whose length is the
   * reported height, or failing that the display height, or failing that 320.
   */
  function NominalYMax(d: Driver): (m: u16)
    ensures m as int + 1 == (if d.tpYmax != 0 then d.tpYmax as int else if d.vres != 0 then d.vres as int else 320)
  {
    if d.tpYmax != 0 then d.tpYmax - 1 else if d.vres != 0 then d.vres - 1 else 319
  }

  /** A raw sample normalized against the driver's calibration box. */
  function NormalizePoint(d: Driver, s: RawSample): (p: Point)
    ensures p.x <= NominalXMax(d) && p.y <= NominalYMax(d)
  {
    Point(Normalize(s.x, d.cal.xmin, d.cal.xmax, NominalXMax(d)), Normalize(s.y, d.cal.ymin, d.cal.ymax, NominalYMax(d)))
  }

  /**
   * `indev_read_cb`: released without touching the bus when no device is
   * attached, released with the calibration unchanged when the read fails or
   * reports no touch; otherwise the calibration is updated first and the
   * sample is normalized against the updated box, then mapped to the display.
   */
  function Poll(d: Driver, bus: PollBus): (r: PollOutcome)
    requires WellFormed(bus)
    ensures d.dev.None? ==> r == PollOutcome(Released, d, [])
    ensures d.dev.Some? ==> r.trace == ReadRawPoint(bus).trace
    ensures var rr := ReadRawPoint(bus);
      && (r.event.Pressed? <==> d.dev.Some? && rr.ok && rr.pressed)
      && (r.event.Released? ==> r.driver == d)
      && (r.event.Pressed? ==> r.driver == d.(cal := Update(d.cal, rr.sample.x, rr.sample.y)) && r.trace == rr.trace)
    ensures r.event.Pressed? ==>
      var q := MapToDisplay(ROTATION, NormalizePoint(r.driver, ReadRawPoint(bus).sample), d.Geo());
      r.event == Pressed(q.x, q.y)
    ensures r.event.Pressed? && Complete(d.Geo()) ==> r.event.x < d.hres && r.event.y < d.vres
    ensures d.cal.inited ==> Within(d.cal, r.driver.cal)
  {
    if d.dev.None? then PollOutcome(Released, d, [])
    else
      var rr := ReadRawPoint(bus);
      if !rr.ok || !rr.pressed then PollOutcome(Released, d, rr.trace)
      else
        var d' := d.(cal := Update(d.cal, rr.sample.x, rr.sample.y));
        var p := MapToDisplay(ROTATION, NormalizePoint(d', rr.sample), d.Geo());
        PollOutcome(Pressed(p.x, p.y), d', rr.trace)
  }

  /**
   * Calibration happens before normalization: a sample that extends the box
   * is reported at the mapped position of the nominal edge (a new maximum) or
   * of 0 (a new minimum) on that axis.
   */
  lemma NewExtremeMapsToEdge(d: Driver, bus: PollBus)
    requires WellFormed(bus) && d.cal.inited
    requires Poll(d, bus).event.Pressed?
    ensures var s := ReadRawPoint(bus).sample; var c := Poll(d, bus).driver.cal;
      var n := NormalizePoint(Poll(d, bus).driver, s); var e := Poll(d, bus).event;
      && (s.x > d.cal.xmax && c.xmax >= c.xmin + 2 ==> e == PressedAt(Point(NominalXMax(d), n.y), d.Geo()))
      && (s.x < d.cal.xmin && c.xmax >= c.xmin + 2 ==> e == PressedAt(Point(0, n.y), d.Geo()))
      && (s.y > d.cal.ymax && c.ymax >= c.ymin + 2 ==> e == PressedAt(Point(n.x, NominalYMax(d)), d.Geo()))
      && (s.y < d.cal.ymin && c.ymax >= c.ymin + 2 ==> e == PressedAt(Point(n.x, 0), d.Geo()))
  {
    var d' := Poll(d, bus).driver;
    var c := d'.cal;
    if c.xmax >= c.xmin + 2 {
      NormalizeEndpoints(c.xmin, c.xmax, NominalXMax(d));
    }
    if c.ymax >= c.ymin + 2 {
      NormalizeEndpoints(c.ymin, c.ymax, NominalYMax(d));
    }
  }

  /** The event reporting nominal point `p` mapped through the driver's geometry. */
  function PressedAt(p: Point, g: Geometry): (e: PointerEvent)
    ensures e.Pressed?
  {
    var q := MapToDisplay(ROTATION, p, g);
    Pressed(q.x, q.y)
  }

  /**
   * On the board geometry (controller reporting 240 x 320, display 320 x 240)
   * with the preset box, a path-B touch at raw (0, 100) widens the box to
   * x = 0 and is reported at (102, 239): raw X 0 is the new minimum, so it
   * normalizes to 0 and the 90-degree rotation sends it to the bottom edge.
   * Normalizing the same sample against the box before the update would
   * wrap below its minimum and report the opposite (top) edge instead.
   */
  lemma NewMinimumScenario(bus: PollBus)
    requires WellFormed(bus) && bus.count.Nack? && bus.frame8.Data?
    requires bus.frame8.bytes[..4] == [0x06, 0x00, 0x06, 0x04]
    ensures var d := Driver(Some(Device(FirstPort, CST328_ADDR_PRIMARY)), 240, 320, BOARD_HRES, BOARD_VRES, PRESET);
      var r := Poll(d, bus);
      && r.event == Pressed(102, 239)
      && r.driver.cal == Box(true, 0, 239, 6, 298)
      && MapToDisplay(ROTATION, NormalizePoint(d, RawSample(0, 100)), d.Geo()) == Point(102, 0)
  {
    var d := Driver(Some(Device(FirstPort, CST328_ADDR_PRIMARY)), 240, 320, BOARD_HRES, BOARD_VRES, PRESET);
    var b := bus.frame8.bytes;
    assert b[0] == 0x06 && b[1] == 0x00 && b[2] == 0x06 && b[3] == 0x04;
    var rr := ReadRawPoint(bus);
    assert rr.ok && rr.pressed && rr.sample == RawSample(0, 100);
    var d' := d.(cal := Box(true, 0, 239, 6, 298));
    assert Update(d.cal, 0, 100) == d'.cal;
    NormalizeEndpoints(0, 239, 239);
    assert Normalize(0, 0, 239, 239) == 0;
    NormalizeExact(100, 6, 298, 319);
    assert Normalize(100, 6, 298, 319) == 102;
    assert NormalizePoint(d', rr.sample) == Point(0, 102);
    BoardGeometryIsPureRotation(Point(0, 102));
    NormalizeBelowMinimumWraps();
    assert NormalizePoint(d, rr.sample) == Point(239, 102);
    BoardGeometryIsPureRotation(Point(239, 102));
  }

  predicate AllWellFormed(buses: seq<PollBus>) {
    forall k :: 0 <= k < |buses| ==> WellFormed(buses[k])
  }

  /** A run of polls, one per bus snapshot: the events, the final driver and all transactions. */
  function PollAll(d: Driver, buses: seq<PollBus>): (run: (seq<PointerEvent>, Driver, seq<Txn>))
    requires AllWellFormed(buses)
    decreases |buses|
  {
    if |buses| == 0 then ([], d, [])
    else
      var first := Poll(d, buses[0]);
      var rest := PollAll(first.driver, buses[1..]);
      ([first.event] + rest.0, rest.1, first.trace + rest.2)
  }

  /** An absent device reports released on every poll and never uses the bus. */
  lemma {:induction false} AbsentAlwaysReleased(d: Driver, buses: seq<PollBus>)
    requires AllWellFormed(buses) && d.dev.None?
    ensures var run := PollAll(d, buses);
      && |run.0| == |buses|
      && (forall k :: 0 <= k < |run.0| ==> run.0[k] == Released)
      && run.1 == d && run.2 == []
    decreases |buses|
  {
    if |buses| > 0 {
      AbsentAlwaysReleased(d, buses[1..]);
    }
  }

  /** Polls that see no touch all report released and never move the calibration box. */
  lemma {:induction false} NoTouchNeverRecalibrates(d: Driver, buses: seq<PollBus>)
    requires AllWellFormed(buses)
    requires forall k :: 0 <= k < |buses| ==> !ReadRawPoint(buses[k]).pressed
    ensures var run := PollAll(d, buses);
      && |run.0| == |buses|
      && (forall k :: 0 <= k < |run.0| ==> run.0[k] == Released)
      && run.1 == d
    decreases |buses|
  {
    if |buses| > 0 {
      NoTouchNeverRecalibrates(d, buses[1..]);
    }
  }

  /** Over any run of polls the calibration box of a seeded driver only widens. */
  lemma {:induction false} PollsOnlyWiden(d: Driver, buses: seq<PollBus>)
    requires AllWellFormed(buses) && d.cal.inited
    ensures PollAll(d, buses).1.cal.inited
    ensures Within(d.cal, PollAll(d, buses).1.cal)
    decreases |buses|
  {
    if |buses| > 0 {
      var first := Poll(d, buses[0]);
      PollsOnlyWiden(first.driver, buses[1..]);
    }
  }

  /** A probe that finds nothing at either address on either port: 100 later polls are all released and silent. */
  lemma AbsentScenario(replies: Responder, buses: seq<PollBus>)
    requires forall k :: 0 <= k < |CANDIDATES| ==> !Responsive(replies(CANDIDATES[k].port, CANDIDATES[k].addr))
    requires |buses| == 100 && AllWellFormed(buses)
    ensures var run := PollAll(Initialize(BOARD_HRES, BOARD_VRES, replies), buses);
      |run.0| == 100 && (forall k :: 0 <= k < |run.0| ==> run.0[k] == Released) && run.2 == []
  {
    ProbeOnlineIff(replies);
    AbsentAlwaysReleased(Initialize(BOARD_HRES, BOARD_VRES, replies), buses);
  }
}
