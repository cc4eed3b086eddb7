/**
 * Device probe of the touch driver (`attach_device` and the probe order of
 * `Touch::init`): the primary address, then the fallback address, first on
 * the touch bus port and then again on the second port; the first pair that
 * answers the X-resolution read wins and its nominal maxima are recorded.
 */
module Probe {
  import opened Words
  import opened Wrappers
  import opened TouchBus

  /** The two bus ports, in the order they are tried. */
  datatype Port = FirstPort | SecondPort

  /** An attached controller: the port its bus runs on and its 7-bit address. */
  datatype Device = Device(port: Port, addr: byte)

  /** Reply to a 2-byte register read: a failure, or the bytes in the order received. */
  datatype WordReply = NoWord | Word(b0: byte, b1: byte)

  /**
   * How the controller at one (port, address) answers the probe: whether the
   * bus accepts the device, and the replies to the X and Y resolution reads.
   */
  datatype DevReplies = DevReplies(addOk: bool, resX: WordReply, resY: WordReply)

  /** The bus as the probe sees it: the replies at every port and address. */
  type Responder = (Port, byte) -> DevReplies

  /** What probing writes: the device handle, `s_addr`, `s_tp_xmax` and `s_tp_ymax`. */
  datatype ProbeState = ProbeState(dev: Option<Device>, addr: byte, tpXmax: u16, tpYmax: u16)

  /** Values of the driver's globals before the probe. */
  const BOOT: ProbeState := ProbeState(None, 0, 0, 0)

  /** A nominal maximum register holds its value little-endian: `bytes[1] * 256 + bytes[0]`. */
  function WordValue(w: WordReply): (v: u16)
    requires w.Word?
  {
    Join16(w.b1, w.b0)
  }

  /** A controller counts as present when it can be attached and its X resolution read. */
  predicate Responsive(d: DevReplies) {
    d.addOk && d.resX.Word?
  }

  /** Result of `attach_device`: success, the globals afterwards, and the transactions sent. */
  datatype Attached = Attached(ok: bool, st: ProbeState, trace: seq<Txn>)

  /**
   * `attach_device`: add the device, switch to debug-info mode, read X and Y
   * maxima, switch back to normal mode. A failed Y read keeps the previous
   * Y maximum. On failure the previous device handle is restored.
   */
  function AttachDevice(st: ProbeState, port: Port, addr: byte, d: DevReplies): (r: Attached)
    ensures r.ok <==> Responsive(d)
    ensures r.ok ==>
      && r.st.dev == Some(Device(port, addr))
      && r.st.addr == addr
      && r.st.tpXmax == WordValue(d.resX)
      && r.st.tpYmax == (if d.resY.Word? then WordValue(d.resY) else st.tpYmax)
    ensures !r.ok ==> r.st == st
    ensures !d.addOk ==> r.trace == []
    ensures d.addOk ==> |r.trace| >= 2 && r.trace[..2] == [Write(REG_DEBUG_INFO_MODE, []), Read(REG_INFO_RES_X, 2)]
    ensures d.addOk && d.resX.NoWord? ==> r.trace == [Write(REG_DEBUG_INFO_MODE, []), Read(REG_INFO_RES_X, 2)]
    ensures r.ok ==> r.trace == [Write(REG_DEBUG_INFO_MODE, []), Read(REG_INFO_RES_X, 2), Read(REG_INFO_RES_Y, 2), Write(REG_NORMAL_MODE, [])]
  {
    if !d.addOk then Attached(false, st, [])
    else
      var enter := [Write(REG_DEBUG_INFO_MODE, []), Read(REG_INFO_RES_X, 2)];
      if d.resX.NoWord? then Attached(false, st, enter)
      else
        var ymax := if d.resY.Word? then WordValue(d.resY) else st.tpYmax;
        Attached(true, ProbeState(Some(Device(port, addr)), addr, WordValue(d.resX), ymax),
                 enter + [Read(REG_INFO_RES_Y, 2), Write(REG_NORMAL_MODE, [])])
  }

  /**
   * One port's attempt: the primary address, then the fallback. The port
   * succeeds iff one of them answers, the primary taking precedence; when
   * neither answers the state is left as it was.
   */
  function TryPort(st: ProbeState, port: Port, replies: Responder): (r: Attached)
    ensures var p := replies(port, CST328_ADDR_PRIMARY); var f := replies(port, CST328_ADDR_FALLBACK);
      && (r.ok <==> Responsive(p) || Responsive(f))
      && (Responsive(p) ==> r.st.dev == Some(Device(port, CST328_ADDR_PRIMARY)))
      && (!Responsive(p) && Responsive(f) ==> r.st.dev == Some(Device(port, CST328_ADDR_FALLBACK)))
      && (!r.ok ==> r.st == st)
  {
    var a := AttachDevice(st, port, CST328_ADDR_PRIMARY, replies(port, CST328_ADDR_PRIMARY));
    if a.ok then a else AttachDevice(a.st, port, CST328_ADDR_FALLBACK, replies(port, CST328_ADDR_FALLBACK))
  }

  /** Outcome of probing: the port `s_port` ends on and the globals. */
  datatype ProbeResult = ProbeResult(port: Port, st: ProbeState) {
    predicate Online() { st.dev.Some? }
  }

  /** The candidates in the order `Touch::init` tries them. */
  const CANDIDATES: seq<Device> := [
    Device(FirstPort, CST328_ADDR_PRIMARY), Device(FirstPort, CST328_ADDR_FALLBACK),
    Device(SecondPort, CST328_ADDR_PRIMARY), Device(SecondPort, CST328_ADDR_FALLBACK)]

  /** Reference definition of the search: the index of the first responsive candidate, `|cands|` if none. */
  function FirstResponsive(cands: seq<Device>, replies: Responder): (i: nat)
    ensures i <= |cands|
    ensures forall j :: 0 <= j < i ==> !Responsive(replies(cands[j].port, cands[j].addr))
    ensures i < |cands| ==> Responsive(replies(cands[i].port, cands[i].addr))
  {
    if |cands| == 0 then 0
    else if Responsive(replies(cands[0].port, cands[0].addr)) then 0
    else 1 + FirstResponsive(cands[1..], replies)
  }

  /**
   * The probe sequence of `Touch::init`. Recreating the bus for a port drops
   * any device handle. After a full failure `s_port` stays on the second port.
   */
  function ProbeInit(replies: Responder): (r: ProbeResult)
    ensures r.Online() ==> r.st.dev.value.port == r.port && r.st.addr == r.st.dev.value.addr
    ensures !r.Online() ==> r == ProbeResult(SecondPort, BOOT)
  {
    var first := TryPort(BOOT, FirstPort, replies);
    if first.ok then ProbeResult(FirstPort, first.st)
    else
      var second := TryPort(first.st.(dev := None), SecondPort, replies);
      ProbeResult(SecondPort, second.st)
  }

  /**
   * The probe follows the candidate order: the first responsive (port,
   * address) pair wins and supplies the nominal maxima; its Y maximum is 0
   * when its Y read fails, since no earlier attempt wrote one.
   */
  lemma ProbeFollowsCandidateOrder(replies: Responder)
    ensures var r := ProbeInit(replies);
      var i := FirstResponsive(CANDIDATES, replies);
      && (i < |CANDIDATES| ==>
            var winner := CANDIDATES[i];
            var d := replies(winner.port, winner.addr);
            && r.st.dev == Some(winner)
            && r.port == winner.port
            && r.st.tpXmax == WordValue(d.resX)
            && r.st.tpYmax == (if d.resY.Word? then WordValue(d.resY) else 0))
      && (i == |CANDIDATES| ==> !r.Online())
  {
    var c := CANDIDATES;
    assert c[1..][0] == c[1] && c[1..][1..] == c[2..];
    assert c[2..][0] == c[2] && c[2..][1..] == c[3..];
    assert c[3..][0] == c[3] && c[3..][1..] == [];
    var i := FirstResponsive(c, replies);
    var r := ProbeInit(replies);
    if i == |c| {
      assert !Responsive(replies(c[3].port, c[3].addr));
    }
  }

  /** The probe finds a controller exactly when some candidate answers. */
  lemma ProbeOnlineIff(replies: Responder)
    ensures ProbeInit(replies).Online() <==> exists k :: 0 <= k < |CANDIDATES| && Responsive(replies(CANDIDATES[k].port, CANDIDATES[k].addr))
  {
    ProbeFollowsCandidateOrder(replies);
    var i := FirstResponsive(CANDIDATES, replies);
    if i < |CANDIDATES| {
      assert Responsive(replies(CANDIDATES[i].port, CANDIDATES[i].addr));
    }
  }
}
