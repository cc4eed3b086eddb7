/**
 * Power-key handling (`PowerKey`): the key level is read with a configurable
 * polarity, debounced against a tick clock, and a stable press held for
 * `holdMs` cuts the self-hold latch once. Time is a monotone count of
 * milliseconds supplied by the caller; the GPIO level is a parameter.
 */
module PowerKey {

  /** The decision-relevant part of `PowerKeyConfig`. */
  datatype Config = Config(keyActiveLow: bool, debounceMs: nat, holdMs: nat, useDeepSleepHold: bool)

  /** The configuration the application uses: active-low key, 50 ms debounce, 2 s hold, deep-sleep hold. */
  const APP_CONFIG: Config := Config(true, 50, 2000, true)

  /**
   * The key's state. `latchHigh` is the self-hold output level and
   * `deepSleep` records that deep sleep was entered after the cut.
   */
  datatype Key = Key(
    batteryMode: bool,
    pressedStable: bool,
    rawPrev: bool,
    rawEdgeTs: nat,
    pressStart: nat,
    shutdownIssued: bool,
    latchHigh: bool,
    deepSleep: bool)

  /** Time stamps of the state do not lie in the future of `now`. */
  predicate NotAfter(k: Key, now: nat) {
    k.rawEdgeTs <= now && k.pressStart <= now
  }

  /** `read_raw`: whether the key reads as pressed at GPIO level `level`. */
  function ReadRaw(cfg: Config, level: int): (pressed: bool)
    ensures cfg.keyActiveLow ==> (pressed <==> level == 0)
    ensures !cfg.keyActiveLow ==> (pressed <==> level != 0)
  {
    if cfg.keyActiveLow then level == 0 else level != 0
  }

  /** The two polarities always disagree on the same level. */
  lemma PolaritiesDisagree(cfg: Config, level: int)
    ensures ReadRaw(cfg.(keyActiveLow := true), level) != ReadRaw(cfg.(keyActiveLow := false), level)
  {
  }

  /**
   * `debounce_read`: a change of the raw reading restarts the edge timer; the
   * stable reading follows the raw one only once it has held `debounceMs`.
   */
  function Debounce(cfg: Config, k: Key, raw: bool, now: nat): (k': Key)
    requires k.rawEdgeTs <= now
    ensures k'.rawPrev == raw
    ensures k'.rawEdgeTs == (if raw != k.rawPrev then now else k.rawEdgeTs)
    ensures now - k'.rawEdgeTs >= cfg.debounceMs ==> k'.pressedStable == raw
    ensures now - k'.rawEdgeTs < cfg.debounceMs ==> k'.pressedStable == k.pressedStable
    ensures k' == k.(rawPrev := k'.rawPrev, rawEdgeTs := k'.rawEdgeTs, pressedStable := k'.pressedStable)
  {
    var k1 := if raw != k.rawPrev then k.(rawPrev := raw, rawEdgeTs := now) else k;
    if now - k1.rawEdgeTs >= cfg.debounceMs then k1.(pressedStable := raw) else k1
  }

  /** With a positive debounce time, a fresh edge never changes the stable reading. */
  lemma BounceIsFiltered(cfg: Config, k: Key, raw: bool, now: nat)
    requires k.rawEdgeTs <= now && cfg.debounceMs > 0 && raw != k.rawPrev
    ensures Debounce(cfg, k, raw, now).pressedStable == k.pressedStable
  {
  }

  /** `cut_latch_and_maybe_sleep`: drive the latch low once, and enter deep sleep if configured. */
  function CutLatch(cfg: Config, k: Key): (k': Key)
    ensures k.shutdownIssued ==> k' == k
    ensures !k.shutdownIssued ==>
      k' == k.(shutdownIssued := true, latchHigh := false, deepSleep := cfg.useDeepSleepHold || k.deepSleep)
  {
    if k.shutdownIssued then k
    else k.(shutdownIssued := true, latchHigh := false, deepSleep := cfg.useDeepSleepHold || k.deepSleep)
  }

  /** Cutting the latch is idempotent. */
  lemma CutLatchIdempotent(cfg: Config, k: Key)
    ensures CutLatch(cfg, CutLatch(cfg, k)) == CutLatch(cfg, k)
  {
  }

  /**
   * `init`: battery mode (and the latch) iff the key reads pressed at boot;
   * the debounce state is seeded from a second reading, with no press timed
   * and no shutdown issued.
   */
  function Init(cfg: Config, bootLevel: int, seedLevel: int, now: nat): (k: Key)
    ensures k.batteryMode <==> ReadRaw(cfg, bootLevel)
    ensures k.latchHigh <==> k.batteryMode
    ensures k.pressedStable == k.rawPrev == ReadRaw(cfg, seedLevel)
    ensures k.rawEdgeTs == now && k.pressStart == 0
    ensures !k.shutdownIssued && !k.deepSleep
  {
    var battery := ReadRaw(cfg, bootLevel);
    var seed := ReadRaw(cfg, seedLevel);
    Key(battery, seed, seed, now, 0, false, battery, false)
  }

  /** Whether `poll` does anything at all. */
  predicate Active(k: Key) {
    k.batteryMode && !k.shutdownIssued
  }

  /**
   * `poll`: nothing happens outside battery mode or after shutdown. Otherwise
   * the debounced reading drives the press timer: a stable press starts it if
   * it is not running, a stable release resets it to 0; the latch is cut as
   * soon as the press has lasted `holdMs`.
   */
  function Poll(cfg: Config, k: Key, level: int, now: nat): (k': Key)
    requires NotAfter(k, now)
    ensures NotAfter(k', now)
    ensures !Active(k) ==> k' == k
    ensures Active(k) ==>
      var stable := Debounce(cfg, k, ReadRaw(cfg, level), now).pressedStable;
      && k'.pressedStable == stable
      && (stable && k.pressStart == 0 ==> k'.pressStart == now)
      && (stable && k.pressStart != 0 ==> k'.pressStart == k.pressStart)
      && (!stable ==> k'.pressStart == 0)
      && (k'.shutdownIssued <==> stable && now - k'.pressStart >= cfg.holdMs)
      && (k'.shutdownIssued ==> !k'.latchHigh && k'.deepSleep == (cfg.useDeepSleepHold || k.deepSleep))
      && (!k'.shutdownIssued ==> k'.latchHigh == k.latchHigh && k'.deepSleep == k.deepSleep)
      && k'.batteryMode
    ensures Active(k) ==>
      var deb := Debounce(cfg, k, ReadRaw(cfg, level), now);
      k'.rawPrev == deb.rawPrev && k'.rawEdgeTs == deb.rawEdgeTs
  {
    if !Active(k) then k
    else
      var k1 := Debounce(cfg, k, ReadRaw(cfg, level), now);
      if k1.pressedStable then
        var k2 := if k1.pressStart == 0 then k1.(pressStart := now) else k1;
        if now - k2.pressStart >= cfg.holdMs then CutLatch(cfg, k2) else k2
      else
        k1.(pressStart := 0)
  }

  /** Poll times that never run backwards and never precede the state's stamps. */
  predicate Schedule(k: Key, times: seq<nat>) {
    && (forall i, j :: 0 <= i < j < |times| ==> times[i] <= times[j])
    && (forall i :: 0 <= i < |times| ==> NotAfter(k, times[i]))
  }

  /** A run of polls at the given levels and times. */
  function PollRun(cfg: Config, k: Key, levels: seq<int>, times: seq<nat>): (k': Key)
    requires |levels| == |times| && Schedule(k, times)
    decreases |times|
  {
    if |times| == 0 then k
    else
      var k1 := Poll(cfg, k, levels[0], times[0]);
      assert Schedule(k1, times[1..]) by {
        forall i | 0 <= i < |times[1..]|
          ensures NotAfter(k1, times[1..][i])
        {
          assert times[0] <= times[i + 1];
        }
      }
      PollRun(cfg, k1, levels[1..], times[1..])
  }

  /** Once the latch has been cut, no later poll changes anything. */
  lemma {:induction false} ShutdownIsFinal(cfg: Config, k: Key, levels: seq<int>, times: seq<nat>)
    requires |levels| == |times| && Schedule(k, times)
    requires k.shutdownIssued
    ensures PollRun(cfg, k, levels, times) == k
    decreases |times|
  {
    if |times| > 0 {
      ShutdownIsFinal(cfg, k, levels[1..], times[1..]);
    }
  }

  /**
   * A key pressed at boot and still held: the first poll (at a non-zero tick)
   * starts the press timer, and a poll `holdMs` later cuts the latch and,
   * when configured, enters deep sleep.
   */
  lemma BootPressHeldShutsDown(cfg: Config, level: int, t0: nat, t1: nat)
    requires ReadRaw(cfg, level) && 0 < t1 && t0 <= t1
    ensures var k := Init(cfg, level, level, t0);
      var k' := PollRun(cfg, k, [level, level], [t1, t1 + cfg.holdMs]);
      && k'.shutdownIssued && !k'.latchHigh && k'.deepSleep == cfg.useDeepSleepHold
  {
    var k := Init(cfg, level, level, t0);
    var times := [t1, t1 + cfg.holdMs];
    var k1 := Poll(cfg, k, level, t1);
    assert k1.pressedStable && k1.pressStart == t1;
    var k2 := Poll(cfg, k1, level, t1 + cfg.holdMs);
    assert k2.shutdownIssued;
    assert times[1..] == [t1 + cfg.holdMs];
    assert PollRun(cfg, k, [level, level], times) == PollRun(cfg, k1, [level], [t1 + cfg.holdMs]);
    assert PollRun(cfg, k1, [level], [t1 + cfg.holdMs]) == PollRun(cfg, k2, [], []);
  }

  /** Held for just under `holdMs`, the same press does not cut the latch yet. */
  lemma BootPressReleasedEarlyKeepsPower(cfg: Config, level: int, t0: nat, t1: nat)
    requires ReadRaw(cfg, level) && 0 < t1 && t0 <= t1 && cfg.holdMs > 0
    ensures var k := Init(cfg, level, level, t0);
      var k' := PollRun(cfg, k, [level, level], [t1, t1 + cfg.holdMs - 1]);
      && !k'.shutdownIssued && k'.latchHigh
  {
    var k := Init(cfg, level, level, t0);
    var times := [t1, t1 + cfg.holdMs - 1];
    var k1 := Poll(cfg, k, level, t1);
    assert k1.pressedStable && k1.pressStart == t1;
    var k2 := Poll(cfg, k1, level, t1 + cfg.holdMs - 1);
    assert !k2.shutdownIssued;
    assert times[1..] == [t1 + cfg.holdMs - 1];
    assert PollRun(cfg, k, [level, level], times) == PollRun(cfg, k1, [level], [t1 + cfg.holdMs - 1]);
    assert PollRun(cfg, k1, [level], [t1 + cfg.holdMs - 1]) == PollRun(cfg, k2, [], []);
  }

  /** With the application's configuration: pressed (level 0) at boot and held 2 s, the board powers off into deep sleep. */
  lemma AppConfigHoldScenario()
    ensures var k' := PollRun(APP_CONFIG, Init(APP_CONFIG, 0, 0, 0), [0, 0], [10, 2010]);
      k'.shutdownIssued && !k'.latchHigh && k'.deepSleep
  {
    BootPressHeldShutsDown(APP_CONFIG, 0, 0, 10);
  }

  /** Booted from external power (the key not pressed at boot), no run of polls ever cuts the latch. */
  lemma BootOnExternalPowerNeverShutsDown(cfg: Config, bootLevel: int, seedLevel: int, t0: nat, levels: seq<int>, times: seq<nat>)
    requires !ReadRaw(cfg, bootLevel)
    requires |levels| == |times| && Schedule(Init(cfg, bootLevel, seedLevel, t0), times)
    ensures !PollRun(cfg, Init(cfg, bootLevel, seedLevel, t0), levels, times).shutdownIssued
  {
    ExternalPowerIgnoresKey(cfg, Init(cfg, bootLevel, seedLevel, t0), levels, times);
  }

  /** Outside battery mode the key never shuts the device down, however long it is held. */
  lemma {:induction false} ExternalPowerIgnoresKey(cfg: Config, k: Key, levels: seq<int>, times: seq<nat>)
    requires |levels| == |times| && Schedule(k, times)
    requires !k.batteryMode
    ensures PollRun(cfg, k, levels, times) == k
    decreases |times|
  {
    if |times| > 0 {
      ExternalPowerIgnoresKey(cfg, k, levels[1..], times[1..]);
    }
  }
}
