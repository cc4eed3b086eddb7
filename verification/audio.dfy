/**
 * Decision logic of the MP3 player wrapper (`audio.cpp`): how `Play_Music`
 * joins a directory and a file name, how the volume is clamped and recorded,
 * and how `reconfig_rate` maps a sample width and skips a reconfiguration
 * that would change nothing. A C string is `Option<string>` (`None` is a null
 * pointer); the I2S driver's success is a parameter.
 */
module Audio {
  import opened Words
  import opened Wrappers

  /**
   * `Play_Music`'s path: a non-empty directory, a '/' if the directory is
   * longer than one character and does not already end in one, then the
   * file name if there is one; with no directory, just the file name.
   */
  function JoinPath(directory: Option<string>, fileName: Option<string>): (path: string)
    ensures var f := fileName.GetOr("");
      && (directory.None? || directory.value == [] ==> path == f)
      && (directory.Some? && directory.value != [] ==>
            var d := directory.value;
            && |d| + |f| <= |path| <= |d| + 1 + |f|
            && path[..|d|] == d
            && path[|path| - |f|..] == f
            && (|d| > 1 ==> path[|path| - |f| - 1] == '/')
            && (|d| == 1 || d[|d| - 1] == '/' ==> |path| == |d| + |f|))
  {
    if directory.Some? && directory.value != [] then
      var d := directory.value;
      var dir := if |d| > 1 && d[|d| - 1] != '/' then d + "/" else d;
      if fileName.Some? then dir + fileName.value else dir
    else if fileName.Some? then fileName.value
    else ""
  }

  /** Examples: a one-character directory gets no separator; a longer one gets exactly one. */
  lemma JoinPathExamples()
    ensures JoinPath(Some("a"), Some("x")) == "ax"
    ensures JoinPath(Some("/sd"), Some("x.mp3")) == "/sd/x.mp3"
    ensures JoinPath(Some("/sd/"), Some("x.mp3")) == "/sd/x.mp3"
    ensures JoinPath(Some("/sd"), None) == "/sd/"
    ensures JoinPath(None, None) == ""
  {
    assert "/sd" + "/" + "x.mp3" == "/sd/x.mp3";
    assert "/sd/" + "x.mp3" == "/sd/x.mp3";
  }

  /** For a directory longer than one character, joining is the same whether or not it already carries its trailing '/'. */
  lemma TrailingSlashIrrelevant(d: string, fileName: Option<string>)
    requires |d| > 1 && d[|d| - 1] != '/'
    ensures JoinPath(Some(d + "/"), fileName) == JoinPath(Some(d), fileName)
  {
    var d' := d + "/";
    assert d'[|d'| - 1] == '/';
  }

  /** The player's volume (`volume_`) and the exported `Audio_Volume`. */
  datatype Volumes = Volumes(volume: byte, audioVolume: byte)

  /** Both start at 98. */
  const INITIAL_VOLUMES: Volumes := Volumes(98, 98)

  const MAX_VOLUME: byte := 100

  /** `set_volume`: clamp to 100 and store the clamped value in both places. */
  function SetVolume(v: Volumes, vol: byte): (r: Volumes)
    ensures r.volume <= MAX_VOLUME && r.volume == r.audioVolume
    ensures vol <= MAX_VOLUME ==> r.volume == vol
    ensures vol > MAX_VOLUME ==> r.volume == MAX_VOLUME
  {
    var clamped := if vol > MAX_VOLUME then MAX_VOLUME else vol;
    Volumes(clamped, clamped)
  }

  /**
   * From the start-up volumes, `Volume_adjustment(150)` with a player leaves
   * the player at 100 but `Audio_Volume` at 150; a later `set_volume(50)`
   * brings the two back in step.
   */
  lemma VolumeScenario()
    ensures VolumeAdjustment(INITIAL_VOLUMES, 150, true) == Volumes(100, 150)
    ensures SetVolume(VolumeAdjustment(INITIAL_VOLUMES, 150, true), 50) == Volumes(50, 50)
  {
  }

  /** Setting a volume twice is the same as setting it once. */
  lemma SetVolumeIdempotent(v: Volumes, vol: byte)
    ensures SetVolume(SetVolume(v, vol), vol) == SetVolume(v, vol)
  {
  }

  /**
   * `Volume_adjustment`: with a player the clamped value is stored, and then
   * `Audio_Volume` is overwritten with the unclamped argument either way.
   */
  function VolumeAdjustment(v: Volumes, vol: byte, hasPlayer: bool): (r: Volumes)
    ensures r.audioVolume == vol
    ensures hasPlayer ==> r.volume == SetVolume(v, vol).volume
    ensures !hasPlayer ==> r.volume == v.volume
  {
    var afterPlayer := if hasPlayer then SetVolume(v, vol) else v;
    afterPlayer.(audioVolume := vol)
  }

  /** An adjustment above 100 leaves `Audio_Volume` out of step with the clamped player volume. */
  lemma AdjustmentAbove100Diverges(v: Volumes, vol: byte)
    requires vol > MAX_VOLUME
    ensures VolumeAdjustment(v, vol, true).audioVolume != VolumeAdjustment(v, vol, true).volume
  {
  }

  /** `i2s_slot_mode_t`. */
  datatype SlotMode = Mono | Stereo

  /** The I2S channel as the player tracks it: whether it exists, and the current rate, slot width and mode. */
  datatype I2s = I2s(hasTx: bool, rate: u32, bits: byte, stereo: bool)

  /** A freshly constructed player: no channel yet, tracking 44100 Hz, 16 bits, stereo. */
  const INITIAL_I2S: I2s := I2s(false, 44100, 16, true)

  /** The slot width used for a data width: 32 for 32- and 24-bit data, 16 for anything else. */
  function SlotBits(bitsCfg: u32): (bits: byte)
    ensures bits == 16 || bits == 32
    ensures bits == 32 <==> bitsCfg == 32 || bitsCfg == 24
  {
    if bitsCfg == 32 then 32 else if bitsCfg == 24 then 32 else 16
  }

  /** Outcome of `reconfig_rate`: its result, the tracked state, and whether the driver was touched. */
  datatype Reconfig = Reconfig(ok: bool, i2s: I2s, touchedDriver: bool)

  /**
   * `reconfig_rate`: fails without a channel; succeeds without touching the
   * driver when rate, slot width and mode are already current; otherwise
   * reconfigures and records the new settings only if the driver accepts.
   */
  function ReconfigRate(s: I2s, rate: u32, bitsCfg: u32, mode: SlotMode, driverOk: bool): (r: Reconfig)
    ensures !s.hasTx ==> r == Reconfig(false, s, false)
    ensures var want := I2s(true, rate, SlotBits(bitsCfg), mode == Stereo);
      && (s.hasTx && s == want ==> r == Reconfig(true, s, false))
      && (s.hasTx && s != want ==> r.touchedDriver && r.ok == driverOk && r.i2s == (if driverOk then want else s))
  {
    if !s.hasTx then Reconfig(false, s, false)
    else
      var stereo := mode == Stereo;
      var bits := SlotBits(bitsCfg);
      if s.rate == rate && s.bits == bits && s.stereo == stereo then Reconfig(true, s, false)
      else if !driverOk then Reconfig(false, s, true)
      else Reconfig(true, I2s(true, rate, bits, stereo), true)
  }

  /** After a successful reconfiguration, the same request again is a no-op that leaves the driver alone. */
  lemma ReconfigIdempotent(s: I2s, rate: u32, bitsCfg: u32, mode: SlotMode, driverOk: bool, driverOk2: bool)
    requires ReconfigRate(s, rate, bitsCfg, mode, driverOk).ok
    ensures var s' := ReconfigRate(s, rate, bitsCfg, mode, driverOk).i2s;
      ReconfigRate(s', rate, bitsCfg, mode, driverOk2) == Reconfig(true, s', false)
  {
  }

  /** Before the channel exists every reconfiguration fails without touching anything. */
  lemma ReconfigBeforeChannelFails(rate: u32, bitsCfg: u32, mode: SlotMode, driverOk: bool)
    ensures ReconfigRate(INITIAL_I2S, rate, bitsCfg, mode, driverOk) == Reconfig(false, INITIAL_I2S, false)
  {
  }

  /** 24-bit data is carried in 32-bit slots, so switching between 24 and 32 bits never reconfigures. */
  lemma Width24And32ShareSlots(s: I2s, rate: u32, mode: SlotMode, driverOk: bool, driverOk2: bool)
    requires ReconfigRate(s, rate, 32, mode, driverOk).ok
    ensures var s' := ReconfigRate(s, rate, 32, mode, driverOk).i2s;
      !ReconfigRate(s', rate, 24, mode, driverOk2).touchedDriver
  {
  }
}
