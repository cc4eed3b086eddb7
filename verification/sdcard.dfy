/**
 * SD card wrapper (`SdCard`): mounting tries the SDMMC host (when the board
 * defines its pins) and then the SPI host, unmounting clears the mounted
 * state, and directory listing drops the "." and ".." entries. The driver
 * results and the directory contents are parameters.
 */
module SdCard {
  import opened Wrappers

  /** An opaque card handle (`sdmmc_card_t*`). */
  datatype Card = Card(id: nat)

  /** What `SdCard` keeps: whether mounted, the mount point and the card handle. */
  datatype SdState = SdState(mounted: bool, mountPoint: string, card: Option<Card>)

  /** A freshly constructed `SdCard`: not mounted, no mount point, no card. */
  const UNMOUNTED: SdState := SdState(false, "", None)

  /** The outcome of one FAT mount call. */
  datatype MountResult = MountOk(card: Card) | MountFailed

  /** The outcome of `spi_bus_initialize`. */
  datatype SpiInit = SpiOk | SpiInvalidState | SpiError

  /** The host controllers, in the order they may be tried. */
  datatype Host = Sdmmc | Sdspi

  /**
   * The environment of one `mount` call: whether the SDMMC pins are defined
   * (a build-time choice; this board does not define them) and how each step answers.
   */
  datatype MountEnv = MountEnv(sdmmcPins: bool, sdmmc: MountResult, spiInit: SpiInit, sdspi: MountResult)

  datatype MountOutcome = MountOutcome(ok: bool, state: SdState, tried: seq<Host>)

  /**
   * `mount`: an already mounted card short-circuits to success. Otherwise
   * SDMMC is tried first when configured; then the SPI bus is initialised
   * (an "already initialised" answer is tolerated) and SDSPI is tried.
   */
  function Mount(s: SdState, mountPoint: string, env: MountEnv): (r: MountOutcome)
    ensures s.mounted ==> r == MountOutcome(true, s, [])
    ensures !s.mounted ==>
      && (r.ok <==> r.state.mounted)
      && (r.ok ==> r.state.mountPoint == mountPoint && r.state.card.Some?)
      && (!r.ok ==> r.state == s)
      && |r.tried| >= 1
      && (r.tried[0] == Sdmmc <==> env.sdmmcPins)
    ensures !s.mounted && env.sdmmcPins && env.sdmmc.MountOk? ==>
      r == MountOutcome(true, SdState(true, mountPoint, Some(env.sdmmc.card)), [Sdmmc])
    ensures !s.mounted && (!env.sdmmcPins || env.sdmmc.MountFailed?) ==>
      && (r.ok <==> env.spiInit != SpiError && env.sdspi.MountOk?)
      && (r.ok ==> r.state == SdState(true, mountPoint, Some(env.sdspi.card)))
      && r.tried == (if env.sdmmcPins then [Sdmmc, Sdspi] else [Sdspi])
  {
    if s.mounted then MountOutcome(true, s, [])
    else if env.sdmmcPins && env.sdmmc.MountOk? then
      MountOutcome(true, SdState(true, mountPoint, Some(env.sdmmc.card)), [Sdmmc])
    else
      var tried := (if env.sdmmcPins then [Sdmmc] else []) + [Sdspi];
      if env.spiInit == SpiError then MountOutcome(false, s, tried)
      else if env.sdspi.MountFailed? then MountOutcome(false, s, tried)
      else MountOutcome(true, SdState(true, mountPoint, Some(env.sdspi.card)), tried)
  }

  /** Mounting twice: the second call succeeds and changes nothing, whatever the hardware says. */
  lemma MountIdempotent(s: SdState, mp: string, env: MountEnv, env2: MountEnv, mp2: string)
    requires Mount(s, mp, env).ok
    ensures var s' := Mount(s, mp, env).state; Mount(s', mp2, env2) == MountOutcome(true, s', [])
  {
  }

  /**
   * On this board (no SDMMC pins) the first mount of a fresh card object goes
   * straight to SPI, and succeeds exactly when the SPI bus is usable and the
   * SDSPI mount succeeds.
   */
  lemma BoardMountsOverSpi(mp: string, env: MountEnv)
    requires !env.sdmmcPins
    ensures var r := Mount(UNMOUNTED, mp, env);
      && r.tried == [Sdspi]
      && (r.ok <==> env.spiInit != SpiError && env.sdspi.MountOk?)
      && (!r.ok ==> r.state == UNMOUNTED)
  {
  }

  /** `unmount`: nothing to do unless mounted; afterwards not mounted and no card. */
  function Unmount(s: SdState): (r: SdState)
    ensures !s.mounted ==> r == s
    ensures !r.mounted && (s.mounted ==> r.card.None?)
    ensures r.mountPoint == s.mountPoint
  {
    if !s.mounted then s else s.(mounted := false, card := None)
  }

  /** After a successful mount, unmounting leaves no card behind, and a new mount can proceed. */
  lemma MountUnmountCycle(s: SdState, mp: string, env: MountEnv, env2: MountEnv)
    requires !s.mounted && Mount(s, mp, env).ok
    ensures var u := Unmount(Mount(s, mp, env).state);
      !u.mounted && u.card.None? && Mount(u, mp, env2).tried != []
  {
  }

  predicate IsDotEntry(name: string) {
    name == "." || name == ".."
  }

  /** Reference definition of the listing: the entries without "." and "..", in directory order. */
  function WithoutDots(entries: seq<string>): (r: seq<string>)
    ensures |r| <= |entries|
    ensures forall k :: 0 <= k < |r| ==> !IsDotEntry(r[k])
    ensures forall e :: e in r <==> e in entries && !IsDotEntry(e)
  {
    if |entries| == 0 then []
    else
      var rest := WithoutDots(entries[..|entries| - 1]);
      var last := entries[|entries| - 1];
      assert entries == entries[..|entries| - 1] + [last];
      if IsDotEntry(last) then rest else rest + [last]
  }

  /** Filtering distributes over concatenation, so entries keep their relative order. */
  lemma {:induction false} WithoutDotsAppend(a: seq<string>, b: seq<string>)
    ensures WithoutDots(a + b) == WithoutDots(a) + WithoutDots(b)
    decreases |b|
  {
    if |b| > 0 {
      var b' := b[..|b| - 1];
      assert (a + b)[..|a + b| - 1] == a + b';
      assert (a + b)[|a + b| - 1] == b[|b| - 1];
      WithoutDotsAppend(a, b');
    } else {
      assert a + b == a;
    }
  }

  /** A directory without dot entries is listed unchanged. */
  lemma {:induction false} WithoutDotsKeepsClean(entries: seq<string>)
    requires forall k :: 0 <= k < |entries| ==> !IsDotEntry(entries[k])
    ensures WithoutDots(entries) == entries
    decreases |entries|
  {
    if |entries| > 0 {
      WithoutDotsKeepsClean(entries[..|entries| - 1]);
      assert entries == entries[..|entries| - 1] + [entries[|entries| - 1]];
    }
  }

  /**
   * `list_dir`: `None` stands for a failed `opendir`, which yields an empty
   * list; otherwise the entries `readdir` yields, with "." and ".." skipped.
   */
  method ListDir(dir: Option<seq<string>>) returns (out: seq<string>)
    ensures dir.None? ==> out == []
    ensures dir.Some? ==> out == WithoutDots(dir.value)
    ensures forall k :: 0 <= k < |out| ==> !IsDotEntry(out[k])
  {
    out := [];
    if dir.None? {
      return;
    }
    var entries := dir.value;
    var i := 0;
    while i < |entries|
      invariant 0 <= i <= |entries|
      invariant out == WithoutDots(entries[..i])
    {
      var name := entries[i];
      assert entries[..i + 1][..i] == entries[..i];
      if !IsDotEntry(name) {
        out := out + [name];
      }
      i := i + 1;
    }
    assert entries[..i] == entries;
  }
}
