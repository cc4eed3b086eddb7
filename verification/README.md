# CST328 touch pipeline and board helpers, modelled in Dafny

This project models the firmware of an ESP32-S3 board with a capacitive touch
panel (CST328 controller), a power key, an RGB565 LCD, an MP3 player and an SD
card. The centre of the model is the touch driver `src/components/touch/touch.cpp`:

- the register transport (`i2c_read16` / `i2c_write16`);
- the report decoder (`parse_xy_CST328_basic`) and the two-path read (`read_raw_point`);
- the raw-space auto-calibration (`update_calibration`);
- the coordinate mapper (`normalize`, `map_basic_to_display`);
- the per-poll glue (`indev_read_cb`);
- the device probe (`attach_device` and the probe order of `Touch::init`).

Smaller modules cover the power-key debounce and long-press latch, RGB565
packing in the colour probe, the pure logic of the audio wrapper, and the SD
card mount flags and directory filter.

Operations are pure functions over immutable datatypes; the two drawing routines and the directory listing, which loop in the source, are methods returning sequences. The bus, the GPIO
level, the clock, the I2S and SD drivers and the directory contents are
parameters (oracles):

- Touch poll: `PollBus` gives one reply per register read the decoder may issue.
- Touch probe: `Responder` gives the replies of the controller at every (port, address).
- Power key: the key level and the current time in milliseconds.
- Audio: whether the I2S driver accepts a reconfiguration.
- SD card: the result of every mount step, and the directory listing or `None` for a failed `opendir`.

C integer conversions are written out with `ToU32` / `ToU16` wherever an
operand can leave its range:

- `normalize` with a value below the learned minimum;
- a rotation applied to a point outside the nominal rectangle;
- the multiplication in the display scaling.

Files and modules:

| file | module | models |
|---|---|---|
| words.dfy | `Words` | `uint8_t`/`uint16_t`/`uint32_t` and C conversions |
| wrappers.dfy | `Wrappers` | `Option` (null pointers, absent handles) |
| touch_bus.dfy | `TouchBus` | registers, addresses, frame layout |
| touch_decode.dfy | `TouchDecode` | report decoding and the path A / path B decision |
| touch_calibration.dfy | `Calibration` | the learned bounding box |
| touch_mapper.dfy | `Mapper` | normalize, rotate, scale and clip |
| touch_probe.dfy | `Probe` | attach and the port/address search |
| touch_poll.dfy | `TouchPoll` | driver state, initialisation, one poll and runs of polls |
| power_key.dfy | `PowerKey` | read polarity, debounce, press timer, latch |
| color_probe.dfy | `ColorProbe` | RGB565 packing, grid and quadrant fill requests |
| audio.dfy | `Audio` | path joining, volume, slot-width mapping |
| sdcard.dfy | `SdCard` | mount fallback, unmount, directory filter |

Board constants used:

- The touch mapper gets a 320 x 240 display: `LCD_V_RES` x `LCD_H_RES` (display.cpp lines 69-70, board_pins.hpp lines 35-36).
- The rotation is `TOUCH_ROT` = 1, i.e. 90 degrees clockwise.
- The controller's nominal size is read from registers D1F8/D1FA at run time. If it reports 240 x 320, this rotation is a pure rotation with no rescaling (`Mapper.BoardGeometryIsPureRotation`).

Behaviour of the code worth noting:

- The calibration box is not created lazily on the first sample. It starts seeded, as `[1, 239] x [6, 298]` with `s_cal_inited = true`. The lazy branch exists in the code but can never run (`Calibration.LearnFromPreset`). It is still modelled, including the `uint16_t` wrap of `x + 1`.
- Path B is taken for any count nibble outside 1..5, not only for 0. An unreadable count register skips the zero acknowledgement.
- `normalize` does not clamp a value below the learned minimum to 0. The `uint32_t` subtraction wraps and the quotient is then clamped from above only. `Mapper.NormalizeBelowMinimumWraps` shows a value one below the minimum landing on the far edge. In the driver this cannot happen: the box is widened to include the sample before normalizing.
- After a complete probe failure, `s_port` is left on the second port.

## Model

| member | source | states |
|---|---|---|
| TouchBus.Write16 | src/components/touch/touch.cpp:111-122 | no device: refused before anything is sent; payload over 32 bytes: refused as invalid; otherwise the frame is 2 + len bytes, its first two bytes big-endian decode to the register, and the rest is the payload |
| TouchBus.Read16Header | src/components/touch/touch.cpp:101-106 | a read with no device fails without bus traffic; otherwise the two transmitted bytes big-endian decode to the register |
| TouchBus.ReadWriteSameOrder | src/components/touch/touch.cpp:101-122 | reads and writes address a register with the same two leading bytes |
| TouchBus.RegisterBytesRoundTrip | src/components/touch/touch.cpp:117-118 | decoding a frame's register and re-encoding it reproduces the frame's first two bytes |
| TouchBus.ModeSwitchFrame | src/components/touch/touch.cpp:127-128 | the zero-length mode switches put exactly D1 01 and D1 09 on the wire |
| TouchDecode.ParseXY | src/components/touch/touch.cpp:134-140 | both coordinates are below 4096; X's high 8 bits are byte 1 and its low 4 bits the high nibble of byte 3; Y's are byte 2 and the low nibble of byte 3 |
| TouchDecode.ParseEncodeRoundTrip | src/components/touch/touch.cpp:134-140 | decoding is a bijection between 12-bit sample pairs and report bytes 1-3, in both directions |
| TouchDecode.ReadRawPoint | src/components/touch/touch.cpp:145-219 | a press implies success; a failed read reports no press and untouched outputs; path A iff the count read succeeds with nibble 1..5; path A with a failed 27-byte read gives false; path A otherwise gives a press decoded from the 27-byte payload, with read/read/ack on the wire; path B after an ack iff the count was readable; path B read failure gives false; status nibble 6 gives a press decoded from bytes 1-3; any other nibble gives true and released; a warning is logged exactly when the frame that supplied a press has byte 6 different from 0xAB |
| TouchDecode.PathAIgnoresLegacyBuffer | src/components/touch/touch.cpp:149-172 | when path A is taken the whole result is independent of the 8-byte buffer |
| TouchDecode.SentinelIsWarnOnly | src/components/touch/touch.cpp:155-158 | rewriting byte 6 of either report never changes success, press or coordinates |
| TouchDecode.ZeroCountFallsThrough | src/components/touch/touch.cpp:173-195 | a zero count does not declare a release: a pressed legacy buffer still yields a press |
| TouchDecode.ScenarioPathA | src/components/touch/touch.cpp:149-172 | count 1 with payload bytes 05 03 A1 and sentinel AB decodes to (90, 49), pressed, no warning |
| TouchDecode.ScenarioPathB | src/components/touch/touch.cpp:184-218 | a failed count read with buffer 06 02 04 50 decodes through path B to (37, 64), pressed |
| Calibration.Update | src/components/touch/touch.cpp:224-249 | the result is seeded; an unseeded box becomes [x, x+1] x [y, y+1] with 16-bit wrap; the sample ends inside the box; a seeded box never shrinks; a sample already inside changes nothing; the result is the least box holding the old box and the sample |
| Calibration.LearnMonotone | src/components/touch/touch.cpp:238-242 | along any run of samples, every earlier box lies within every later one |
| Calibration.LearnFromPreset | src/components/touch/touch.cpp:83-85 | from the preset box every learned box stays seeded (the lazy seeding never runs), contains the preset and contains every sample of the run |
| Mapper.Normalize | src/components/touch/touch.cpp:88-96 | a span under 2 gives 0, and the result never exceeds the nominal edge |
| Mapper.NormalizeBelowMinimumWraps | src/components/touch/touch.cpp:91-94 | a value below the learned minimum is not clamped to 0: with minimum 1 and maximum 239, raw 0 wraps in `uint32_t` and is clamped to the far edge 239 |
| Mapper.NormalizeExact | src/components/touch/touch.cpp:91-95 | for values inside the learned span no 32-bit wrap occurs, and the result is the exact linear quotient |
| Mapper.NormalizeEndpoints | src/components/touch/touch.cpp:88-96 | with span at least 2 the minimum maps to 0 and the maximum to the nominal edge |
| Mapper.NormalizeMonotone | src/components/touch/touch.cpp:88-96 | normalization is monotone on the learned span |
| Mapper.RotationOf | src/components/touch/touch.cpp:264-276 | the `TOUCH_ROT` chain: 0, 1 and 2 select 0, 90 and 180 degrees, and every other value selects 270 degrees |
| Mapper.Rotate | src/components/touch/touch.cpp:260-276 | 90 and 270 degrees swap the nominal width and height, 0 and 180 keep them; an in-range point stays inside the rotated rectangle |
| Mapper.RotateBijective | src/components/touch/touch.cpp:264-276 | each rotation is undone by its inverse, and every point of the rotated rectangle has a preimage in the nominal rectangle |
| Mapper.RotateInjective | src/components/touch/touch.cpp:264-276 | two in-range points with the same rotation are equal |
| Mapper.ScaleAxis | src/components/touch/touch.cpp:278-286 | the result is always below the display dimension; when scaling is skipped (dimension equal, or either at most 1) the value is only clipped |
| Mapper.ScaleAxisInRange | src/components/touch/touch.cpp:281-282 | inside the rotated rectangle scaling is the exact quotient, maps 0 to 0 and the far edge to the display's far edge |
| Mapper.MapToDisplay | src/components/touch/touch.cpp:253-290 | any zero dimension leaves the point untouched; otherwise the output lies inside the display |
| Mapper.BoardGeometryIsPureRotation | src/components/touch/touch.cpp:267-282 | if the controller reports 240 x 320 and the display is 320 x 240, the default rotation maps (x, y) to (y, 239 - x) with no rescaling |
| Probe.AttachDevice | src/components/touch/touch.cpp:382-414 | succeeds iff the device is added and the X resolution read succeeds; on success the handle, address and little-endian X maximum are recorded; a failed Y read keeps the previous Y maximum; on failure the state, including the previous handle, is unchanged; a successful attach sends exactly debug mode, the X read, the Y read and normal mode; a failed X read stops after the first two |
| Probe.TryPort | src/components/touch/touch.cpp:482-483 | a port succeeds iff its primary or fallback address answers; the primary wins when both do; a port where neither answers leaves the state unchanged |
| Probe.FirstResponsive | src/components/touch/touch.cpp:481-494 | the index it returns has no responsive candidate before it and is responsive itself, unless it is past the end |
| Probe.ProbeInit | src/components/touch/touch.cpp:476-494 | an online result's device is on the port the probe ended on; a failed probe leaves the initial state on the second port |
| Probe.ProbeFollowsCandidateOrder | src/components/touch/touch.cpp:481-503 | the first responsive pair in the order (port 1, 0x1A), (port 1, 0x15), (port 2, 0x1A), (port 2, 0x15) wins and supplies the maxima (Y = 0 if its Y read failed); with none responsive the device is absent |
| Probe.ProbeOnlineIff | src/components/touch/touch.cpp:496-503 | the driver is online iff some candidate answers |
| TouchPoll.Initialize | src/components/touch/touch.cpp:443-503 | the driver starts with the preset box, the display size, and the probed device and nominal maxima; an absent device leaves both maxima 0 |
| TouchPoll.InitializeTakesFirstResponsive | src/components/touch/touch.cpp:481-503 | the driver talks to the first answering candidate in probe order, with its reported X maximum and its Y maximum (0 if the Y read failed); with no candidate answering it has no device and zero maxima |
| TouchPoll.NominalXMax | src/components/touch/touch.cpp:330 | `nx_max` is the last index of an axis as long as the reported width, or failing that the display width, or failing that 240 |
| TouchPoll.NominalYMax | src/components/touch/touch.cpp:331 | `ny_max` is the last index of an axis as long as the reported height, or failing that the display height, or failing that 320 |
| TouchPoll.NormalizePoint | src/components/touch/touch.cpp:330-333 | normalized coordinates never exceed nx_max / ny_max |
| TouchPoll.Poll | src/components/touch/touch.cpp:295-341 | no device: released with no bus traffic and no change; with a device, the transactions are exactly those of the raw read; pressed iff the device exists and the read succeeds with a press; a release never changes the driver; a press changes only the calibration, by exactly one update with the sample, and reports the sample normalized against the updated box, then rotated and scaled; with a complete geometry the event lies inside the display; a seeded box only widens |
| TouchPoll.NewExtremeMapsToEdge | src/components/touch/touch.cpp:326-341 | because calibration precedes normalization, the event for a sample that sets a new maximum on an axis is the mapped position of that axis's nominal edge, and for a new minimum the mapped position of 0 |
| TouchPoll.NewMinimumScenario | src/components/touch/touch.cpp:326-341 | with the preset box, a 240 x 320 report and a 320 x 240 display, a path-B touch at raw (0, 100) widens the box to x = 0 and is reported at (102, 239); the same sample normalized against the box before the update would wrap and map to (102, 0), the opposite edge |
| TouchPoll.AbsentAlwaysReleased | src/components/touch/touch.cpp:298-301 | with no device, every poll of any run is released, no bus traffic occurs and the driver never changes |
| TouchPoll.NoTouchNeverRecalibrates | src/components/touch/touch.cpp:313-324 | polls that see no press all report released and leave the driver, including the calibration, unchanged |
| TouchPoll.PollsOnlyWiden | src/components/touch/touch.cpp:326-327 | over any run of polls the calibration box of a seeded driver only widens |
| TouchPoll.AbsentScenario | src/components/touch/touch.cpp:496-497 | a probe that fails everywhere is followed by 100 released polls with no bus traffic |
| PowerKey.ReadRaw | src/components/power_key/power_key.cpp:17-20 | active-low: pressed iff the level is 0; active-high: pressed iff it is not 0 |
| PowerKey.PolaritiesDisagree | src/components/power_key/power_key.cpp:19 | the two polarities always read the same level oppositely |
| PowerKey.Debounce | src/components/power_key/power_key.cpp:22-34 | a change of raw reading records now as the edge; the stable reading takes the raw one once it has held for the debounce time, and otherwise keeps its value; nothing else changes |
| PowerKey.BounceIsFiltered | src/components/power_key/power_key.cpp:26-32 | with a positive debounce time a fresh edge never changes the stable reading |
| PowerKey.CutLatch | src/components/power_key/power_key.cpp:36-53 | after a shutdown nothing changes; otherwise the shutdown flag is set, the latch driven low and deep sleep entered iff configured |
| PowerKey.CutLatchIdempotent | src/components/power_key/power_key.cpp:36-38 | cutting twice equals cutting once |
| PowerKey.Init | src/components/power_key/power_key.cpp:55-87 | battery mode and latch high iff the key reads pressed at boot; stable = previous raw = the seed reading; edge at now; no press timed and no shutdown |
| PowerKey.Poll | src/components/power_key/power_key.cpp:89-108 | no effect outside battery mode or after shutdown; a stable press starts the timer only if it is 0; a stable release resets it to 0; shutdown is issued exactly when the stable press has lasted the hold time, with the latch then low and deep sleep entered iff configured; without a shutdown the latch and deep-sleep flags are unchanged; the raw reading and edge stamp are those of the debounce step; time stamps stay in the past |
| PowerKey.BootPressHeldShutsDown | src/components/power_key/power_key.cpp:72-103 | a key pressed at boot and still held is powered off by the poll `holdMs` after the first one: latch low, deep sleep iff configured |
| PowerKey.BootPressReleasedEarlyKeepsPower | src/components/power_key/power_key.cpp:95-103 | the same press polled 1 ms before the hold time has elapsed keeps the latch high |
| PowerKey.AppConfigHoldScenario | src/main/app_main.cpp:22-30 | with the application's configuration, a press at boot held for 2 s cuts the latch and enters deep sleep |
| PowerKey.BootOnExternalPowerNeverShutsDown | src/components/power_key/power_key.cpp:72-90 | booted without the key pressed, no run of polls ever issues a shutdown |
| PowerKey.ShutdownIsFinal | src/components/power_key/power_key.cpp:90 | once shut down, any run of later polls changes nothing |
| PowerKey.ExternalPowerIgnoresKey | src/components/power_key/power_key.cpp:90 | outside battery mode any run of polls changes nothing |
| ColorProbe.Rgb565 | src/components/display/color_probe.hpp:12 | the packed value fits 16 bits and its 5-6-5 fields are r >> 3, g >> 2 and b >> 3 |
| ColorProbe.PutRgb565 | src/components/display/color_probe.hpp:11-20 | two bytes: most significant first without swap, least significant first with swap |
| ColorProbe.SwapReverses | src/components/display/color_probe.hpp:13-19 | the swapped output is the byte reversal of the plain one |
| ColorProbe.Unpack565 | src/components/display/color_probe.hpp:12-19 | reading two bytes back gives fields below 32, 64 and 32 |
| ColorProbe.PackUnpackRoundTrip | src/components/display/color_probe.hpp:12-19 | r >> 3, g >> 2 and b >> 3 are recovered exactly from the two bytes in either order |
| ColorProbe.PackIgnoresOnlyLowBits | src/components/display/color_probe.hpp:12 | two colours pack equally iff their top 5, 6 and 5 bits agree |
| ColorProbe.PutPixel | src/components/display/color_probe.hpp:23-27 | in BGR order the red field carries blue and the blue field red; otherwise the fields are unchanged |
| ColorProbe.SplitColor | src/components/display/color_probe.hpp:61-63 | the three extracted bytes recombine to any 24-bit colour |
| ColorProbe.Draw9ColorGrid | src/components/display/color_probe.hpp:48-69 | nine fills in row-major order, fill i at (x + (i mod 3) * w, y + (i div 3) * h), sized w x h, in the i-th grid colour with the given switches |
| ColorProbe.QuadrantCell | src/components/display/color_probe.hpp:75-90 | cell i of quadrant q: BGR order exactly in the bottom quadrants, byte swap exactly in the right-hand ones |
| ColorProbe.ProbeColorQuadrants | src/components/display/color_probe.hpp:74-91 | a black full-screen fill, then fill 1 + 9q + i is cell i of quadrant q's grid: corner at C-truncated half sizes, cells a third of a quadrant, RGB/no swap, RGB/swap, BGR/no swap, BGR/swap |
| Audio.JoinPath | src/components/audio/audio.cpp:265-276 | no or empty directory: the file name (or empty); otherwise the path starts with the directory and ends with the file name; a directory longer than one character is followed by a '/', and none is added to a one-character or slash-terminated directory |
| Audio.JoinPathExamples | src/components/audio/audio.cpp:268-274 | "a"+"x" is "ax", "/sd"+"x.mp3" and "/sd/"+"x.mp3" are "/sd/x.mp3", a missing file name leaves "/sd/" |
| Audio.TrailingSlashIrrelevant | src/components/audio/audio.cpp:270 | a directory longer than one character joins the same with or without its trailing '/' |
| Audio.SetVolume | src/components/audio/audio.cpp:237-241 | the stored volume is at most 100, equals the argument when that is at most 100, and both copies agree |
| Audio.VolumeScenario | src/components/audio/audio.cpp:288 | from the start-up volumes 98/98, an adjustment to 150 leaves the player at 100 and `Audio_Volume` at 150, and a later set to 50 brings both to 50 |
| Audio.SetVolumeIdempotent | src/components/audio/audio.cpp:237-241 | setting a volume twice equals setting it once |
| Audio.VolumeAdjustment | src/components/audio/audio.cpp:288 | `Audio_Volume` always ends equal to the unclamped argument; the player volume is clamped when a player exists and unchanged otherwise |
| Audio.AdjustmentAbove100Diverges | src/components/audio/audio.cpp:288 | an argument above 100 leaves `Audio_Volume` different from the player's volume |
| Audio.SlotBits | src/components/audio/audio.cpp:99-102 | the slot width is 32 exactly for 32- and 24-bit data and 16 otherwise |
| Audio.ReconfigRate | src/components/audio/audio.cpp:96-121 | no channel: false, nothing touched; unchanged settings: true without touching the driver; otherwise the driver is touched and the new settings are recorded iff it accepts |
| Audio.ReconfigBeforeChannelFails | src/components/audio/audio.cpp:97 | before the channel exists every reconfiguration fails and changes nothing |
| Audio.ReconfigIdempotent | src/components/audio/audio.cpp:103 | repeating a successful request is a no-op that leaves the driver alone |
| Audio.Width24And32ShareSlots | src/components/audio/audio.cpp:100-103 | after configuring 32-bit data, a 24-bit request does not reconfigure |
| SdCard.Mount | src/components/storage/sdcard.cpp:17-132 | already mounted: true and nothing changes; success iff mounted afterwards, with the mount point and a card; failure leaves the state; SDMMC is tried first iff configured, and its success ends the attempt; otherwise SDSPI succeeds iff SPI init is OK or already-initialised and the SPI mount succeeds |
| SdCard.MountIdempotent | src/components/storage/sdcard.cpp:18 | a second mount after a successful one returns true, tries nothing and changes nothing |
| SdCard.BoardMountsOverSpi | src/components/storage/sdcard.cpp:102-131 | without SDMMC pins, the first mount of a fresh object tries only SPI and succeeds iff the SPI bus is usable and the SDSPI mount succeeds, otherwise staying unmounted |
| SdCard.Unmount | src/components/storage/sdcard.cpp:134-140 | not mounted: unchanged; afterwards never mounted and, if it was mounted, no card |
| SdCard.MountUnmountCycle | src/components/storage/sdcard.cpp:134-140 | after mount then unmount there is no card and a fresh mount really tries a host |
| SdCard.WithoutDots | src/components/storage/sdcard.cpp:149-156 | the listing has no "." or ".." and contains exactly the other entries |
| SdCard.WithoutDotsAppend | src/components/storage/sdcard.cpp:149-156 | filtering distributes over concatenation, so the kept entries stay in directory order |
| SdCard.WithoutDotsKeepsClean | src/components/storage/sdcard.cpp:154-155 | a directory without dot entries is listed unchanged |
| SdCard.ListDir | src/components/storage/sdcard.cpp:142-159 | a failed opendir yields an empty list; otherwise the result is the filtered listing, free of dot entries |

## Left out

- GPIO configuration, the touch reset pulse and settle delays, `vTaskDelay`, LVGL input-device registration, and the debug cursor and label timer. These are vendor or UI calls with no decision logic.
- `scan_addrs`: a diagnostic scan that never affects probing.
- All logging, including the alignment warnings. The model records a warning only as a flag.
- Bus creation failure in `Touch::init`: it aborts through `ESP_ERROR_CHECK`. The model assumes the bus is created.
- Bus timeouts: a timeout is just a failed reply.
- Port identity: the two ports are an abstract ordered pair. Which hardware port comes first depends on how the `I2C_TOUCH_PORT` macro and constant interact at build time.
- Results of the acknowledgement and mode-switch writes: the driver discards them, so they appear only in the transaction traces.
- The INT-pin gating of `indev_read_cb`: it is compiled out by `TOUCH_FORCE_POLL`.
- The coordinates LVGL keeps on a release: a `Released` event carries none.
- Power key: FreeRTOS tick wrap-around is not modelled. Time is milliseconds as a `nat` (one tick per millisecond), and callers must supply times that do not run backwards (`PowerKey.NotAfter`).
- PowerKey.Poll: one clock reading per poll. The source reads the tick counter separately in `debounce_read` and in `poll`.
- Power key: the task loop and `start_task`, pull-up setup, and the fact that deep sleep does not return. Deep sleep is a flag.
- Audio: the `Mp3Player` I2S channel setup (`ensure_i2s`, `init`), player callbacks, the event queue, file handles, and `play_file` / `pause` / `resume` / `stop`. These are vendor plumbing.
- Audio: `write_fn` volume scaling, which uses floating point and `lround`.
- Audio.ReconfigRate: one acceptance flag stands for the four driver calls. A failure after the channel has been disabled leaves it disabled in the source; the model does not track this.
- `fill_solid_rect`: heap allocation and panel drawing. The colour probe emits its requests instead.
- `display.cpp`, `ui.cpp`, `colorbars.hpp` and `app_main.cpp`: linear initialisation or declarative UI.
- Colour probe: overflow of C `int` in cell coordinates is not modelled.
- SD card: FAT and host mount internals, pull-up setup, `spi_bus_free` and card info printing.
- SD card: a `readdir` error ends the listing like the end of the directory, so the listing is simply the sequence of entries returned.
- C strings containing NUL characters: a `string` here holds no terminator.
