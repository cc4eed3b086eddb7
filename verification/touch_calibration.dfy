/**
 * Raw-space auto-calibration of the touch driver (`update_calibration`): a
 * bounding box of the raw coordinates seen so far, which only ever widens.
 */
module Calibration {
  import opened Words

  /** The learned box `[xmin, xmax] x [ymin, ymax]` and whether it has been seeded. */
  datatype Box = Box(inited: bool, xmin: u16, xmax: u16, ymin: u16, ymax: u16)

  /** The box the driver starts with: already seeded, so the lazy seeding never runs. */
  const PRESET: Box := Box(true, 1, 239, 6, 298)

  predicate Contains(c: Box, x: u16, y: u16) {
    c.xmin <= x <= c.xmax && c.ymin <= y <= c.ymax
  }

  /** Box `c` lies inside box `d` (the `inited` flags are not compared). */
  predicate Within(c: Box, d: Box) {
    d.xmin <= c.xmin && c.xmax <= d.xmax && d.ymin <= c.ymin && c.ymax <= d.ymax
  }

  /**
   * `update_calibration`: an unseeded box is seeded to `[x, x+1] x [y, y+1]`
   * (the upper bound wraps as a `uint16_t`); a seeded box is widened to the
   * smallest box holding both it and the sample.
   */
  function Update(c: Box, x: u16, y: u16): (r: Box)
    ensures r.inited
    ensures !c.inited ==> r == Box(true, x, ToU16(x + 1), y, ToU16(y + 1))
    ensures c.inited || (x < 0xFFFF && y < 0xFFFF) ==> Contains(r, x, y)
    ensures c.inited ==> Within(c, r)
    ensures c.inited && Contains(c, x, y) ==> r == c
    // least widening: any box holding the old box and the sample holds the new one
    ensures c.inited ==> forall d: Box :: Within(c, d) && Contains(d, x, y) ==> Within(r, d)
  {
    if !c.inited then
      Box(true, x, ToU16(x + 1), y, ToU16(y + 1))
    else
      var xmin := if x < c.xmin then x else c.xmin;
      var xmax := if x > c.xmax then x else c.xmax;
      var ymin := if y < c.ymin then y else c.ymin;
      var ymax := if y > c.ymax then y else c.ymax;
      Box(true, xmin, xmax, ymin, ymax)
  }

  /** The box after a run of pressed samples `xs[i], ys[i]`, fed oldest first. */
  function Learn(c: Box, xs: seq<u16>, ys: seq<u16>): (learned: Box)
    requires |xs| == |ys|
    decreases |xs|
  {
    if |xs| == 0 then c
    else Update(Learn(c, xs[..|xs| - 1], ys[..|ys| - 1]), xs[|xs| - 1], ys[|ys| - 1])
  }

  /** Along any run of samples the box only widens: an earlier box lies within every later one. */
  lemma {:induction false} LearnMonotone(c: Box, xs: seq<u16>, ys: seq<u16>, i: nat, j: nat)
    requires c.inited && |xs| == |ys|
    requires i <= j <= |xs|
    ensures Learn(c, xs[..i], ys[..i]).inited
    ensures Within(Learn(c, xs[..i], ys[..i]), Learn(c, xs[..j], ys[..j]))
    decreases j
  {
    if i == j {
      if i > 0 {
        LearnMonotone(c, xs, ys, i - 1, i - 1);
      }
    } else {
      LearnMonotone(c, xs, ys, i, j - 1);
      LearnMonotone(c, xs, ys, j - 1, j - 1);
      assert xs[..j][..j - 1] == xs[..j - 1];
      assert ys[..j][..j - 1] == ys[..j - 1];
    }
  }

  /**
   * From the preset box every sample of a run ends up inside the learned box,
   * and the lazy seeding branch is never taken.
   */
  lemma {:induction false} LearnFromPreset(xs: seq<u16>, ys: seq<u16>)
    requires |xs| == |ys|
    ensures Learn(PRESET, xs, ys).inited
    ensures Within(PRESET, Learn(PRESET, xs, ys))
    ensures forall k :: 0 <= k < |xs| ==> Contains(Learn(PRESET, xs, ys), xs[k], ys[k])
    decreases |xs|
  {
    if |xs| > 0 {
      var n := |xs| - 1;
      LearnFromPreset(xs[..n], ys[..n]);
      var before := Learn(PRESET, xs[..n], ys[..n]);
      var after := Learn(PRESET, xs, ys);
      assert after == Update(before, xs[n], ys[n]);
      forall k | 0 <= k < |xs|
        ensures Contains(after, xs[k], ys[k])
      {
        if k < n {
          assert xs[..n][k] == xs[k] && ys[..n][k] == ys[k];
        }
      }
    }
  }
}
