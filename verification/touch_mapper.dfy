/**
 * Coordinate mapper of the touch driver: `normalize` scales a raw value into
 * the controller's nominal resolution, `map_basic_to_display` rotates the
 * normalized point and rescales it into the display, clipping at the edges.
 * All C conversions to unsigned types are written out with `ToU32`.
 */
module Mapper {
  import opened Words

  /**
   * `normalize`: 0 while the learned span is under two units; otherwise
   * `(v - vmin) * outMaxMinus1 / (vmax - vmin)` computed in `uint32_t`
   * (so a `v` below `vmin` wraps), clamped to `outMaxMinus1`.
   */
  function Normalize(v: u16, vmin: u16, vmax: u16, outMaxMinus1: u16): (r: u16)
    ensures vmax <= vmin + 1 ==> r == 0
    ensures r <= outMaxMinus1
  {
    if vmax <= vmin + 1 then 0
    else
      var span := ToU32(vmax - vmin);
      var num := ToU32(ToU32(v - vmin) * outMaxMinus1);
      var q := if span != 0 then num / span else 0;
      if q > outMaxMinus1 then outMaxMinus1 else q
  }

  /**
   * Below the learned minimum `normalize` does not give 0: `v - vmin` wraps
   * to 2^32 - 1 in `uint32_t`, the product wraps to 2^32 - 239, and the huge
   * quotient is clamped to the far edge.
   */
  lemma NormalizeBelowMinimumWraps()
    ensures Normalize(0, 1, 239, 239) == 239
  {
    assert ToU32(0 - 1) == 0xFFFF_FFFF;
    assert ToU32(0xFFFF_FFFF * 239) == 0x1_0000_0000 - 239;
    assert (0x1_0000_0000 - 239) / 238 > 239;
  }

  /** Inside the learned span no `uint32_t` wrap-around happens: the unclamped quotient is exact. */
  lemma NormalizeExact(v: u16, vmin: u16, vmax: u16, outMaxMinus1: u16)
    requires vmax >= vmin + 2 && vmin <= v <= vmax
    ensures Normalize(v, vmin, vmax, outMaxMinus1) == (v - vmin) * outMaxMinus1 / (vmax - vmin)
  {
    var d := v - vmin;
    var span := vmax - vmin;
    MulBound(d, outMaxMinus1);
    assert ToU32(d * outMaxMinus1) == d * outMaxMinus1;
    DivAtMost(d, span, outMaxMinus1);
  }

  lemma MulBound(a: nat, b: nat)
    requires a < 0x1_0000 && b < 0x1_0000
    ensures a * b < 0x1_0000_0000
  {
    MulLe(b, 0xFFFF, a);
    MulLe(a, 0xFFFF, 0xFFFF);
  }

  /** Multiplying by a non-negative factor keeps order. */
  lemma MulLe(x: int, y: int, k: nat)
    requires x <= y
    ensures x * k <= y * k
  {
    var d := y - x;
    assert y * k == x * k + d * k;
  }

  /** A strictly larger factor adds at least one more multiple. */
  lemma MulStrict(a: int, b: int, s: nat)
    requires a < b
    ensures a * s + s <= b * s
  {
    assert (a + 1) * s == a * s + s;
    MulLe(a + 1, b, s);
  }

  /** Integer division is pinned down by the interval its dividend falls in. */
  lemma DivUnique(p: nat, s: nat, q: nat)
    requires 0 < s && q * s <= p < q * s + s
    ensures p / s == q
  {
    var q' := p / s;
    assert p == q' * s + p % s;
    if q' < q {
      MulStrict(q', q, s);
    } else if q' > q {
      MulStrict(q, q', s);
    }
  }

  /** `a <= s` implies `a * m / s <= m`. */
  lemma DivAtMost(a: nat, s: nat, m: nat)
    requires 0 < s && a <= s
    ensures a * m / s <= m
  {
    var p := a * m;
    var q := p / s;
    assert p == q * s + p % s;
    MulLe(a, s, m);
    assert s * m == m * s;
    if q > m {
      MulStrict(m, q, s);
    }
  }

  /** `(s * m) / s == m`. */
  lemma DivCancel(s: nat, m: nat)
    requires 0 < s
    ensures s * m / s == m
  {
    assert s * m == m * s;
    DivUnique(s * m, s, m);
  }

  /** `a <= b` implies `a * m / s <= b * m / s`. */
  lemma DivMonotone(a: nat, b: nat, s: nat, m: nat)
    requires 0 < s && a <= b
    ensures a * m / s <= b * m / s
  {
    MulLe(a, b, m);
    var qa := a * m / s;
    var qb := b * m / s;
    assert a * m == qa * s + (a * m) % s;
    assert b * m == qb * s + (b * m) % s;
    if qa > qb {
      MulStrict(qb, qa, s);
    }
  }

  /** Once the span is at least two, the learned minimum maps to 0 and the maximum to the nominal edge. */
  lemma NormalizeEndpoints(vmin: u16, vmax: u16, outMaxMinus1: u16)
    requires vmax >= vmin + 2
    ensures Normalize(vmin, vmin, vmax, outMaxMinus1) == 0
    ensures Normalize(vmax, vmin, vmax, outMaxMinus1) == outMaxMinus1
  {
    NormalizeExact(vmin, vmin, vmax, outMaxMinus1);
    NormalizeExact(vmax, vmin, vmax, outMaxMinus1);
    DivCancel(vmax - vmin, outMaxMinus1);
  }

  /** On the learned span normalization is monotone. */
  lemma NormalizeMonotone(a: u16, b: u16, vmin: u16, vmax: u16, outMaxMinus1: u16)
    requires vmin <= a <= b <= vmax
    ensures Normalize(a, vmin, vmax, outMaxMinus1) <= Normalize(b, vmin, vmax, outMaxMinus1)
  {
    if vmax >= vmin + 2 {
      NormalizeExact(a, vmin, vmax, outMaxMinus1);
      NormalizeExact(b, vmin, vmax, outMaxMinus1);
      DivMonotone(a - vmin, b - vmin, vmax - vmin, outMaxMinus1);
    }
  }

  /** The `TOUCH_ROT` settings: 0, 90 degrees clockwise, 180, 270 degrees clockwise. */
  datatype Rotation = Rot0 | Rot90 | Rot180 | Rot270

  /** `TOUCH_ROT` as the preprocessor chain reads it: 0, 1 and 2 are named, anything else is 270. */
  function RotationOf(code: int): (rot: Rotation)
    ensures rot == Rot0 <==> code == 0
    ensures rot == Rot90 <==> code == 1
    ensures rot == Rot180 <==> code == 2
    ensures rot == Rot270 <==> code !in {0, 1, 2}
  {
    if code == 0 then Rot0 else if code == 1 then Rot90 else if code == 2 then Rot180 else Rot270
  }

  /** The rotation the firmware is built with (`TOUCH_ROT` defaults to 1). */
  const TOUCH_ROT: int := 1

  predicate SwapsAxes(rot: Rotation) {
    rot.Rot90? || rot.Rot270?
  }

  /** A rotated point `(rx, ry)` and the rotated nominal rectangle `rw x rh`. */
  datatype Rotated = Rotated(rx: u32, ry: u32, rw: u16, rh: u16)

  /**
   * The rotation step of `map_basic_to_display`. Mirrored coordinates are
   * `(max - 1) - n` computed as C `int` and stored in a `uint32_t`.
   */
  function Rotate(rot: Rotation, nx: u16, ny: u16, xmax: u16, ymax: u16): (r: Rotated)
    ensures SwapsAxes(rot) ==> r.rw == ymax && r.rh == xmax
    ensures !SwapsAxes(rot) ==> r.rw == xmax && r.rh == ymax
    ensures nx < xmax && ny < ymax ==> r.rx < r.rw && r.ry < r.rh
  {
    match rot
    case Rot0 => Rotated(nx, ny, xmax, ymax)
    case Rot90 => Rotated(ny, ToU32((xmax - 1) - nx), ymax, xmax)
    case Rot180 => Rotated(ToU32((xmax - 1) - nx), ToU32((ymax - 1) - ny), xmax, ymax)
    case Rot270 => Rotated(ToU32((ymax - 1) - ny), nx, ymax, xmax)
  }

  /** The inverse transform: from a point of the rotated rectangle back to the nominal one. */
  function Unrotate(rot: Rotation, rx: nat, ry: nat, xmax: u16, ymax: u16): (p: (int, int))
  {
    match rot
    case Rot0 => (rx, ry)
    case Rot90 => ((xmax - 1) - ry, rx)
    case Rot180 => ((xmax - 1) - rx, (ymax - 1) - ry)
    case Rot270 => (ry, (ymax - 1) - rx)
  }

  /**
   * Each rotation is a bijection between the nominal rectangle `xmax x ymax`
   * and the rotated rectangle: undoing a rotation gives the point back, and
   * every point of the rotated rectangle is the image of one nominal point.
   */
  lemma RotateBijective(rot: Rotation, nx: u16, ny: u16, rx: nat, ry: nat, xmax: u16, ymax: u16)
    requires nx < xmax && ny < ymax
    ensures var r := Rotate(rot, nx, ny, xmax, ymax); Unrotate(rot, r.rx, r.ry, xmax, ymax) == (nx, ny)
    ensures var r := Rotate(rot, 0, 0, xmax, ymax);
      rx < r.rw && ry < r.rh ==>
        var p := Unrotate(rot, rx, ry, xmax, ymax);
        && 0 <= p.0 < xmax && 0 <= p.1 < ymax
        && Rotate(rot, p.0, p.1, xmax, ymax) == Rotated(rx, ry, r.rw, r.rh)
  {
  }

  /** Each rotation is injective on the nominal rectangle. */
  lemma RotateInjective(rot: Rotation, px: u16, py: u16, qx: u16, qy: u16, xmax: u16, ymax: u16)
    requires px < xmax && py < ymax && qx < xmax && qy < ymax
    requires Rotate(rot, px, py, xmax, ymax) == Rotate(rot, qx, qy, xmax, ymax)
    ensures px == qx && py == qy
  {
    RotateBijective(rot, px, py, 0, 0, xmax, ymax);
    RotateBijective(rot, qx, qy, 0, 0, xmax, ymax);
  }

  /**
   * Scale-and-clip of one axis: `r * (dim - 1) / (rdim - 1)` in `uint32_t`
   * unless `rdim <= 1`, `dim <= 1` or `rdim == dim`, then clipped to `dim - 1`.
   * Only reached once the caller has checked `dim != 0`.
   */
  function ScaleAxis(r: u32, rdim: u16, dim: u16): (d: u32)
    requires dim > 0
    ensures d < dim
    ensures rdim <= 1 || dim <= 1 || rdim == dim ==> d == (if r >= dim then dim - 1 else r)
  {
    var scaled := if rdim > 1 && dim > 1 && rdim != dim then ToU32(r * ToU32(dim - 1)) / ToU32(rdim - 1) else r;
    if scaled >= dim then dim - 1 else scaled
  }

  /** Inside the rotated rectangle scaling is exact: no wrap-around and no clipping, 0 to 0 and the far edge to the far edge. */
  lemma ScaleAxisInRange(r: u32, rdim: u16, dim: u16)
    requires 1 < rdim && 1 < dim && r < rdim
    ensures ScaleAxis(r, rdim, dim) == r * (dim - 1) / (rdim - 1)
    ensures r == 0 ==> ScaleAxis(r, rdim, dim) == 0
    ensures r == rdim - 1 ==> ScaleAxis(r, rdim, dim) == dim - 1
  {
    if rdim != dim {
      ScaledAxisExact(r, rdim, dim);
      if r == rdim - 1 {
        DivCancel(rdim - 1, dim - 1);
      }
    } else {
      assert r * (dim - 1) == (dim - 1) * r;
      DivCancel(dim - 1, r);
    }
  }

  /** The rescaling branch of `ScaleAxis` on an in-range value: the exact quotient. */
  lemma ScaledAxisExact(r: u32, rdim: u16, dim: u16)
    requires 1 < rdim && 1 < dim && r < rdim && rdim != dim
    ensures ScaleAxis(r, rdim, dim) == r * (dim - 1) / (rdim - 1)
  {
    ScaleProductFits(r, dim - 1);
    ScaleQuotientBound(r, rdim - 1, dim - 1);
    assert ToU32(rdim - 1) == rdim - 1;
  }

  /** An in-range value times a display edge does not wrap in `uint32_t`. */
  lemma ScaleProductFits(r: u32, m: u16)
    requires r < 0x1_0000
    ensures ToU32(r * ToU32(m)) == r * m
  {
    assert ToU32(m) == m;
    MulBound(r, m);
  }

  /** Scaling a value within the source span never overshoots the target edge. */
  lemma ScaleQuotientBound(r: nat, s: nat, m: nat)
    requires 0 < s && r <= s
    ensures r * m / s <= m
  {
    DivAtMost(r, s, m);
  }

  /** A display point. */
  datatype Point = Point(x: u16, y: u16)

  /** The geometry `map_basic_to_display` works with: nominal maxima and display resolution. */
  datatype Geometry = Geometry(tpXmax: u16, tpYmax: u16, hres: u16, vres: u16)

  predicate Complete(g: Geometry) {
    g.tpXmax != 0 && g.tpYmax != 0 && g.hres != 0 && g.vres != 0
  }

  /**
   * `map_basic_to_display`: with any dimension unknown (zero) the point is left
   * as it is; otherwise it is rotated and then scaled and clipped into the display.
   */
  function MapToDisplay(rot: Rotation, p: Point, g: Geometry): (q: Point)
    ensures !Complete(g) ==> q == p
    ensures Complete(g) ==> q.x < g.hres && q.y < g.vres
  {
    if !Complete(g) then p
    else
      var r := Rotate(rot, p.x, p.y, g.tpXmax, g.tpYmax);
      Point(ScaleAxis(r.rx, r.rw, g.hres), ScaleAxis(r.ry, r.rh, g.vres))
  }

  /**
   * If the controller reports 240 x 320 (its registers are read at run time)
   * on this board's 320 x 240 display, then with the default 90-degree rotation the rotated rectangle equals the display,
   * so no rescaling happens and the point is simply `(ny, 239 - nx)`.
   */
  lemma BoardGeometryIsPureRotation(p: Point)
    requires p.x < 240 && p.y < 320
    ensures MapToDisplay(RotationOf(TOUCH_ROT), p, Geometry(240, 320, 320, 240)) == Point(p.y, 239 - p.x)
  {
  }
}
