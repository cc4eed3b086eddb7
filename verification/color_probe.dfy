/**
 * Colour probe of the display (`color_probe.hpp`): 8-bit R, G, B packed into
 * RGB565 and emitted as two bytes in either order, optionally with red and
 * blue exchanged, and the fill requests of the 3 x 3 colour grid and of the
 * four-quadrant probe screen. `(x & mask) << n` is written as the equal
 * `(x / 2^k) * 2^(k+n)` and `|` of disjoint fields as `+`.
 */
module ColorProbe {
  import opened Words

  /** `((r & 0xF8) << 8) | ((g & 0xFC) << 3) | (b >> 3)`. */
  function Rgb565(r: byte, g: byte, b: byte): (v: u16)
    ensures v / 2048 == r / 8
    ensures (v / 32) % 64 == g / 4
    ensures v % 32 == b / 8
  {
    Fields565(r / 8, g / 4, b / 8);
    (r / 8) * 2048 + (g / 4) * 32 + b / 8
  }

  /** The three fields of a 5-6-5 word are recovered by shifting and masking. */
  lemma Fields565(r5: nat, g6: nat, b5: nat)
    requires r5 < 32 && g6 < 64 && b5 < 32
    ensures var v := r5 * 2048 + g6 * 32 + b5;
      v < 0x1_0000 && v / 2048 == r5 && (v / 32) % 64 == g6 && v % 32 == b5
  {
    var v := r5 * 2048 + g6 * 32 + b5;
    assert v == (r5 * 64 + g6) * 32 + b5;
    assert v / 32 == r5 * 64 + g6;
    assert v == r5 * 2048 + (g6 * 32 + b5);
  }

  /** `put_rgb565`: the packed value, most significant byte first unless `swap` asks for the reverse. */
  function PutRgb565(r: byte, g: byte, b: byte, swap: bool): (d: seq<byte>)
    ensures |d| == 2
    ensures !swap ==> Join16(d[0], d[1]) == Rgb565(r, g, b)
    ensures swap ==> Join16(d[1], d[0]) == Rgb565(r, g, b)
  {
    var v := Rgb565(r, g, b);
    if swap then [LowByte(v), HighByte(v)] else [HighByte(v), LowByte(v)]
  }

  /** Swapping the byte order reverses the two bytes. */
  lemma SwapReverses(r: byte, g: byte, b: byte)
    ensures var plain := PutRgb565(r, g, b, false); var swapped := PutRgb565(r, g, b, true);
      swapped == [plain[1], plain[0]]
  {
  }

  /** The 5-6-5 fields read back from two bytes sent with the given order. */
  function Unpack565(d: seq<byte>, swap: bool): (rgb: (nat, nat, nat))
    requires |d| == 2
    ensures rgb.0 < 32 && rgb.1 < 64 && rgb.2 < 32
  {
    var v := if swap then Join16(d[1], d[0]) else Join16(d[0], d[1]);
    (v / 2048, (v / 32) % 64, v % 32)
  }

  /** Round trip: the top 5, 6 and 5 bits of R, G and B are recovered exactly, in either byte order. */
  lemma PackUnpackRoundTrip(r: byte, g: byte, b: byte, swap: bool)
    ensures Unpack565(PutRgb565(r, g, b, swap), swap) == (r / 8, g / 4, b / 8)
  {
  }

  /** Nothing but the dropped low bits is lost: colours with equal top bits pack equally, and only those. */
  lemma PackIgnoresOnlyLowBits(r: byte, g: byte, b: byte, r': byte, g': byte, b': byte, swap: bool)
    ensures PutRgb565(r, g, b, swap) == PutRgb565(r', g', b', swap) <==> (r / 8 == r' / 8 && g / 4 == g' / 4 && b / 8 == b' / 8)
  {
    if r / 8 == r' / 8 && g / 4 == g' / 4 && b / 8 == b' / 8 {
      assert Rgb565(r, g, b) == Rgb565(r', g', b');
    } else {
      PackUnpackRoundTrip(r, g, b, swap);
      PackUnpackRoundTrip(r', g', b', swap);
    }
  }

  /** `put_pixel`: in BGR order red and blue trade places before packing. */
  function PutPixel(r: byte, g: byte, b: byte, bgr: bool, swap: bool): (d: seq<byte>)
    ensures |d| == 2
    ensures Unpack565(d, swap) == if bgr then (b / 8, g / 4, r / 8) else (r / 8, g / 4, b / 8)
  {
    PackUnpackRoundTrip(b, g, r, swap);
    PackUnpackRoundTrip(r, g, b, swap);
    if bgr then PutRgb565(b, g, r, swap) else PutRgb565(r, g, b, swap)
  }

  /** The colour bytes of `0xRRGGBB`. */
  datatype Rgb = Rgb(r: byte, g: byte, b: byte)

  /** `(c >> 16) & 0xFF`, `(c >> 8) & 0xFF`, `c & 0xFF`. */
  function SplitColor(c: u32): (k: Rgb)
    ensures c < 0x100_0000 ==> k.r * 0x1_0000 + k.g * 0x100 + k.b == c
  {
    Rgb((c / 0x1_0000) % 0x100, (c / 0x100) % 0x100, c % 0x100)
  }

  /** The 3 x 3 grid colours, row by row: red, green, blue / white, grey, yellow / cyan, magenta, black. */
  const GRID_COLORS: seq<u32> := [
    0xFF0000, 0x00FF00, 0x0000FF,
    0xFFFFFF, 0x808080, 0xFFFF00,
    0x00FFFF, 0xFF00FF, 0x000000]

  /** One `fill_solid_rect` request: a rectangle, its colour and the pixel format switches. */
  datatype Fill = Fill(x0: int, y0: int, w: int, h: int, color: Rgb, bgr: bool, swap: bool)

  /** The request for grid cell `i` (row `i / 3`, column `i % 3`). */
  function Cell(x: int, y: int, cellW: int, cellH: int, bgr: bool, swap: bool, i: nat): (f: Fill)
    requires i < 9
  {
    Fill(x + (i % 3) * cellW, y + (i / 3) * cellH, cellW, cellH, SplitColor(GRID_COLORS[i]), bgr, swap)
  }

  /** `draw_9color_grid`: the nine fill requests in row-major order. */
  method Draw9ColorGrid(x: int, y: int, cellW: int, cellH: int, bgr: bool, swap: bool) returns (fills: seq<Fill>)
    ensures |fills| == 9
    ensures forall i :: 0 <= i < 9 ==>
      && fills[i].x0 == x + (i % 3) * cellW
      && fills[i].y0 == y + (i / 3) * cellH
      && fills[i].w == cellW && fills[i].h == cellH
      && fills[i].color == SplitColor(GRID_COLORS[i])
      && fills[i].bgr == bgr && fills[i].swap == swap
    ensures forall i :: 0 <= i < 9 ==> fills[i] == Cell(x, y, cellW, cellH, bgr, swap, i)
  {
    fills := [];
    var idx := 0;
    var gy := 0;
    while gy < 3
      invariant 0 <= gy <= 3
      invariant idx == gy * 3 && |fills| == idx
      invariant forall i :: 0 <= i < idx ==> fills[i] == Cell(x, y, cellW, cellH, bgr, swap, i)
    {
      var gx := 0;
      while gx < 3
        invariant 0 <= gx <= 3
        invariant idx == gy * 3 + gx && |fills| == idx
        invariant forall i :: 0 <= i < idx ==> fills[i] == Cell(x, y, cellW, cellH, bgr, swap, i)
      {
        var c := SplitColor(GRID_COLORS[idx]);
        assert idx % 3 == gx && idx / 3 == gy;
        fills := fills + [Fill(x + gx * cellW, y + gy * cellH, cellW, cellH, c, bgr, swap)];
        idx := idx + 1;
        gx := gx + 1;
      }
      gy := gy + 1;
    }
  }

  /** C `int` division of a non-negative divisor: truncation toward zero. */
  function CDiv(a: int, d: nat): (q: int)
    requires d > 0
    ensures a >= 0 ==> q == a / d
    ensures a < 0 ==> q == -((-a) / d)
  {
    if a >= 0 then a / d else -((-a) / d)
  }

  /**
   * Cell `i` of the grid in quadrant `q` of an `h` x `v` screen (0 top-left,
   * 1 top-right, 2 bottom-left, 3 bottom-right): the quadrant's corner is at
   * half the screen size (C division), the cells are a third of a quadrant,
   * the right-hand quadrants swap bytes and the bottom ones use BGR order.
   */
  function QuadrantCell(h: int, v: int, q: nat, i: nat): (f: Fill)
    requires q < 4 && i < 9
    ensures f.bgr == (q >= 2) && f.swap == (q % 2 == 1)
  {
    Cell(if q % 2 == 1 then CDiv(h, 2) else 0, if q >= 2 then CDiv(v, 2) else 0,
         CDiv(CDiv(h, 2), 3), CDiv(CDiv(v, 2), 3), q >= 2, q % 2 == 1, i)
  }

  /**
   * `probe_color_quadrants`: a black background over the whole screen, then
   * the grid in each quadrant: RGB / no swap, RGB / swap, BGR / no swap,
   * BGR / swap. Fill `1 + 9 * q + i` is cell `i` of quadrant `q`.
   */
  method ProbeColorQuadrants(h: int, v: int) returns (fills: seq<Fill>)
    ensures |fills| == 37
    ensures fills[0] == Fill(0, 0, h, v, Rgb(0, 0, 0), false, false)
    ensures forall k :: 1 <= k < 37 ==> fills[k] == QuadrantCell(h, v, (k - 1) / 9, (k - 1) % 9)
  {
    var qw := CDiv(h, 2);
    var qh := CDiv(v, 2);
    var cw := CDiv(qw, 3);
    var ch := CDiv(qh, 3);
    var g1 := Draw9ColorGrid(0, 0, cw, ch, false, false);
    var g2 := Draw9ColorGrid(qw, 0, cw, ch, false, true);
    var g3 := Draw9ColorGrid(0, qh, cw, ch, true, false);
    var g4 := Draw9ColorGrid(qw, qh, cw, ch, true, true);
    fills := [Fill(0, 0, h, v, Rgb(0, 0, 0), false, false)] + g1 + g2 + g3 + g4;
    forall k | 1 <= k < 37
      ensures fills[k] == QuadrantCell(h, v, (k - 1) / 9, (k - 1) % 9)
    {
      if k < 10 {
        assert (k - 1) / 9 == 0 && (k - 1) % 9 == k - 1;
        assert fills[k] == g1[k - 1];
      } else if k < 19 {
        assert (k - 1) / 9 == 1 && (k - 1) % 9 == k - 10;
        assert fills[k] == g2[k - 10];
      } else if k < 28 {
        assert (k - 1) / 9 == 2 && (k - 1) % 9 == k - 19;
        assert fills[k] == g3[k - 19];
      } else {
        assert (k - 1) / 9 == 3 && (k - 1) % 9 == k - 28;
        assert fills[k] == g4[k - 28];
      }
    }
  }
}
