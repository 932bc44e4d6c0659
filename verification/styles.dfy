/** The sixteen draw strategies of `renderMethods` in `src/App.jsx`. Each
    strategy is a total function from a field value, the cell size and the
    cell's (possibly fractional) grid position to the canvas primitives it
    would emit; the canvas itself is not modelled. */
module Styles {
  import opened Base
  import opened Gradient

  /** `Object.values(RENDER_STYLES)`. */
  datatype Style =
    | Ascii | Pixels | Dots | Lines | Matrix | Circles | Triangles | Hexagons
    | RadialGradient | Wireframe | AsciiDense | AsciiBlocks | AsciiShades
    | PixelBlocks | PixelDithering | PixelScanlines

  const AllStyles: seq<Style> :=
    [Ascii, Pixels, Dots, Lines, Matrix, Circles, Triangles, Hexagons,
     RadialGradient, Wireframe, AsciiDense, AsciiBlocks, AsciiShades,
     PixelBlocks, PixelDithering, PixelScanlines]

  datatype Point = Point(x: real, y: real)

  /** What one strategy asks of the canvas. A line is kept as its centre,
      length and angle divided by pi, since its end points need cosines. */
  datatype Primitive =
    | Text(text: string, at: Point, paint: Rgba)
    | FillRect(corner: Point, width: real, height: real, paint: Rgba)
    | FillCircle(centre: Point, radius: real, paint: Rgba)
    | StrokeCircle(centre: Point, radius: real, lineWidth: real, paint: Rgba)
    | FillTriangle(a: Point, b: Point, c: Point, paint: Rgba)
    | StrokeHexagon(centre: Point, size: real, lineWidth: real, paint: Rgba)
    | RotatedLine(centre: Point, length: real, turns: real, lineWidth: real, paint: Rgba)
    | StrokeSegment(from: Point, to: Point, lineWidth: real, paint: Rgba)
    | RadialFill(corner: Point, side: real, centre: Point, radius: real, paint: Rgba)

  /** The `rgba(0, 0, 0, 0.5)` scanline overlay. */
  const Shadow := Rgba(0, 0, 0, 0.5)

  function Origin(x: real, y: real, cs: real): Point { Point(x * cs, y * cs) }

  function Centre(x: real, y: real, cs: real): Point { Point(x * cs + cs / 2.0, y * cs + cs / 2.0) }

  /** Where every glyph style writes: the left edge, half a cell down. */
  function TextAt(x: real, y: real, cs: real): Point { Point(x * cs, y * cs + cs / 2.0) }

  // ---------------------------------------------------------------- glyphs

  /** ASCII: strict bands at 0.3, 0.1, -0.1 and -0.3; nothing below. */
  function AsciiGlyph(v: real): Option<string>
  {
    if v > 0.3 then Some("█")
    else if v > 0.1 then Some("▓")
    else if v > -0.1 then Some("▒")
    else if v > -0.3 then Some("░")
    else None
  }

  /** The four ASCII glyphs in increasing density. */
  const AsciiLevels: seq<string> := ["░", "▒", "▓", "█"]

  /** The band a value falls in: -1 for no glyph, else an index into AsciiLevels. */
  function AsciiBand(v: real): int
  {
    if v > 0.3 then 3 else if v > 0.1 then 2 else if v > -0.1 then 1 else if v > -0.3 then 0 else -1
  }

  /** ASCII draws the glyph of the value's band, nothing at or below -0.3,
      and the band never drops as the value grows. */
  lemma AsciiBands(v: real, w: real)
    ensures AsciiGlyph(v).None? <==> v <= -0.3
    ensures AsciiGlyph(v).Some? ==> 0 <= AsciiBand(v) < 4 && AsciiGlyph(v).value == AsciiLevels[AsciiBand(v)]
    ensures v <= w ==> AsciiBand(v) <= AsciiBand(w)
  {
  }

  /** MATRIX: `"01"[Math.floor((v + 1) * 2 / 2)] || "0"`; an index out of
      range reads `undefined` and falls back to `"0"`. */
  function MatrixGlyph(v: real): (g: string)
    ensures g == "0" || g == "1"
    ensures g == "1" <==> 0.0 <= v < 1.0
  {
    var i := ((v + 1.0) * 2.0 / 2.0).Floor;
    if 0 <= i < 2 then ["01"[i]] else "0"
  }

  const DenseRamp := " .,:;=+*#@"
  const BlockRamp := "▁▂▃▄▅▆▇█"
  const ShadeRamp := "░▒▓█"

  /** `Math.floor(((v + 1) / 2) * (chars.length - 1))`. */
  function RampIndex(v: real, len: nat): int
  {
    (((v + 1.0) / 2.0) * (len - 1) as real).Floor
  }

  /** `chars[index]`; an index outside the ramp reads `undefined`, which
      `fillText` prints as that word. */
  function RampGlyph(chars: string, v: real): string
  {
    var i := RampIndex(v, |chars|);
    if 0 <= i < |chars| then [chars[i]] else "undefined"
  }

  /** For v in [-1, 1] the ramp index is in range, starts at 0 and ends at
      the last glyph. */
  lemma RampIndexBounds(v: real, len: nat)
    requires -1.0 <= v <= 1.0 && len >= 1
    ensures 0 <= RampIndex(v, len) <= len - 1
    ensures v == -1.0 ==> RampIndex(v, len) == 0
    ensures v == 1.0 ==> RampIndex(v, len) == len - 1
  {
    var t := (v + 1.0) / 2.0;
    var l := (len - 1) as real;
    MulNonNegative(t, l);
    MulNonNegative(1.0 - t, l);
    assert (1.0 - t) * l == l - t * l;
  }

  /** A denser value never selects a lighter glyph. */
  lemma RampIndexMonotone(v: real, w: real, len: nat)
    requires v <= w && len >= 1
    ensures RampIndex(v, len) <= RampIndex(w, len)
  {
    var l := (len - 1) as real;
    MulNonNegative((w + 1.0) / 2.0 - (v + 1.0) / 2.0, l);
    assert ((w + 1.0) / 2.0 - (v + 1.0) / 2.0) * l == (w + 1.0) / 2.0 * l - (v + 1.0) / 2.0 * l;
  }

  // ----------------------------------------------------------- sub-blocks

  /** PIXEL_BLOCKS lights sub-block k = 3i + j when (v + 1) / 2 > k / 9. */
  predicate SubBlockLit(v: real, k: int)
  {
    (v + 1.0) / 2.0 > k as real / 9.0
  }

  function CountLitFrom(v: real, k: nat): (m: nat)
    requires k <= 9
    requires forall j :: 0 <= j < k ==> SubBlockLit(v, j)
    decreases 9 - k
    ensures k <= m <= 9
    ensures forall j :: 0 <= j < 9 ==> (SubBlockLit(v, j) <==> j < m)
  {
    if k < 9 && SubBlockLit(v, k) then CountLitFrom(v, k + 1) else k
  }

  /** How many of the nine sub-blocks are lit; they are always the first ones. */
  function LitCount(v: real): (m: nat)
    ensures m <= 9
    ensures forall k :: 0 <= k < 9 ==> (SubBlockLit(v, k) <==> k < m)
  {
    CountLitFrom(v, 0)
  }

  /** None are lit at v = -1, all nine at v = 1, and the lit set grows with v. */
  lemma LitCountProperties(v: real, w: real)
    ensures LitCount(-1.0) == 0
    ensures LitCount(1.0) == 9
    ensures v <= w ==> LitCount(v) <= LitCount(w)
  {
    assert !SubBlockLit(-1.0, 0);
    assert SubBlockLit(1.0, 8);
    if v <= w && LitCount(v) > 0 {
      assert SubBlockLit(v, LitCount(v) - 1);
      assert SubBlockLit(w, LitCount(v) - 1);
    }
  }

  /** The rectangle of sub-block k: column k / 3, row k % 3, one pixel short. */
  function BlockRect(x: real, y: real, cs: real, c: Rgba, k: int): Primitive
  {
    var bs := cs / 3.0;
    FillRect(Point(x * cs + (k / 3) as real * bs, y * cs + (k % 3) as real * bs), bs - 1.0, bs - 1.0, c)
  }

  /** The double loop over i and j, flattened to k = 3i + j. */
  function BlocksFrom(v: real, x: real, y: real, cs: real, c: Rgba, k: nat): seq<Primitive>
    requires k <= 9
    decreases 9 - k
  {
    if k == 9 then []
    else (if SubBlockLit(v, k) then [BlockRect(x, y, cs, c, k)] else []) + BlocksFrom(v, x, y, cs, c, k + 1)
  }

  /** The loop emits exactly the lit sub-blocks, in order. */
  lemma {:induction false} BlocksAreLit(v: real, x: real, y: real, cs: real, c: Rgba, k: nat)
    requires k <= 9
    decreases 9 - k
    ensures var m := if LitCount(v) >= k then LitCount(v) - k else 0;
            var blocks := BlocksFrom(v, x, y, cs, c, k);
            |blocks| == m && forall i :: 0 <= i < m ==> blocks[i] == BlockRect(x, y, cs, c, k + i)
  {
    if k < 9 {
      BlocksAreLit(v, x, y, cs, c, k + 1);
      var rest := BlocksFrom(v, x, y, cs, c, k + 1);
      if SubBlockLit(v, k) {
        var blocks := [BlockRect(x, y, cs, c, k)] + rest;
        assert forall i :: 1 <= i < |blocks| ==> blocks[i] == rest[i - 1];
      }
    }
  }

  // -------------------------------------------------------------- dither

  /** The five 2x2 dither masks, quadrant i at column i % 2 and row i / 2. */
  const DitherMasks: seq<seq<bool>> :=
    [[false, false, false, false],
     [true, false, false, false],
     [true, false, false, true],
     [true, false, true, true],
     [true, true, true, true]]

  /** `Math.floor(intensity * (patterns.length - 1))`. */
  function DitherIndex(v: real): int
  {
    ((v + 1.0) / 2.0 * 4.0).Floor
  }

  function LitQuadrants(mask: seq<bool>): nat
  {
    if |mask| == 0 then 0 else (if mask[0] then 1 else 0) + LitQuadrants(mask[1..])
  }

  /** Every quadrant lit in `a` is lit in `b`. */
  predicate Covers(a: seq<bool>, b: seq<bool>)
  {
    |a| == |b| && forall i :: 0 <= i < |a| && a[i] ==> b[i]
  }

  /** Mask k lights exactly k quadrants and contains mask k - 1. */
  lemma DitherMasksNested()
    ensures forall k :: 0 <= k < 5 ==> |DitherMasks[k]| == 4 && LitQuadrants(DitherMasks[k]) == k
    ensures forall k :: 0 < k < 5 ==> Covers(DitherMasks[k - 1], DitherMasks[k])
  {
    assert LitQuadrants(DitherMasks[0]) == 0;
    assert LitQuadrants(DitherMasks[1]) == 1;
    assert LitQuadrants(DitherMasks[2]) == 2;
    assert LitQuadrants(DitherMasks[3]) == 3;
    assert LitQuadrants(DitherMasks[4]) == 4;
    assert Covers(DitherMasks[0], DitherMasks[1]);
    assert Covers(DitherMasks[1], DitherMasks[2]);
    assert Covers(DitherMasks[2], DitherMasks[3]);
    assert Covers(DitherMasks[3], DitherMasks[4]);
  }

  /** For v in [-1, 1] the mask index is in range and grows with v. */
  lemma DitherIndexBounds(v: real, w: real)
    requires -1.0 <= v <= 1.0
    ensures 0 <= DitherIndex(v) <= 4
    ensures v <= w ==> DitherIndex(v) <= DitherIndex(w)
    ensures v == -1.0 ==> DitherIndex(v) == 0
    ensures v == 1.0 ==> DitherIndex(v) == 4
  {
  }

  function DitherDots(mask: seq<bool>, x: real, y: real, cs: real, c: Rgba, i: nat): seq<Primitive>
    requires i <= |mask|
    decreases |mask| - i
  {
    var ds := cs / 2.0;
    if i == |mask| then []
    else
      (if mask[i] then [FillRect(Point(x * cs + (i % 2) as real * ds, y * cs + (i / 2) as real * ds), ds - 1.0, ds - 1.0, c)]
       else [])
      + DitherDots(mask, x, y, cs, c, i + 1)
  }

  /** PIXEL_DITHERING. `patterns[index]` is `undefined` outside 0..4 and
      `forEach` on it throws, so that case yields `None`. */
  function Dither(v: real, x: real, y: real, cs: real, c: Rgba): Option<seq<Primitive>>
  {
    var k := DitherIndex(v);
    if 0 <= k < 5 then Some(DitherDots(DitherMasks[k], x, y, cs, c, 0)) else None
  }

  /** Each lit quadrant becomes one square. */
  lemma {:induction false} DitherDotCount(mask: seq<bool>, x: real, y: real, cs: real, c: Rgba, i: nat)
    requires i <= |mask|
    decreases |mask| - i
    ensures |DitherDots(mask, x, y, cs, c, i)| == LitQuadrants(mask[i..])
  {
    if i < |mask| {
      DitherDotCount(mask, x, y, cs, c, i + 1);
      assert mask[i..][1..] == mask[i + 1..];
    }
  }

  // ------------------------------------------------------------ scanlines

  /** PIXEL_SCANLINES: the full cell, then a half-cell shadow on the top half
      when `Math.floor(y) % 2 === 0`. */
  function Scanlines(x: real, y: real, cs: real, c: Rgba): seq<Primitive>
  {
    [FillRect(Origin(x, y, cs), cs, cs, c)]
    + (if y.Floor % 2 == 0 then [FillRect(Origin(x, y, cs), cs, cs / 2.0, Shadow)] else [])
  }

  /** The shadow falls on every other row: exactly one of two vertically
      adjacent cells carries it. */
  lemma ScanlinesAlternate(x: real, y: real, cs: real, c: Rgba, d: Rgba)
    ensures |Scanlines(x, y, cs, c)| + |Scanlines(x, y + 1.0, cs, d)| == 3
    ensures |Scanlines(x, y, cs, c)| == 2 <==> y.Floor % 2 == 0
  {
    assert (y + 1.0).Floor == y.Floor + 1;
  }

  // ------------------------------------------------------------- dispatch

  /** The primitives a style emits once its colour is resolved; `None` when
      the JavaScript would throw. */
  function Emit(style: Style, v: real, x: real, y: real, cs: real, c: Rgba): Option<seq<Primitive>>
  {
    var size := cs * 0.4 * Abs(v);
    var o := Centre(x, y, cs);
    match style
    case Ascii =>
      (match AsciiGlyph(v)
       case Some(g) => Some([Text(g, TextAt(x, y, cs), c)])
       case None => Some([]))
    case Pixels => Some([FillRect(Origin(x, y, cs), cs, cs, c)])
    case Dots => Some([FillCircle(o, Abs(v) * cs / 2.0, c)])
    case Lines => Some([RotatedLine(o, cs * Abs(v), v + 1.0, 2.0, c)])
    case Matrix => Some([Text(MatrixGlyph(v), TextAt(x, y, cs), c)])
    case Circles => Some([StrokeCircle(o, cs * 0.4 * Abs(v), 2.0, c)])
    case Triangles =>
      Some([FillTriangle(Point(o.x, o.y - size), Point(o.x + size, o.y + size), Point(o.x - size, o.y + size), c)])
    case Hexagons => Some([StrokeHexagon(o, size, 2.0, c)])
    case RadialGradient => Some([RadialFill(Origin(x, y, cs), cs, o, cs / 2.0, c)])
    case Wireframe => Some([StrokeSegment(o, Point(o.x, o.y - cs * Abs(v)), 1.0, c)])
    case AsciiDense => Some([Text(RampGlyph(DenseRamp, v), TextAt(x, y, cs), c)])
    case AsciiBlocks => Some([Text(RampGlyph(BlockRamp, v), TextAt(x, y, cs), c)])
    case AsciiShades => Some([Text(RampGlyph(ShadeRamp, v), TextAt(x, y, cs), c)])
    case PixelBlocks => Some(BlocksFrom(v, x, y, cs, c, 0))
    case PixelDithering => Dither(v, x, y, cs, c)
    case PixelScanlines => Some(Scanlines(x, y, cs, c))
  }

  /** One `renderMethods[style](ctx, x, y, value, cellSize)` call. Every style
      asks `getGradientColor` for its colour, except that PIXEL_BLOCKS asks
      only once a sub-block is lit; an unparsable scheme then throws. */
  function Draw(style: Style, v: real, x: real, y: real, cs: real, scheme: Scheme): (r: Option<seq<Primitive>>)
    ensures r.Some? <==>
              (if Parses(scheme) then style == PixelDithering ==> 0 <= DitherIndex(v) < 5
               else style == PixelBlocks && LitCount(v) == 0)
  {
    match GradientColor(v, scheme)
    case Some(c) => Emit(style, v, x, y, cs, c)
    case None => if style == PixelBlocks && !SubBlockLit(v, 0) then Some([]) else None
  }

  /** Any style renders any value in [-1, 1] with a scheme that parses. */
  lemma DrawTotal(style: Style, v: real, x: real, y: real, cs: real, scheme: Scheme)
    requires -1.0 <= v <= 1.0
    requires Parses(scheme)
    ensures Draw(style, v, x, y, cs, scheme).Some?
  {
    DitherIndexBounds(v, v);
  }

  /** The glyph styles write exactly one glyph from their ramp, picked by the
      ramp index. */
  lemma RampStylesPickRampGlyph(v: real, x: real, y: real, cs: real, c: Rgba)
    requires -1.0 <= v <= 1.0
    ensures Emit(AsciiDense, v, x, y, cs, c) == Some([Text([DenseRamp[RampIndex(v, 10)]], TextAt(x, y, cs), c)])
    ensures Emit(AsciiBlocks, v, x, y, cs, c) == Some([Text([BlockRamp[RampIndex(v, 8)]], TextAt(x, y, cs), c)])
    ensures Emit(AsciiShades, v, x, y, cs, c) == Some([Text([ShadeRamp[RampIndex(v, 4)]], TextAt(x, y, cs), c)])
  {
    RampIndexBounds(v, 10);
    RampIndexBounds(v, 8);
    RampIndexBounds(v, 4);
  }

  predicate InCell(p: Point, x: real, y: real, cs: real)
  {
    x * cs <= p.x <= x * cs + cs && y * cs <= p.y <= y * cs + cs
  }

  /** The size-scaled shapes stay inside their cell for |v| <= 1: the three
      triangle corners lie in the cell and the dot, circle and hexagon radii
      and the half line length are at most half a cell. */
  lemma ShapesFitCell(v: real, x: real, y: real, cs: real, c: Rgba)
    requires -1.0 <= v <= 1.0 && cs > 0.0
    ensures match Emit(Triangles, v, x, y, cs, c).value[0]
            case FillTriangle(a, b, d, _) => InCell(a, x, y, cs) && InCell(b, x, y, cs) && InCell(d, x, y, cs)
            case _ => false
    ensures 0.0 <= Emit(Dots, v, x, y, cs, c).value[0].radius <= cs / 2.0
    ensures 0.0 <= Emit(Circles, v, x, y, cs, c).value[0].radius <= cs / 2.0
    ensures 0.0 <= Emit(Hexagons, v, x, y, cs, c).value[0].size <= cs / 2.0
    ensures 0.0 <= Emit(Lines, v, x, y, cs, c).value[0].length / 2.0 <= cs / 2.0
  {
    var a := Abs(v);
    MulNonNegative(cs * 0.4, a);
    MulNonNegative(cs * 0.4, 1.0 - a);
    MulNonNegative(cs, a);
    MulNonNegative(cs, 1.0 - a);
    assert cs * 0.4 * (1.0 - a) == cs * 0.4 - cs * 0.4 * a;
    assert cs * (1.0 - a) == cs - cs * a;
    assert a * cs / 2.0 == cs * a / 2.0;
  }
}
