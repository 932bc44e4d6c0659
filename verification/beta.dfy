/** `MinkowskiGrid` in `beta-backup/App.jsx`, the older variant of the
    renderer: five styles drawn in fixed green, ten pattern closures centred
    without aspect correction, a fixed 800 by 800 canvas split into
    `width / gridSize` cells with no margin, and a clock that a 50 ms interval
    advances by one while playback runs. */
module Beta {
  import opened Base
  import opened Gradient
  import opened Grid
  import S = Styles
  import F = Fields

  /** `RENDER_STYLES` of the variant. */
  datatype Style = Ascii | Pixels | Dots | Lines | Matrix

  /** Every style paints in `rgba(0, 255, 0, a)`. */
  function Green(a: real): Rgba { Rgba(0, 255, 0, a) }

  /** The fill the frame sets up once for the two text styles. */
  const TextPaint := Green(0.8)

  /** `Math.max(0, Math.min(1, value + 0.5))`: the PIXELS opacity. */
  function PixelAlpha(v: real): real
  {
    Clamp(v + 0.5, 0.0, 1.0)
  }

  /** The PIXELS opacity is always a valid alpha, is 0 exactly up to -0.5 and
      1 exactly from 0.5, and grows with the value. */
  lemma PixelAlphaRange(v: real, w: real)
    ensures 0.0 <= PixelAlpha(v) <= 1.0
    ensures PixelAlpha(v) == 0.0 <==> v <= -0.5
    ensures PixelAlpha(v) == 1.0 <==> v >= 0.5
    ensures v <= w ==> PixelAlpha(v) <= PixelAlpha(w)
  {
  }

  /** `renderMethods[style](ctx, x, y, value, cellSize)`, as primitives. */
  function Emit(style: Style, v: real, x: real, y: real, cs: real): (r: seq<S.Primitive>)
    ensures |r| <= 1
    ensures |r| == 0 <==> style == Ascii && v <= -0.3
  {
    var o := S.Centre(x, y, cs);
    match style
    case Ascii =>
      (match S.AsciiGlyph(v)
       case Some(g) => [S.Text(g, S.TextAt(x, y, cs), TextPaint)]
       case None => [])
    case Pixels => [S.FillRect(S.Origin(x, y, cs), cs, cs, Green(PixelAlpha(v)))]
    case Dots => [S.FillCircle(o, Abs(v) * cs / 2.0, Green(Abs(v)))]
    case Lines => [S.RotatedLine(o, cs * Abs(v), v + 1.0, 2.0, Green(Abs(v)))]
    case Matrix => [S.Text(S.MatrixGlyph(v), S.TextAt(x, y, cs), Green(Abs(v)))]
  }

  /** The paint of an emitted primitive. */
  function PaintOf(p: S.Primitive): Rgba { p.paint }

  /** Every primitive is green; ASCII uses the 0.8 text fill, PIXELS the
      clamped opacity, and DOTS, LINES and MATRIX the value's magnitude. The
      opacity is a valid alpha whenever the value lies in [-1, 1], and always
      for ASCII and PIXELS. */
  lemma EmitPaint(style: Style, v: real, x: real, y: real, cs: real)
    ensures forall p :: p in Emit(style, v, x, y, cs) ==>
              PaintOf(p).r == 0 && PaintOf(p).g == 255 && PaintOf(p).b == 0
              && PaintOf(p).a == (match style
                                  case Ascii => 0.8
                                  case Pixels => PixelAlpha(v)
                                  case _ => Abs(v))
    ensures (style == Ascii || style == Pixels || -1.0 <= v <= 1.0) ==>
              forall p :: p in Emit(style, v, x, y, cs) ==> 0.0 <= PaintOf(p).a <= 1.0
  {
    PixelAlphaRange(v, v);
  }

  /** MATRIX writes only "0" or "1", and "1" exactly when `0 <= value < 1`:
      the index 2 reached at 1 falls back to "0". */
  lemma MatrixFallsBack(v: real, x: real, y: real, cs: real)
    ensures var t := Emit(Matrix, v, x, y, cs)[0];
            t.Text? && (t.text == "0" || t.text == "1") && (t.text == "1" <==> 0.0 <= v < 1.0)
  {
  }

  /** The five styles this variant shares with the current renderer. */
  function Current(style: Style): S.Style
  {
    match style
    case Ascii => S.Ascii
    case Pixels => S.Pixels
    case Dots => S.Dots
    case Lines => S.Lines
    case Matrix => S.Matrix
  }

  /** The same primitive in another colour. */
  function WithPaint(p: S.Primitive, c: Rgba): (q: S.Primitive)
    ensures q.paint == c
  {
    match p
    case Text(t, at, _) => S.Text(t, at, c)
    case FillRect(corner, w, h, _) => S.FillRect(corner, w, h, c)
    case FillCircle(o, r, _) => S.FillCircle(o, r, c)
    case StrokeCircle(o, r, lw, _) => S.StrokeCircle(o, r, lw, c)
    case FillTriangle(a, b, d, _) => S.FillTriangle(a, b, d, c)
    case StrokeHexagon(o, size, lw, _) => S.StrokeHexagon(o, size, lw, c)
    case RotatedLine(o, len, turns, lw, _) => S.RotatedLine(o, len, turns, lw, c)
    case StrokeSegment(a, b, lw, _) => S.StrokeSegment(a, b, lw, c)
    case RadialFill(corner, side, o, r, _) => S.RadialFill(corner, side, o, r, c)
  }

  function Repaint(ps: seq<S.Primitive>, c: Rgba): (qs: seq<S.Primitive>)
    ensures |qs| == |ps|
    ensures forall i :: 0 <= i < |ps| ==> qs[i] == WithPaint(ps[i], c)
  {
    if |ps| == 0 then [] else [WithPaint(ps[0], c)] + Repaint(ps[1..], c)
  }

  /** Apart from the colour, each style draws what the current renderer's
      style of the same name draws: same glyphs, same positions, same sizes. */
  lemma SameShapesAsCurrent(style: Style, v: real, x: real, y: real, cs: real, c: Rgba)
    ensures S.Emit(Current(style), v, x, y, cs, c) == Some(Repaint(Emit(style, v, x, y, cs), c))
  {
    var ps := Emit(style, v, x, y, cs);
    if |ps| == 1 {
      assert Repaint(ps, c) == [WithPaint(ps[0], c)];
    } else {
      assert Repaint(ps, c) == [];
    }
  }

  // --------------------------------------------------------------- fields

  /** The ten pattern closures and the options of the pattern select. */
  const PatternNames: seq<string> :=
    ["Wave Pattern", "Spiral", "Checkerboard", "Ripple", "Maze", "Cellular", "Interference",
     "Fractal", "Vortex", "Noise"]

  const PatternCount := 10

  /** The variant's ten pattern names, as its select lists them, are the
      first ten names of the current catalogue, in the same order. */
  lemma PatternsArePrefix()
    ensures |PatternNames| == PatternCount
    ensures PatternNames == F.PatternNames[..PatternCount]
  {
  }

  /** `centerX = x - gridSize/2`, `centerY = y - gridSize/2`. */
  function Centring(x: real, y: real, n: nat): (real, real)
  {
    (x - n as real / 2.0, y - n as real / 2.0)
  }

  /** Cells `x` and `n - x` are mirror images; the variant's centring is the
      current renderer's centring on a square canvas. */
  lemma CentringProperties(x: real, y: real, n: nat, cv: F.Surface)
    ensures Centring(n as real - x, n as real - y, n) == (-Centring(x, y, n).0, -Centring(x, y, n).1)
    ensures cv.width == cv.height ==> Centring(x, y, n) == F.ScaleCoordinates(x, y, n, cv)
  {
    F.ScaleSquare(x, y, n, cv);
  }

  /** `patterns[pattern](x, y, time, p)`; an id outside 0..9 reads
      `undefined` and calling it throws. The closures get no escape count. */
  function Evaluate(id: nat, x: real, y: real, time: real, p: real, n: nat, kernel: F.Kernel): (v: Option<real>)
    ensures v.Some? <==> id < PatternCount
  {
    if id < PatternCount then Some(kernel(id, F.FieldInput(x, y, time, p, n, Centring(x, y, n), 0)))
    else None
  }

  // ---------------------------------------------------------------- frame

  /** The canvas is always 800 by 800. */
  const CanvasSide := 800.0

  type Size = n: nat | n > 0 witness 1

  /** `canvas.width / gridSize`: no `min`, no margin. */
  function CellSize(n: Size): (cs: real)
    ensures cs > 0.0 && n as real * cs == CanvasSide
  {
    CanvasSide / n as real
  }

  /** The cells tile the canvas: the cell at grid position (x, y) starts at
      `x * cellSize` and ends no later than the canvas edge. */
  lemma CellsTileCanvas(n: Size, x: nat, y: nat)
    requires x < n && y < n
    ensures var o := S.Origin(x as real, y as real, CellSize(n));
            0.0 <= o.x && o.x + CellSize(n) <= CanvasSide && 0.0 <= o.y && o.y + CellSize(n) <= CanvasSide
  {
    CellFits(n, x);
    CellFits(n, y);
  }

  /** Along one axis, cell `i` spans `[i * cellSize, (i + 1) * cellSize]`
      inside the canvas. */
  lemma CellFits(n: Size, i: nat)
    requires i < n
    ensures 0.0 <= i as real * CellSize(n) && i as real * CellSize(n) + CellSize(n) <= CanvasSide
  {
    var cs := CellSize(n);
    MulNonNegative(i as real, cs);
    MulNonNegative((n - i - 1) as real, cs);
    assert (n - i - 1) as real * cs == n as real * cs - i as real * cs - cs;
  }

  /** The inner-loop body: evaluate, then draw at the cell. */
  function DrawCell(n: Size, pattern: nat, p: real, style: Style, time: real, kernel: F.Kernel, x: int, y: int): (r: Option<seq<S.Primitive>>)
    ensures r.Some? <==> pattern < PatternCount
  {
    match Evaluate(pattern, x as real, y as real, time, p, n, kernel)
    case None => None
    case Some(v) => Some(Emit(style, v, x as real, y as real, CellSize(n)))
  }

  /** The render effect: every cell once, in loop order; `None` when the
      pattern id has no closure. */
  method RenderFrame(n: Size, pattern: nat, p: real, style: Style, time: real, kernel: F.Kernel)
    returns (r: Option<seq<Visit<seq<S.Primitive>>>>)
    ensures r.Some? <==> pattern < PatternCount
    ensures r.Some? ==> |r.value| == n * n && Ordered(r.value)
    ensures r.Some? ==> forall i :: 0 <= i < |r.value| ==>
              var v := r.value[i];
              0 <= v.x < n && 0 <= v.y < n && DrawCell(n, pattern, p, style, time, kernel, v.x, v.y) == Some(v.out)
    ensures r.Some? ==> forall x, y :: 0 <= x < n && 0 <= y < n ==> Visited(r.value, x, y)
  {
    var work := (x: int, y: int) => DrawCell(n, pattern, p, style, time, kernel, x, y);
    assert forall x, y :: work(x, y) == DrawCell(n, pattern, p, style, time, kernel, x, y);
    r := Sweep(n, work);
    if pattern >= PatternCount {
      assert work(0, 0).None?;
    }
  }

  // ---------------------------------------------------------------- clock

  /** The time and the play/pause state. */
  datatype Ticker = Ticker(t: int, running: bool)

  /** The play/pause button. */
  function Toggle(c: Ticker): (d: Ticker)
    ensures d.t == c.t && d.running != c.running
  {
    c.(running := !c.running)
  }

  /** One firing of the 50 ms interval; pausing clears the interval, so a
      paused ticker has none. */
  function Fire(c: Ticker): (d: Ticker)
    ensures d.running == c.running
  {
    if c.running then c.(t := c.t + 1) else c
  }

  function FireTimes(c: Ticker, k: nat): Ticker
  {
    if k == 0 then c else Fire(FireTimes(c, k - 1))
  }

  /** While running, every firing adds exactly one; while paused, nothing
      ever changes. */
  lemma {:induction false} FiringsCount(c: Ticker, k: nat)
    ensures c.running ==> FireTimes(c, k) == Ticker(c.t + k, true)
    ensures !c.running ==> FireTimes(c, k) == c
  {
    if k > 0 {
      FiringsCount(c, k - 1);
    }
  }

  /** How many times the interval has fired `elapsed` milliseconds after it
      was set. */
  function Firings(elapsed: real): (k: nat)
    ensures elapsed >= 0.0 ==> k as real * 50.0 <= elapsed < (k + 1) as real * 50.0
    ensures elapsed < 50.0 ==> k == 0
  {
    if elapsed < 50.0 then 0 else (elapsed / 50.0).Floor
  }

  /** The time shown `elapsed` ms after playback (re)started: the start time
      plus one per elapsed whole 50 ms. */
  lemma TimeAfter(c: Ticker, elapsed: real)
    requires c.running && elapsed >= 0.0
    ensures FireTimes(c, Firings(elapsed)).t == c.t + Firings(elapsed)
    ensures FireTimes(c, Firings(elapsed)).t as real * 50.0 <= c.t as real * 50.0 + elapsed
  {
    FiringsCount(c, Firings(elapsed));
  }
}
