/** One frame of `MinkowskiGrid` in `src/App.jsx`: the canvas sizing effect,
    the cell size and centring offsets of the render effect, and the sweep
    that evaluates the selected pattern at every cell and hands the value to
    the selected style at the cell's screen position. */
module Frame {
  import opened Base
  import opened Gradient
  import opened Styles
  import opened Fields
  import opened Grid

  /** Grid sizes: the select offers 20..80 and the randomiser 20..50. */
  type Size = n: nat | n > 0 witness 1

  /** The props one frame depends on. */
  datatype Settings = Settings(gridSize: Size, pattern: nat, p: real, style: Style, scheme: Scheme)

  /** The sizing effect: `innerWidth * 2` square in fullscreen, 800 by 800
      otherwise. */
  function CanvasFor(fullscreen: bool, innerWidth: real): (cv: Canvas)
    ensures cv.width == cv.height
    ensures !fullscreen ==> cv.width == 800.0
  {
    if fullscreen then Canvas(innerWidth * 2.0, innerWidth * 2.0) else Canvas(800.0, 800.0)
  }

  /** `Math.min(canvas.width / gridSize, canvas.height / gridSize)`. */
  function CellSize(cv: Surface, n: Size): real
  {
    Min(cv.width / n as real, cv.height / n as real)
  }

  /** The margins that centre the n by n block of cells on the canvas. */
  function Offset(cv: Surface, n: Size): Point
  {
    var cs := CellSize(cv, n);
    Point((cv.width - n as real * cs) / 2.0, (cv.height - n as real * cs) / 2.0)
  }

  /** The cells fit the canvas: both margins are non-negative, the grid spans
      the shorter side exactly, and a square canvas has no margin at all. */
  lemma OffsetsFit(cv: Surface, n: Size)
    ensures CellSize(cv, n) > 0.0
    ensures Offset(cv, n).x >= 0.0 && Offset(cv, n).y >= 0.0
    ensures Offset(cv, n).x == 0.0 || Offset(cv, n).y == 0.0
    ensures cv.width == cv.height ==> Offset(cv, n) == Point(0.0, 0.0) && CellSize(cv, n) == cv.width / n as real
  {
    var m := n as real;
    var cs := CellSize(cv, n);
    assert m * (cv.width / m) == cv.width;
    assert m * (cv.height / m) == cv.height;
    if cs == cv.width / m {
      assert cv.width / m <= cv.height / m;
      assert m * cs <= m * (cv.height / m);
    } else {
      assert cv.height / m <= cv.width / m;
      assert m * cs <= m * (cv.width / m);
    }
  }

  /** `screenX / cellSize` and `screenY / cellSize`: the cell position the
      style is called with, in cell units. */
  function ScreenCell(cv: Surface, n: Size, x: int, y: int): Point
  {
    var cs := CellSize(cv, n);
    var o := Offset(cv, n);
    Point((o.x + x as real * cs) / cs, (o.y + y as real * cs) / cs)
  }

  /** On a square canvas the style is called with the grid cell itself. */
  lemma ScreenCellSquare(cv: Surface, n: Size, x: int, y: int)
    requires cv.width == cv.height
    ensures ScreenCell(cv, n, x, y) == Point(x as real, y as real)
  {
    OffsetsFit(cv, n);
  }

  /** Both canvases the sizing effect produces are square, so they leave no
      margin and make the cell `width / n` pixels wide. */
  lemma SizedCanvasHasNoMargin(fullscreen: bool, innerWidth: real, n: Size)
    requires innerWidth > 0.0
    ensures var cv := CanvasFor(fullscreen, innerWidth);
            ValidSurface(cv)
            && Offset(cv, n) == Point(0.0, 0.0)
            && CellSize(cv, n) == cv.width / n as real
  {
    OffsetsFit(CanvasFor(fullscreen, innerWidth), n);
  }

  predicate ValidSurface(cv: Canvas) { cv.width > 0.0 && cv.height > 0.0 }

  /** The body of the inner loop: evaluate the pattern at the grid cell and
      draw it at the cell's screen position. `None` when either throws. */
  function DrawCell(cv: Surface, s: Settings, time: real, kernel: Kernel, x: int, y: int): (r: Option<seq<Primitive>>)
    ensures r.Some? ==> s.pattern < PatternCount
  {
    match Evaluate(s.pattern, x as real, y as real, time, s.p, s.gridSize, cv, kernel)
    case None => None
    case Some(v) =>
      var at := ScreenCell(cv, s.gridSize, x, y);
      Draw(s.style, v, at.x, at.y, CellSize(cv, s.gridSize), s.scheme)
  }

  /** The render effect: every cell of the grid evaluated and drawn once, in
      loop order; `None` when some cell throws. */
  method RenderFrame(cv: Surface, s: Settings, time: real, kernel: Kernel) returns (r: Option<seq<Visit<seq<Primitive>>>>)
    ensures r.Some? <==> forall x, y :: 0 <= x < s.gridSize && 0 <= y < s.gridSize ==> DrawCell(cv, s, time, kernel, x, y).Some?
    ensures r.Some? ==> |r.value| == s.gridSize * s.gridSize && Ordered(r.value)
    ensures r.Some? ==> forall i :: 0 <= i < |r.value| ==>
              var v := r.value[i];
              0 <= v.x < s.gridSize && 0 <= v.y < s.gridSize && DrawCell(cv, s, time, kernel, v.x, v.y) == Some(v.out)
    ensures r.Some? ==> forall x, y :: 0 <= x < s.gridSize && 0 <= y < s.gridSize ==> Visited(r.value, x, y)
  {
    var work := (x: int, y: int) => DrawCell(cv, s, time, kernel, x, y);
    assert forall x, y :: work(x, y) == DrawCell(cv, s, time, kernel, x, y);
    r := Sweep(s.gridSize, work);
  }

  /** A frame draws in full whenever the pattern id is valid, the scheme
      parses and the pattern's values stay in [-1, 1]. */
  lemma FrameDraws(cv: Surface, s: Settings, time: real, kernel: Kernel)
    requires s.pattern < PatternCount && Parses(s.scheme)
    requires forall id, input :: -1.0 <= kernel(id, input) <= 1.0
    ensures forall x, y :: DrawCell(cv, s, time, kernel, x, y).Some?
  {
    forall x, y
      ensures DrawCell(cv, s, time, kernel, x, y).Some?
    {
      var v := Evaluate(s.pattern, x as real, y as real, time, s.p, s.gridSize, cv, kernel);
      EvaluateInputs(s.pattern, x as real, y as real, time, s.p, s.gridSize, cv, kernel);
      var at := ScreenCell(cv, s.gridSize, x, y);
      DrawTotal(s.style, v.value, at.x, at.y, CellSize(cv, s.gridSize), s.scheme);
    }
  }

  /** An id outside 0..12 fails at the first cell. */
  lemma UnknownPatternFails(cv: Surface, s: Settings, time: real, kernel: Kernel, x: int, y: int)
    requires s.pattern >= PatternCount
    ensures DrawCell(cv, s, time, kernel, x, y).None?
  {
  }
}
