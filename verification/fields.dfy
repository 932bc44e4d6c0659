/** The field side of `MinkowskiGrid` in `src/App.jsx`: the thirteen pattern
    ids, the aspect-corrected centring `scaleCoordinates`, and the escape loop
    of the Mandelbrot pattern. What each closure then does with sines, cosines
    and powers is left to an uninterpreted `Kernel`. */
module Fields {
  import opened Base

  /** `Object.values(PATTERNS)`: ids 0..12 in order, with their names. */
  const PatternNames: seq<string> :=
    ["Wave Pattern", "Spiral", "Checkerboard", "Ripple", "Maze", "Cellular", "Interference",
     "Fractal", "Vortex", "Noise", "Mandelbrot", "Voronoi", "Kaleidoscope"]

  const PatternCount := 13
  const MandelbrotId := 10

  /** Canvas pixel dimensions. */
  datatype Canvas = Canvas(width: real, height: real)

  /** The canvases the application sets up all have positive dimensions. */
  type Surface = cv: Canvas | cv.width > 0.0 && cv.height > 0.0 witness Canvas(1.0, 1.0)

  /** `scaleCoordinates`: shift the cell so the grid centre is the origin, then
      stretch the longer canvas axis by the aspect ratio. Neither axis ever
      shrinks. */
  function ScaleCoordinates(x: real, y: real, n: nat, cv: Surface): (c: (real, real))
    ensures Abs(c.0) >= Abs(x - n as real / 2.0)
    ensures Abs(c.1) >= Abs(y - n as real / 2.0)
  {
    var aspect := cv.width / cv.height;
    var dx := x - n as real / 2.0;
    var dy := y - n as real / 2.0;
    var sx := if aspect > 1.0 then aspect else 1.0;
    var sy := if aspect <= 1.0 then 1.0 / aspect else 1.0;
    StretchGrows(dx, sx);
    StretchGrows(dy, sy);
    (dx * sx, dy * sy)
  }

  lemma StretchGrows(d: real, s: real)
    requires s >= 1.0
    ensures Abs(d * s) >= Abs(d)
  {
    if d >= 0.0 {
      MulNonNegative(d, s - 1.0);
    } else {
      MulNonNegative(-d, s - 1.0);
    }
  }

  /** On a square canvas centring is a plain shift by half the grid, and only
      an axis along which the canvas is longer gets stretched. */
  lemma ScaleSquare(x: real, y: real, n: nat, cv: Surface)
    ensures cv.width == cv.height ==> ScaleCoordinates(x, y, n, cv) == (x - n as real / 2.0, y - n as real / 2.0)
    ensures cv.width <= cv.height ==> ScaleCoordinates(x, y, n, cv).0 == x - n as real / 2.0
    ensures cv.width >= cv.height ==> ScaleCoordinates(x, y, n, cv).1 == y - n as real / 2.0
  {
    var aspect := cv.width / cv.height;
    if cv.width == cv.height {
      assert aspect == 1.0;
    }
    if cv.width <= cv.height {
      assert aspect <= 1.0;
    }
    if cv.width >= cv.height {
      assert aspect >= 1.0;
    }
  }

  /** Cells `x` and `n - x` are mirror images through the origin, on any canvas;
      the grid centre maps to the origin. */
  lemma ScaleAntisymmetric(x: real, y: real, n: nat, cv: Surface)
    ensures var c := ScaleCoordinates(x, y, n, cv);
            var m := ScaleCoordinates(n as real - x, n as real - y, n, cv);
            m == (-c.0, -c.1)
    ensures ScaleCoordinates(n as real / 2.0, n as real / 2.0, n, cv) == (0.0, 0.0)
  {
  }

  /** Because the shift is `n / 2` rather than `(n - 1) / 2`, the first and
      last cells are not mirror images: with n = 4 they land at (-2, -2) and
      (1, 1). */
  lemma ScaleCornersAsymmetric()
    ensures ScaleCoordinates(0.0, 0.0, 4, Canvas(800.0, 800.0)) == (-2.0, -2.0)
    ensures ScaleCoordinates(3.0, 3.0, 4, Canvas(800.0, 800.0)) == (1.0, 1.0)
  {
    ScaleSquare(0.0, 0.0, 4, Canvas(800.0, 800.0));
    ScaleSquare(3.0, 3.0, 4, Canvas(800.0, 800.0));
  }

  // ------------------------------------------------------------ Mandelbrot

  datatype Complex = Complex(re: real, im: real)

  function Norm2(z: Complex): real { z.re * z.re + z.im * z.im }

  /** One iteration `z := z * z + c`, written as the closure writes it. */
  function Square(z: Complex, c: Complex): Complex
  {
    Complex(z.re * z.re - z.im * z.im + c.re, 2.0 * z.re * z.im + c.im)
  }

  /** The k-th iterate; the closure starts from z = c. */
  function Orbit(c: Complex, k: nat): Complex
  {
    if k == 0 then c else Square(Orbit(c, k - 1), c)
  }

  const EscapeLimit := 10

  /** The `while (i < 10 && zx*zx + zy*zy < 4)` loop, resumed at iteration i. */
  function EscapeFrom(c: Complex, z: Complex, i: nat): (r: nat)
    requires i <= EscapeLimit && z == Orbit(c, i)
    requires forall k :: 0 <= k < i ==> Norm2(Orbit(c, k)) < 4.0
    decreases EscapeLimit - i
    ensures i <= r <= EscapeLimit
    ensures forall k :: 0 <= k < r ==> Norm2(Orbit(c, k)) < 4.0
    ensures r < EscapeLimit ==> Norm2(Orbit(c, r)) >= 4.0
  {
    if i < EscapeLimit && Norm2(z) < 4.0 then EscapeFrom(c, Square(z, c), i + 1) else i
  }

  /** The escape count: the first iterate that leaves the radius-2 disc, or
      the limit of ten when none of the first ten does. */
  function EscapeCount(c: Complex): (r: nat)
    ensures r <= EscapeLimit
    ensures forall k :: 0 <= k < r ==> Norm2(Orbit(c, k)) < 4.0
    ensures r < EscapeLimit ==> Norm2(Orbit(c, r)) >= 4.0
  {
    EscapeFrom(c, c, 0)
  }

  lemma {:induction false} OriginFixed(k: nat)
    ensures Orbit(Complex(0.0, 0.0), k) == Complex(0.0, 0.0)
  {
    if k > 0 {
      OriginFixed(k - 1);
    }
  }

  /** The origin never escapes. */
  lemma OriginNeverEscapes()
    ensures EscapeCount(Complex(0.0, 0.0)) == EscapeLimit
  {
    OriginFixed(EscapeCount(Complex(0.0, 0.0)));
  }

  /** The closure's starting point: the centred coordinates scaled by 1/20. */
  function MandelbrotSeed(x: real, y: real, n: nat, cv: Surface): Complex
  {
    var c := ScaleCoordinates(x, y, n, cv);
    Complex(c.0 / 20.0, c.1 / 20.0)
  }

  /** On an even grid the centre cell is the origin and reaches the limit. */
  lemma CentreCellNeverEscapes(n: nat, cv: Surface)
    requires n % 2 == 0
    ensures EscapeCount(MandelbrotSeed((n / 2) as real, (n / 2) as real, n, cv)) == EscapeLimit
  {
    var h := n / 2;
    assert n == 2 * h;
    assert h as real == n as real / 2.0;
    ScaleAntisymmetric(0.0, 0.0, n, cv);
    assert ScaleCoordinates(h as real, h as real, n, cv) == (0.0, 0.0);
    assert MandelbrotSeed(h as real, h as real, n, cv) == Complex(0.0, 0.0);
    OriginNeverEscapes();
  }

  // ------------------------------------------------------------- closures

  /** Everything a pattern closure reads, with the two arithmetic pieces
      already computed: the centred coordinates and, for the Mandelbrot
      closure, the escape count. */
  datatype FieldInput = FieldInput(x: real, y: real, time: real, p: real, gridSize: nat,
                                   centre: (real, real), escapes: nat)

  /** The transcendental part of the closure with the given id. */
  type Kernel = (nat, FieldInput) -> real

  /** `patterns[pattern](x, y, time, p, canvas)`. An id outside 0..12 reads
      `undefined`, and calling it throws. */
  function Evaluate(id: nat, x: real, y: real, time: real, p: real, n: nat, cv: Surface, kernel: Kernel): (v: Option<real>)
    ensures v.Some? <==> id < PatternCount
  {
    if id < PatternCount then
      var escapes := if id == MandelbrotId then EscapeCount(MandelbrotSeed(x, y, n, cv)) else 0;
      Some(kernel(id, FieldInput(x, y, time, p, n, ScaleCoordinates(x, y, n, cv), escapes)))
    else None
  }

  /** Each valid id hands its kernel the centred cell; the Mandelbrot closure
      also gets an escape count within the limit. */
  lemma EvaluateInputs(id: nat, x: real, y: real, time: real, p: real, n: nat, cv: Surface, kernel: Kernel)
    requires id < PatternCount
    ensures exists e: nat :: e <= EscapeLimit
              && (id == MandelbrotId ==> e == EscapeCount(MandelbrotSeed(x, y, n, cv)))
              && Evaluate(id, x, y, time, p, n, cv, kernel)
                 == Some(kernel(id, FieldInput(x, y, time, p, n, ScaleCoordinates(x, y, n, cv), e)))
  {
    var e := if id == MandelbrotId then EscapeCount(MandelbrotSeed(x, y, n, cv)) else 0;
    assert Evaluate(id, x, y, time, p, n, cv, kernel)
        == Some(kernel(id, FieldInput(x, y, time, p, n, ScaleCoordinates(x, y, n, cv), e)));
  }
}
