/** Colour cycling in `src/App.jsx`: `hslToRgb` with its `hue2rgb` helper,
    the hue step `(h + 0.001) % 1` run while cycling is on, and the animated
    scheme built from the hue and its complement `(h + 0.5) % 1`. */
module Hsl {
  import opened Base
  import opened Hex
  import opened Gradient

  /** The single wrap `hue2rgb` applies: add one below zero, subtract one
      above one. */
  function Wrap(t: real): (w: real)
    ensures -1.0 <= t <= 2.0 ==> 0.0 <= w <= 1.0
  {
    var t1 := if t < 0.0 then t + 1.0 else t;
    if t1 > 1.0 then t1 - 1.0 else t1
  }

  /** The piecewise-linear ramp of `hue2rgb` on a wrapped argument: rising on
      [0, 1/6), flat at `q` up to 1/2, falling until 2/3, then `p`. */
  function Ramp(p: real, q: real, t: real): real
  {
    if t < 1.0 / 6.0 then p + (q - p) * 6.0 * t
    else if t < 1.0 / 2.0 then q
    else if t < 2.0 / 3.0 then p + (q - p) * (2.0 / 3.0 - t) * 6.0
    else p
  }

  /** `hue2rgb`. */
  function Hue2Rgb(p: real, q: real, t: real): real
  {
    Ramp(p, q, Wrap(t))
  }

  /** `p + (q - p) * u` stays in [p, q] for u in [0, 1]. */
  lemma Between(p: real, q: real, u: real)
    requires p <= q && 0.0 <= u <= 1.0
    ensures p <= p + (q - p) * u <= q
  {
    var d := q - p;
    MulNonNegative(d, u);
    MulNonNegative(d, 1.0 - u);
    assert d * (1.0 - u) == d - d * u;
  }

  lemma RampWithin(p: real, q: real, t: real)
    requires p <= q
    requires 0.0 <= t <= 1.0
    ensures p <= Ramp(p, q, t) <= q
  {
    if t < 1.0 / 6.0 {
      Between(p, q, 6.0 * t);
      assert (q - p) * 6.0 * t == (q - p) * (6.0 * t);
    } else if t < 1.0 / 2.0 {
    } else if t < 2.0 / 3.0 {
      Between(p, q, (2.0 / 3.0 - t) * 6.0);
      assert (q - p) * (2.0 / 3.0 - t) * 6.0 == (q - p) * ((2.0 / 3.0 - t) * 6.0);
    }
  }

  /** The ramp never leaves [p, q] when the single wrap brings `t` into
      [0, 1], that is for t in [-1, 2]. */
  lemma Hue2RgbWithin(p: real, q: real, t: real)
    requires p <= q
    requires -1.0 <= t <= 2.0
    ensures p <= Hue2Rgb(p, q, t) <= q
  {
    RampWithin(p, q, Wrap(t));
  }

  /** The upper bound `q` of `hslToRgb`. */
  function Upper(s: real, l: real): real
  {
    if l < 0.5 then l * (1.0 + s) else l + s - l * s
  }

  /** The lower bound `p = 2l - q` of `hslToRgb`. */
  function Lower(s: real, l: real): real
  {
    2.0 * l - Upper(s, l)
  }

  lemma BoundsOrdered(s: real, l: real)
    requires 0.0 <= s <= 1.0 && 0.0 <= l <= 1.0
    ensures 0.0 <= Lower(s, l) <= l <= Upper(s, l) <= 1.0
  {
    if l < 0.5 {
      MulNonNegative(l, s);
      MulNonNegative(l, 1.0 - s);
      assert l * (1.0 - s) == l - l * s;
      assert Upper(s, l) == l + l * s;
    } else {
      MulNonNegative(s, 1.0 - l);
      MulNonNegative(1.0 - s, 1.0 - l);
      assert (1.0 - s) * (1.0 - l) == (1.0 - l) - s * (1.0 - l);
      assert Upper(s, l) == l + s * (1.0 - l);
    }
  }

  /** Scaling a unit channel to 0..255 with `Math.round(c * 255)`. */
  function ToByte(c: real): (n: int)
    ensures 0.0 <= c <= 1.0 ==> IsByte(n)
  {
    RoundWithin(c * 255.0, 0, 255);
    Round(c * 255.0)
  }

  /** `hslToRgb`. */
  function HslToRgb(h: real, s: real, l: real): (c: Rgb)
    ensures s == 0.0 ==> c.r == c.g == c.b
  {
    if s == 0.0 then Rgb(ToByte(l), ToByte(l), ToByte(l))
    else
      var q := Upper(s, l);
      var p := Lower(s, l);
      Rgb(ToByte(Hue2Rgb(p, q, h + 1.0 / 3.0)), ToByte(Hue2Rgb(p, q, h)), ToByte(Hue2Rgb(p, q, h - 1.0 / 3.0)))
  }

  /** For h in [0, 1) and s, l in [0, 1] every channel is a byte. */
  lemma HslToRgbBytes(h: real, s: real, l: real)
    requires 0.0 <= h < 1.0 && 0.0 <= s <= 1.0 && 0.0 <= l <= 1.0
    ensures IsRgbBytes(HslToRgb(h, s, l))
  {
    if s != 0.0 {
      var q := Upper(s, l);
      var p := Lower(s, l);
      BoundsOrdered(s, l);
      Hue2RgbWithin(p, q, h + 1.0 / 3.0);
      Hue2RgbWithin(p, q, h);
      Hue2RgbWithin(p, q, h - 1.0 / 3.0);
    }
  }

  /** One tick of the colour-cycling interval: `(h + 0.001) % 1`. */
  function HueStep(h: real): (h': real)
    ensures 0.0 <= h < 1.0 ==> 0.0 <= h' < 1.0
    ensures (h + 0.001 - h').Floor as real == h + 0.001 - h'
  {
    RemOne(h + 0.001)
  }

  /** The complementary hue `(h + 0.5) % 1`. */
  function Complement(h: real): (h': real)
    ensures 0.0 <= h < 1.0 ==> 0.0 <= h' < 1.0
    ensures 0.0 <= h < 0.5 ==> h' == h + 0.5
    ensures 0.5 <= h < 1.0 ==> h' == h - 0.5
  {
    RemOne(h + 0.5)
  }

  /** `n` ticks of the cycle starting from `h`. */
  function HueAfter(h: real, n: nat): real
  {
    if n == 0 then h else HueStep(HueAfter(h, n - 1))
  }

  /** The initial hue is `Math.random()`, in [0, 1); cycling never leaves it. */
  lemma {:induction false} HueStaysInRange(h: real, n: nat)
    requires 0.0 <= h < 1.0
    ensures 0.0 <= HueAfter(h, n) < 1.0
  {
    if n > 0 {
      HueStaysInRange(h, n - 1);
    }
  }

  /** The scheme installed while colours cycle: the hue at full saturation
      and half lightness, and its complement at lightness 0.3. */
  function AnimatedScheme(h: real): Scheme
    requires 0.0 <= h < 1.0
  {
    var c1 := HslToRgb(h, 1.0, 0.5);
    var c2 := HslToRgb(Complement(h), 1.0, 0.3);
    HslToRgbBytes(h, 1.0, 0.5);
    HslToRgbBytes(Complement(h), 1.0, 0.3);
    Scheme("Animated", RgbToHex(c1.r, c1.g, c1.b), RgbToHex(c2.r, c2.g, c2.b))
  }

  /** The animated scheme always parses back to the colours it was printed
      from, so the gradient mapper never fails on it. */
  lemma AnimatedSchemeParses(h: real)
    requires 0.0 <= h < 1.0
    ensures HexToRgb(AnimatedScheme(h).primary) == Some(HslToRgb(h, 1.0, 0.5))
    ensures HexToRgb(AnimatedScheme(h).secondary) == Some(HslToRgb(Complement(h), 1.0, 0.3))
    ensures GradientColor(0.0, AnimatedScheme(h)).Some?
  {
    var c1 := HslToRgb(h, 1.0, 0.5);
    var c2 := HslToRgb(Complement(h), 1.0, 0.3);
    HslToRgbBytes(h, 1.0, 0.5);
    HslToRgbBytes(Complement(h), 1.0, 0.3);
    RgbToHexRoundTrip(c1.r, c1.g, c1.b);
    RgbToHexRoundTrip(c2.r, c2.g, c2.b);
  }
}
