/** The colour mapper of `src/App.jsx`: the fixed scheme catalogue and
    `getGradientColor`, which interpolates each channel between a scheme's
    primary and secondary colour and sets the alpha to `max(0.2, |v|)`. */
module Gradient {
  import opened Base
  import opened Hex

  /** An `rgba(r, g, b, a)` fill style. */
  datatype Rgba = Rgba(r: int, g: int, b: int, a: real)

  /** A two-colour scheme; the glow string is never read by the renderer. */
  datatype Scheme = Scheme(name: string, primary: string, secondary: string)

  const Matrix := Scheme("Matrix", "#00ff00", "#003300")
  const Cyberpunk := Scheme("Cyberpunk", "#ff00ff", "#00ffff")
  const Fire := Scheme("Fire", "#ff4400", "#ffaa00")
  const Ocean := Scheme("Ocean", "#00ffff", "#0077ff")
  const Sunset := Scheme("Sunset", "#ff6b6b", "#4ecdc4")
  const Neon := Scheme("Neon", "#7fff00", "#ff00ff")
  const Retro := Scheme("Retro", "#ffcc00", "#ff6600")
  const Aurora := Scheme("Aurora", "#80ff80", "#8080ff")
  const Custom := Scheme("Custom", "#00ff00", "#003300")

  /** `Object.values(COLOR_SCHEMES)`, in declaration order. */
  const Catalog: seq<Scheme> := [Matrix, Cyberpunk, Fire, Ocean, Sunset, Neon, Retro, Aurora, Custom]

  predicate Parses(s: Scheme)
  {
    HexToRgb(s.primary).Some? && HexToRgb(s.secondary).Some?
  }

  /** One channel: `Math.round(c1 + (c2 - c1) * t)`. */
  function Lerp(c1: int, c2: int, t: real): int
  {
    Round(c1 as real + (c2 - c1) as real * t)
  }

  /** `getGradientColor`. `None` stands for the `TypeError` thrown when either
      colour fails to parse and `hexToRgb` yields `null`. Values outside
      [-1, 1] are not clamped. */
  function GradientColor(v: real, scheme: Scheme): (c: Option<Rgba>)
    ensures c.Some? <==> Parses(scheme)
    ensures c.Some? ==> c.value.a >= 0.2 && c.value.a >= Abs(v)
    ensures c.Some? ==> (c.value.a == 0.2 || c.value.a == Abs(v))
  {
    var t := (v + 1.0) / 2.0;
    match (HexToRgb(scheme.primary), HexToRgb(scheme.secondary))
    case (Some(c1), Some(c2)) =>
      Some(Rgba(Lerp(c1.r, c2.r, t), Lerp(c1.g, c2.g, t), Lerp(c1.b, c2.b, t), Max(0.2, Abs(v))))
    case _ => None
  }

  /** The interpolated channel stays between its two end points. */
  lemma LerpWithin(c1: int, c2: int, t: real)
    requires 0.0 <= t <= 1.0
    ensures c1 <= c2 ==> c1 <= Lerp(c1, c2, t) <= c2
    ensures c2 <= c1 ==> c2 <= Lerp(c1, c2, t) <= c1
  {
    var d := (c2 - c1) as real;
    MulNonNegative(Abs(d), t);
    MulNonNegative(Abs(d), 1.0 - t);
    if c1 <= c2 {
      assert 0.0 <= d * t <= d;
      RoundWithin(c1 as real + d * t, c1, c2);
    } else {
      assert d <= d * t <= 0.0;
      RoundWithin(c1 as real + d * t, c2, c1);
    }
  }

  /** v = -1 gives exactly the primary colour and v = 1 exactly the secondary,
      both fully opaque. */
  lemma GradientEndpoints(scheme: Scheme)
    requires Parses(scheme)
    ensures var c1 := HexToRgb(scheme.primary).value;
            GradientColor(-1.0, scheme) == Some(Rgba(c1.r, c1.g, c1.b, 1.0))
    ensures var c2 := HexToRgb(scheme.secondary).value;
            GradientColor(1.0, scheme) == Some(Rgba(c2.r, c2.g, c2.b, 1.0))
  {
  }

  /** For v in [-1, 1] every channel lies between the two scheme channels, and
      the alpha is 1 exactly at the two ends. */
  lemma GradientInRange(v: real, scheme: Scheme)
    requires -1.0 <= v <= 1.0
    requires Parses(scheme)
    ensures var c := GradientColor(v, scheme).value;
            var c1 := HexToRgb(scheme.primary).value;
            var c2 := HexToRgb(scheme.secondary).value;
            && (c1.r <= c2.r ==> c1.r <= c.r <= c2.r) && (c2.r <= c1.r ==> c2.r <= c.r <= c1.r)
            && (c1.g <= c2.g ==> c1.g <= c.g <= c2.g) && (c2.g <= c1.g ==> c2.g <= c.g <= c1.g)
            && (c1.b <= c2.b ==> c1.b <= c.b <= c2.b) && (c2.b <= c1.b ==> c2.b <= c.b <= c1.b)
            && IsByte(c.r) && IsByte(c.g) && IsByte(c.b)
            && 0.2 <= c.a <= 1.0
            && (c.a == 1.0 <==> Abs(v) == 1.0)
  {
    var t := (v + 1.0) / 2.0;
    var c1 := HexToRgb(scheme.primary).value;
    var c2 := HexToRgb(scheme.secondary).value;
    LerpWithin(c1.r, c2.r, t);
    LerpWithin(c1.g, c2.g, t);
    LerpWithin(c1.b, c2.b, t);
  }

  /** At v = 0 the colour is the rounded midpoint of the two ends, at the
      alpha floor. */
  lemma GradientMidpoint(scheme: Scheme)
    requires Parses(scheme)
    ensures var c1 := HexToRgb(scheme.primary).value;
            var c2 := HexToRgb(scheme.secondary).value;
            GradientColor(0.0, scheme)
              == Some(Rgba(Round((c1.r + c2.r) as real / 2.0), Round((c1.g + c2.g) as real / 2.0),
                           Round((c1.b + c2.b) as real / 2.0), 0.2))
  {
  }

  /** Out-of-range values are not clamped: with the Matrix scheme, v = 3
      yields a negative green channel. */
  lemma GradientNotClamped()
    ensures GradientColor(3.0, Matrix).Some?
    ensures GradientColor(3.0, Matrix).value.g < 0
  {
    assert HexToRgb(Matrix.primary) == Some(Rgb(0, 255, 0));
    assert HexToRgb(Matrix.secondary) == Some(Rgb(0, 51, 0));
  }

  /** A seven-character `#rrggbb` literal parses. */
  lemma LiteralParses(s: string)
    requires |s| == 7 && s[0] == '#'
    requires IsHexDigit(s[1]) && IsHexDigit(s[2]) && IsHexDigit(s[3])
    requires IsHexDigit(s[4]) && IsHexDigit(s[5]) && IsHexDigit(s[6])
    ensures HexToRgb(s).Some?
  {
    assert Digits(s) == s[1..];
  }

  /** A catalogue scheme whose two colours are seven-character hex literals parses. */
  lemma SchemeParses(s: Scheme)
    requires |s.primary| == 7 && s.primary[0] == '#'
    requires forall i :: 1 <= i < 7 ==> IsHexDigit(s.primary[i])
    requires |s.secondary| == 7 && s.secondary[0] == '#'
    requires forall i :: 1 <= i < 7 ==> IsHexDigit(s.secondary[i])
    ensures Parses(s)
  {
    LiteralParses(s.primary);
    LiteralParses(s.secondary);
  }

  /** Every colour of the catalogue parses. */
  lemma CatalogParses()
    ensures forall i :: 0 <= i < |Catalog| ==> Parses(Catalog[i])
  {
    FirstSchemesParse();
    MiddleSchemesParse();
    LastSchemesParse();
    forall i | 0 <= i < |Catalog|
      ensures Parses(Catalog[i])
    {
      assert i == 0 || i == 1 || i == 2 || i == 3 || i == 4 || i == 5 || i == 6 || i == 7 || i == 8;
    }
  }

  lemma FirstSchemesParse()
    ensures Parses(Matrix) && Parses(Cyberpunk) && Parses(Fire)
  {
    SchemeParses(Matrix);
    SchemeParses(Cyberpunk);
    SchemeParses(Fire);
  }

  lemma MiddleSchemesParse()
    ensures Parses(Ocean) && Parses(Sunset) && Parses(Neon)
  {
    SchemeParses(Ocean);
    SchemeParses(Sunset);
    SchemeParses(Neon);
  }

  lemma LastSchemesParse()
    ensures Parses(Retro) && Parses(Aurora) && Parses(Custom)
  {
    SchemeParses(Retro);
    SchemeParses(Aurora);
    SchemeParses(Custom);
  }
}
