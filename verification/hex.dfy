/** The hexadecimal colour codec of `src/App.jsx`: `hexToRgb` parses an
    optional `#` followed by three two-digit hexadecimal channels (either
    case) and yields `null` on anything else; `rgbToHex` prints each channel
    with `Number.prototype.toString(16)` and pads it to two digits. */
module Hex {
  import opened Base

  datatype Rgb = Rgb(r: int, g: int, b: int)

  predicate IsByte(n: int) { 0 <= n <= 255 }

  predicate IsRgbBytes(c: Rgb) { IsByte(c.r) && IsByte(c.g) && IsByte(c.b) }

  /** The class `[a-f\d]` under the regular expression's `i` flag. */
  predicate IsHexDigit(c: char)
  {
    '0' <= c <= '9' || 'a' <= c <= 'f' || 'A' <= c <= 'F'
  }

  /** What `toString(16)` prints: digits and lower-case letters only. */
  predicate IsLowerHexDigit(c: char)
  {
    '0' <= c <= '9' || 'a' <= c <= 'f'
  }

  function DigitValue(c: char): (d: nat)
    requires IsHexDigit(c)
    ensures d < 16
  {
    if '0' <= c <= '9' then c as int - '0' as int
    else if 'a' <= c <= 'f' then c as int - 'a' as int + 10
    else c as int - 'A' as int + 10
  }

  /** The lower-case digit `toString(16)` uses for a value below sixteen. */
  function Digit(d: nat): (c: char)
    requires d < 16
    ensures IsLowerHexDigit(c) && DigitValue(c) == d
  {
    if d < 10 then (48 + d) as char else (87 + d) as char
  }

  /** Case folding of a hexadecimal digit. */
  function Lower(c: char): char
  {
    if 'A' <= c <= 'F' then (c as int + 32) as char else c
  }

  lemma DigitOfValue(c: char)
    requires IsHexDigit(c)
    ensures Digit(DigitValue(c)) == Lower(c)
  {
  }

  /** `parseInt(pair, 16)` for a two-digit pair. */
  function PairValue(hi: char, lo: char): (n: int)
    requires IsHexDigit(hi) && IsHexDigit(lo)
    ensures IsByte(n)
  {
    16 * DigitValue(hi) + DigitValue(lo)
  }

  /** The strings the pattern `/^#?([a-f\d]{2})([a-f\d]{2})([a-f\d]{2})$/i`
      matches, stated position by position. */
  predicate WellFormed(s: string)
  {
    || (|s| == 6 && forall i :: 0 <= i < 6 ==> IsHexDigit(s[i]))
    || (|s| == 7 && s[0] == '#' && forall i :: 1 <= i < 7 ==> IsHexDigit(s[i]))
  }

  /** The six digits after the optional leading `#`. */
  function Digits(s: string): string
  {
    if |s| == 7 && s[0] == '#' then s[1..] else s
  }

  function HexToRgb(hex: string): (c: Option<Rgb>)
    ensures c.Some? ==> IsRgbBytes(c.value)
  {
    var d := Digits(hex);
    if |d| == 6 && IsHexDigit(d[0]) && IsHexDigit(d[1]) && IsHexDigit(d[2])
       && IsHexDigit(d[3]) && IsHexDigit(d[4]) && IsHexDigit(d[5])
    then Some(Rgb(PairValue(d[0], d[1]), PairValue(d[2], d[3]), PairValue(d[4], d[5])))
    else None
  }

  /** `hexToRgb` succeeds exactly on the strings its pattern matches. */
  lemma HexToRgbDefinedIff(s: string)
    ensures HexToRgb(s).Some? <==> WellFormed(s)
  {
    var d := Digits(s);
    if WellFormed(s) && |s| == 7 {
      assert forall i :: 0 <= i < 6 ==> d[i] == s[i + 1];
    }
    if HexToRgb(s).Some? && |s| == 7 {
      assert forall i :: 1 <= i < 7 ==> s[i] == d[i - 1];
    }
  }

  /** The value of a digit string read most significant digit first. */
  function HexValue(s: string): nat
    requires forall i :: 0 <= i < |s| ==> IsHexDigit(s[i])
  {
    if |s| == 0 then 0 else 16 * HexValue(s[..|s| - 1]) + DigitValue(s[|s| - 1])
  }

  /** `n.toString(16)` for a non-negative integer: the shortest digit string
      with value `n`. */
  function ToHexString(n: nat): (s: string)
    ensures 1 <= |s|
    ensures forall i :: 0 <= i < |s| ==> IsLowerHexDigit(s[i]) && IsHexDigit(s[i])
    ensures HexValue(s) == n
    ensures |s| == 1 <==> n < 16
    ensures |s| > 1 ==> s[0] != '0'
  {
    if n < 16 then [Digit(n)]
    else
      var s := ToHexString(n / 16) + [Digit(n % 16)];
      assert s[..|s| - 1] == ToHexString(n / 16);
      s
  }

  /** One channel of `rgbToHex`: a single digit gets a leading zero. */
  function ChannelHex(n: nat): string
  {
    var h := ToHexString(n);
    if |h| == 1 then "0" + h else h
  }

  lemma ChannelHexOfByte(n: nat)
    requires n <= 255
    ensures |ChannelHex(n)| == 2
    ensures IsLowerHexDigit(ChannelHex(n)[0]) && IsLowerHexDigit(ChannelHex(n)[1])
    ensures PairValue(ChannelHex(n)[0], ChannelHex(n)[1]) == n
  {
    var h := ToHexString(n);
    if n >= 16 {
      assert h == ToHexString(n / 16) + [Digit(n % 16)];
      assert ToHexString(n / 16) == [Digit(n / 16)];
    }
  }

  function RgbToHex(r: nat, g: nat, b: nat): string
  {
    "#" + ChannelHex(r) + ChannelHex(g) + ChannelHex(b)
  }

  /** For byte channels the output is `#` and exactly six lower-case digits. */
  lemma RgbToHexShape(r: nat, g: nat, b: nat)
    requires IsByte(r) && IsByte(g) && IsByte(b)
    ensures var s := RgbToHex(r, g, b);
            |s| == 7 && s[0] == '#' && forall i :: 1 <= i < 7 ==> IsLowerHexDigit(s[i])
  {
    ChannelHexOfByte(r);
    ChannelHexOfByte(g);
    ChannelHexOfByte(b);
    var (hr, hg, hb) := (ChannelHex(r), ChannelHex(g), ChannelHex(b));
    assert RgbToHex(r, g, b) == ['#', hr[0], hr[1], hg[0], hg[1], hb[0], hb[1]];
  }

  /** Printing three bytes and parsing the result gives the bytes back. */
  lemma RgbToHexRoundTrip(r: nat, g: nat, b: nat)
    requires IsByte(r) && IsByte(g) && IsByte(b)
    ensures HexToRgb(RgbToHex(r, g, b)) == Some(Rgb(r, g, b))
  {
    ChannelHexOfByte(r);
    ChannelHexOfByte(g);
    ChannelHexOfByte(b);
    var (hr, hg, hb) := (ChannelHex(r), ChannelHex(g), ChannelHex(b));
    var s := RgbToHex(r, g, b);
    assert s == ['#', hr[0], hr[1], hg[0], hg[1], hb[0], hb[1]];
    var d := Digits(s);
    assert d == [hr[0], hr[1], hg[0], hg[1], hb[0], hb[1]];
    assert PairValue(d[0], d[1]) == r && PairValue(d[2], d[3]) == g && PairValue(d[4], d[5]) == b;
  }

  /** Parsing and printing again normalises to `#` and lower-case digits. */
  lemma HexToRgbRoundTrip(s: string)
    requires HexToRgb(s).Some?
    ensures var c := HexToRgb(s).value;
            var d := Digits(s);
            RgbToHex(c.r, c.g, c.b) == ['#', Lower(d[0]), Lower(d[1]), Lower(d[2]), Lower(d[3]), Lower(d[4]), Lower(d[5])]
  {
    var d := Digits(s);
    var c := HexToRgb(s).value;
    assert |d| == 6 && IsHexDigit(d[0]) && IsHexDigit(d[1]) && IsHexDigit(d[2])
           && IsHexDigit(d[3]) && IsHexDigit(d[4]) && IsHexDigit(d[5]);
    assert c == Rgb(PairValue(d[0], d[1]), PairValue(d[2], d[3]), PairValue(d[4], d[5]));
    PrintDigits(d);
  }

  /** Printing the three channels read from six digits. */
  lemma PrintDigits(d: string)
    requires |d| == 6 && forall i :: 0 <= i < 6 ==> IsHexDigit(d[i])
    ensures RgbToHex(PairValue(d[0], d[1]), PairValue(d[2], d[3]), PairValue(d[4], d[5]))
            == ['#', Lower(d[0]), Lower(d[1]), Lower(d[2]), Lower(d[3]), Lower(d[4]), Lower(d[5])]
  {
    ChannelPrint(d[0], d[1]);
    ChannelPrint(d[2], d[3]);
    ChannelPrint(d[4], d[5]);
  }

  /** A parsed pair prints as the same pair in lower case. */
  lemma ChannelPrint(hi: char, lo: char)
    requires IsHexDigit(hi) && IsHexDigit(lo)
    ensures ChannelHex(PairValue(hi, lo)) == [Lower(hi), Lower(lo)]
  {
    var n := PairValue(hi, lo);
    DigitOfValue(hi);
    DigitOfValue(lo);
    if n >= 16 {
      assert ToHexString(n) == ToHexString(n / 16) + [Digit(n % 16)];
      assert n / 16 == DigitValue(hi) && n % 16 == DigitValue(lo);
    } else {
      assert DigitValue(hi) == 0;
    }
  }
}
