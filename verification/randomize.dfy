/** The randomiser of `App` in `src/App.jsx`: `getRandomElement`,
    `getRandomValue` and the body of `randomizeSettings`, which filters the
    candidate lists by the grid size in force when it runs and picks one
    candidate per enabled dimension. Each `Math.random()` result is a
    parameter in [0, 1). */
module Randomize {
  import opened Base
  import opened Gradient
  import opened Styles
  import opened Fields

  /** What `Math.random()` returns. */
  type Chance = r: real | 0.0 <= r < 1.0 witness 0.0

  lemma ScaleBelow(r: Chance, m: real)
    requires m > 0.0
    ensures 0.0 <= r * m < m
  {
    MulNonNegative(r, m);
    MulPositive(1.0 - r, m);
    assert (1.0 - r) * m == m - r * m;
  }

  /** `Math.floor(Math.random() * array.length)`. */
  function RandomIndex(len: nat, r: Chance): (i: int)
    requires len > 0
    ensures 0 <= i < len
  {
    ScaleBelow(r, len as real);
    (r * len as real).Floor
  }

  /** The index picks slot k exactly when the draw falls in [k/len, (k+1)/len),
      so every slot is reachable and each by an interval of the same width. */
  lemma RandomIndexUniform(len: nat, r: Chance, k: int)
    requires len > 0 && 0 <= k < len
    ensures RandomIndex(len, r) == k <==> k as real / len as real <= r < (k + 1) as real / len as real
  {
    if k as real / len as real <= r < (k + 1) as real / len as real {
      DrawInSlot(len, r, k);
    }
    if RandomIndex(len, r) == k {
      SlotOfDraw(len, r, k);
    }
  }

  /** A draw in [k/len, (k+1)/len) picks slot k. */
  lemma DrawInSlot(len: nat, r: Chance, k: int)
    requires len > 0 && 0 <= k < len
    requires k as real / len as real <= r < (k + 1) as real / len as real
    ensures RandomIndex(len, r) == k
  {
    var m := len as real;
    var lo := k as real / m;
    var hi := (k + 1) as real / m;
    assert lo * m == k as real;
    assert hi * m == (k + 1) as real;
    assert (r - lo) * m == r * m - k as real;
    assert (hi - r) * m == (k + 1) as real - r * m;
    MulNonNegative(r - lo, m);
    MulPositive(hi - r, m);
    assert k as real <= r * m < (k + 1) as real;
    assert (r * m).Floor == k;
  }

  /** Slot k is picked only by draws in [k/len, (k+1)/len). */
  lemma SlotOfDraw(len: nat, r: Chance, k: int)
    requires len > 0 && 0 <= k < len
    requires RandomIndex(len, r) == k
    ensures k as real / len as real <= r < (k + 1) as real / len as real
  {
    var m := len as real;
    var lo := k as real / m;
    var hi := (k + 1) as real / m;
    assert lo * m == k as real;
    assert hi * m == (k + 1) as real;
    assert (r - lo) * m == r * m - k as real;
    assert (hi - r) * m == (k + 1) as real - r * m;
    assert k as real <= r * m < (k + 1) as real;
    SignOfFactor(r - lo, m);
    SignOfFactor(hi - r, m);
  }

  /** `getRandomElement` on a non-empty array. */
  function Pick<T>(s: seq<T>, r: Chance): (x: T)
    requires |s| > 0
    ensures x in s
  {
    s[RandomIndex(|s|, r)]
  }

  /** Every element can be picked: the draw k / len selects slot k. */
  lemma PickReachesAll<T>(s: seq<T>, k: int)
    requires 0 <= k < |s|
    ensures 0.0 <= k as real / |s| as real < 1.0
    ensures Pick(s, k as real / |s| as real) == s[k]
  {
    var m := |s| as real;
    assert k as real / m * m == k as real;
    SignOfFactor(k as real / m, m);
    SignOfFactor(1.0 - k as real / m, m);
    assert (1.0 - k as real / m) * m == m - k as real;
    RandomIndexUniform(|s|, k as real / m, k);
  }

  /** `getRandomValue(min, max)`: `Math.floor(r * (max - min + 1)) + min`. */
  function RandomValue(lo: int, hi: int, r: Chance): (v: int)
    ensures lo <= hi ==> lo <= v <= hi
  {
    if lo <= hi then RandomIndex(hi - lo + 1, r) + lo
    else (r * (hi - lo + 1) as real).Floor + lo
  }

  /** Each value of the range owns an equal slice of the draws. */
  lemma RandomValueUniform(lo: int, hi: int, r: Chance, v: int)
    requires lo <= v <= hi
    ensures var m := (hi - lo + 1) as real;
            RandomValue(lo, hi, r) == v <==> (v - lo) as real / m <= r < (v - lo + 1) as real / m
  {
    RandomIndexUniform(hi - lo + 1, r, v - lo);
  }

  // ------------------------------------------------------------ candidates

  const GridSizes: seq<nat> := [20, 30, 40, 50]
  const PValues: seq<real> := [2.0, 2.5, 3.0, 3.5, 4.0]

  datatype PatternEntry = PatternEntry(id: nat, name: string)

  /** `Object.values(PATTERNS)`. */
  const Patterns: seq<PatternEntry> :=
    [PatternEntry(0, PatternNames[0]), PatternEntry(1, PatternNames[1]), PatternEntry(2, PatternNames[2]),
     PatternEntry(3, PatternNames[3]), PatternEntry(4, PatternNames[4]), PatternEntry(5, PatternNames[5]),
     PatternEntry(6, PatternNames[6]), PatternEntry(7, PatternNames[7]), PatternEntry(8, PatternNames[8]),
     PatternEntry(9, PatternNames[9]), PatternEntry(10, PatternNames[10]), PatternEntry(11, PatternNames[11]),
     PatternEntry(12, PatternNames[12])]

  /** The pattern filter: drop names containing `Fractal` on a large grid. */
  predicate PatternSafe(gridSize: int, e: PatternEntry)
  {
    !(gridSize > 40 && Contains(e.name, "Fractal"))
  }

  function PatternFilter(gridSize: int): PatternEntry -> bool
  {
    e => PatternSafe(gridSize, e)
  }

  function SafePatterns(gridSize: int): seq<PatternEntry>
  {
    Filter(Patterns, PatternFilter(gridSize))
  }

  function MaxP(gridSize: int): real
  {
    if gridSize > 40 then 4.0 else 6.0
  }

  function PFilter(gridSize: int): real -> bool
  {
    p => p <= MaxP(gridSize)
  }

  function SafePValues(gridSize: int): seq<real>
  {
    Filter(PValues, PFilter(gridSize))
  }

  predicate StyleSafe(gridSize: int, st: Style)
  {
    !(gridSize > 40 && (st == AsciiDense || st == PixelDithering))
  }

  function StyleFilter(gridSize: int): Style -> bool
  {
    st => StyleSafe(gridSize, st)
  }

  function SafeStyles(gridSize: int): seq<Style>
  {
    Filter(AllStyles, StyleFilter(gridSize))
  }

  predicate NotCustom(s: Scheme) { s.name != "Custom" }

  function RandomSchemes(): seq<Scheme>
  {
    Filter(Catalog, NotCustom)
  }

  /** A string without `sub`'s first character cannot contain `sub`. */
  lemma MissingFirstChar(s: string, sub: string)
    requires |sub| > 0 && sub[0] !in s
    ensures !Contains(s, sub)
  {
    ContainsIsOccurrence(s, sub);
  }

  /** Pattern i sits at slot i, and only pattern 7 has `Fractal` in its name;
      `Mandelbrot` does not. */
  lemma PatternsIndexed()
    ensures forall i :: 0 <= i < |Patterns| ==> Patterns[i].id == i
    ensures forall i :: 0 <= i < |Patterns| ==> (Contains(Patterns[i].name, "Fractal") <==> i == 7)
  {
    PatternsNamed();
    forall i | 0 <= i < |Patterns|
      ensures Patterns[i].id == i && (Contains(Patterns[i].name, "Fractal") <==> i == 7)
    {
      EntryFacts(i);
    }
  }

  /** The facts about one entry. */
  lemma EntryFacts(i: int)
    requires 0 <= i < 13
    ensures Patterns[i].id == i && (Contains(Patterns[i].name, "Fractal") <==> i == 7)
  {
    PatternsNamed();
    if i == 7 {
      assert PatternNames[7][..7] == "Fractal";
    } else {
      NameLacksFractal(i);
    }
  }

  /** Entry i carries id i and the i-th name. */
  lemma PatternsNamed()
    ensures |Patterns| == 13
    ensures forall i :: 0 <= i < 13 ==> Patterns[i] == PatternEntry(i, PatternNames[i])
  {
  }

  /** No name but "Fractal" even has an `F`. */
  lemma NameLacksFractal(i: int)
    requires 0 <= i < 13 && i != 7
    ensures !Contains(PatternNames[i], "Fractal")
  {
    assert 'F' !in PatternNames[i];
    MissingFirstChar(PatternNames[i], "Fractal");
  }

  lemma PatternsKept(gridSize: int, lo: nat, hi: nat)
    requires lo <= hi <= 13 && (lo > 7 || hi <= 7 || gridSize <= 40)
    ensures forall i :: 0 <= i < hi - lo ==> PatternFilter(gridSize)(Patterns[lo..hi][i])
  {
    PatternsIndexed();
    var part := Patterns[lo..hi];
    assert forall i :: 0 <= i < |part| ==> part[i] == Patterns[lo + i];
  }

  /** On a large grid exactly pattern 7 is dropped; otherwise none is. */
  lemma SafePatternsExact(gridSize: int)
    ensures gridSize > 40 ==> SafePatterns(gridSize) == Patterns[..7] + Patterns[8..]
    ensures gridSize <= 40 ==> SafePatterns(gridSize) == Patterns
  {
    var keep := PatternFilter(gridSize);
    if gridSize > 40 {
      var a, b := Patterns[0..7], Patterns[8..13];
      assert Patterns == a + [Patterns[7]] + b;
      assert a == Patterns[..7] && b == Patterns[8..];
      PatternsKept(gridSize, 0, 7);
      PatternsKept(gridSize, 8, 13);
      assert !keep(Patterns[7]) by {
        PatternsIndexed();
      }
      FilterDropOne(a, Patterns[7], b, keep);
    } else {
      assert Patterns[0..13] == Patterns;
      PatternsKept(gridSize, 0, 13);
      FilterAll(Patterns, keep);
    }
  }

  /** Every picked pattern id is a valid one, and never 7 on a large grid. */
  lemma SafePatternIds(gridSize: int, e: PatternEntry)
    requires e in SafePatterns(gridSize)
    ensures e.id < 13 && !(gridSize > 40 && e.id == 7)
  {
    assert e in Patterns && PatternSafe(gridSize, e);
    var i :| 0 <= i < |Patterns| && Patterns[i] == e;
    EntryFacts(i);
  }

  /** The maxP filter never removes anything: 4 is the largest candidate. */
  lemma PValuesUnfiltered(gridSize: int)
    ensures SafePValues(gridSize) == PValues
  {
    FilterAll(PValues, PFilter(gridSize));
  }

  lemma AllStylesListed(st: Style)
    ensures st in AllStyles
  {
    match st
    case Ascii => assert AllStyles[0] == st;
    case Pixels => assert AllStyles[1] == st;
    case Dots => assert AllStyles[2] == st;
    case Lines => assert AllStyles[3] == st;
    case Matrix => assert AllStyles[4] == st;
    case Circles => assert AllStyles[5] == st;
    case Triangles => assert AllStyles[6] == st;
    case Hexagons => assert AllStyles[7] == st;
    case RadialGradient => assert AllStyles[8] == st;
    case Wireframe => assert AllStyles[9] == st;
    case AsciiDense => assert AllStyles[10] == st;
    case AsciiBlocks => assert AllStyles[11] == st;
    case AsciiShades => assert AllStyles[12] == st;
    case PixelBlocks => assert AllStyles[13] == st;
    case PixelDithering => assert AllStyles[14] == st;
    case PixelScanlines => assert AllStyles[15] == st;
  }

  /** On a large grid exactly `ascii_dense` and `pixel_dithering` are dropped;
      otherwise all sixteen styles remain. */
  lemma SafeStylesExact(gridSize: int, st: Style)
    ensures st in SafeStyles(gridSize) <==> StyleSafe(gridSize, st)
    ensures gridSize <= 40 ==> SafeStyles(gridSize) == AllStyles
  {
    SafeStyleMember(gridSize, st);
    if gridSize <= 40 {
      SmallGridKeepsStyles(gridSize);
    }
  }

  lemma SafeStyleMember(gridSize: int, st: Style)
    ensures st in SafeStyles(gridSize) <==> StyleSafe(gridSize, st)
  {
    var keep := StyleFilter(gridSize);
    AllStylesListed(st);
    assert st in Filter(AllStyles, keep) <==> keep(st);
  }

  lemma SmallGridKeepsStyles(gridSize: int)
    requires gridSize <= 40
    ensures SafeStyles(gridSize) == AllStyles
  {
    var keep := StyleFilter(gridSize);
    assert forall i :: 0 <= i < |AllStyles| ==> keep(AllStyles[i]);
    FilterAll(AllStyles, keep);
  }

  /** The scheme candidates are the eight named catalogue entries. */
  lemma RandomSchemesExact()
    ensures RandomSchemes() == Catalog[..8]
  {
    var named := Catalog[..8];
    assert Catalog == named + [Custom] + [];
    assert forall i :: 0 <= i < 8 ==> NotCustom(named[i]);
    FilterDropOne(named, Custom, [], NotCustom);
  }

  // ---------------------------------------------------------------- picks

  function RandomGridSize(r: Chance): (n: nat)
    ensures n in GridSizes
  {
    Pick(GridSizes, r)
  }

  function RandomPattern(gridSize: int, r: Chance): (id: nat)
    ensures id < 13 && !(gridSize > 40 && id == 7)
  {
    SafePatternsExact(gridSize);
    var e := Pick(SafePatterns(gridSize), r);
    SafePatternIds(gridSize, e);
    e.id
  }

  function RandomP(gridSize: int, r: Chance): (p: real)
    ensures p in PValues
  {
    PValuesUnfiltered(gridSize);
    Pick(SafePValues(gridSize), r)
  }

  function RandomStyle(gridSize: int, r: Chance): (st: Style)
    ensures StyleSafe(gridSize, st)
  {
    SafeStylesExact(gridSize, Ascii);
    var st := Pick(SafeStyles(gridSize), r);
    SafeStylesExact(gridSize, st);
    st
  }

  /** A scheme the randomiser may choose: a named catalogue entry, whose
      colours parse. */
  predicate SchemeCandidate(s: Scheme)
  {
    s in Catalog && s.name != "Custom" && Parses(s)
  }

  function RandomScheme(r: Chance): (s: Scheme)
    ensures SchemeCandidate(s)
  {
    RandomSchemesExact();
    CatalogParses();
    var i := RandomIndex(8, r);
    assert RandomSchemes()[i] == Catalog[i];
    Pick(RandomSchemes(), r)
  }

  // -------------------------------------------------------------- settings

  datatype AppSettings = AppSettings(gridSize: nat, pattern: nat, p: real, style: Style, scheme: Scheme)

  /** The `randomSettings` check boxes. */
  datatype Toggles = Toggles(gridSize: bool, pattern: bool, p: bool, style: bool, scheme: bool)

  /** One `Math.random()` per enabled dimension, in the order the body draws
      them; a disabled dimension's draw is ignored. */
  datatype Draws = Draws(gridSize: Chance, pattern: Chance, p: Chance, style: Chance, scheme: Chance)

  /** `randomizeSettings` after the debounce: the filters read `cur.gridSize`,
      the grid size in force, even when a new one is drawn in the same call. */
  function RandomizeSettings(cur: AppSettings, on: Toggles, r: Draws): (next: AppSettings)
    ensures !on.gridSize ==> next.gridSize == cur.gridSize
    ensures !on.pattern ==> next.pattern == cur.pattern
    ensures !on.p ==> next.p == cur.p
    ensures !on.style ==> next.style == cur.style
    ensures !on.scheme ==> next.scheme == cur.scheme
    ensures on.gridSize ==> next.gridSize in GridSizes
    ensures on.pattern ==> next.pattern < 13 && !(cur.gridSize > 40 && next.pattern == 7)
    ensures on.p ==> next.p in PValues
    ensures on.style ==> StyleSafe(cur.gridSize, next.style)
    ensures on.scheme ==> SchemeCandidate(next.scheme)
  {
    AppSettings(
      NextGridSize(cur, on, r),
      if on.pattern then RandomPattern(cur.gridSize, r.pattern) else cur.pattern,
      NextP(cur, on, r),
      NextStyle(cur, on, r),
      NextScheme(cur, on, r))
  }

  function NextGridSize(cur: AppSettings, on: Toggles, r: Draws): (n: nat)
    ensures if on.gridSize then n in GridSizes else n == cur.gridSize
  {
    if on.gridSize then RandomGridSize(r.gridSize) else cur.gridSize
  }

  function NextP(cur: AppSettings, on: Toggles, r: Draws): (p: real)
    ensures if on.p then p in PValues else p == cur.p
  {
    if on.p then RandomP(cur.gridSize, r.p) else cur.p
  }

  function NextStyle(cur: AppSettings, on: Toggles, r: Draws): (st: Style)
    ensures if on.style then StyleSafe(cur.gridSize, st) else st == cur.style
  {
    if on.style then RandomStyle(cur.gridSize, r.style) else cur.style
  }

  function NextScheme(cur: AppSettings, on: Toggles, r: Draws): (s: Scheme)
    ensures if on.scheme then SchemeCandidate(s) else s == cur.scheme
  {
    if on.scheme then RandomScheme(r.scheme) else cur.scheme
  }

  /** Because the filters read the old grid size, a call that moves from a
      small grid to 50 can still pick the `Fractal` pattern. */
  lemma StaleGridAllowsFractal(cur: AppSettings)
    requires cur.gridSize == 20
    ensures var next := RandomizeSettings(cur, Toggles(true, true, true, true, true), Draws(0.9, 0.6, 0.0, 0.0, 0.0));
            next.gridSize == 50 && next.pattern == 7
  {
    FractalPickedOnSmallGrid();
    LargestGridPicked();
  }

  lemma FractalPickedOnSmallGrid()
    ensures RandomPattern(20, 0.6) == 7
  {
    SeventhDrawn();
    SafePatternsExact(20);
  }

  lemma SeventhDrawn()
    ensures RandomIndex(13, 0.6) == 7
  {
    assert 7.0 <= 0.6 * 13.0 < 8.0;
  }

  lemma LargestGridPicked()
    ensures RandomGridSize(0.9) == 50
  {
    assert RandomIndex(4, 0.9) == 3;
  }
}
