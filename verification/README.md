# Minkowski grid pattern pipeline, modelled in Dafny

This project models the drawing pipeline of the Minkowski pattern grid
(`MinkowskiGrid` and `App` in `src/App.jsx`) and its older variant in
`beta-backup/App.jsx`. For every frame, the grid evaluates a pattern field at
each of the N×N cells. It turns each value into canvas primitives with one of
sixteen render styles, coloured by a two-colour scheme. The model covers that
path and the state around it:

- the hex colour codec and the gradient mapper;
- the HSL conversion behind the colour cycle;
- the sixteen styles, as functions from a value to abstract primitives;
- the frame loop, including coordinate centring and the Mandelbrot escape count;
- the randomiser's candidate filters and its random picks;
- the playback clock;
- the debounce and loading guard around the randomiser;
- the five-style beta grid, with its interval clock.

Modules, one per file:

| module | file | models |
|---|---|---|
| `Base` | base.dfy | `Math.round`, `Math.abs`/`min`/`max`, truncation, `%` on reals, `Array.filter`, `String.includes` |
| `Hex` | hex.dfy | `hexToRgb`, `rgbToHex`, `Number.toString(16)` |
| `Gradient` | gradient.dfy | `COLOR_SCHEMES`, `getGradientColor` |
| `Hsl` | hsl.dfy | `hslToRgb`, the hue cycle and the animated scheme |
| `Styles` | styles.dfy | `RENDER_STYLES` and the sixteen `renderMethods` |
| `Fields` | fields.dfy | `PATTERNS`, `scaleCoordinates`, the Mandelbrot loop, the pattern closures |
| `Grid` | grid.dfy | the nested `for` loops over an N×N grid (generic) |
| `Frame` | frame.dfy | the canvas sizing effect and the render effect |
| `Randomize` | randomize.dfy | `getRandomElement`, `getRandomValue`, the body of `randomizeSettings` |
| `Clock` | clock.dfy | step buttons, play/pause, the 50 ms animation loop, audio normalisation |
| `Debounce` | debounce.dfy | `useDebounce` and the `isLoading` guard |
| `Beta` | beta.dfy | `beta-backup/App.jsx`: five green styles, plain centring, interval clock |

Modelling choices:

- **Arithmetic.** Numbers are exact reals. `Math.round(x)` is `Floor(x + 0.5)`. `%` on reals is written out with JavaScript's truncating sign rule.
- **Canvas calls.** Each style returns a list of `Primitive` values (text, rectangle, circle, triangle, hexagon, rotated line, segment, radial fill) instead of drawing.
- **Randomness and time.** `Math.random()` becomes a parameter `r` in [0, 1). Clocks become logical millisecond timestamps passed in by the caller.
- **Throws.** Where the JavaScript would throw, the model returns `None`. This happens when:
  - `hexToRgb` returns `null` and the gradient mapper reads `c1.r` (or `c2.r`, when only the secondary colour fails);
  - a dither index outside 0..4 makes the code call `forEach` on `undefined`;
  - a pattern id has no closure.
- **Pattern closures.** Their transcendental part is a `Kernel` parameter. The model computes what the closures compute with arithmetic alone (the centred coordinates and the Mandelbrot escape count) and hands those to the kernel.

Where a plain-language description of the program and the code disagree, the model follows the code:

- `getGradientColor` does not clamp its value. Outside [-1, 1] it extrapolates, so a channel can leave 0..255 (`Gradient.GradientNotClamped`).
- `hexToRgb` returns `null` on a malformed colour. It does not raise an error of its own; the failure only shows when `getGradientColor` reads a field of that `null`.
- The randomiser's filters read the grid size in force when it runs, not the size it has just drawn. A run from grid size 20 can therefore pick grid size 50 together with the Fractal pattern (`Randomize.StaleGridAllowsFractal`).
- The "Fractal" filter removes only pattern 7, `Fractal`. The iterative Mandelbrot closure (id 10) stays a candidate on large grids.
- The `maxP` filter removes nothing: every candidate p is at most 4.
- Centring subtracts N/2. The mirror of cell x is therefore N − x, not N − 1 − x, and the grid's corner cells are not mirror images (`Fields.ScaleCornersAsymmetric`).

## Model

| member | source | states |
|---|---|---|
| Base.Round | src/App.jsx:685-687 | `Math.round(x)` is the integer nearest to x, with halves rounding up: it lies in (x − 0.5, x + 0.5] |
| Base.RoundWithin | src/App.jsx:1002-1004 | rounding keeps a value that lies between two integers between those integers |
| Base.Trunc | src/App.jsx:1199 | truncation toward zero: the integer part has the value's sign and is within 1 of it in magnitude |
| Base.RemOne | src/App.jsx:1199 | JavaScript `x % 1`: in [0, 1) for x ≥ 0 and in (-1, 0] for x ≤ 0; the identity on [0, 1); x minus it is a whole number |
| Base.Filter | src/App.jsx:1239-1240 | `Array.filter` keeps exactly the elements the predicate accepts, and never lengthens the list |
| Base.FilterAll | src/App.jsx:1247 | a filter whose predicate accepts every element returns the list unchanged |
| Base.FilterAppend | src/App.jsx:1239-1240 | filtering a concatenation is the concatenation of the filtered parts |
| Base.FilterDropOne | src/App.jsx:1262 | a filter that rejects one element and accepts all others returns the list without that element, order kept |
| Base.ContainsIsOccurrence | src/App.jsx:1240 | `String.includes` holds exactly when the substring occurs at some position |
| Hex.DigitValue | src/App.jsx:695-697 | a hex digit, either case, is worth less than 16 |
| Hex.Digit | src/App.jsx:1009-1010 | the digit printed for a value below 16 is lower-case and reads back as that value |
| Hex.DigitOfValue | src/App.jsx:693-697 | printing a parsed digit gives the lower-case form of the digit |
| Hex.PairValue | src/App.jsx:695-697 | `parseInt` of two hex digits is a byte |
| Hex.HexToRgb | src/App.jsx:692-699 | a parsed colour has three channels in 0..255 |
| Hex.HexToRgbDefinedIff | src/App.jsx:692-699 | `hexToRgb` is non-null exactly for an optional '#' followed by six hex digits of either case |
| Hex.ToHexString | src/App.jsx:1009 | `toString(16)`: lower-case digits, no leading zero, reading back as the number; one digit exactly below 16 |
| Hex.ChannelHexOfByte | src/App.jsx:1009-1011 | a channel in 0..255 is zero-padded to exactly two lower-case digits that read back as the channel |
| Hex.RgbToHexShape | src/App.jsx:1008-1013 | `rgbToHex` of three bytes is '#' followed by six lower-case hex digits |
| Hex.RgbToHexRoundTrip | src/App.jsx:1008-1013 | `hexToRgb(rgbToHex(r, g, b))` returns the bytes r, g, b |
| Hex.HexToRgbRoundTrip | src/App.jsx:692-699 | printing a parsed colour gives '#' plus the input's six digits in lower case |
| Hex.PrintDigits | src/App.jsx:1008-1013 | printing the three channels read from six digits gives back those digits, lower-cased |
| Hex.ChannelPrint | src/App.jsx:1009-1011 | printing the byte read from two digits gives back the two digits, lower-cased |
| Gradient.GradientColor | src/App.jsx:681-690 | a colour results exactly when both scheme colours parse; its alpha is `max(0.2, abs(v))` |
| Gradient.LerpWithin | src/App.jsx:685-687 | an interpolated and rounded channel lies between its two end channels for t in [0, 1] |
| Gradient.GradientEndpoints | src/App.jsx:681-687 | v = -1 gives exactly the primary colour and v = 1 exactly the secondary |
| Gradient.GradientInRange | src/App.jsx:681-690 | for v in [-1, 1], each channel lies between the endpoint channels and is a byte; alpha lies in [0.2, 1] and equals 1 exactly when abs(v) = 1 |
| Gradient.GradientMidpoint | src/App.jsx:682-687 | v = 0 gives each channel as the rounded mean of the two endpoint channels |
| Gradient.GradientNotClamped | src/App.jsx:681-690 | values outside [-1, 1] are not clamped: v = 3 on the Matrix scheme gives a negative green channel |
| Gradient.LiteralParses | src/App.jsx:692-699 | a '#' followed by six hex digits parses |
| Gradient.SchemeParses | src/App.jsx:681-683 | a scheme whose two colours are '#' plus six hex digits is accepted by the gradient mapper |
| Gradient.CatalogParses | src/App.jsx:26-81 | all nine catalogue schemes have parsable primary and secondary colours |
| Hsl.Wrap | src/App.jsx:988-989 | the single wrap of `hue2rgb` brings any t in [-1, 2] into [0, 1] |
| Hsl.RampWithin | src/App.jsx:990-993 | each piece of `hue2rgb` stays between p and q on [0, 1] |
| Hsl.Hue2RgbWithin | src/App.jsx:987-994 | `hue2rgb(p, q, t)` lies in [p, q] for every t the converter passes |
| Hsl.BoundsOrdered | src/App.jsx:995-996 | for s and l in [0, 1]: 0 ≤ p ≤ l ≤ q ≤ 1 |
| Hsl.ToByte | src/App.jsx:1001-1005 | `Math.round(c * 255)` of a component in [0, 1] is a byte |
| Hsl.HslToRgb | src/App.jsx:982-986 | zero saturation gives a grey: r = g = b |
| Hsl.HslToRgbBytes | src/App.jsx:982-1006 | for h in [0, 1) and s, l in [0, 1], every channel is in 0..255 |
| Hsl.HueStep | src/App.jsx:1199 | the cycle step `(h + 0.001) % 1` keeps a hue in [0, 1) and differs from h + 0.001 by a whole number |
| Hsl.Complement | src/App.jsx:1210 | `(h + 0.5) % 1` stays in [0, 1): it adds 0.5 below 0.5 and subtracts 0.5 from there on |
| Hsl.HueStaysInRange | src/App.jsx:1195-1203 | any number of cycle steps from a hue in [0, 1) stays in [0, 1) |
| Hsl.AnimatedSchemeParses | src/App.jsx:1206-1218 | the animated scheme's colours parse back to the HSL colours they were printed from, so gradients never fail on it |
| Styles.AsciiBands | src/App.jsx:465-479 | ASCII draws nothing exactly when v ≤ -0.3; otherwise it draws the glyph of v's band, and the band never drops as v grows |
| Styles.MatrixGlyph | src/App.jsx:520-526 | MATRIX writes only '0' or '1', and '1' exactly when 0 ≤ v < 1 (index 2 at v = 1 falls back to '0') |
| Styles.RampIndexBounds | src/App.jsx:598-617 | for v in [-1, 1], the glyph-ramp index is within the ramp; it is 0 at v = -1 and the last index at v = 1 |
| Styles.RampIndexMonotone | src/App.jsx:601 | the ramp index never drops as v grows |
| Styles.CountLitFrom | src/App.jsx:623-626 | counting from k: sub-block j is lit exactly when j is below the count |
| Styles.LitCount | src/App.jsx:623-626 | PIXEL_BLOCKS lights sub-blocks 0..m-1 and no others, with m ≤ 9 |
| Styles.LitCountProperties | src/App.jsx:619-636 | no sub-block at v = -1, all nine at v = 1, and the lit count never drops as v grows |
| Styles.BlocksAreLit | src/App.jsx:623-634 | the double loop emits exactly the lit sub-blocks, one rectangle each, in loop order |
| Styles.DitherMasksNested | src/App.jsx:640-646 | dither pattern k has exactly k lit quadrants, and each pattern covers the one before it |
| Styles.DitherIndexBounds | src/App.jsx:639-648 | for v in [-1, 1], the dither index is in 0..4; it is 0 at -1 and 4 at 1, and never drops as v grows |
| Styles.DitherDotCount | src/App.jsx:653-661 | each lit quadrant of the pattern becomes exactly one square |
| Styles.ScanlinesAlternate | src/App.jsx:665-676 | the top half is darkened exactly when floor(y) is even, so two vertically adjacent cells carry one shadow between them |
| Styles.Draw | src/App.jsx:464-677 | a style call succeeds exactly when the scheme parses and, for PIXEL_DITHERING, the index is in 0..4; with an unparsable scheme it succeeds only for PIXEL_BLOCKS with nothing lit |
| Styles.DrawTotal | src/App.jsx:464-677 | every style draws every value in [-1, 1] with a parsable scheme |
| Styles.RampStylesPickRampGlyph | src/App.jsx:598-617 | ASCII_DENSE, ASCII_BLOCKS and ASCII_SHADES each write the single glyph of their ramp at the ramp index |
| Styles.ShapesFitCell | src/App.jsx:487-596 | for v in [-1, 1]: the triangle's three vertices lie inside the cell, and the dot, circle, hexagon and half-line sizes are at most half a cell |
| Fields.ScaleCoordinates | src/App.jsx:381-387 | centring moves a cell by N/2, and the aspect correction only stretches it |
| Fields.StretchGrows | src/App.jsx:384-385 | multiplying by an aspect factor of at least 1 never shrinks a distance |
| Fields.ScaleSquare | src/App.jsx:381-387 | on a square canvas the centred cell is (x − N/2, y − N/2); the shorter axis is never stretched |
| Fields.ScaleAntisymmetric | src/App.jsx:381-387 | cell N − x centres to the negative of cell x, and N/2 centres to the origin |
| Fields.ScaleCornersAsymmetric | src/App.jsx:384-385 | on a 4×4 grid, cell (0, 0) centres to (-2, -2) but cell (3, 3) centres to (1, 1) |
| Fields.EscapeFrom | src/App.jsx:329-335 | the escape loop, continued from iteration i, stops at 10 or at the first orbit point with norm² ≥ 4 |
| Fields.EscapeCount | src/App.jsx:326-336 | the escape count is at most 10; every earlier orbit point has norm² < 4 and, below 10, the orbit point at the count has norm² ≥ 4 |
| Fields.OriginFixed | src/App.jsx:331-333 | the orbit of 0 stays at 0 |
| Fields.OriginNeverEscapes | src/App.jsx:329-335 | the seed 0 runs all 10 iterations |
| Fields.CentreCellNeverEscapes | src/App.jsx:324-336 | on an even grid the centre cell runs all 10 iterations |
| Fields.Evaluate | src/App.jsx:253-359 | a value results exactly for pattern ids 0..12 |
| Fields.EvaluateInputs | src/App.jsx:253-359 | a valid id hands its closure the centred cell and, for the Mandelbrot closure, an escape count of at most 10 |
| Grid.Step | src/App.jsx:722-723 | appending the current cell keeps the visit list faithful, in loop order, and covering every cell so far |
| Grid.NextColumn | src/App.jsx:722-723 | finishing a column is the same as starting the next one |
| Grid.CoveredSucceeded | src/App.jsx:722-735 | every cell already visited was processed without failure |
| Grid.Sweep | src/App.jsx:722-735 | the nested loops succeed exactly when every cell succeeds; they then visit each of the N×N cells, in loop order, each with its own result |
| Frame.CanvasFor | src/App.jsx:362-378 | the sizing effect always makes a square canvas, 800 wide outside fullscreen |
| Frame.OffsetsFit | src/App.jsx:705-719 | the cell size is positive, both offsets are ≥ 0 and one of them is 0; a square canvas has no offset and cells of width/N |
| Frame.ScreenCellSquare | src/App.jsx:725-732 | on a square canvas each style is called with the grid cell itself |
| Frame.SizedCanvasHasNoMargin | src/App.jsx:364-371 | both canvases the sizing effect makes leave no margin |
| Frame.DrawCell | src/App.jsx:724-733 | drawing a cell can only succeed for a pattern id in 0..12 |
| Frame.RenderFrame | src/App.jsx:702-736 | the frame succeeds exactly when every cell draws, and then draws each of the N×N cells once, in loop order, with that cell's own primitives |
| Frame.FrameDraws | src/App.jsx:702-736 | a valid pattern, a parsable scheme and field values in [-1, 1] make every cell draw |
| Frame.UnknownPatternFails | src/App.jsx:724 | a pattern id outside 0..12 fails |
| Randomize.RandomIndex | src/App.jsx:1016 | `Math.floor(r * length)` is an index in bounds |
| Randomize.RandomIndexUniform | src/App.jsx:1016 | index k is picked exactly when r lies in [k/len, (k+1)/len) |
| Randomize.DrawInSlot | src/App.jsx:1016 | a draw in slot k picks index k |
| Randomize.SlotOfDraw | src/App.jsx:1016 | a pick of index k comes from a draw in slot k |
| Randomize.Pick | src/App.jsx:1016 | `getRandomElement` returns an element of the array |
| Randomize.PickReachesAll | src/App.jsx:1016 | every element can be picked, by the draw k/len |
| Randomize.RandomValue | src/App.jsx:1018 | `getRandomValue(min, max)` lies in [min, max] |
| Randomize.RandomValueUniform | src/App.jsx:1018 | value v is returned exactly when r lies in the v-th of max − min + 1 equal slices |
| Randomize.MissingFirstChar | src/App.jsx:1240 | a name lacking the first letter of "Fractal" does not include it |
| Randomize.PatternsIndexed | src/App.jsx:87-101 | entry i of `PATTERNS` has id i, and only entry 7 has "Fractal" in its name |
| Randomize.NameLacksFractal | src/App.jsx:88-100 | no pattern name other than "Fractal" includes "Fractal" |
| Randomize.PatternsKept | src/App.jsx:1239-1240 | the filter keeps every entry of a slice that avoids entry 7, or any slice on a small grid |
| Randomize.SafePatternsExact | src/App.jsx:1237-1241 | above grid size 40 the candidates are all patterns but 7, in order; otherwise all 13 |
| Randomize.SafePatternIds | src/App.jsx:1239-1241 | every candidate has an id below 13, and never 7 above grid size 40 |
| Randomize.PValuesUnfiltered | src/App.jsx:1245-1248 | the maxP filter leaves all five p candidates |
| Randomize.AllStylesListed | src/App.jsx:6-23 | every style is among the sixteen |
| Randomize.SafeStylesExact | src/App.jsx:1252-1257 | a style is a candidate exactly when it is safe for the grid size; at grid size 40 or below all sixteen are candidates |
| Randomize.SafeStyleMember | src/App.jsx:1253-1256 | above grid size 40 exactly ascii_dense and pixel_dithering are filtered out |
| Randomize.SmallGridKeepsStyles | src/App.jsx:1253-1256 | at grid size 40 or below the style filter removes nothing |
| Randomize.RandomSchemesExact | src/App.jsx:1262 | the scheme candidates are the eight catalogue schemes other than Custom, in order |
| Randomize.RandomGridSize | src/App.jsx:1230-1233 | the drawn grid size is one of 20, 30, 40, 50 |
| Randomize.RandomPattern | src/App.jsx:1237-1241 | the drawn pattern id is below 13, and not 7 when the current grid size exceeds 40 |
| Randomize.RandomP | src/App.jsx:1245-1249 | the drawn p is one of 2, 2.5, 3, 3.5, 4 |
| Randomize.RandomStyle | src/App.jsx:1252-1258 | the drawn style is safe for the current grid size |
| Randomize.RandomScheme | src/App.jsx:1261-1265 | the drawn scheme is a catalogue scheme, not Custom, and parses |
| Randomize.RandomizeSettings | src/App.jsx:1221-1283 | a disabled setting is left unchanged; an enabled one is drawn from its filtered candidates |
| Randomize.NextGridSize | src/App.jsx:1230-1233 | the grid size is redrawn from the four sizes when enabled, and kept otherwise |
| Randomize.NextP | src/App.jsx:1245-1249 | p is redrawn from the five candidates when enabled, and kept otherwise |
| Randomize.NextStyle | src/App.jsx:1252-1258 | the style is redrawn from the safe styles when enabled, and kept otherwise |
| Randomize.NextScheme | src/App.jsx:1261-1265 | the scheme is redrawn from the named schemes when enabled, and kept otherwise |
| Randomize.StaleGridAllowsFractal | src/App.jsx:1230-1241 | because the filters read the current grid size, a run from size 20 can produce size 50 together with the Fractal pattern |
| Clock.SumBounds | src/App.jsx:449 | the summed energy of the bins lies between 0 and 255 per bin |
| Clock.SumExtremes | src/App.jsx:449 | the sum is 0 exactly when every bin is 0, and maximal exactly when every bin is 255 |
| Clock.Increment | src/App.jsx:443-451 | an advance adds between 0 and 2, and exactly 1 unless audio is enabled and initialised |
| Clock.IncrementAudio | src/App.jsx:447-451 | with live audio, silence adds 0, full energy adds 2, and more energy never adds less |
| Clock.Forward | src/App.jsx:422-424 | stepping forward raises t and touches nothing else |
| Clock.Backward | src/App.jsx:426-428 | stepping backward lowers t and touches nothing else |
| Clock.StepsInverse | src/App.jsx:422-428 | forward then backward, or backward then forward, restores the clock, paused or not |
| Clock.Start | src/App.jsx:431-435 | (re)starting the loop keeps t and takes the current time as the last advance |
| Clock.Pause | src/App.jsx:431-461 | pausing keeps t and stops the loop |
| Clock.Tick | src/App.jsx:437-458 | a frame never changes whether playback runs |
| Clock.TickGate | src/App.jsx:437-455 | a frame changes the clock exactly when playback runs and 50 ms have passed since the last advance; it then adds the increment and records the time |
| Clock.Run | src/App.jsx:437-458 | a run of frames counts at most one advance per frame and keeps the running flag |
| Clock.PausedStays | src/App.jsx:432 | a paused clock never advances, whatever frames pass |
| Clock.AdvancesBounded | src/App.jsx:437-455 | over a run, advances are at least 50 ms apart and each adds at most 2 |
| Clock.SilentRunCounts | src/App.jsx:443-455 | without live audio, t grows by exactly the number of advances |
| Debounce.Schedule | src/App.jsx:1062-1068 | a call schedules the callback after the call's time |
| Debounce.Step | src/App.jsx:1061-1068 | an event fires at most once; a call always leaves exactly the new timer pending |
| Debounce.Replay | src/App.jsx:1057-1070 | a replay fires at most once per event |
| Debounce.Calls | src/App.jsx:1061 | the calls of a burst, one event per timestamp, in order |
| Debounce.BurstPending | src/App.jsx:1061-1068 | during a burst nothing fires, and the timer ends up due 800 ms after the last call |
| Debounce.BurstFiresOnce | src/App.jsx:1057-1070 | a burst of calls less than 800 ms apart runs the callback exactly once, 800 ms after the last call, and not at all before then |
| Debounce.WaitFires | src/App.jsx:1066-1068 | waiting fires the pending timer exactly when it is due |
| Debounce.ReplaySplit | src/App.jsx:1057-1070 | replaying two stretches of events one after the other is replaying them together |
| Debounce.SeparateCallsFireTwice | src/App.jsx:1057-1070 | two calls at least 800 ms apart each run the callback, 800 ms after the call |
| Debounce.Invoke | src/App.jsx:1222-1224 | a run always leaves the session loading, and a run while loading changes nothing |
| Debounce.Settle | src/App.jsx:1286-1288 | clearing the flag never changes the settings |
| Debounce.InvokeGuarded | src/App.jsx:1221-1288 | a run from an idle session applies one randomisation; a second run before the flag clears is a no-op; the flag clears 300 ms later, keeping the new settings |
| Debounce.SettledRunsAgain | src/App.jsx:1221-1288 | once the flag has cleared, the next run randomises again, starting from the new settings |
| Beta.PixelAlphaRange | beta-backup/App.jsx:213-217 | PIXELS alpha is clamp(v + 0.5, 0, 1): in [0, 1], 0 exactly when v ≤ -0.5, 1 exactly when v ≥ 0.5, and non-decreasing |
| Beta.Emit | beta-backup/App.jsx:200-258 | each style emits at most one primitive, and none exactly for ASCII with v ≤ -0.3 |
| Beta.EmitPaint | beta-backup/App.jsx:201-258 | every primitive is pure green; ASCII keeps the setup's alpha 0.8, PIXELS uses the clamped alpha, DOTS, LINES and MATRIX use abs(v); the alpha is in [0, 1] for ASCII and PIXELS always, and for the others when v is in [-1, 1] |
| Beta.MatrixFallsBack | beta-backup/App.jsx:252-258 | MATRIX writes '1' exactly when 0 ≤ v < 1 and '0' otherwise |
| Beta.WithPaint | beta-backup/App.jsx:213-258 | recolouring a primitive sets its colour |
| Beta.Repaint | beta-backup/App.jsx:213-258 | recolouring a list recolours each primitive and keeps the count |
| Beta.SameShapesAsCurrent | beta-backup/App.jsx:200-258 | each beta style emits the same shapes as the current style of that name, differing only in colour |
| Beta.PatternsArePrefix | beta-backup/App.jsx:117-186 | the ten pattern names of the beta select are the first ten current pattern names, in order |
| Beta.CentringProperties | beta-backup/App.jsx:120-121 | cell N − x centres to the negative of cell x, and on a square canvas the beta centring agrees with the current one |
| Beta.Evaluate | beta-backup/App.jsx:117-186 | a value results exactly for pattern ids 0..9 |
| Beta.CellSize | beta-backup/App.jsx:265 | N cells of `canvas.width / gridSize` span the 800-pixel canvas |
| Beta.CellsTileCanvas | beta-backup/App.jsx:276-281 | every cell of the grid lies inside the canvas |
| Beta.CellFits | beta-backup/App.jsx:265 | column i starts at or after 0 and ends by pixel 800 |
| Beta.DrawCell | beta-backup/App.jsx:280-281 | a cell draws exactly when the pattern id is in 0..9 |
| Beta.RenderFrame | beta-backup/App.jsx:262-284 | the frame succeeds exactly for ids 0..9, and then draws each of the N×N cells once, in loop order, with that cell's own primitives |
| Beta.Toggle | beta-backup/App.jsx:298 | the play button flips the running flag and keeps t |
| Beta.Fire | beta-backup/App.jsx:192-194 | an interval tick never changes the running flag |
| Beta.FiringsCount | beta-backup/App.jsx:189-197 | k ticks add exactly k while running and nothing while paused |
| Beta.Firings | beta-backup/App.jsx:192-194 | the number of 50 ms ticks in an elapsed time is its floor over 50 |
| Beta.TimeAfter | beta-backup/App.jsx:189-197 | after an elapsed time, a running clock has gained one per full 50 ms, never more than elapsed/50 |

## Left out

- Transcendental field math: `Math.sin`, `cos`, `atan2`, `sqrt` and `pow` with a real exponent cannot be computed exactly. The pattern closures are a `Kernel` parameter that receives everything else they read.
- Trigonometric vertices: the LINES end points and the HEXAGONS corners are kept as centre, size and angle. The radial gradient object of GRADIENT is kept as its centre and radius.
- The p = ∞ option of beta-backup/App.jsx:435: no closure treats it specially. `Math.pow` with an infinite exponent gives ∞ or NaN, which exact reals cannot hold.
- Audio acquisition (`getUserMedia`, `AudioContext`, the analyser) is foreign I/O. The model takes the 128 frequency bytes each frame reads as input.
- Browser timing: `requestAnimationFrame`, `setTimeout`, `setInterval` and `performance.now()` become logical timestamps. Left out with them:
  - the frame that passes between the randomiser's run and the start of its 300 ms timer;
  - the order of a timer and a call due at the same instant;
  - React's batching of state updates;
  - stale closures; see the `Debounce.Invoke` line below.
- Debounce.Invoke: reads the loading flag as it is when the timer fires. The callback at src/App.jsx:1222 reads the `isLoading` captured by the callback that was current when the debounced function was called, so a call made while loading can be dropped even after the flag has cleared. The model does not show that drop, because React's closure capture is not modelled.
- Debounce.Invoke: the `catch` branch that clears `isLoading` after an error is left out. No statement of the modelled body can throw.
- Beta.FiringsCount: the interval's drift and its restart when playback resumes are not modelled. Each tick is exactly 50 ms after the previous one.
- Recording and export (MediaRecorder, the settings download) are I/O.
- The user interface is left out: the select controls, the custom colour pickers, fullscreen and mouse-hide timers, theme toggle, performance monitor, modals, and the React bootstrap in `src/main.jsx`.
- Colour-scheme `glow` strings are never read by the drawing code, so schemes keep only their name and two colours.
- IEEE-754 rounding: all arithmetic is on exact reals.
