# Video2Bas-Danmaku core, modelled in Dafny

Video2Bas turns a video into a BAS danmaku script: every frame is reduced to
a small palette by median-cut quantisation, split into one black-and-white
mask per palette colour, traced to SVG (outside this model), normalised to
`{color, pathdata}` pairs, and printed as one script block per non-black
layer, with the path flipped vertically for the danmaku canvas. Each frame's
script (all its blocks, one multi-line string) is then written, followed by a
newline, to numbered files of bounded size; a file ends only between frames.

The model covers that core as pure Dafny functions over immutable data:

- `Types`: the records of `type/types.go`, with images reduced to their
  bounds and their row-major pixels.
- `Quantize`: `calculateBoxRange` and `medianCutQuantize` (box selection, split
  channel, sort and median cut, in-place replacement, averaging).
- `VideoToColor`: the nearest-colour layering of `SplitColors` and
  `SplitColorsAuto`, and the three `SplitAllFrames*` drivers.
- `Batch`: the goroutine-per-item pattern the drivers share. The workers'
  interleaving is a parameter: a completion order.
- `Hex`: `hexToRGB` and `toHex`.
- `PathLexer`: the regular-expression tokenizer in front of `FlipSvgPath`.
- `PathFlip`: `FlipSvgPath` itself (`processGroup`, `getGroupSize`, the token
  loop and the final flush).
- `Script`: `GenerateBasText` and `GenerateAllBasTextWithParallel`.
- `SvgJson`: `ParseFrame`, `toHex` use and `ParseAllFrameWithParallel`.
- `Segments`: the file segmenter of `generateBasToFile`, which writes one
  frame's whole script per element and splits files only between frames.
- `Driver`: the `viewBox` reading of `generateBas`, and end-to-end facts.
- `Text`: the parts of Go's `strings` and `strconv` that are used
  (`Join`, `Split`, `Itoa`/`%d`, `Atoi`).

The failures of `FlipSvgPath` are modelled as error results. It loops forever
on parameters that arrive while no command with a positive group size is
current (before the first command, or after `Z`): that is `NeverEnds`. It
indexes past a short arc group and panics: that is `IndexPanic`. The script
generator fails exactly when one of those happens to a non-black layer. A
`viewBox` of more than four parts, which makes `generateBas` index past its
array and panic, gives `None`. One panic is not modelled as a result: the
quantiser's on a nil image. `SplitColorsAuto` and the `SplitAllFramesAuto`
drivers require an image instead (see "Left out").

Three behaviours of the code that are easy to miss, and that the model keeps:

- The progress callback of `SplitAllFramesAutoWithProgress` runs only for
  frames that split successfully, not for every completed frame.
- A run of two or more commas in path data is not skipped. `ParseFloat`
  fails on it and the error is ignored, so it becomes an extra parameter 0.
  `PathLexer.LexDoubleCommaExample` shows this.
- A leading relative `m` is mirrored as a relative move (`-y`). Section 8.3.2 of
  the SVG 1.1 specification reads it as absolute; `FlipSvgPath` does not.

## Model

| member | source | states |
|---|---|---|
| Hex.HexToRgb | video2color/tool.go:67-76 | Every channel is a byte. A string that is not six characters long after dropping one leading '#' decodes to black. Otherwise each pair is read on its own: its base-16 value when both characters are hex digits of either case, and 0 when either is not (the discarded `ParseUint` error). |
| Hex.HexToRgbIgnoresCase | video2color/tool.go:72-74 | Lower-casing a colour string does not change the colour it decodes to. |
| Hex.HexToRgbExamples | video2color/tool.go:67-76 | Worked cases: "#ff00a0" is (255, 0, 160); a pair "fg" reads as 0; "#fff" is black; in "##ff00a" only one '#' is dropped and the second makes its pair 0. |
| Hex.ToHex | svg2json/svg2json.go:61-63 | The output is exactly six characters, all upper-case hex digits. |
| Hex.HexToRgbOfToHex | svg2json/svg2json.go:61-63 | `hexToRGB` reads back the red, green and blue that `toHex` printed, with or without a leading '#'. |
| Hex.ToHexOfHexToRgb | video2color/tool.go:67-76 | Conversely, six upper-case hex digits decode to channels that `toHex` prints as the same six digits, whatever the alpha. |
| Hex.ToHexIsBlack | svg2json/svg2json.go:61-63 | `toHex` prints "000000" exactly for colours with zero red, green and blue, whatever the alpha. |
| Quantize.CalculateBoxRange | video2color/tool.go:81-110 | The pixels are untouched. An empty box keeps its bounds. Otherwise each bound is attained by some pixel and no pixel lies outside it: the true minimum and maximum of each channel. |
| Quantize.WidestBox | video2color/tool.go:140-154 | No box is chosen exactly when every box's spread is negative. Otherwise the chosen box has the greatest spread, and every earlier box a strictly smaller one: the first maximal box. |
| Quantize.SplitChannel | video2color/tool.go:157-168 | The chosen channel's range is at least every other channel's, and on a tie it is the earliest of R, G, B. |
| Quantize.SortOn | video2color/tool.go:171-180 | The result is sorted on the channel and is a permutation of the input. |
| Quantize.SplitBox | video2color/tool.go:171-188 | The halves hold `len/2` and the remaining pixels. Together they are the box's multiset of pixels. No first-half value on the split channel exceeds a second-half value, and both halves record exact bounds. |
| Quantize.ReplaceKeepsPixels | video2color/tool.go:190-196 | Replacing box `k` in place by two boxes that share its pixels keeps the multiset of all pixels. |
| Quantize.SplitAt | video2color/tool.go:156-196 | One round of the loop replaces box `k` in place: the boxes before it stay, its two halves take positions `k` and `k+1`, and the boxes after it move up by one. The collection keeps all pixels and every box's bounds stay exact. |
| Quantize.SplitLoop | video2color/tool.go:137-197 | The loop keeps the pixels and exact bounds. It ends with `min(colorCount, len(pixels))` boxes when it runs at all, otherwise with the boxes it started with. |
| Quantize.QuantizeBoxes | video2color/tool.go:129-197 | The final boxes partition the image's pixels. There is one box when the image is empty or `colorCount <= 1`, else `min(colorCount, len(pixels))`. |
| Quantize.MeanInRange | video2color/tool.go:201-215 | The truncating mean of a channel is a byte that lies between some pixel's value below and some pixel's value above, so the `uint8` conversion never wraps. |
| Quantize.BoxMean | video2color/tool.go:201-217 | A box colour is opaque, and each channel lies between the values of two of the box's pixels. |
| Quantize.Palette | video2color/tool.go:199-218 | There is one opaque colour per non-empty box; empty boxes contribute nothing. |
| Quantize.MedianCutQuantize | video2color/tool.go:113-221 | There are at most `max(colorCount, 1)` colours and at most one per pixel, no colours exactly for an image without pixels, and every colour is opaque. |
| Quantize.PaletteEntriesAreBoxMeans | video2color/tool.go:199-218 | Every palette entry is the mean of some non-empty box. |
| Quantize.MeanWithinBounds | video2color/tool.go:199-218 | A box mean lies within the box's recorded bounds. |
| Quantize.MedianCutPartition | video2color/tool.go:129-220 | The palette is the box means of a partition of the image's pixels: every pixel is in exactly one box, and every colour is the mean of a non-empty box within its bounds. |
| Quantize.UniformImage | video2color/tool.go:113-221 | An image of a single colour quantises to that colour only, opaque. |
| VideoToColor.WrapDiff | video2color/video2color.go:144-146 | `uint8` subtraction: the plain difference when it is non-negative, otherwise the difference plus 256. |
| VideoToColor.Distance | video2color/video2color.go:140-147 | Every distance is below the starting best, so the first palette entry is always taken. |
| VideoToColor.Nearest | video2color/video2color.go:141-152 | The chosen entry is at least as close as every entry and strictly closer than every earlier one (ties keep the first). |
| VideoToColor.NearestUnique | video2color/video2color.go:141-152 | Exactly one palette entry has that property, the one the search returns. |
| VideoToColor.SplitColors | video2color/video2color.go:111-159 | A nil image, then an empty palette, are the errors, in that order. Otherwise the frame number is kept and there is one layer per palette colour, in order, with the image's bounds, black exactly at the pixels whose nearest colour it is. |
| VideoToColor.MasksPartitionPixels | video2color/video2color.go:119-155 | Each pixel is black in the mask of its nearest colour and white in every other mask. |
| VideoToColor.SplitColorsAuto | video2color/video2color.go:105-108 | It fails, with an empty palette, exactly for an image without pixels. Otherwise there are 1 to `max(colorCount, 1)` opaque layers, no more than pixels; their colours are the median-cut palette of the image, in order, and they are the split of the image by those colours. |
| VideoToColor.UniformFrameSplit | video2color/video2color.go:105-159 | A frame of a single colour: every layer has that colour, the first mask is all black, any others all white. |
| VideoToColor.SplitAllFrames | video2color/video2color.go:162-201 | No frames, then an empty palette, are errors before any work. It succeeds exactly when every frame has an image; result `i` is then the split of frame `i`, whatever order the workers finish in. |
| VideoToColor.SplitAllFramesAuto | video2color/video2color.go:204-240 | No frames is an error. Otherwise it succeeds exactly when every frame has pixels, result `i` being `SplitColorsAuto` of frame `i`; the only other error is the empty palette. |
| VideoToColor.SplitAllFramesAutoWithProgress | video2color/video2color.go:243-281 | As `SplitAllFramesAuto`, and a given callback runs once per frame that split, never for a failed one. |
| Batch.RunBatch | video2color/video2color.go:173-200 | It succeeds exactly when every worker does, and then slot `i` holds item `i`'s result whatever the completion order. On failure the error is that of the first worker to fail in completion order. Progress counts the succeeding items. |
| Batch.RunAll | svg2json/svg2json.go:19-40 | With workers that cannot fail, slot `i` holds item `i`'s result whatever the completion order. |
| PathLexer.CommandsAreLetters | json2bas/json2bas.go:24-25 | Tokenizing keeps every command letter of the path, in order, and adds none. |
| PathLexer.TokensOfPath | json2bas/json2bas.go:24-25 | A path written as command letters, each followed (with or without a space) by space-separated numerals, tokenizes to exactly those letters and the numerals' values, in order. A numeral has an optional `-`, integer digits, and an optional point with fraction digits, at least one digit in all. |
| PathLexer.TokensExample | json2bas/json2bas.go:24-25 | "M10 20 L30 40" tokenizes to `M`, 10, 20, `L`, 30, 40. |
| PathLexer.SignedExample | json2bas/json2bas.go:24-25 | "l-1.5 .25" tokenizes to `l`, -1.5, 0.25: a sign and a fraction without integer digits are read. |
| PathLexer.LexCommaExample | json2bas/json2bas.go:80-84 | A single comma between parameters is dropped: "M1,2" gives `M`, 1, 2. |
| PathLexer.LexDoubleCommaExample | json2bas/json2bas.go:80-104 | A run of two commas becomes a parameter 0: "1,,2" gives 1, 0, 2. |
| PathFlip.FlipValuePeriodic | json2bas/json2bas.go:61-78 | Mirroring is periodic in the group size, so each group can be mirrored as if it were the first. |
| PathFlip.ProcessGroupFlips | json2bas/json2bas.go:31-59 | On a group no longer than the arity, `processGroup` panics exactly for an arc group shorter than 7; otherwise it mirrors the y coordinates (absolute: `h - v`, relative: `-v`) and keeps the rest. |
| PathFlip.GroupsFlip | json2bas/json2bas.go:87-96 | The grouping loop fails exactly for an arc run whose length is not a multiple of 7; otherwise its groups, read in order, are the mirrored run, none empty. |
| PathFlip.FlushFlips | json2bas/json2bas.go:106-117 | Flushing pending parameters succeeds exactly when the run can be grouped, and then prints the mirrored run. |
| PathFlip.ScanFlips | json2bas/json2bas.go:80-117 | The token loop succeeds exactly on flippable tokens; its output is the pending run mirrored, followed by every token mirrored on its own. |
| PathFlip.FlipSvgPath | json2bas/json2bas.go:19-120 | It finishes exactly when the path's tokens are flippable, and then prints every token mirrored on its own, in order, separated by single spaces. |
| PathFlip.FlipInvolution | json2bas/json2bas.go:36-56 | Mirroring a flippable token list twice gives it back, and the mirrored list is flippable too. |
| PathFlip.ReflectKeepsCommands | json2bas/json2bas.go:99-100 | Mirroring keeps the command letters and their order. |
| PathFlip.FlipPathExample | json2bas/json2bas.go:19-120 | From text to text: "M10 20 L30 40" in a view box of height 100 prints "M 10 80 L 30 60", each number through the float formatter. |
| PathFlip.FlipExamples | json2bas/json2bas.go:19-22 | Worked cases: absolute M and L and relative v in a view box of height 100, a short arc (panic), parameters with no command or after Z (never ends), and height 0 standing for 3620. |
| Script.Delays | json2bas/json2bas.go:160-176 | The four delays are, each as the floor of the exact value, the frame's start in milliseconds after `startTime`, 0, one frame's duration, and 0. |
| Script.LayerBlock | json2bas/json2bas.go:157-177 | A layer's block exists exactly when its path flips, and starts with a newline. |
| Script.GenerateBasText | json2bas/json2bas.go:149-181 | It finishes exactly when every non-black layer's path flips, and then prints nothing exactly when every layer is black. |
| Script.BlocksAppend | json2bas/json2bas.go:152-178 | The script of `a + b` is the script of `a` followed by that of `b`, failing with the first failure among them. |
| Script.SingleLayer | json2bas/json2bas.go:153-177 | A black layer adds nothing; any other adds exactly its block: name, flipped path, view box as given, colour and delays. |
| Script.BlockNameRoundTrip | json2bas/json2bas.go:159 | Splitting a block name at '_' gives the frame number, which `Atoi` reads back, and the colour. |
| Script.BlockNameInjective | json2bas/json2bas.go:159 | Different (frame, colour) pairs never share a block name. |
| Script.GenerateAllBasTextWithParallel | json2bas/json2bas.go:122-146 | Script `i` is the script of frame `i`, whatever order the workers finish in. It finishes exactly when every frame's script does. |
| SvgJson.ParseLayer | svg2json/svg2json.go:46-52 | The colour is six characters that `hexToRGB` reads back as the layer's colour, "000000" exactly for black. The path data is the extracted paths joined by single spaces: empty without paths, the path itself for one path. |
| SvgJson.PathDataSplits | svg2json/svg2json.go:47-50 | Splitting the path data at spaces gives back the extracted paths when none contains a space. |
| SvgJson.ParseFrame | svg2json/svg2json.go:43-59 | The frame number is kept, with one entry per layer, in layer order. |
| SvgJson.ParseAllFrameWithParallel | svg2json/svg2json.go:14-40 | Entry `i` is the parse of frame `i`, whatever order the workers finish in. |
| Segments.SplitIntoFiles | video2bas.go:17-45 | A "line" is one frame's whole script. The files hold the lines in order and are named `<out>_<n>.bas` from 0. There are no files exactly for no lines. No file is empty, a file of two or more lines stays within the limit, and every file's successor starts with a line that would have overflowed it. |
| Segments.GreedyIsUnique | video2bas.go:23-41 | Any two file splittings of the same lines that follow the filling rule put the same lines in the same files, so the contract above determines the output. |
| Segments.FileTextSize | video2bas.go:24-40 | The size the loop counts is the length of the text written: each frame's script plus one newline. |
| Segments.WriteOne | video2bas.go:23-41 | Writing one more line keeps the loop's invariant. |
| Driver.CanvasSize | video2bas.go:72-80 | The size is defined exactly when the view box has at most four space-separated parts. The width is 10 times the third part and the height 10 times the fourth; a part that `Atoi` rejects counts 0, and so does a missing part. Both sizes are multiples of 10. |
| Driver.CanvasSizeOfViewBox | video2bas.go:72-80 | A view box "x y w h" gives a canvas of `10w` by `10h`. |
| Driver.BlackFramesLeaveNoScript | json2bas/json2bas.go:152-156 | A parsed frame's script is empty exactly when every traced layer is black, and all-black frames always produce it. |
| Driver.BlockNameIdentifiesLayer | json2bas/json2bas.go:158-159 | The name of a layer's block reads back as its frame number and a colour that decodes to the layer's colour. |
| Text.AtoiIntToString | video2bas.go:76-77 | `Atoi` reads back every integer `%d` prints. |
| Text.SplitJoin | video2bas.go:74 | Splitting a join of separator-free parts gives the parts back. |

## Left out

- Video decoding (`ExtractFrames`, ffmpeg, `getTotalFrames`), SVG tracing (`color2svg`) and `svg.ParseSvg` are outside the core. The model takes their results as inputs.
- `extractPaths` (an XML decode of the `d` attributes) is a parameter of `SvgJson.ParseLayer`.
- Goroutines, the semaphore, the `WaitGroup` and the clamp of `parallel` to at least 1 are not modelled. Any interleaving is a completion order, so the bound has no effect on results.
- `GenerateAllBasText` and `ParseAllFrame` only fix the bound at 4. They are covered by the `WithParallel` members.
- `strconv.FormatFloat` is a parameter `fmt`. Numbers are exact reals: float64 rounding in `ParseFloat` and in the mirrored values is not modelled.
- The tokenizer's handling of `ParseFloat` overflow is not modelled; exponents are read exactly.
- Images are given as 8-bit pixels: the 16-bit `RGBA()` and the `>> 8` are not modelled.
- The squared distances of the nearest-colour search are exact integers, which is what float64 computes for sums of squares below 2^53.
- Script.Delays: it requires a non-zero frame rate, so the zero case is not stated. That case is reachable: `generateBas` passes the raw `-fps` value on (video2bas.go:80), and `ExtractFrames` clamps only its own copy (video2color/video2color.go:23-24). With `-fps 0` the delays divide by zero in float64, giving infinities and NaN, and Go leaves the `int` conversion of those implementation-defined. The delays are also floors of exact values, where Go floors a float64: at 10 frames per second, frame 323 starts at `float64(323)/10*1000.0` = 32299.999999999996, which Go prints as 32299ms and the model as 32300ms (95 of the first 20 000 frames differ this way). The block text of Script.SingleLayer inherits this difference.
- `SplitColorsAuto` and the two `SplitAllFramesAuto` drivers panic inside the quantiser on a nil image. The model requires an image instead.
- Text.Atoi: the 64-bit range check of `strconv.Atoi` is not modelled.
- String lengths count characters, not UTF-8 bytes. Colours, view boxes and path data are ASCII in the pipeline.
- `sort.Slice` is not stable. The model fixes one sorted permutation; the contracts of `SplitBox` state only what every sorted permutation gives.
- File creation, writing and `log.Fatal` in `generateBasToFile` are not modelled: the files are returned as data.
- `main`, the flags and the logging are not modelled.
- The call `SplitAllFramesAuto(frames, colorCount)` at `video2bas.go:55` passes two arguments to a three-argument function. The model uses the three-argument function.
- `LayerSVG` carries no colour in `type/types.go`, but `ParseFrame` reads one. The model gives each traced layer its colour.
- Segments.WriteOne: its contract states only that the loop invariant is kept. The meaning is in `SplitIntoFiles`.
- PathFlip.FlipExamples: it states concrete cases only. The general statements are in `ScanFlips` and `FlipSvgPath`.
