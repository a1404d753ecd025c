# BackdropTools colour extraction, modelled in Dafny

This project models the colour engine of the Backdrop interaction plugin
(`BackdropTools` in `backdrop.js`). The engine is used like this:

1. A downscaled RGBA image buffer comes in.
2. It is turned into a palette of `[r, g, b]` pixels (`getPalette`).
3. The palette is reduced by median cut (`quantize`):
   - at each level, the bucket is sorted in place on the channel with the widest range (`getMaxRangeIndex`, `orderPaletteByIndex`);
   - it is split around its median;
   - each leaf bucket contributes its truncated mean colour.
4. The resulting colours are ordered by BT.709 luma (`calculateLuminance`, `orderPaletteByLuminance`, `getColors`).
5. The first three colours become a three-layer CSS `linear-gradient` background (`colorToStr`, `setupColors`).

Modules:

- `Wrappers`: `Option`. A JavaScript `null` argument or result is `None`.
- `Pixels`: the pixel type and the helpers `minValue`, `maxValue`, `minPixel`, `maxPixel` and `addPixel`. The three helpers that update a three-slot array in place are methods over `array<int>`.
- `Ordering`: both in-place sorts.
  - JavaScript's `Array.prototype.sort` is stable, and both comparators are key differences. Any stable sort therefore yields one determined order.
  - That order is specified by the stable insertion sort `SortBy` on sequences. It is proved sorted, a permutation and stable.
  - The in-place method `StableSort` is proved to leave exactly `SortBy` of the old contents in the array.
  - The luminance key is the integer `2126 R + 7152 G + 722 B`. It is proved to be 10000 times the real-valued luma, so it orders pixels exactly as the luma does.
- `Quantizer`: `getPalette`, `getMaxRangeIndex`, `quantize` and `getColors`.
  - Each is a method that follows the source's loops and in-place updates.
  - Each is proved equal to a value-level specification: `PixelsOf`, `WidestChannel`, `MedianCut` and `Colors`.
  - Those specifications carry the lemmas: the colour count, channel bounds, uniform images, and what happens to tiny images.
  - The shared `result` array of `quantize` is the class `ColorList`, whose only operation is an append.
- `Strings`: decimal rendering of integers and comma-separated fields, each with the parser that undoes it.
- `Css`: `colorToStr` and the background string of `setupColors`.
  - Each has a parser partner.
  - The round-trip lemmas show that the string carries exactly the colours, angles and alphas it was built from.
- `Scenarios`: concrete inputs through the specification.
  - A small black-and-white example yields black then white.
  - A one-pixel image at depth 1 loses its colour: its only pixel is the dropped median, and both empty halves come out black.

Edge behaviour of the code that the model keeps:

- An empty leaf bucket emits `(0, 0, 0)`. `~~(0 / 0)` is `0`, and there is no guard.
- An empty palette makes `getMaxRangeIndex` return 0 (red). All three ranges are -255, and the first comparison wins.
- `getColors` of image data whose buffer is missing or empty returns an empty list, not `null`. `quantize` ignores a `null` palette, so `result` stays `[]`.
- The median element of every split is dropped. The halves are `[0, floor(n/2))` and `(floor(n/2), n)`.

## Model

| member | source | states |
|---|---|---|
| `Pixels.MinValue` | backdrop.js:18-20 | the result is at most both arguments and is one of them |
| `Pixels.MaxValue` | backdrop.js:21-23 | the result is at least both arguments and is one of them |
| `Pixels.MinPixel` | backdrop.js:35-41 | each of the three slots becomes the smaller of its old value and the pixel's channel; the array holds exactly those three values |
| `Pixels.MaxPixel` | backdrop.js:42-48 | each of the three slots becomes the larger of its old value and the pixel's channel |
| `Pixels.AddPixel` | backdrop.js:49-55 | each slot of the accumulator grows by the pixel's channel and nothing else changes |
| `Quantizer.ColorList.constructor` | backdrop.js:126 | the result list starts empty |
| `Quantizer.ColorList.PushPixel` | backdrop.js:30-34 | exactly one colour is appended and every earlier entry is kept |
| `Quantizer.PixelsOf` | backdrop.js:56-66 | one pixel per 4-byte group, in raster order: pixel k is bytes 4k, 4k+1 and 4k+2, the alpha byte is skipped, and valid bytes give valid pixels |
| `Quantizer.GetPalette` | backdrop.js:56-66 | absent exactly when the image, its buffer, or the buffer's contents are missing; otherwise exactly the raster-order pixels of the buffer |
| `Quantizer.ChannelMin` | backdrop.js:70-75 | the running minimum of one channel, folded from 255 with `minPixel`; what it computes (at most 255 and every pixel's channel, and 255 or one of them) is `ChannelBounds` |
| `Quantizer.ChannelMax` | backdrop.js:70-75 | the running maximum of one channel, folded from 0 with `maxPixel`; what it computes (at least 0 and every pixel's channel, and 0 or one of them) is `ChannelBounds` |
| `Quantizer.ChannelBounds` | backdrop.js:67-75 | the min fold (from 255) is at most every pixel's channel and is 255 or one of them; the max fold (from 0) is dual |
| `Quantizer.WidestChannel` | backdrop.js:76-80 | the chosen channel's range is the largest, and every lower-numbered channel's range is strictly smaller, so ties go to red, then green |
| `Quantizer.GetMaxRangeIndex` | backdrop.js:67-83 | -1 for a null palette; otherwise the channel with the largest max-minus-min range, ties going to the lower index; 0 for an empty palette |
| `Ordering.Luminance` | backdrop.js:86 | BT.709 luma 0.2126 R + 0.7152 G + 0.0722 B over the reals; its exact integer form is `LuminanceKey`, and `LuminanceKeyOrder` shows the two order pixels alike |
| `Ordering.LuminanceKey` | backdrop.js:84-87 | the integer key is exactly 10000 times the BT.709 luma 0.2126 R + 0.7152 G + 0.0722 B |
| `Ordering.LuminanceKeyOrder` | backdrop.js:84-87 | comparing keys orders two pixels exactly as comparing their luma does, in both directions |
| `Ordering.SortByPermutes` | backdrop.js:88-101 | sorting keeps the same multiset of pixels |
| `Ordering.SortBySorted` | backdrop.js:88-101 | the sorted sequence is non-decreasing in the key |
| `Ordering.SortByStable` | backdrop.js:88-101 | the pixels sharing any one key value keep their relative order |
| `Ordering.SortByMembers` | backdrop.js:88-101 | the sort keeps the length and only yields pixels of its input |
| `Ordering.InsertInPlace` | backdrop.js:88-101 | one insertion pass moves the new element behind every element with key at most its own, shifts the larger ones right by one, and touches nothing beyond it |
| `Ordering.StableSort` | backdrop.js:88-101 | the array ends holding exactly the stable key-order sort of its old contents |
| `Ordering.OrderPaletteByIndex` | backdrop.js:88-94 | the palette ends stably sorted by the chosen channel |
| `Ordering.OrderPaletteByLuminance` | backdrop.js:95-101 | the palette ends stably sorted by luminance |
| `Quantizer.TruncDiv` | backdrop.js:110 | `~~(a / n)`: 0 when n is 0, the floor of a/n for a >= 0 and its ceiling for a < 0 |
| `Quantizer.Average` | backdrop.js:105-110 | an empty leaf bucket emits black |
| `Quantizer.AveragePixel` | backdrop.js:106-110 | the leaf loop's accumulated sums divided by the length give exactly the bucket's truncated mean colour |
| `Quantizer.AverageChannelBounds` | backdrop.js:105-110 | a non-empty bucket's mean lies between the channel's minimum and maximum in the bucket, and within [0, 255] |
| `Quantizer.AverageValid` | backdrop.js:105-110 | the emitted colour of a bucket of valid pixels is valid, empty buckets included |
| `Quantizer.AverageUniform` | backdrop.js:105-110 | a non-empty bucket of one colour emits that colour |
| `Quantizer.Halves` | backdrop.js:112-115 | the two sides have floor(n/2) and n - floor(n/2) - 1 pixels, and the bucket is the left side, the median, then the right side |
| `Quantizer.HalvesMembers` | backdrop.js:112-115 | both sides consist of pixels of the bucket |
| `Quantizer.MedianCut` | backdrop.js:102-118 | the colours `quantize` appends: at a leaf the bucket's truncated mean, otherwise the colours of the two halves of the bucket sorted on its widest channel, left first; count, validity and uniform images are `MedianCutCount`, `MedianCutValid` and `MedianCutUniform`, and `Quantize` is proved to append exactly these colours |
| `Quantizer.MedianCutCount` | backdrop.js:102-118 | quantizing from depth d to m appends exactly 2^(m-d) colours, and 1 when d >= m |
| `Quantizer.MedianCutValid` | backdrop.js:102-118 | valid pixels only ever yield valid colours |
| `Quantizer.MedianCutUniform` | backdrop.js:102-118 | an image of one colour yields only that colour when it has at least 2^(levels+1) - 1 pixels, so no bucket runs empty |
| `Quantizer.SinglePixelSplitIsBlack` | backdrop.js:112-115 | one pixel split once yields two blacks: the pixel is the dropped median |
| `Quantizer.Slice` | backdrop.js:114-115 | a fresh array holding a copy of the requested range |
| `Quantizer.Quantize` | backdrop.js:102-118 | appends exactly the median-cut colours of the old bucket to the result and keeps every earlier entry; a split leaves the bucket sorted by its widest channel, a leaf leaves it untouched |
| `Quantizer.Quantized` | backdrop.js:126-127 | the colours `quantize` leaves in `result` from depth 0: none for a missing or empty buffer, otherwise exactly 2^depth (one for depth <= 0) |
| `Quantizer.Colors` | backdrop.js:119-132 | what `getColors` returns: the quantised colours sorted by luma, as many as were quantised (sortedness, permutation and validity are `ColorsProperties`) |
| `Quantizer.ColorsProperties` | backdrop.js:119-132 | the colours are sorted by luma and are a permutation of the quantised colours; there are 2^depth of them (one for depth <= 0), none for a missing or empty buffer, and all are valid when the bytes are |
| `Quantizer.ColorsUniform` | backdrop.js:119-132 | an image of one colour with enough pixels that no bucket runs empty gets only that colour back from `getColors` |
| `Quantizer.DepthZeroIsMean` | backdrop.js:119-132 | at depth 0 the only colour is the truncated mean of the whole image |
| `Quantizer.GetColors` | backdrop.js:119-132 | null exactly for null image data; otherwise the luma-sorted median-cut colours of the image |
| `Scenarios.BlackWhiteExample` | backdrop.js:102-132 | two black and two white pixels at depth 1 give black, then white |
| `Scenarios.TinyImageColors` | backdrop.js:102-132 | any one-pixel image at depth 1 gives two blacks |
| `Scenarios.TinyImageLosesItsColour` | backdrop.js:102-132 | a one-pixel non-black image at depth 1 never yields its own colour |
| `Strings.IntToString` | backdrop.js:136-137 | how concatenation renders an integer channel: non-empty, no comma or parenthesis, all digits exactly for non-negative values (its inverse is `IntRoundTrip`) |
| `Strings.IntRoundTrip` | backdrop.js:135-137 | every integer concatenated into a string reads back as itself |
| `Css.ColorToStr` | backdrop.js:133-140 | "" exactly for a null colour; the rgba( form exactly when 0 <= alpha < 1, the rgb( form otherwise, always closed by ")" |
| `Css.ColorRoundTrip` | backdrop.js:133-140 | a colour string reads back as the same three channels, and the alpha text only in the rgba form |
| `Css.RenderLayer` | backdrop.js:144-146 | one gradient layer: the angle, then the colour at alpha 0.8 and at alpha 0 with a 70% stop; `LayerRoundTrip` and `SetupColorsLayers` read those back exactly |
| `Css.SetupColors` | backdrop.js:141-150 | a background is written exactly when there are at least three colours |
| `Css.SetupColorsLayers` | backdrop.js:141-150 | the background reads back as exactly three layers: angles 15, 255 and 135 over colours 0, 1 and 2, each from alpha 0.8 to alpha 0 at 70% |

## Left out

- `getImageData`: canvas creation, drawing and pixel reads are browser I/O, together with its hidden canvas singleton. The buffer is an input. `setupImage` only chains it into `getColors` and `setupColors`.
- `hasImageSource`, `isImageLoaded`, `loadImage`: jQuery and URL glue with asynchronous callbacks.
- `BackdropHandler` and the setup block: DOM fade-in/fade-out and event wiring.
- `container.css(...)`: `Css.SetupColors` returns the background string instead of writing it. A `null` container is not modelled.
- `null` pixels and `null` arrays handed to `minPixel`, `maxPixel`, `addPixel`, `pushPixel`, and a `null` `result` handed to `quantize`: the engine never passes them, and Dafny's pixels and arrays cannot be null. `null` is modelled where the engine can produce it: image data, buffer, palette and colour. The `null` palette that `getPalette` gives `quantize` for a missing or empty buffer is modelled in `GetColors`, which then leaves `result` empty as `quantize` does.
- `calculateLuminance(null)` returning -1: the luminance of a missing pixel is never taken.
- Ordering.LuminanceKey: floating-point luma and the comparator's floating-point subtraction are not modelled. The exact integer key orders pixels as the real luma does. IEEE rounding could only reorder pixels whose luma differs by less than a rounding error.
- Quantizer.TruncDiv: `~~` also wraps its quotient to 32 bits. This is not modelled: for byte channels the quotient is a mean of values in [0, 255], so it lies in [0, 255] whatever the image size, and the wrap never changes it.
- Quantizer.GetPalette: requires a buffer whose length is a multiple of 4, as every canvas buffer is. A ragged tail, which would read `undefined`, is not modelled.
- Css.ColorToStr: the alpha is an opaque number with the text it renders as. JavaScript's number-to-string conversion of reals is not modelled.
- Strings.IntRoundTrip: exponent notation, which JavaScript uses from 10^21 up, is not modelled. Channel values are bytes.
