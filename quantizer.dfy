/**
 * Quantizer: the median-cut colour extraction of BackdropTools
 * (`getPalette`, `getMaxRangeIndex`, `quantize`, `getColors`).
 *
 * `MedianCut` is the value-level specification of `quantize`; the methods
 * follow the source's loops and in-place updates and are proved to compute
 * exactly what the specification functions describe, whose properties
 * (colour count, channel bounds, behaviour on uniform and on tiny inputs)
 * are proved as lemmas.
 */
module Quantizer {
  import opened Wrappers
  import opened Pixels
  import opened Ordering

  /** The `ImageData` a canvas returns; `data` is its flat RGBA byte buffer. */
  datatype ImageData = ImageData(data: Option<seq<int>>)

  /** A buffer holds whole RGBA groups, as every canvas buffer does. */
  predicate WellFormedImage(imageData: Option<ImageData>) {
    imageData.Some? && imageData.value.data.Some? ==> |imageData.value.data.value| % 4 == 0
  }

  predicate ValidBytes(data: seq<int>) {
    forall i :: 0 <= i < |data| ==> MIN_RGB_VALUE <= data[i] <= MAX_RGB_VALUE
  }

  /** The pixels of an RGBA buffer in raster order: R, G and B of each group of four, alpha skipped. */
  function PixelsOf(data: seq<int>): (s: seq<Pixel>)
    requires |data| % 4 == 0
    ensures |s| == |data| / 4
    ensures forall k :: 0 <= k < |s| ==> s[k] == Pixel(data[4 * k], data[4 * k + 1], data[4 * k + 2])
    ensures ValidBytes(data) ==> AllValid(s)
    decreases |data|
  {
    if data == [] then []
    else
      var rest := data[4..];
      assert forall k :: 0 <= k < |rest| ==> rest[k] == data[k + 4];
      [Pixel(data[0], data[1], data[2])] + PixelsOf(rest)
  }

  /** `getPalette`: one pixel per RGBA group, or `null` when there is no buffer or it is empty. */
  method GetPalette(imageData: Option<ImageData>) returns (palette: Option<seq<Pixel>>)
    requires WellFormedImage(imageData)
    ensures palette.None? <==> imageData.None? || imageData.value.data.None? || |imageData.value.data.value| == 0
    ensures palette.Some? ==> palette.value == PixelsOf(imageData.value.data.value)
  {
    if imageData.Some? && imageData.value.data.Some? && |imageData.value.data.value| > 0 {
      var data := imageData.value.data.value;
      var pixels: seq<Pixel> := [];
      var i := 0;
      while i < |data|
        invariant 0 <= i <= |data| && i % 4 == 0
        invariant |pixels| == i / 4
        invariant forall k :: 0 <= k < |pixels| ==> pixels[k] == Pixel(data[4 * k], data[4 * k + 1], data[4 * k + 2])
      {
        pixels := pixels + [Pixel(data[i], data[i + 1], data[i + 2])];
        i := i + 4;
      }
      palette := Some(pixels);
    } else {
      palette := None;
    }
  }

  /** The channel's running minimum over the pixels, starting from 255 as `getMaxRangeIndex` does. */
  function ChannelMin(s: seq<Pixel>, c: ChannelIndex): int {
    if s == [] then MAX_RGB_VALUE else MinValue(ChannelMin(s[..|s| - 1], c), Channel(s[|s| - 1], c))
  }

  /** The channel's running maximum over the pixels, starting from 0 as `getMaxRangeIndex` does. */
  function ChannelMax(s: seq<Pixel>, c: ChannelIndex): int {
    if s == [] then MIN_RGB_VALUE else MaxValue(ChannelMax(s[..|s| - 1], c), Channel(s[|s| - 1], c))
  }

  /**
   * The folds compute the bounds: the minimum is at most 255 and at most
   * every pixel's channel, and is 255 or one of them; dually for the maximum.
   */
  lemma {:induction false} ChannelBounds(s: seq<Pixel>, c: ChannelIndex)
    ensures ChannelMin(s, c) <= MAX_RGB_VALUE
    ensures forall i :: 0 <= i < |s| ==> ChannelMin(s, c) <= Channel(s[i], c)
    ensures ChannelMin(s, c) == MAX_RGB_VALUE || exists i :: 0 <= i < |s| && ChannelMin(s, c) == Channel(s[i], c)
    ensures ChannelMax(s, c) >= MIN_RGB_VALUE
    ensures forall i :: 0 <= i < |s| ==> ChannelMax(s, c) >= Channel(s[i], c)
    ensures ChannelMax(s, c) == MIN_RGB_VALUE || exists i :: 0 <= i < |s| && ChannelMax(s, c) == Channel(s[i], c)
  {
    if s != [] {
      var s' := s[..|s| - 1];
      ChannelBounds(s', c);
      assert forall i :: 0 <= i < |s'| ==> s'[i] == s[i];
    }
  }

  /** The spread of one channel; -255 for an empty palette. */
  function Range(s: seq<Pixel>, c: ChannelIndex): int {
    ChannelMax(s, c) - ChannelMin(s, c)
  }

  /** The channel with the widest range; on a tie the lowest index (red, then green, then blue) wins. */
  function WidestChannel(s: seq<Pixel>): (w: ChannelIndex)
    ensures forall c: ChannelIndex :: Range(s, c) <= Range(s, w)
    ensures forall c: ChannelIndex :: c < w ==> Range(s, c) < Range(s, w)
  {
    if Range(s, 0) >= Range(s, 1) then (if Range(s, 0) >= Range(s, 2) then 0 else 2)
    else if Range(s, 1) >= Range(s, 2) then 1 else 2
  }

  /** Extending the prefix by one pixel folds that pixel into every channel's minimum and maximum. */
  lemma BoundsStep(s: seq<Pixel>, i: nat)
    requires i < |s|
    ensures forall c: ChannelIndex :: ChannelMin(s[..i + 1], c) == MinValue(ChannelMin(s[..i], c), Channel(s[i], c))
    ensures forall c: ChannelIndex :: ChannelMax(s[..i + 1], c) == MaxValue(ChannelMax(s[..i], c), Channel(s[i], c))
  {
    assert s[..i + 1][..i] == s[..i];
  }

  /**
   * `getMaxRangeIndex`: -1 for a `null` palette, otherwise the widest channel;
   * an empty palette leaves every range at -255 and so gives red.
   */
  method GetMaxRangeIndex(palette: Option<seq<Pixel>>) returns (index: int)
    ensures palette.None? ==> index == -1
    ensures palette.Some? ==> index == WidestChannel(palette.value)
    ensures palette == Some([]) ==> index == 0
  {
    if palette.None? {
      return -1;
    }
    var s := palette.value;
    var min := new int[3](_ => MAX_RGB_VALUE);
    var max := new int[3](_ => MIN_RGB_VALUE);
    for i := 0 to |s|
      invariant min[..] == [ChannelMin(s[..i], 0), ChannelMin(s[..i], 1), ChannelMin(s[..i], 2)]
      invariant max[..] == [ChannelMax(s[..i], 0), ChannelMax(s[..i], 1), ChannelMax(s[..i], 2)]
    {
      BoundsStep(s, i);
      MinPixel(min, s[i]);
      MaxPixel(max, s[i]);
    }
    assert s[..|s|] == s;
    var ranges := Pixel(max[0] - min[0], max[1] - min[1], max[2] - min[2]);
    if ranges.r >= ranges.g {
      index := if ranges.r >= ranges.b then 0 else 2;
    } else {
      index := if ranges.g >= ranges.b then 1 else 2;
    }
  }

  /**
   * JavaScript's `~~(a / n)`: the quotient truncated toward zero, and 0 when
   * `n` is 0 (`0 / 0` is NaN, which truncates to 0).
   */
  function TruncDiv(a: int, n: nat): (q: int)
    ensures n == 0 ==> q == 0
    ensures n > 0 && a >= 0 ==> q * n <= a < (q + 1) * n
    ensures n > 0 && a < 0 ==> (q - 1) * n < a <= q * n
  {
    if n == 0 then 0 else if a >= 0 then a / n else -((-a) / n)
  }

  function ChannelSum(s: seq<Pixel>, c: ChannelIndex): int {
    if s == [] then 0 else ChannelSum(s[..|s| - 1], c) + Channel(s[|s| - 1], c)
  }

  /** The colour a leaf bucket emits: the truncated channel-wise mean; black for an empty bucket. */
  function Average(s: seq<Pixel>): (p: Pixel)
    ensures s == [] ==> p == Pixel(0, 0, 0)
  {
    Pixel(TruncDiv(ChannelSum(s, 0), |s|), TruncDiv(ChannelSum(s, 1), |s|), TruncDiv(ChannelSum(s, 2), |s|))
  }

  /** The leaf loop of `quantize`: accumulates the channel sums with `addPixel`, then divides. */
  method AveragePixel(palette: array<Pixel>) returns (p: Pixel)
    ensures p == Average(palette[..])
  {
    var length := palette.Length;
    var average := new int[3](_ => 0);
    for i := 0 to length
      invariant average[..] == [ChannelSum(palette[..i], 0), ChannelSum(palette[..i], 1), ChannelSum(palette[..i], 2)]
    {
      assert palette[..i + 1][..i] == palette[..i];
      AddPixel(average, palette[i]);
    }
    assert palette[..length] == palette[..];
    p := Pixel(TruncDiv(average[0], length), TruncDiv(average[1], length), TruncDiv(average[2], length));
  }

  /**
   * The split of a sorted bucket at `half = floor(n / 2)`: indices `[0, half)`
   * and `(half, n)`; the median at `half` goes to neither side.
   */
  function Halves(s: seq<Pixel>): (h: (seq<Pixel>, seq<Pixel>))
    ensures |h.0| == |s| / 2
    ensures |h.1| == if s == [] then 0 else |s| - |s| / 2 - 1
    ensures s != [] ==> s == h.0 + [s[|s| / 2]] + h.1
  {
    var half := |s| / 2;
    (s[..half], if half + 1 <= |s| then s[half + 1..] else [])
  }

  /** What `quantize(result, palette, depth, maxDepth)` appends to `result`. */
  function MedianCut(s: seq<Pixel>, depth: int, maxDepth: int): seq<Pixel>
    decreases maxDepth - depth
  {
    if depth >= maxDepth then [Average(s)]
    else
      var halves := Halves(SortBy(s, ByChannel(WidestChannel(s))));
      MedianCut(halves.0, depth + 1, maxDepth) + MedianCut(halves.1, depth + 1, maxDepth)
  }

  function Pow2(n: nat): (p: nat)
    ensures p >= 1
  {
    if n == 0 then 1 else 2 * Pow2(n - 1)
  }

  /** The number of levels still to split: zero at or below a leaf. */
  function Levels(depth: int, maxDepth: int): nat {
    if depth >= maxDepth then 0 else maxDepth - depth
  }

  /** Median cut emits exactly 2^levels colours, one per leaf bucket, empty buckets included. */
  lemma {:induction false} MedianCutCount(s: seq<Pixel>, depth: int, maxDepth: int)
    ensures |MedianCut(s, depth, maxDepth)| == Pow2(Levels(depth, maxDepth))
    decreases maxDepth - depth
  {
    if depth < maxDepth {
      var halves := Halves(SortBy(s, ByChannel(WidestChannel(s))));
      assert MedianCut(s, depth, maxDepth)
          == MedianCut(halves.0, depth + 1, maxDepth) + MedianCut(halves.1, depth + 1, maxDepth);
      MedianCutCount(halves.0, depth + 1, maxDepth);
      MedianCutCount(halves.1, depth + 1, maxDepth);
      assert Levels(depth, maxDepth) == Levels(depth + 1, maxDepth) + 1;
    }
  }

  /** Sum bounds from per-pixel bounds. */
  lemma {:induction false} ChannelSumBetween(s: seq<Pixel>, c: ChannelIndex, lo: int, hi: int)
    requires forall i :: 0 <= i < |s| ==> lo <= Channel(s[i], c) <= hi
    ensures |s| * lo <= ChannelSum(s, c) <= |s| * hi
  {
    if s != [] {
      var s' := s[..|s| - 1];
      assert forall i :: 0 <= i < |s'| ==> s'[i] == s[i];
      ChannelSumBetween(s', c, lo, hi);
      assert |s| * lo == |s'| * lo + lo && |s| * hi == |s'| * hi + hi;
    }
  }

  /** Cancelling a positive factor: `n * a < (b + 1) * n` gives `a <= b`. */
  lemma DivBounds(n: nat, b: int, a: int)
    requires n > 0 && n * a < (b + 1) * n
    ensures a <= b
  {
  }

  /** A truncated quotient of a sum lying between `n * lo` and `n * hi` lies between `lo` and `hi`. */
  lemma QuotientBetween(sum: int, n: nat, lo: int, hi: int)
    requires n > 0 && sum >= 0 && n * lo <= sum <= n * hi
    ensures lo <= TruncDiv(sum, n) <= hi
  {
    var q := TruncDiv(sum, n);
    assert n * lo <= sum < (q + 1) * n;
    DivBounds(n, q, lo);
    assert n * q <= sum <= n * hi;
    DivBounds(n, hi, q);
  }

  /** A non-empty bucket of valid pixels averages, per channel, to a value between the channel's minimum and maximum. */
  lemma AverageChannelBounds(s: seq<Pixel>, c: ChannelIndex)
    requires AllValid(s) && s != []
    ensures ChannelMin(s, c) <= Channel(Average(s), c) <= ChannelMax(s, c)
    ensures MIN_RGB_VALUE <= Channel(Average(s), c) <= MAX_RGB_VALUE
  {
    var lo, hi := ChannelMin(s, c), ChannelMax(s, c);
    ChannelBounds(s, c);
    ChannelSumBetween(s, c, lo, hi);
    ChannelSumBetween(s, c, MIN_RGB_VALUE, MAX_RGB_VALUE);
    assert Channel(Average(s), c) == TruncDiv(ChannelSum(s, c), |s|);
    QuotientBetween(ChannelSum(s, c), |s|, lo, hi);
    QuotientBetween(ChannelSum(s, c), |s|, MIN_RGB_VALUE, MAX_RGB_VALUE);
  }

  /** Every colour a bucket emits is a valid colour: its mean, or black when it is empty. */
  lemma AverageValid(s: seq<Pixel>)
    requires AllValid(s)
    ensures ValidPixel(Average(s))
  {
    if s != [] {
      AverageChannelBounds(s, 0);
      AverageChannelBounds(s, 1);
      AverageChannelBounds(s, 2);
    }
  }

  /** The parts of a split are made of the bucket's own pixels. */
  lemma HalvesMembers(s: seq<Pixel>)
    ensures forall i :: 0 <= i < |Halves(s).0| ==> Halves(s).0[i] in s
    ensures forall i :: 0 <= i < |Halves(s).1| ==> Halves(s).1[i] in s
  {
    var h := Halves(s);
    if s != [] {
      forall i | 0 <= i < |h.0| ensures h.0[i] in s { assert h.0[i] == s[i]; }
      forall i | 0 <= i < |h.1| ensures h.1[i] in s { assert h.1[i] == s[|s| / 2 + 1 + i]; }
    }
  }

  /** Median cut of valid pixels emits only valid colours. */
  lemma {:induction false} MedianCutValid(s: seq<Pixel>, depth: int, maxDepth: int)
    requires AllValid(s)
    ensures AllValid(MedianCut(s, depth, maxDepth))
    decreases maxDepth - depth
  {
    if depth >= maxDepth {
      AverageValid(s);
    } else {
      var sorted := SortBy(s, ByChannel(WidestChannel(s)));
      SortByMembers(s, ByChannel(WidestChannel(s)));
      HalvesMembers(sorted);
      var halves := Halves(sorted);
      MedianCutValid(halves.0, depth + 1, maxDepth);
      MedianCutValid(halves.1, depth + 1, maxDepth);
    }
  }

  lemma {:induction false} ChannelSumUniform(s: seq<Pixel>, c: ChannelIndex, color: Pixel)
    requires forall i :: 0 <= i < |s| ==> s[i] == color
    ensures ChannelSum(s, c) == |s| * Channel(color, c)
  {
    if s != [] {
      var s' := s[..|s| - 1];
      assert forall i :: 0 <= i < |s'| ==> s'[i] == s[i];
      ChannelSumUniform(s', c, color);
    }
  }

  lemma AverageUniformChannel(s: seq<Pixel>, color: Pixel, c: ChannelIndex)
    requires ValidPixel(color) && s != []
    requires forall i :: 0 <= i < |s| ==> s[i] == color
    ensures TruncDiv(ChannelSum(s, c), |s|) == Channel(color, c)
  {
    ChannelSumUniform(s, c, color);
    QuotientBetween(|s| * Channel(color, c), |s|, Channel(color, c), Channel(color, c));
  }

  /** A non-empty bucket of one colour averages to that colour. */
  lemma AverageUniform(s: seq<Pixel>, color: Pixel)
    requires ValidPixel(color) && s != []
    requires forall i :: 0 <= i < |s| ==> s[i] == color
    ensures Average(s) == color
  {
    AverageUniformChannel(s, color, 0);
    AverageUniformChannel(s, color, 1);
    AverageUniformChannel(s, color, 2);
  }

  /**
   * An image of one colour yields only that colour, provided the buckets
   * never run empty: a bucket of n pixels splits into parts of at least
   * floor((n - 1) / 2), so n + 1 >= 2^(levels + 1) pixels are enough.
   */
  lemma {:induction false} MedianCutUniform(s: seq<Pixel>, depth: int, maxDepth: int, color: Pixel)
    requires ValidPixel(color)
    requires forall i :: 0 <= i < |s| ==> s[i] == color
    requires |s| + 1 >= Pow2(Levels(depth, maxDepth) + 1)
    ensures forall i :: 0 <= i < |MedianCut(s, depth, maxDepth)| ==> MedianCut(s, depth, maxDepth)[i] == color
    decreases maxDepth - depth
  {
    if depth >= maxDepth {
      AverageUniform(s, color);
    } else {
      var sorted := SortBy(s, ByChannel(WidestChannel(s)));
      SortByMembers(s, ByChannel(WidestChannel(s)));
      HalvesMembers(sorted);
      var halves := Halves(sorted);
      var p := Pow2(Levels(depth + 1, maxDepth));
      assert Pow2(Levels(depth, maxDepth) + 1) == 2 * Pow2(Levels(depth, maxDepth));
      assert Pow2(Levels(depth, maxDepth)) == 2 * p;
      assert |halves.0| + 1 >= p && |halves.1| + 1 >= p;
      assert Levels(depth + 1, maxDepth) + 1 == Levels(depth, maxDepth);
      MedianCutUniform(halves.0, depth + 1, maxDepth, color);
      MedianCutUniform(halves.1, depth + 1, maxDepth, color);
    }
  }

  /**
   * Without that size condition the emitted colours need not be the image's:
   * a one-pixel image split once loses its only pixel as the median, and both
   * empty halves come out black.
   */
  lemma SinglePixelSplitIsBlack(p: Pixel)
    ensures MedianCut([p], 0, 1) == [Pixel(0, 0, 0), Pixel(0, 0, 0)]
  {
    var sorted := SortBy([p], ByChannel(WidestChannel([p])));
    assert |sorted| == 1;
    assert Halves(sorted) == ([], []);
  }

  /** Unfolds one split of `MedianCut` for a bucket and its sorted copy. */
  lemma MedianCutSplit(s: seq<Pixel>, sorted: seq<Pixel>, depth: int, maxDepth: int)
    requires depth < maxDepth && sorted == SortBy(s, ByChannel(WidestChannel(s)))
    ensures MedianCut(s, depth, maxDepth)
         == MedianCut(Halves(sorted).0, depth + 1, maxDepth) + MedianCut(Halves(sorted).1, depth + 1, maxDepth)
  {
  }

  /** The array `result` of `quantize`, to which colours are only ever appended. */
  class ColorList {
    var colors: seq<Pixel>

    constructor ()
      ensures colors == []
    {
      colors := [];
    }

    /** `pushPixel`: appends one colour. */
    method PushPixel(p: Pixel)
      modifies this
      ensures colors == old(colors) + [p]
    {
      colors := colors + [p];
    }
  }

  /** The two sides of a split as the slices `quantize` takes. */
  lemma HalvesAsSlices(s: seq<Pixel>, half: nat, lo: nat)
    requires half == |s| / 2 && lo == if half + 1 <= |s| then half + 1 else |s|
    ensures Halves(s).0 == s[0..half] && Halves(s).1 == s[lo..|s|]
  {
  }

  /** `palette.slice(lo, hi)`: a fresh array holding a copy of a run of pixels. */
  method Slice(s: seq<Pixel>, lo: nat, hi: nat) returns (a: array<Pixel>)
    requires lo <= hi <= |s|
    ensures fresh(a) && a[..] == s[lo..hi]
  {
    a := new Pixel[hi - lo](i requires 0 <= i < hi - lo => s[lo + i]);
  }

  /**
   * `quantize`: at a leaf, appends the bucket's average; otherwise sorts the
   * bucket in place on its widest channel and recurses on the two sides of
   * the median. Exactly `MedianCut` of the bucket is appended and nothing
   * already in `result` changes.
   */
  method Quantize(result: ColorList, palette: array<Pixel>, currentDepth: int, maxDepth: int)
    modifies result, palette
    ensures result.colors == old(result.colors) + MedianCut(old(palette[..]), currentDepth, maxDepth)
    ensures palette[..] == if currentDepth >= maxDepth then old(palette[..])
                           else SortBy(old(palette[..]), ByChannel(WidestChannel(old(palette[..]))))
    decreases maxDepth - currentDepth
  {
    var length := palette.Length;
    if currentDepth >= maxDepth {
      var average := AveragePixel(palette);
      result.PushPixel(average);
    } else {
      ghost var s, before := palette[..], result.colors;
      var half := length / 2;
      var index := GetMaxRangeIndex(Some(palette[..]));
      OrderPaletteByIndex(palette, index);
      var sorted := palette[..];
      ghost var halves := Halves(sorted);
      var lo := if half + 1 <= length then half + 1 else length;
      HalvesAsSlices(sorted, half, lo);
      MedianCutSplit(s, sorted, currentDepth, maxDepth);
      ghost var cut0, cut1 := MedianCut(halves.0, currentDepth + 1, maxDepth), MedianCut(halves.1, currentDepth + 1, maxDepth);
      var left := Slice(sorted, 0, half);
      assert left[..] == halves.0;
      Quantize(result, left, currentDepth + 1, maxDepth);
      assert result.colors == before + cut0;
      var right := Slice(sorted, lo, length);
      assert right[..] == halves.1;
      Quantize(result, right, currentDepth + 1, maxDepth);
      assert result.colors == (before + cut0) + cut1;
      ConcatAssoc(before, cut0, cut1);
    }
  }

  /** The colours `quantize` produces for an image from depth 0. */
  function Quantized(image: ImageData, depth: int): (q: seq<Pixel>)
    requires WellFormedImage(Some(image))
    ensures |q| == if image.data.None? || |image.data.value| == 0 then 0 else Pow2(Levels(0, depth))
  {
    match image.data
    case None => []
    case Some(data) =>
      if |data| == 0 then []
      else
        MedianCutCount(PixelsOf(data), 0, depth);
        MedianCut(PixelsOf(data), 0, depth)
  }

  /** What `getColors` returns for an image: the quantised colours ordered by luminance. */
  function Colors(image: ImageData, depth: int): (colors: seq<Pixel>)
    requires WellFormedImage(Some(image))
    ensures |colors| == |Quantized(image, depth)|
  {
    SortBy(Quantized(image, depth), ByLuminance)
  }

  /**
   * `getColors` yields 2^depth colours (one for depth 0 or below) for a
   * non-empty buffer and none otherwise, sorted by luminance, a permutation
   * of the quantised colours, and valid colours when the bytes are.
   */
  lemma ColorsProperties(image: ImageData, depth: int)
    requires WellFormedImage(Some(image))
    ensures SortedBy(Colors(image, depth), ByLuminance)
    ensures multiset(Colors(image, depth)) == multiset(Quantized(image, depth))
    ensures |Colors(image, depth)| == if image.data.None? || |image.data.value| == 0 then 0 else Pow2(Levels(0, depth))
    ensures image.data.Some? && ValidBytes(image.data.value) ==> AllValid(Colors(image, depth))
  {
    var q := Quantized(image, depth);
    SortBySorted(q, ByLuminance);
    SortByPermutes(q, ByLuminance);
    SortByMembers(q, ByLuminance);
    if image.data.Some? && |image.data.value| > 0 {
      MedianCutCount(PixelsOf(image.data.value), 0, depth);
      if ValidBytes(image.data.value) {
        MedianCutValid(PixelsOf(image.data.value), 0, depth);
      }
    }
  }

  /**
   * An image of one colour, large enough that no bucket runs empty, yields
   * only that colour from `getColors`.
   */
  lemma ColorsUniform(image: ImageData, depth: int, color: Pixel)
    requires WellFormedImage(Some(image)) && image.data.Some? && ValidPixel(color)
    requires var s := PixelsOf(image.data.value);
      (forall i :: 0 <= i < |s| ==> s[i] == color) && |s| + 1 >= Pow2(Levels(0, depth) + 1)
    ensures forall i :: 0 <= i < |Colors(image, depth)| ==> Colors(image, depth)[i] == color
  {
    var s := PixelsOf(image.data.value);
    var q := Quantized(image, depth);
    MedianCutUniform(s, 0, depth, color);
    SortByMembers(q, ByLuminance);
  }

  /** At depth 0 the single colour is the truncated mean of all pixels. */
  lemma DepthZeroIsMean(image: ImageData)
    requires WellFormedImage(Some(image))
    requires image.data.Some? && |image.data.value| > 0
    ensures Colors(image, 0) == [Average(PixelsOf(image.data.value))]
  {
    assert SortBy([Average(PixelsOf(image.data.value))], ByLuminance) == [Average(PixelsOf(image.data.value))];
  }

  /**
   * `getColors`: `null` for `null` image data; otherwise a fresh result list
   * filled by `quantize` from depth 0 (left empty when `getPalette` gives
   * `null`), then sorted in place by luminance.
   */
  method GetColors(imageData: Option<ImageData>, depth: int) returns (colors: Option<seq<Pixel>>)
    requires WellFormedImage(imageData)
    ensures colors.None? <==> imageData.None?
    ensures colors.Some? ==> colors.value == Colors(imageData.value, depth)
  {
    if imageData.None? {
      return None;
    }
    var result := new ColorList();
    var palette := GetPalette(imageData);
    if palette.Some? {
      var pixels := Slice(palette.value, 0, |palette.value|);
      assert pixels[..] == palette.value;
      Quantize(result, pixels, 0, depth);
      assert result.colors == [] + MedianCut(palette.value, 0, depth);
    }
    assert result.colors == Quantized(imageData.value, depth);
    var ordered := Slice(result.colors, 0, |result.colors|);
    assert ordered[..] == result.colors;
    OrderPaletteByLuminance(ordered);
    colors := Some(ordered[..]);
  }
}
