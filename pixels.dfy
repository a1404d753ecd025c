/**
 * Pixels: the colour triples of BackdropTools and the per-channel helpers
 * (`minValue`, `maxValue`, `minPixel`, `maxPixel`, `addPixel`) that fold
 * over them.
 */
module Pixels {
  const MIN_RGB_VALUE: int := 0
  const MAX_RGB_VALUE: int := 255

  /** A colour `[r, g, b]`: a pixel of a palette or an entry of the quantised result. */
  datatype Pixel = Pixel(r: int, g: int, b: int)

  /** An index into a pixel: 0 is red, 1 is green, 2 is blue. */
  type ChannelIndex = c: int | 0 <= c < 3

  function Channel(p: Pixel, c: ChannelIndex): int {
    if c == 0 then p.r else if c == 1 then p.g else p.b
  }

  /** Every channel is an 8-bit intensity. */
  predicate ValidPixel(p: Pixel) {
    && MIN_RGB_VALUE <= p.r <= MAX_RGB_VALUE
    && MIN_RGB_VALUE <= p.g <= MAX_RGB_VALUE
    && MIN_RGB_VALUE <= p.b <= MAX_RGB_VALUE
  }

  predicate AllValid(s: seq<Pixel>) {
    forall i :: 0 <= i < |s| ==> ValidPixel(s[i])
  }

  /** `minValue`: the smaller of the running minimum and a new value. */
  function MinValue(min: int, value: int): (r: int)
    ensures r <= min && r <= value
    ensures r == min || r == value
  {
    if value < min then value else min
  }

  /** `maxValue`: the larger of the running maximum and a new value. */
  function MaxValue(max: int, value: int): (r: int)
    ensures r >= max && r >= value
    ensures r == max || r == value
  {
    if value > max then value else max
  }

  /** `minPixel`: lowers each channel of the three-slot array `min` to the pixel's channel where smaller. */
  method MinPixel(min: array<int>, pixel: Pixel)
    requires min.Length == 3
    modifies min
    ensures min[..] == [MinValue(old(min[0]), pixel.r), MinValue(old(min[1]), pixel.g), MinValue(old(min[2]), pixel.b)]
  {
    min[0] := MinValue(min[0], pixel.r);
    min[1] := MinValue(min[1], pixel.g);
    min[2] := MinValue(min[2], pixel.b);
  }

  /** `maxPixel`: raises each channel of the three-slot array `max` to the pixel's channel where larger. */
  method MaxPixel(max: array<int>, pixel: Pixel)
    requires max.Length == 3
    modifies max
    ensures max[..] == [MaxValue(old(max[0]), pixel.r), MaxValue(old(max[1]), pixel.g), MaxValue(old(max[2]), pixel.b)]
  {
    max[0] := MaxValue(max[0], pixel.r);
    max[1] := MaxValue(max[1], pixel.g);
    max[2] := MaxValue(max[2], pixel.b);
  }

  /** `addPixel`: adds the pixel channel-wise into the three-slot accumulator `average`. */
  method AddPixel(average: array<int>, pixel: Pixel)
    requires average.Length == 3
    modifies average
    ensures average[..] == [old(average[0]) + pixel.r, old(average[1]) + pixel.g, old(average[2]) + pixel.b]
  {
    average[0] := average[0] + pixel.r;
    average[1] := average[1] + pixel.g;
    average[2] := average[2] + pixel.b;
  }
}
