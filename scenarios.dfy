/**
 * Scenarios: concrete inputs run through the median-cut specification,
 * pinning down a small black-and-white example and the effect of
 * the dropped median on a tiny image.
 */
module Scenarios {
  import opened Wrappers
  import opened Pixels
  import opened Ordering
  import opened Quantizer

  const BLACK := Pixel(0, 0, 0)
  const WHITE := Pixel(255, 255, 255)
  /** Two black and two white pixels, alternating, each with alpha 255. */
  const DATA: seq<int> := [0, 0, 0, 255, 255, 255, 255, 255, 0, 0, 0, 255, 255, 255, 255, 255]

  lemma ExamplePixels()
    ensures PixelsOf(DATA) == [BLACK, WHITE, BLACK, WHITE]
  {
    var p := PixelsOf(DATA);
    assert p[0] == BLACK && p[1] == WHITE && p[2] == BLACK && p[3] == WHITE;
  }

  lemma ExampleWidest()
    ensures WidestChannel([BLACK, WHITE, BLACK, WHITE]) == 0
  {
    var s := [BLACK, WHITE, BLACK, WHITE];
    forall c: ChannelIndex ensures Range(s, c) == 255 {
      ChannelBounds(s, c);
      assert Channel(s[0], c) == 0 && Channel(s[1], c) == 255;
    }
  }

  lemma ExampleSort()
    ensures SortBy([BLACK, WHITE, BLACK, WHITE], ByChannel(0)) == [BLACK, BLACK, WHITE, WHITE]
  {
    var k := ByChannel(0);
    assert SortBy([BLACK], k) == [BLACK];
    assert [BLACK, WHITE][..1] == [BLACK];
    assert SortBy([BLACK, WHITE], k) == [BLACK, WHITE];
    assert [BLACK, WHITE, BLACK][..2] == [BLACK, WHITE];
    assert Insert([BLACK], BLACK, k) == [BLACK, BLACK];
    assert SortBy([BLACK, WHITE, BLACK], k) == [BLACK, BLACK, WHITE];
    assert [BLACK, WHITE, BLACK, WHITE][..3] == [BLACK, WHITE, BLACK];
  }

  lemma ExampleCut()
    ensures MedianCut([BLACK, WHITE, BLACK, WHITE], 0, 1) == [BLACK, WHITE]
  {
    ExampleWidest();
    ExampleSort();
    var sorted := [BLACK, BLACK, WHITE, WHITE];
    assert sorted[..2] == [BLACK, BLACK] && sorted[3..] == [WHITE];
    assert Halves(sorted) == ([BLACK, BLACK], [WHITE]);
    AverageUniform([BLACK, BLACK], BLACK);
    AverageUniform([WHITE], WHITE);
  }

  /**
   * All three ranges tie at 255, so red is chosen; sorted on red the bucket is
   * black, black, white, white; the median (index 2) is dropped and the halves
   * average to black and white, already in luminance order.
   */
  lemma BlackWhiteExample()
    ensures Colors(ImageData(Some(DATA)), 1) == [BLACK, WHITE]
  {
    ExampleQuantized();
    ColorsFrom(ImageData(Some(DATA)), 1, [BLACK, WHITE]);
    SortTwo(BLACK, WHITE);
  }

  /** Colors is the luminance sort of whatever the quantiser produced. */
  lemma ColorsFrom(image: ImageData, depth: int, q: seq<Pixel>)
    requires WellFormedImage(Some(image)) && Quantized(image, depth) == q
    ensures Colors(image, depth) == SortBy(q, ByLuminance)
  {
  }

  /** Two colours already in luminance order stay as they are. */
  lemma SortTwo(p: Pixel, q: Pixel)
    requires LuminanceKey(p) <= LuminanceKey(q)
    ensures SortBy([p, q], ByLuminance) == [p, q]
  {
    assert [p, q][..1] == [p];
  }

  lemma ExampleQuantized()
    ensures Quantized(ImageData(Some(DATA)), 1) == [BLACK, WHITE]
  {
    ExamplePixels();
    ExampleCut();
  }

  /** A one-pixel image of any colour at depth 1 yields two blacks. */
  lemma TinyImageColors(data: seq<int>)
    requires |data| == 4
    ensures Colors(ImageData(Some(data)), 1) == [BLACK, BLACK]
  {
    OnePixelQuantized(data);
    ColorsFrom(ImageData(Some(data)), 1, [BLACK, BLACK]);
    SortTwo(BLACK, BLACK);
  }

  /** So a one-pixel image of a non-black colour never yields its own colour. */
  lemma TinyImageLosesItsColour(data: seq<int>)
    requires |data| == 4 && Pixel(data[0], data[1], data[2]) != BLACK
    ensures Pixel(data[0], data[1], data[2]) !in Colors(ImageData(Some(data)), 1)
  {
    TinyImageColors(data);
  }

  lemma OnePixelQuantized(data: seq<int>)
    requires |data| == 4
    ensures Quantized(ImageData(Some(data)), 1) == [BLACK, BLACK]
  {
    OnePixel(data);
    SinglePixelSplitIsBlack(Pixel(data[0], data[1], data[2]));
  }

  lemma OnePixel(data: seq<int>)
    requires |data| == 4
    ensures PixelsOf(data) == [Pixel(data[0], data[1], data[2])]
  {
    var p := PixelsOf(data);
    assert |p| == 1 && p[0] == Pixel(data[0], data[1], data[2]);
  }
}
