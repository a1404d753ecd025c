/**
 * The CSS side of the backdrop: a colour with an alpha rendered as an
 * rgba()/rgb() string, and the three-layer linear-gradient background built
 * from the first three quantised colours. Each rendering has a parser beside
 * it, and the round-trip lemmas show the strings carry exactly the colours,
 * angles and alphas they were built from.
 */
module Css {
  import opened Wrappers
  import opened Pixels
  import opened Strings

  /** An alpha value together with the text string concatenation renders it as. */
  datatype Alpha = Alpha(value: real, text: string)

  /** The two alphas each gradient layer runs between. */
  const START_ALPHA := Alpha(0.8, "0.8")
  const END_ALPHA := Alpha(0.0, "0")

  /** The alpha range for which the rgba() form is written. */
  predicate Translucent(a: Alpha) { 0.0 <= a.value < 1.0 }

  /** colorToStr: "" for a missing colour, rgba() inside [0, 1), rgb() otherwise. */
  function ColorToStr(color: Option<Pixel>, alpha: Alpha): (s: string)
    ensures color.None? <==> s == ""
    ensures color.Some? && Translucent(alpha) ==> |s| >= 6 && s[..5] == "rgba(" && s[|s| - 1] == ')'
    ensures color.Some? && !Translucent(alpha) ==> |s| >= 5 && s[..4] == "rgb(" && s[|s| - 1] == ')'
  {
    match color
    case None => ""
    case Some(c) =>
      if Translucent(alpha) then
        "rgba(" + IntToString(c.r) + "," + IntToString(c.g) + "," + IntToString(c.b) + "," + alpha.text + ")"
      else
        "rgb(" + IntToString(c.r) + "," + IntToString(c.g) + "," + IntToString(c.b) + ")"
  }

  /** What a colour string says: the three channels and, for rgba(), the alpha text. */
  datatype ParsedColor = ParsedColor(color: Pixel, alpha: Option<string>)

  function ParseRgb(r: string, g: string, b: string, alpha: Option<string>): Option<ParsedColor>
  {
    match (ParseInt(r), ParseInt(g), ParseInt(b))
    case (Some(x), Some(y), Some(z)) => Some(ParsedColor(Pixel(x, y, z), alpha))
    case _ => None
  }

  /** Reads an rgba(r,g,b,a) or rgb(r,g,b) string back. */
  function ParseColor(s: string): Option<ParsedColor>
  {
    if |s| >= 6 && s[..5] == "rgba(" && s[|s| - 1] == ')' then
      var f := Split(s[5..|s| - 1]);
      if |f| == 4 then ParseRgb(f[0], f[1], f[2], Some(f[3])) else None
    else if |s| >= 5 && s[..4] == "rgb(" && s[|s| - 1] == ')' then
      var f := Split(s[4..|s| - 1]);
      if |f| == 3 then ParseRgb(f[0], f[1], f[2], None) else None
    else None
  }

  /** The comma-separated fields inside the parentheses of a colour string. */
  function ColorFields(c: Pixel, alpha: Alpha): (f: seq<string>)
  {
    var rgb := [IntToString(c.r), IntToString(c.g), IntToString(c.b)];
    if Translucent(alpha) then rgb + [alpha.text] else rgb
  }

  lemma ColorStrFields(c: Pixel, alpha: Alpha)
    ensures Translucent(alpha) ==> ColorToStr(Some(c), alpha) == "rgba(" + Join(ColorFields(c, alpha)) + ")"
    ensures !Translucent(alpha) ==> ColorToStr(Some(c), alpha) == "rgb(" + Join(ColorFields(c, alpha)) + ")"
  {
    var r, g, b := IntToString(c.r), IntToString(c.g), IntToString(c.b);
    if Translucent(alpha) {
      assert ColorFields(c, alpha) == [r, g, b, alpha.text];
      Join4(r, g, b, alpha.text);
      assert "rgba(" + (r + "," + g + "," + b + "," + alpha.text) + ")"
          == "rgba(" + r + "," + g + "," + b + "," + alpha.text + ")";
    } else {
      Join3(r, g, b);
      assert "rgb(" + (r + "," + g + "," + b) + ")" == "rgb(" + r + "," + g + "," + b + ")";
    }
  }

  /**
   * A colour string gives back its colour exactly, and its alpha text exactly
   * when it is the rgba() form; an alpha outside [0, 1) leaves no trace.
   */
  lemma ColorRoundTrip(c: Pixel, alpha: Alpha)
    requires ',' !in alpha.text
    ensures ParseColor(ColorToStr(Some(c), alpha))
         == Some(ParsedColor(c, if Translucent(alpha) then Some(alpha.text) else None))
  {
    var r, g, b := IntToString(c.r), IntToString(c.g), IntToString(c.b);
    ColorStrFields(c, alpha);
    if Translucent(alpha) {
      assert ColorFields(c, alpha) == [r, g, b, alpha.text];
      ParseRgbaText(r, g, b, alpha.text);
    } else {
      assert ColorFields(c, alpha) == [r, g, b];
      ParseRgbText(r, g, b);
    }
    IntRoundTrip(c.r);
    IntRoundTrip(c.g);
    IntRoundTrip(c.b);
  }

  lemma ParseRgbaText(r: string, g: string, b: string, t: string)
    requires ',' !in r && ',' !in g && ',' !in b && ',' !in t
    ensures ParseColor("rgba(" + Join([r, g, b, t]) + ")") == ParseRgb(r, g, b, Some(t))
  {
    SplitJoin([r, g, b, t]);
    Framed("rgba(", Join([r, g, b, t]), ")");
  }

  lemma ParseRgbText(r: string, g: string, b: string)
    requires ',' !in r && ',' !in g && ',' !in b
    ensures ParseColor("rgb(" + Join([r, g, b]) + ")") == ParseRgb(r, g, b, None)
  {
    var s := "rgb(" + Join([r, g, b]) + ")";
    SplitJoin([r, g, b]);
    Framed("rgb(", Join([r, g, b]), ")");
    assert s[3] == '(';
  }

  /** Cutting p off the front and q off the end of p + x + q leaves x. */
  lemma Framed(p: string, x: string, q: string)
    ensures var s := p + x + q;
      |s| == |p| + |x| + |q| && s[..|p|] == p && s[|p|..|s| - |q|] == x && s[|s| - |q|..] == q
  {
  }

  /** One linear-gradient() layer: its angle in degrees and its colour. */
  datatype Layer = Layer(angle: int, color: Pixel)

  /** The text of one layer: the angle, then the colour at alpha 0.8 and at alpha 0 with a 70% stop. */
  function RenderLayer(layer: Layer): string
  {
    "linear-gradient(" + IntToString(layer.angle) + "deg," + ColorToStr(Some(layer.color), START_ALPHA) + ","
      + ColorToStr(Some(layer.color), END_ALPHA) + " 70%)"
  }

  /**
   * The background setupColors writes: nothing unless there are at least
   * three colours, otherwise three gradient layers joined by commas.
   */
  function SetupColors(colors: Option<seq<Pixel>>): (background: Option<string>)
    ensures background.Some? <==> colors.Some? && |colors.value| >= 3
  {
    if colors.Some? && |colors.value| >= 3 then
      var cs := colors.value;
      Some(RenderLayer(Layer(15, cs[0])) + "," + RenderLayer(Layer(255, cs[1])) + ","
        + RenderLayer(Layer(135, cs[2])))
    else None
  }

  /** The layers setupColors is meant to draw: angles 15, 255 and 135 over the first three colours. */
  function GradientLayers(cs: seq<Pixel>): (layers: seq<Layer>)
    requires |cs| >= 3
  {
    [Layer(15, cs[0]), Layer(255, cs[1]), Layer(135, cs[2])]
  }

  /** The nine comma-separated fields of one rendered layer. */
  function LayerFields(layer: Layer): (f: seq<string>)
  {
    var a := IntToString(layer.angle);
    var r, g, b := IntToString(layer.color.r), IntToString(layer.color.g), IntToString(layer.color.b);
    ["linear-gradient(" + a + "deg", "rgba(" + r, g, b, START_ALPHA.text + ")",
     "rgba(" + r, g, b, END_ALPHA.text + ") 70%)"]
  }

  /** Four fields joined read as one rgba() colour. */
  lemma RgbaText(r: string, g: string, b: string, t: string)
    ensures Join(["rgba(" + r, g, b, t + ")"]) == "rgba(" + r + "," + g + "," + b + "," + t + ")"
  {
    Join4("rgba(" + r, g, b, t + ")");
  }

  /** Nine fields joined read as one gradient layer. */
  lemma LayerText(a: string, r: string, g: string, b: string, s: string, e: string)
    ensures Join(["linear-gradient(" + a + "deg", "rgba(" + r, g, b, s + ")", "rgba(" + r, g, b, e + ") 70%)"])
         == "linear-gradient(" + a + "deg," + ("rgba(" + r + "," + g + "," + b + "," + s + ")") + ","
              + ("rgba(" + r + "," + g + "," + b + "," + e + ")") + " 70%)"
  {
    var head, start, end := ["linear-gradient(" + a + "deg"], ["rgba(" + r, g, b, s + ")"], ["rgba(" + r, g, b, e + ") 70%)"];
    assert head + start + end
        == ["linear-gradient(" + a + "deg", "rgba(" + r, g, b, s + ")", "rgba(" + r, g, b, e + ") 70%)"];
    JoinAppend(head, start);
    JoinAppend(head + start, end);
    RgbaText(r, g, b, s);
    StopText(r, g, b, e);
    assert Join(head) == "linear-gradient(" + a + "deg";
    HeadText(a, "rgba(" + r + "," + g + "," + b + "," + s + ")", "rgba(" + r + "," + g + "," + b + "," + e + ")");
  }

  /** The last four fields of a layer read as the end colour and its 70% stop. */
  lemma StopText(r: string, g: string, b: string, e: string)
    ensures Join(["rgba(" + r, g, b, e + ") 70%)"]) == "rgba(" + r + "," + g + "," + b + "," + e + ")" + " 70%)"
  {
    var x := "rgba(" + r + "," + g + "," + b + ",";
    assert (e + ") 70%") + ")" == e + ") 70%)";
    RgbaText(r, g, b, e + ") 70%");
    ConcatAssoc(x, e + ") 70%", ")");
    ConcatAssoc(x + e, ")", " 70%)");
    assert ") 70%" + ")" == ")" + " 70%)";
    ConcatAssoc(x, e, ") 70%");
  }

  lemma HeadText(a: string, start: string, end: string)
    ensures "linear-gradient(" + a + "deg" + "," + start + "," + (end + " 70%)")
         == "linear-gradient(" + a + "deg," + start + "," + end + " 70%)"
  {
    ConcatAssoc("linear-gradient(" + a, "deg", ",");
    ConcatAssoc("linear-gradient(" + a + "deg," + start + ",", end, " 70%)");
  }

  lemma LayerFieldsJoin(layer: Layer)
    ensures RenderLayer(layer) == Join(LayerFields(layer))
  {
    var a := IntToString(layer.angle);
    var r, g, b := IntToString(layer.color.r), IntToString(layer.color.g), IntToString(layer.color.b);
    LayerText(a, r, g, b, START_ALPHA.text, END_ALPHA.text);
  }

  lemma LayerFieldsNoComma(layer: Layer)
    ensures |LayerFields(layer)| == 9
    ensures forall i :: 0 <= i < 9 ==> ',' !in LayerFields(layer)[i]
  {
    var a := IntToString(layer.angle);
    var r, g, b := IntToString(layer.color.r), IntToString(layer.color.g), IntToString(layer.color.b);
    FieldsNoComma(a, r, g, b);
  }

  lemma FieldsNoComma(a: string, r: string, g: string, b: string)
    requires ',' !in a && ',' !in r && ',' !in g && ',' !in b
    ensures var f := ["linear-gradient(" + a + "deg", "rgba(" + r, g, b, START_ALPHA.text + ")",
                      "rgba(" + r, g, b, END_ALPHA.text + ") 70%)"];
      forall i :: 0 <= i < 9 ==> ',' !in f[i]
  {
  }

  /** Reads the nine fields of one layer back, checking both alphas and the stop. */
  function ParseLayer(f: seq<string>): Option<Layer>
    requires |f| == 9
  {
    var head, last := f[0], f[8];
    if |head| >= 19 && head[..16] == "linear-gradient(" && head[|head| - 3..] == "deg"
       && |last| >= 5 && last[|last| - 5..] == " 70%)"
    then
      var angle := ParseInt(head[16..|head| - 3]);
      var start := ParseColor(Join(f[1..5]));
      var end := ParseColor(Join(f[5..8] + [last[..|last| - 5]]));
      if angle.Some? && start.Some? && end.Some? && start.value.color == end.value.color
         && start.value.alpha == Some(START_ALPHA.text) && end.value.alpha == Some(END_ALPHA.text)
      then Some(Layer(angle.value, start.value.color))
      else None
    else None
  }

  /** Reads a background string back into its layers: exactly three, each well formed. */
  function ParseBackground(s: string): Option<seq<Layer>>
  {
    var f := Split(s);
    if |f| == 27 then
      match (ParseLayer(f[..9]), ParseLayer(f[9..18]), ParseLayer(f[18..]))
      case (Some(a), Some(b), Some(c)) => Some([a, b, c])
      case _ => None
    else None
  }

  /** The generic part of LayerRoundTrip: which fields ParseLayer sees and how it cuts them. */
  lemma LayerCuts(a: string, r: string, g: string, b: string, s: string, e: string)
    ensures var f := ["linear-gradient(" + a + "deg", "rgba(" + r, g, b, s + ")", "rgba(" + r, g, b, e + ") 70%)"];
      var head, last := f[0], f[8];
      && |head| >= 19 && head[..16] == "linear-gradient(" && head[|head| - 3..] == "deg"
      && head[16..|head| - 3] == a
      && |last| >= 5 && last[|last| - 5..] == " 70%)"
      && Join(f[1..5]) == "rgba(" + r + "," + g + "," + b + "," + s + ")"
      && Join(f[5..8] + [last[..|last| - 5]]) == "rgba(" + r + "," + g + "," + b + "," + e + ")"
  {
    var f := ["linear-gradient(" + a + "deg", "rgba(" + r, g, b, s + ")", "rgba(" + r, g, b, e + ") 70%)"];
    HeadCut(a);
    StopCut(e);
    MiddleCuts(f, r, g, b, s, e + ") 70%)");
    assert f[5..8] + [e + ")"] == ["rgba(" + r, g, b, e + ")"];
    RgbaText(r, g, b, s);
    RgbaText(r, g, b, e);
  }

  lemma HeadCut(a: string)
    ensures var head := "linear-gradient(" + a + "deg";
      |head| >= 19 && head[..16] == "linear-gradient(" && head[|head| - 3..] == "deg" && head[16..|head| - 3] == a
  {
  }

  lemma StopCut(e: string)
    ensures var last := e + ") 70%)";
      |last| >= 5 && last[|last| - 5..] == " 70%)" && last[..|last| - 5] == e + ")"
  {
  }

  lemma MiddleCuts(f: seq<string>, r: string, g: string, b: string, s: string, last: string)
    requires |f| == 9 && f[1..] == ["rgba(" + r, g, b, s + ")", "rgba(" + r, g, b, last]
    ensures f[1..5] == ["rgba(" + r, g, b, s + ")"] && f[5..8] == ["rgba(" + r, g, b] && f[8] == last
  {
    assert f[1..5] == f[1..][..4];
    assert f[5..8] == f[1..][4..7];
    assert f[8] == f[1..][7];
  }

  /** A rendered layer reads back as the same angle and colour. */
  lemma LayerRoundTrip(layer: Layer)
    ensures ParseLayer(LayerFields(layer)) == Some(layer)
  {
    var a := IntToString(layer.angle);
    var r, g, b := IntToString(layer.color.r), IntToString(layer.color.g), IntToString(layer.color.b);
    LayerCuts(a, r, g, b, START_ALPHA.text, END_ALPHA.text);
    IntRoundTrip(layer.angle);
    ColorRoundTrip(layer.color, START_ALPHA);
    ColorRoundTrip(layer.color, END_ALPHA);
  }

  /** Three nine-field groups joined by commas split back into the same groups. */
  lemma SplitThree(f0: seq<string>, f1: seq<string>, f2: seq<string>)
    requires |f0| == 9 && |f1| == 9 && |f2| == 9
    requires forall i :: 0 <= i < 9 ==> ',' !in f0[i] && ',' !in f1[i] && ',' !in f2[i]
    ensures var f := Split(Join(f0) + "," + Join(f1) + "," + Join(f2));
      |f| == 27 && f[..9] == f0 && f[9..18] == f1 && f[18..] == f2
  {
    var all := f0 + f1 + f2;
    JoinAppend(f0, f1);
    JoinAppend(f0 + f1, f2);
    assert forall i :: 0 <= i < 27 ==> ',' !in all[i] by {
      forall i | 0 <= i < 27 ensures ',' !in all[i] {
        if i < 9 { assert all[i] == f0[i]; }
        else if i < 18 { assert all[i] == f1[i - 9]; }
        else { assert all[i] == f2[i - 18]; }
      }
    }
    SplitJoin(all);
    assert all[..9] == f0 && all[9..18] == f1 && all[18..] == f2;
  }

  /**
   * Whenever setupColors writes a background, the string holds exactly three
   * layers: angles 15, 255 and 135 over colours[0], colours[1] and colours[2],
   * each running from alpha 0.8 to alpha 0 at 70%.
   */
  lemma SetupColorsLayers(colors: Option<seq<Pixel>>)
    requires colors.Some? && |colors.value| >= 3
    ensures ParseBackground(SetupColors(colors).value) == Some(GradientLayers(colors.value))
  {
    var layers := GradientLayers(colors.value);
    var f0, f1, f2 := LayerFields(layers[0]), LayerFields(layers[1]), LayerFields(layers[2]);
    LayerFieldsJoin(layers[0]);
    LayerFieldsJoin(layers[1]);
    LayerFieldsJoin(layers[2]);
    LayerFieldsNoComma(layers[0]);
    LayerFieldsNoComma(layers[1]);
    LayerFieldsNoComma(layers[2]);
    SplitThree(f0, f1, f2);
    LayerRoundTrip(layers[0]);
    LayerRoundTrip(layers[1]);
    LayerRoundTrip(layers[2]);
  }
}
