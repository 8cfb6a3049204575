/** The `<card-img>` element (js-components/card-img.js): a framed top
    section whose background is a solid colour, a gradient or a tiled
    pattern, with an optional image (optionally ringed by a radial overlay)
    and an optional tint layer, above an optional text section holding a
    title and a tag. */
module CardImgComponent {
  import opened Dom
  import opened JsText

  const DefaultColor := "FFD600"
  const DefaultPatternSize := "auto"

  /** The attributes whose changes the platform reports to the element. */
  const ObservedAttributes: seq<string> :=
    ["img", "title", "tag", "color", "radial", "gradient", "pattern", "pattern-size", "tint"]

  // ---------------------------------------------------------------------
  // Attribute derivations

  /** The values `render()` reads with `getAttribute`, null when absent. */
  datatype CardAttrs = CardAttrs(
    img: Option<string>, title: Option<string>, tag: Option<string>,
    color: Option<string>, radial: Option<string>, gradient: Option<string>,
    pattern: Option<string>, patternSize: Option<string>, tint: Option<string>)

  function ReadAttributes(attrs: Attributes): CardAttrs
  {
    CardAttrs(
      GetAttribute(attrs, "img"), GetAttribute(attrs, "title"), GetAttribute(attrs, "tag"),
      GetAttribute(attrs, "color"), GetAttribute(attrs, "radial"), GetAttribute(attrs, "gradient"),
      GetAttribute(attrs, "pattern"), GetAttribute(attrs, "pattern-size"), GetAttribute(attrs, "tint"))
  }

  /** Only the observed attributes are read. */
  lemma ReadsObservedOnly(attrs: Attributes, name: string, value: Option<string>)
    requires name !in ObservedAttributes
    ensures ReadAttributes(WithAttribute(attrs, name, value)) == ReadAttributes(attrs)
  {
  }

  /** `getAttribute("color") || "FFD600"`. */
  function BackgroundColor(a: CardAttrs): (r: string)
    ensures !Truthy(a.color) ==> r == DefaultColor
    ensures Truthy(a.color) ==> r == a.color.value
  {
    OrElse(a.color, DefaultColor)
  }

  /** `getAttribute("pattern-size") || "auto"`. */
  function PatternSize(a: CardAttrs): (r: string)
    ensures !Truthy(a.patternSize) ==> r == DefaultPatternSize
    ensures Truthy(a.patternSize) ==> r == a.patternSize.value
  {
    OrElse(a.patternSize, DefaultPatternSize)
  }

  /** A title or a tag that is neither missing nor empty. */
  predicate HasTextSection(a: CardAttrs)
    ensures HasTextSection(a) <==> |TextItems(a)| >= 1
  {
    Truthy(a.title) || Truthy(a.tag)
  }

  /** The channels of the radial colour, as `parseInt(…, 16)` reads them. */
  datatype Rgb = Rgb(r: JsNumber, g: JsNumber, b: JsNumber)

  /** `radialRgb`: the three character pairs of the radial colour, read in
      base 16, when the colour has at least six characters; null otherwise. */
  function RadialRgb(radial: Option<string>): (r: Option<Rgb>)
    ensures r.Some? <==> radial.Some? && |radial.value| >= 6
  {
    if Truthy(radial) && |radial.value| >= 6 then
      var c := radial.value;
      Some(Rgb(ParseIntHex(c[0..2]), ParseIntHex(c[2..4]), ParseIntHex(c[4..6])))
    else None
  }

  /** Each channel is its character pair as `PairValue` reads it, for every
      colour of six or more characters, hex or not. */
  lemma RadialRgbReading(c: string)
    requires |c| >= 6
    ensures RadialRgb(Some(c)) == Some(Rgb(PairValue(c[0..2]), PairValue(c[2..4]), PairValue(c[4..6])))
  {
    ParseIntHexPair(c[0..2]);
    ParseIntHexPair(c[2..4]);
    ParseIntHexPair(c[4..6]);
  }

  /** Six hex digits give the three bytes they spell (each in 0..255). */
  lemma RadialRgbOfHex(c: string)
    requires |c| >= 6 && forall i :: 0 <= i < 6 ==> IsHexDigit(c[i])
    ensures RadialRgb(Some(c)) ==
      Some(Rgb(Num(HexByte(c[0], c[1])), Num(HexByte(c[2], c[3])), Num(HexByte(c[4], c[5]))))
  {
    var r, g, b := c[0..2], c[2..4], c[4..6];
    assert r[0] == c[0] && r[1] == c[1];
    assert g[0] == c[2] && g[1] == c[3];
    assert b[0] == c[4] && b[1] == c[5];
    HexPairValue(r);
    HexPairValue(g);
    HexPairValue(b);
  }

  /** Characters after the sixth do not change the radial colour. */
  lemma RadialRgbIgnoresTail(c: string, tail: string)
    requires |c| >= 6
    ensures RadialRgb(Some(c + tail)) == RadialRgb(Some(c))
  {
    var s := c + tail;
    assert s[0..2] == c[0..2] && s[2..4] == c[2..4] && s[4..6] == c[4..6];
  }

  /** The stops of `gradient.split(",")`: `colors[0]` and
      `colors[1] || colors[0]`. */
  function GradientStops(gradient: string): (stops: (string, string))
    ensures stops.0 == Split(gradient, ',')[0]
    ensures var colors := Split(gradient, ',');
      stops.1 == if |colors| >= 2 && colors[1] != "" then colors[1] else stops.0
  {
    var colors := Split(gradient, ',');
    var second := if |colors| >= 2 && colors[1] != "" then colors[1] else colors[0];
    (colors[0], second)
  }

  /** A single colour gives two equal stops. */
  lemma GradientSingleColor(c: string)
    requires ',' !in c
    ensures GradientStops(c) == (c, c)
  {
    SplitWithoutSeparator(c, ',');
  }

  /** `"a,b"` gives the stops a and b; an empty b falls back to a. */
  lemma GradientPair(a: string, b: string)
    requires ',' !in a && ',' !in b
    ensures GradientStops(a + "," + b) == (a, if b == "" then a else b)
  {
    SplitAtSeparator(a, ',', b);
    SplitWithoutSeparator(b, ',');
  }

  /** Entries after the second do not change the stops. */
  lemma GradientIgnoresExtra(a: string, b: string, rest: string)
    requires ',' !in a && ',' !in b
    ensures GradientStops(a + "," + b + "," + rest) == GradientStops(a + "," + b)
  {
    GradientPair(a, b);
    SplitAtSeparator(a, ',', b + "," + rest);
    assert a + "," + b + "," + rest == a + [','] + (b + "," + rest);
    SplitAtSeparator(b, ',', rest);
    assert b + "," + rest == b + [','] + rest;
  }

  /** A tile size that already says "px" or "%" somewhere, or is "auto". */
  predicate HasUnit(size: string)
  {
    Includes(size, "px") || Includes(size, "%") || size == "auto"
  }

  /** `patternSizeValue`: the size itself when it has a unit, else size + "px". */
  function NormalizePatternSize(size: string): (r: string)
    ensures HasUnit(r)
    ensures r == size || r == size + "px"
    ensures r == size <==> HasUnit(size)
  {
    if HasUnit(size) then size
    else
      IncludesAppended(size, "px");
      size + "px"
  }

  /** Normalising twice is normalising once. */
  lemma NormalizePatternSizeIdempotent(size: string)
    ensures NormalizePatternSize(NormalizePatternSize(size)) == NormalizePatternSize(size)
  {
  }

  // ---------------------------------------------------------------------
  // Background of the top section

  /** The four backgrounds the top section can get; `bottom` and `top` are
      the gradient's stops, `tileSize` the normalised pattern size. */
  datatype Background =
    | Solid(color: string)
    | Gradient(bottom: string, top: string)
    | PatternOverSolid(color: string, pattern: string, tileSize: string)
    | PatternOverGradient(pattern: string, tileSize: string, bottom: string, top: string)

  /** Precedence: a pattern is laid over whatever lies below; a gradient
      replaces the solid colour; the solid colour is the fallback. */
  function ChooseBackground(color: string, gradient: Option<string>, pattern: Option<string>, patternSize: string): (b: Background)
    ensures Truthy(pattern) <==> b.PatternOverSolid? || b.PatternOverGradient?
    ensures Truthy(gradient) <==> b.Gradient? || b.PatternOverGradient?
    ensures b.Solid? || b.PatternOverSolid? ==> b.color == color
    ensures b.Gradient? || b.PatternOverGradient? ==> (b.bottom, b.top) == GradientStops(gradient.value)
    ensures b.PatternOverSolid? || b.PatternOverGradient? ==>
      b.pattern == pattern.value && b.tileSize == NormalizePatternSize(patternSize)
  {
    if Truthy(pattern) then
      var size := NormalizePatternSize(patternSize);
      if Truthy(gradient) then
        var (lo, hi) := GradientStops(gradient.value);
        PatternOverGradient(pattern.value, size, lo, hi)
      else PatternOverSolid(color, pattern.value, size)
    else if Truthy(gradient) then
      var (lo, hi) := GradientStops(gradient.value);
      Gradient(lo, hi)
    else Solid(color)
  }

  function LinearGradient(bottom: string, top: string): string
  {
    "linear-gradient(to top, #" + bottom + ", #" + top + ")"
  }

  /** The declarations `topSectionBgStyle` holds for a background. */
  function BackgroundDecls(b: Background): (ds: seq<Decl>)
    ensures b.Solid? || b.Gradient? <==> |ds| == 1
    ensures b.PatternOverGradient? <==> |ds| == 3
    ensures b.PatternOverSolid? <==> |ds| == 4
    ensures b.Solid? || b.PatternOverSolid? ==> ds[0] == Decl("background-color", "#" + b.color)
    ensures b.PatternOverSolid? || b.PatternOverGradient? ==>
      ds[|ds| - 1].property == "background-size" && ds[|ds| - 2].property == "background-repeat"
  {
    match b
    case Solid(c) => [Decl("background-color", "#" + c)]
    case Gradient(lo, hi) => [Decl("background", LinearGradient(lo, hi))]
    case PatternOverSolid(c, p, size) =>
      [Decl("background-color", "#" + c), Decl("background-image", "url(" + p + ")"),
       Decl("background-repeat", "repeat"), Decl("background-size", size)]
    case PatternOverGradient(p, size, lo, hi) =>
      [Decl("background", "url(" + p + "), linear-gradient(to top, #" + lo + ", #" + hi + ")"),
       Decl("background-repeat", "repeat, no-repeat"),
       Decl("background-size", size + ", 100% 100%")]
  }

  /** The `.top-section` background for the host's attributes. */
  function TopSectionBackground(a: CardAttrs): (ds: seq<Decl>)
    ensures |ds| >= 1
    ensures |ds| == 1 <==> !Truthy(a.pattern)
    ensures !Truthy(a.pattern) && !Truthy(a.gradient) ==> ds == [Decl("background-color", "#" + BackgroundColor(a))]
    ensures Truthy(a.pattern) && !Truthy(a.gradient) ==> ds[0] == Decl("background-color", "#" + BackgroundColor(a))
  {
    BackgroundDecls(ChooseBackground(BackgroundColor(a), a.gradient,
                                     a.pattern, PatternSize(a)))
  }

  /** The four cases of the background, in terms of the attributes. */
  lemma TopSectionBackgroundCases(a: CardAttrs)
    ensures var gradient, pattern := a.gradient, a.pattern;
      var color := BackgroundColor(a);
      var size := NormalizePatternSize(PatternSize(a));
      TopSectionBackground(a) ==
        if Truthy(pattern) && Truthy(gradient) then
          var (lo, hi) := GradientStops(gradient.value);
          [Decl("background", "url(" + pattern.value + "), linear-gradient(to top, #" + lo + ", #" + hi + ")"),
           Decl("background-repeat", "repeat, no-repeat"),
           Decl("background-size", size + ", 100% 100%")]
        else if Truthy(pattern) then
          [Decl("background-color", "#" + color), Decl("background-image", "url(" + pattern.value + ")"),
           Decl("background-repeat", "repeat"), Decl("background-size", size)]
        else if Truthy(gradient) then
          var (lo, hi) := GradientStops(gradient.value);
          [Decl("background", LinearGradient(lo, hi))]
        else [Decl("background-color", "#" + color)]
  {
  }

  // ---------------------------------------------------------------------
  // Radial overlay

  function RgbaStop(c: Rgb, alpha: string, at: string): string
  {
    "rgba(" + NumberToString(c.r) + ", " + NumberToString(c.g) + ", " + NumberToString(c.b) + ", "
      + alpha + ") " + at
  }

  /** The declaration interpolated into `.image-wrapper.radial-gradient::after`:
      a ring at fixed stops and opacities, or nothing without a radial colour. */
  function RadialDecls(rgb: Option<Rgb>): (ds: seq<Decl>)
    ensures |ds| == if rgb.Some? then 1 else 0
    ensures rgb.Some? ==> var c := rgb.value;
      && ds[0].property == "background"
      && Includes(ds[0].value, RgbaStop(c, "0.3", "90%"))
      && Includes(ds[0].value, RgbaStop(c, "0.6", "92%"))
      && Includes(ds[0].value, RgbaStop(c, "0.85", "95%"))
      && Includes(ds[0].value, RgbaStop(c, "1", "100%"))
  {
    match rgb
    case None => []
    case Some(c) =>
      var s1, s2, s3, s4 := RgbaStop(c, "0.3", "90%"), RgbaStop(c, "0.6", "92%"),
                            RgbaStop(c, "0.85", "95%"), RgbaStop(c, "1", "100%");
      var head := "radial-gradient(circle at center, transparent 0%, transparent 85%, ";
      var value := head + s1 + ", " + s2 + ", " + s3 + ", " + s4 + ")";
      StopsIncluded(head, s1, s2, s3, s4);
      [Decl("background", value)]
  }

  /** Each of the four stops occurs in the ring's text. */
  lemma StopsIncluded(head: string, s1: string, s2: string, s3: string, s4: string)
    ensures var value := head + s1 + ", " + s2 + ", " + s3 + ", " + s4 + ")";
      Includes(value, s1) && Includes(value, s2) && Includes(value, s3) && Includes(value, s4)
  {
    var value := head + s1 + ", " + s2 + ", " + s3 + ", " + s4 + ")";
    var sep, close := ", ", ")";
    assert value == head + s1 + (sep + s2 + sep + s3 + sep + s4 + close);
    IncludesInfix(head, s1, sep + s2 + sep + s3 + sep + s4 + close);
    assert value == (head + s1 + sep) + s2 + (sep + s3 + sep + s4 + close);
    IncludesInfix(head + s1 + sep, s2, sep + s3 + sep + s4 + close);
    assert value == (head + s1 + sep + s2 + sep) + s3 + (sep + s4 + close);
    IncludesInfix(head + s1 + sep + s2 + sep, s3, sep + s4 + close);
    IncludesInfix(head + s1 + sep + s2 + sep + s3 + sep, s4, close);
  }

  // ---------------------------------------------------------------------
  // The rendered tree

  function WrapperClass(rgb: Option<Rgb>): string
  {
    if rgb.Some? then "image-wrapper radial-gradient" else "image-wrapper"
  }

  function ImageLayer(src: string, rgb: Option<Rgb>): Node
  {
    Div("image-layer", None, None, [Div(WrapperClass(rgb), None, None, [Img(src, "")])])
  }

  function TintLayer(tint: string): Node
  {
    Div("tint-layer", Some("#" + tint), None, [])
  }

  function TopSection(a: CardAttrs): Node
  {
    var img, tint := a.img, a.tint;
    Div("top-section", None, None,
      (if Truthy(img) then [ImageLayer(img.value, RadialRgb(a.radial))] else [])
      + (if Truthy(tint) then [TintLayer(tint.value)] else []))
  }

  function TextItems(a: CardAttrs): seq<Node>
  {
    var title, tag := a.title, a.tag;
    (if Truthy(title) then [Div("title", None, Some(title.value), [])] else [])
    + (if Truthy(tag) then [Div("tag", None, Some(tag.value), [])] else [])
  }

  function Container(a: CardAttrs): Node
  {
    Div("card-container", None, None,
      [TopSection(a)]
      + (if HasTextSection(a) then [Div("bottom-section", None, None, TextItems(a))] else []))
  }

  function CardSheet(a: CardAttrs): seq<Rule>
  {
    [Rule(".top-section", TopSectionBackground(a)),
     Rule(".image-wrapper.radial-gradient::after", RadialDecls(RadialRgb(a.radial)))]
  }

  /** What the shadow root holds after a render: the style, then the card. */
  function CardView(a: CardAttrs): (view: seq<Node>)
    ensures |view| == 2 && view[0].Style? && view[1].Div? && view[1].className == "card-container"
  {
    [Style(CardSheet(a)), Container(a)]
  }

  /** The bottom section exists exactly when there is a title or a tag; it
      holds the title, then the tag, each only when non-empty. */
  lemma TextSectionShape(a: CardAttrs)
    ensures var sections := CardView(a)[1].children;
      var title, tag := a.title, a.tag;
      && (|sections| == 2 <==> Truthy(title) || Truthy(tag))
      && (|sections| == 1 <==> !Truthy(title) && !Truthy(tag))
      && sections[0].className == "top-section"
      && (|sections| == 2 ==>
            && sections[1].className == "bottom-section"
            && |sections[1].children| >= 1
            && sections[1].children ==
                 (if Truthy(title) then [Div("title", None, title, [])] else [])
                 + (if Truthy(tag) then [Div("tag", None, tag, [])] else []))
  {
  }

  /** The image layer exists exactly when `img` is truthy and comes first; a
      tint layer exists exactly when `tint` is truthy and comes last. */
  lemma TopSectionShape(a: CardAttrs)
    ensures var layers := CardView(a)[1].children[0].children;
      var img, tint := a.img, a.tint;
      && |layers| == (if Truthy(img) then 1 else 0) + (if Truthy(tint) then 1 else 0)
      && (Truthy(img) ==> layers[0].Div? && layers[0].className == "image-layer"
                          && layers[0].children[0].children == [Img(img.value, "")])
      && (Truthy(tint) ==> layers[|layers| - 1] == Div("tint-layer", Some("#" + tint.value), None, []))
      && (forall i :: 0 <= i < |layers| ==> layers[i].Div? && (layers[i].className == "image-layer" <==> Truthy(img) && i == 0))
  {
  }

  /** The image wrapper carries the radial class, and the overlay rule a
      declaration, exactly when the radial colour has six or more characters. */
  lemma RadialOverlayShape(a: CardAttrs)
    ensures var radial := a.radial;
      var valid := radial.Some? && |radial.value| >= 6;
      && |CardView(a)[0].rules[1].decls| == (if valid then 1 else 0)
      && (Truthy(a.img) ==>
            CardView(a)[1].children[0].children[0].children[0].className ==
              if valid then "image-wrapper radial-gradient" else "image-wrapper")
  {
  }

  // ---------------------------------------------------------------------
  // Worked examples

  /** `gradient="111111,222222"` without a pattern: a gradient from #111111
      at the bottom to #222222 at the top. */
  lemma GradientPairExample(a: CardAttrs)
    requires a.gradient == Some("111111,222222") && !Truthy(a.pattern)
    ensures TopSectionBackground(a) == [Decl("background", LinearGradient("111111", "222222"))]
  {
    PairStops();
    assert ChooseBackground(BackgroundColor(a), a.gradient, a.pattern, PatternSize(a)) == Gradient("111111", "222222");
  }

  /** `gradient="111111"` without a pattern: both stops are #111111. */
  lemma SingleGradientExample(a: CardAttrs)
    requires a.gradient == Some("111111") && !Truthy(a.pattern)
    ensures TopSectionBackground(a) == [Decl("background", LinearGradient("111111", "111111"))]
  {
    var c := "111111";
    assert ',' !in c by {
      assert forall i :: 0 <= i < |c| ==> c[i] == '1';
    }
    GradientSingleColor(c);
    assert ChooseBackground(BackgroundColor(a), a.gradient, a.pattern, PatternSize(a)) == Gradient(c, c);
  }

  /** `pattern="p.svg"` over `gradient="111111,222222"`: the pattern is the
      first background layer, the gradient the second. */
  lemma PatternOverGradientExample(a: CardAttrs)
    requires a.pattern == Some("p.svg") && a.gradient == Some("111111,222222")
    ensures TopSectionBackground(a)[0] ==
      Decl("background", "url(" + "p.svg" + "), linear-gradient(to top, #" + "111111" + ", #" + "222222" + ")")
    ensures TopSectionBackground(a)[1] == Decl("background-repeat", "repeat, no-repeat")
  {
    PairStops();
    var size := NormalizePatternSize(PatternSize(a));
    assert ChooseBackground(BackgroundColor(a), a.gradient, a.pattern, PatternSize(a))
      == PatternOverGradient("p.svg", size, "111111", "222222");
  }

  /** The stops of "111111,222222". */
  lemma PairStops()
    ensures GradientStops("111111,222222") == ("111111", "222222")
  {
    var lo, hi := "111111", "222222";
    assert ',' !in lo by {
      assert forall i :: 0 <= i < |lo| ==> lo[i] == '1';
    }
    assert ',' !in hi by {
      assert forall i :: 0 <= i < |hi| ==> hi[i] == '2';
    }
    assert "111111,222222" == lo + "," + hi;
    GradientPair(lo, hi);
  }

  /** `radial="0176E0"` reads as rgb(1, 118, 224), and an image gets the
      radial overlay. */
  lemma RadialExample(a: CardAttrs)
    requires a.radial == Some("0176E0")
    ensures RadialRgb(a.radial) == Some(Rgb(Num(1), Num(118), Num(224)))
    ensures |CardView(a)[0].rules[1].decls| == 1
    ensures Truthy(a.img) ==>
      CardView(a)[1].children[0].children[0].children[0].className == "image-wrapper radial-gradient"
  {
    var c := "0176E0";
    assert c[0] == '0' && c[1] == '1' && c[2] == '7' && c[3] == '6' && c[4] == 'E' && c[5] == '0';
    RadialRgbOfHex(c);
    assert HexByte('0', '1') == 1 && HexByte('7', '6') == 118 && HexByte('E', '0') == 224;
    RadialOverlayShape(a);
  }

  /** `radial="01"` is too short: no overlay and a plain wrapper class. */
  lemma ShortRadialExample(a: CardAttrs)
    requires a.radial == Some("01")
    ensures RadialRgb(a.radial) == None
    ensures CardView(a)[0].rules[1].decls == []
    ensures Truthy(a.img) ==> CardView(a)[1].children[0].children[0].children[0].className == "image-wrapper"
  {
    RadialOverlayShape(a);
  }

  // ---------------------------------------------------------------------
  // render()

  /** The `topSectionBgStyle` variable of `render()`: the solid colour
      first, replaced by the gradient when there is one, then replaced by a
      pattern layered over whichever of the two was chosen. */
  method ComposeTopSectionBackground(bgColor: string, gradientColors: Option<string>,
                                     patternSrc: Option<string>, patternSize: string)
    returns (topSectionBgStyle: seq<Decl>)
    ensures topSectionBgStyle == BackgroundDecls(ChooseBackground(bgColor, gradientColors, patternSrc, patternSize))
  {
    topSectionBgStyle := [Decl("background-color", "#" + bgColor)];
    if gradientColors.Some? && gradientColors.value != "" {
      var colors := Split(gradientColors.value, ',');
      var second := if |colors| >= 2 && colors[1] != "" then colors[1] else colors[0];
      topSectionBgStyle := [Decl("background", "linear-gradient(to top, #" + colors[0] + ", #" + second + ")")];
    }

    if patternSrc.Some? && patternSrc.value != "" {
      var patternSizeValue :=
        if Includes(patternSize, "px") || Includes(patternSize, "%") || patternSize == "auto"
        then patternSize else patternSize + "px";
      if gradientColors.Some? && gradientColors.value != "" {
        var colors := Split(gradientColors.value, ',');
        var second := if |colors| >= 2 && colors[1] != "" then colors[1] else colors[0];
        topSectionBgStyle := [
          Decl("background", "url(" + patternSrc.value + "), linear-gradient(to top, #" + colors[0] + ", #" + second + ")"),
          Decl("background-repeat", "repeat, no-repeat"),
          Decl("background-size", patternSizeValue + ", 100% 100%")];
      } else {
        topSectionBgStyle := [
          Decl("background-color", "#" + bgColor),
          Decl("background-image", "url(" + patternSrc.value + ")"),
          Decl("background-repeat", "repeat"),
          Decl("background-size", patternSizeValue)];
      }
    }
  }

  /** The children `render()` appends to the top section: the image layer
      (image inside a wrapper, classed for the radial overlay when the
      radial colour is long enough), then the tint layer. */
  method BuildTopSection(imgSrc: Option<string>, radialColor: Option<string>, tintColor: Option<string>)
    returns (topSection: seq<Node>)
    ensures topSection ==
      (if Truthy(imgSrc) then [ImageLayer(imgSrc.value, RadialRgb(radialColor))] else [])
      + (if Truthy(tintColor) then [TintLayer(tintColor.value)] else [])
  {
    topSection := [];
    if imgSrc.Some? && imgSrc.value != "" {
      var img := Img(imgSrc.value, "");
      var wrapperClass :=
        if radialColor.Some? && radialColor.value != "" && |radialColor.value| >= 6
        then "image-wrapper radial-gradient" else "image-wrapper";
      var imageWrapper := Div(wrapperClass, None, None, [img]);
      var imageLayer := Div("image-layer", None, None, [imageWrapper]);
      topSection := topSection + [imageLayer];
    }
    if tintColor.Some? && tintColor.value != "" {
      var tintLayer := Div("tint-layer", Some("#" + tintColor.value), None, []);
      topSection := topSection + [tintLayer];
    }
  }

  /** The children `render()` appends to the card container: the top
      section, then the bottom section with the title and the tag when
      either is non-empty. */
  method BuildContainer(topSection: seq<Node>, title: Option<string>, tag: Option<string>)
    returns (cardChildren: seq<Node>)
    ensures cardChildren ==
      [Div("top-section", None, None, topSection)]
      + (if Truthy(title) || Truthy(tag)
         then [Div("bottom-section", None, None,
                 (if Truthy(title) then [Div("title", None, title, [])] else [])
                 + (if Truthy(tag) then [Div("tag", None, tag, [])] else []))]
         else [])
  {
    var hasTextSection := (title.Some? && title.value != "") || (tag.Some? && tag.value != "");
    cardChildren := [Div("top-section", None, None, topSection)];
    if hasTextSection {
      var bottomSection: seq<Node> := [];
      if title.Some? && title.value != "" {
        bottomSection := bottomSection + [Div("title", None, Some(title.value), [])];
      }
      if tag.Some? && tag.value != "" {
        bottomSection := bottomSection + [Div("tag", None, Some(tag.value), [])];
      }
      assert bottomSection == (if Truthy(title) then [Div("title", None, title, [])] else [])
                 + (if Truthy(tag) then [Div("tag", None, tag, [])] else []);
      cardChildren := cardChildren + [Div("bottom-section", None, None, bottomSection)];
    }
  }

  /** The body of `render()` up to the shadow-root update: read the
      attributes, fill in the defaults, compute `radialRgb` and the
      background, and build the card. */
  method BuildCard(attrs: Attributes) returns (style: Node, container: Node)
    ensures [style, container] == CardView(ReadAttributes(attrs))
  {
    var imgSrc := GetAttribute(attrs, "img");
    var title := GetAttribute(attrs, "title");
    var tag := GetAttribute(attrs, "tag");
    var bgColor := OrElse(GetAttribute(attrs, "color"), DefaultColor);
    var radialColor := GetAttribute(attrs, "radial");
    var gradientColors := GetAttribute(attrs, "gradient");
    var patternSrc := GetAttribute(attrs, "pattern");
    var patternSize := OrElse(GetAttribute(attrs, "pattern-size"), DefaultPatternSize);
    var tintColor := GetAttribute(attrs, "tint");

    var radialRgb := RadialRgb(radialColor);
    ghost var a := ReadAttributes(attrs);

    var topSectionBgStyle := ComposeTopSectionBackground(bgColor, gradientColors, patternSrc, patternSize);
    style := Style([Rule(".top-section", topSectionBgStyle),
                    Rule(".image-wrapper.radial-gradient::after", RadialDecls(radialRgb))]);
    assert style == Style(CardSheet(a));

    var topSection := BuildTopSection(imgSrc, radialColor, tintColor);
    assert topSection == TopSection(a).children;
    var cardChildren := BuildContainer(topSection, title, tag);
    container := Div("card-container", None, None, cardChildren);
    assert container == Container(a);
  }

  // ---------------------------------------------------------------------
  // The element

  class CardImg {
    /** The host element's attributes, as the platform holds them. */
    var attrs: Attributes
    /** The children of the open shadow root. */
    var shadow: seq<Node>

    /** Once rendered, the shadow root shows the current attributes. */
    ghost predicate Valid()
      reads this
    {
      shadow == [] || shadow == CardView(ReadAttributes(attrs))
    }

    /** `attachShadow` gives an empty shadow root. */
    constructor (attrs: Attributes)
      ensures this.attrs == attrs && shadow == [] && Valid()
    {
      this.attrs := attrs;
      shadow := [];
    }

    /** Mounting renders. */
    method ConnectedCallback()
      modifies this`shadow
      ensures shadow == CardView(ReadAttributes(attrs))
    {
      Render();
    }

    /** Re-renders only when the value actually changed. */
    method AttributeChangedCallback(name: string, oldValue: Option<string>, newValue: Option<string>)
      modifies this`shadow
      ensures shadow == if oldValue != newValue then CardView(ReadAttributes(attrs)) else old(shadow)
    {
      if oldValue != newValue {
        Render();
      }
    }

    /** Clears the shadow root, then appends the style and the card. */
    method Render()
      modifies this`shadow
      ensures shadow == CardView(ReadAttributes(attrs))
    {
      var style, container := BuildCard(attrs);
      shadow := [];
      shadow := shadow + [style];
      shadow := shadow + [container];
    }

    /** The platform's side of `setAttribute`/`removeAttribute`: update the
        attribute, then report the change when the name is observed.
        Removing an attribute that is absent reports nothing. */
    method SetAttribute(name: string, value: Option<string>)
      requires Valid()
      modifies this
      ensures attrs == WithAttribute(old(attrs), name, value)
      ensures Valid()
      ensures shadow ==
        if old(shadow) == [] && (name !in ObservedAttributes || GetAttribute(old(attrs), name) == value)
        then [] else CardView(ReadAttributes(attrs))
    {
      var oldValue := GetAttribute(attrs, name);
      if oldValue == value {
        WithSameAttribute(attrs, name);
      }
      if name !in ObservedAttributes {
        ReadsObservedOnly(attrs, name, value);
      }
      attrs := WithAttribute(attrs, name, value);
      if name in ObservedAttributes && (value.Some? || oldValue.Some?) {
        AttributeChangedCallback(name, oldValue, value);
      }
    }
  }
}
