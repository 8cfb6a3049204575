/** The `<polaroid-img>` element (js-components/polaroid-img.js): a white
    frame around an inner container whose background is the chosen colour
    (or white), with rounded corners, holding the image raised by an offset
    and, on request, a tint layer in the container's colour. */
module PolaroidImgComponent {
  import opened Dom

  const DefaultColor := "FFD600"
  /** The inner background when the `none` attribute is present. */
  const White := "#FFFFFF"
  const DefaultRound := "0"
  const DefaultOffset := "0"
  /** The largest viewport width, in CSS pixels, that gets the compact frame. */
  const CompactMaxWidth: nat := 649

  /** The attributes whose changes the platform reports to the element. */
  const ObservedAttributes: seq<string> := ["img", "none", "round", "offset", "color", "tint"]

  // ---------------------------------------------------------------------
  // Attribute derivations

  /** What `render()` reads: `img`, `round`, `offset` and `color` with
      `getAttribute`; `none` and `tint` with `hasAttribute`. */
  datatype PolaroidAttrs = PolaroidAttrs(
    img: Option<string>, none: bool, round: Option<string>,
    offset: Option<string>, color: Option<string>, tint: bool)

  function ReadAttributes(attrs: Attributes): PolaroidAttrs
  {
    PolaroidAttrs(
      GetAttribute(attrs, "img"), HasAttribute(attrs, "none"), GetAttribute(attrs, "round"),
      GetAttribute(attrs, "offset"), GetAttribute(attrs, "color"), HasAttribute(attrs, "tint"))
  }

  /** Only the observed attributes are read. */
  lemma ReadsObservedOnly(attrs: Attributes, name: string, value: Option<string>)
    requires name !in ObservedAttributes
    ensures ReadAttributes(WithAttribute(attrs, name, value)) == ReadAttributes(attrs)
  {
  }

  /** `bgColor`: white when `none` is present, whatever its value and
      whatever `color` says; otherwise `#` and the colour, "FFD600" when the
      colour is missing or empty. */
  function InnerBackground(a: PolaroidAttrs): (r: string)
    ensures a.none ==> r == White
    ensures !a.none && !Truthy(a.color) ==> r == "#" + DefaultColor
    ensures !a.none && Truthy(a.color) ==> r == "#" + a.color.value
  {
    if a.none then White else "#" + OrElse(a.color, DefaultColor)
  }

  /** `getAttribute("round") || "0"`. */
  function Round(a: PolaroidAttrs): (r: string)
    ensures !Truthy(a.round) ==> r == DefaultRound
    ensures Truthy(a.round) ==> r == a.round.value
  {
    OrElse(a.round, DefaultRound)
  }

  /** `getAttribute("offset") || "0"`. */
  function Offset(a: PolaroidAttrs): (r: string)
    ensures !Truthy(a.offset) ==> r == DefaultOffset
    ensures Truthy(a.offset) ==> r == a.offset.value
  {
    OrElse(a.offset, DefaultOffset)
  }

  // ---------------------------------------------------------------------
  // The rendered tree

  /** The frame sizes and the attribute-derived declarations of the style
      sheet, in source order. */
  function PolaroidSheet(a: PolaroidAttrs): (sheet: seq<Rule>)
    ensures |sheet| == 5 && forall i :: 0 <= i < 4 ==> sheet[i].Rule?
    ensures sheet[4].MaxWidthRule? && sheet[4].maxWidth == CompactMaxWidth
    ensures sheet[0].selector == sheet[4].selector == ".outer-frame"
    ensures |sheet[1].decls| == 2 && |sheet[3].decls| == 1
    ensures sheet[1].decls[0] == sheet[3].decls[0] == Decl("background-color", InnerBackground(a))
  {
    var bgColor, offset := InnerBackground(a), Offset(a);
    [Rule(".outer-frame", [Decl("width", "300px"), Decl("height", "300px"), Decl("padding", "50px")]),
     Rule(".inner-container", [Decl("background-color", bgColor), Decl("border-radius", Round(a) + "px")]),
     Rule(".image-wrapper img", [Decl("bottom", offset + "px"), Decl("height", "calc(100% + " + offset + "px)")]),
     Rule(".tint-layer", [Decl("background-color", bgColor)]),
     MaxWidthRule(CompactMaxWidth, ".outer-frame",
       [Decl("width", "200px"), Decl("height", "200px"), Decl("padding", "33px")])]
  }

  function ImageWrapper(src: string, tint: bool): Node
  {
    Div("image-wrapper", None, None,
      [Img(src, "")] + (if tint then [Div("tint-layer", None, None, [])] else []))
  }

  function OuterFrame(a: PolaroidAttrs): Node
  {
    Div("outer-frame", None, None,
      [Div("inner-container", None, None,
        if Truthy(a.img) then [ImageWrapper(a.img.value, a.tint)] else [])])
  }

  /** What the shadow root holds after a render: the style, then the frame. */
  function PolaroidView(a: PolaroidAttrs): (view: seq<Node>)
    ensures |view| == 2 && view[0].Style? && view[1].Div? && view[1].className == "outer-frame"
  {
    [Style(PolaroidSheet(a)), OuterFrame(a)]
  }

  /** The frame always holds exactly one inner container, which holds an
      image wrapper exactly when `img` is truthy. */
  lemma FrameShape(a: PolaroidAttrs)
    ensures var frame := PolaroidView(a)[1];
      && |frame.children| == 1
      && frame.children[0].Div? && frame.children[0].className == "inner-container"
      && |frame.children[0].children| == (if Truthy(a.img) then 1 else 0)
      && (Truthy(a.img) ==> frame.children[0].children[0].className == "image-wrapper")
  {
  }

  /** A tint layer exists exactly when there is an image and the `tint`
      attribute is present; it comes after the image. The image wrapper
      holds the image and that tint layer and nothing else. */
  lemma TintLayerShape(a: PolaroidAttrs)
    ensures var inner := PolaroidView(a)[1].children[0].children;
      var hasTintLayer := |inner| == 1 && |inner[0].children| == 2
                          && inner[0].children[1] == Div("tint-layer", None, None, []);
      && (hasTintLayer <==> Truthy(a.img) && a.tint)
      && (Truthy(a.img) ==> inner[0].children[0] == Img(a.img.value, ""))
    ensures Truthy(a.img) ==>
      PolaroidView(a)[1].children[0].children[0].children
        == [Img(a.img.value, "")] + (if a.tint then [Div("tint-layer", None, None, [])] else [])
  {
  }

  /** The tint layer is painted in the inner container's colour, at every
      viewport width. */
  lemma TintMatchesInnerBackground(a: PolaroidAttrs, width: nat)
    ensures CascadedValue(PolaroidSheet(a), ".tint-layer", "background-color", width) == Some(InnerBackground(a))
    ensures CascadedValue(PolaroidSheet(a), ".inner-container", "background-color", width) == Some(InnerBackground(a))
  {
    var sheet := PolaroidSheet(a);
    SoleRuleDecides(sheet, 3, 0, ".tint-layer", "background-color", width);
    SoleRuleDecides(sheet, 1, 0, ".inner-container", "background-color", width);
  }

  /** `round` and `offset` are emitted in pixels; the image sits `offset`
      pixels up and is as much taller than its wrapper. */
  lemma RoundAndOffset(a: PolaroidAttrs, width: nat)
    ensures CascadedValue(PolaroidSheet(a), ".inner-container", "border-radius", width) == Some(Round(a) + "px")
    ensures CascadedValue(PolaroidSheet(a), ".image-wrapper img", "bottom", width) == Some(Offset(a) + "px")
    ensures CascadedValue(PolaroidSheet(a), ".image-wrapper img", "height", width)
            == Some("calc(100% + " + Offset(a) + "px)")
  {
    var sheet := PolaroidSheet(a);
    SoleRuleDecides(sheet, 1, 1, ".inner-container", "border-radius", width);
    SoleRuleDecides(sheet, 2, 0, ".image-wrapper img", "bottom", width);
    SoleRuleDecides(sheet, 2, 1, ".image-wrapper img", "height", width);
  }

  /** The frame is 300 by 300 pixels with 50 pixels of padding, and 200 by
      200 with 33 when the viewport is at most 649 pixels wide. */
  lemma ResponsiveFrame(a: PolaroidAttrs, width: nat)
    ensures var compact := width <= CompactMaxWidth;
      && CascadedValue(PolaroidSheet(a), ".outer-frame", "width", width) == Some(if compact then "200px" else "300px")
      && CascadedValue(PolaroidSheet(a), ".outer-frame", "height", width) == Some(if compact then "200px" else "300px")
      && CascadedValue(PolaroidSheet(a), ".outer-frame", "padding", width) == Some(if compact then "33px" else "50px")
  {
    var sheet := PolaroidSheet(a);
    var k := if width <= CompactMaxWidth then 4 else 0;
    FrameDecl(sheet, k, 0, "width", width);
    FrameDecl(sheet, k, 1, "height", width);
    FrameDecl(sheet, k, 2, "padding", width);
  }

  /** One frame-size declaration of the rule `k` that decides `.outer-frame`. */
  lemma FrameDecl(sheet: seq<Rule>, k: nat, i: nat, property: string, width: nat)
    requires |sheet| == 5 && (k == 0 || k == 4) && i < 3
    requires sheet[0].selector == ".outer-frame" && sheet[4].selector == ".outer-frame"
    requires sheet[1].selector != ".outer-frame" && sheet[2].selector != ".outer-frame"
    requires sheet[3].selector != ".outer-frame"
    requires sheet[0].Rule? && sheet[4].MaxWidthRule? && sheet[4].maxWidth == CompactMaxWidth
    requires k == (if width <= CompactMaxWidth then 4 else 0)
    requires |sheet[k].decls| == 3 && sheet[k].decls[i].property == property
    requires forall j :: i < j < 3 ==> sheet[k].decls[j].property != property
    ensures CascadedValue(sheet, ".outer-frame", property, width) == Some(sheet[k].decls[i].value)
  {
    LastDeclaredIs(sheet[k].decls, i, property);
    CascadedValueIs(sheet, k, ".outer-frame", property, width);
  }

  // ---------------------------------------------------------------------
  // render()

  /** The body of `render()` up to the shadow-root update: read the
      attributes, choose the background, then build the frame by appending
      the image, the optional tint layer and the wrapper. */
  method BuildPolaroid(attrs: Attributes) returns (style: Node, outerFrame: Node)
    ensures [style, outerFrame] == PolaroidView(ReadAttributes(attrs))
  {
    var imgSrc := GetAttribute(attrs, "img");
    var hasNone := HasAttribute(attrs, "none");
    var round := OrElse(GetAttribute(attrs, "round"), DefaultRound);
    var offset := OrElse(GetAttribute(attrs, "offset"), DefaultOffset);
    var color := OrElse(GetAttribute(attrs, "color"), DefaultColor);
    var hasTint := HasAttribute(attrs, "tint");

    var bgColor := if hasNone then White else "#" + color;
    ghost var a := ReadAttributes(attrs);
    assert bgColor == InnerBackground(a) && round == Round(a) && offset == Offset(a);

    style := Style([
      Rule(".outer-frame", [Decl("width", "300px"), Decl("height", "300px"), Decl("padding", "50px")]),
      Rule(".inner-container", [Decl("background-color", bgColor), Decl("border-radius", round + "px")]),
      Rule(".image-wrapper img", [Decl("bottom", offset + "px"), Decl("height", "calc(100% + " + offset + "px)")]),
      Rule(".tint-layer", [Decl("background-color", bgColor)]),
      MaxWidthRule(CompactMaxWidth, ".outer-frame",
        [Decl("width", "200px"), Decl("height", "200px"), Decl("padding", "33px")])]);

    var innerContainer: seq<Node> := [];
    if imgSrc.Some? && imgSrc.value != "" {
      var imageWrapper: seq<Node> := [];
      imageWrapper := imageWrapper + [Img(imgSrc.value, "")];
      if hasTint {
        imageWrapper := imageWrapper + [Div("tint-layer", None, None, [])];
      }
      assert a.img == imgSrc && a.tint == hasTint;
      assert imageWrapper == [Img(imgSrc.value, "")] + (if hasTint then [Div("tint-layer", None, None, [])] else []);
      innerContainer := innerContainer + [Div("image-wrapper", None, None, imageWrapper)];
      assert innerContainer == [ImageWrapper(a.img.value, a.tint)];
    }
    assert innerContainer == OuterFrame(a).children[0].children;
    outerFrame := Div("outer-frame", None, None, [Div("inner-container", None, None, innerContainer)]);
    assert style == Style(PolaroidSheet(a));
    assert outerFrame == OuterFrame(a);
  }

  // ---------------------------------------------------------------------
  // The element

  class PolaroidImg {
    /** The host element's attributes, as the platform holds them. */
    var attrs: Attributes
    /** The children of the open shadow root. */
    var shadow: seq<Node>

    /** Once rendered, the shadow root shows the current attributes. */
    ghost predicate Valid()
      reads this
    {
      shadow == [] || shadow == PolaroidView(ReadAttributes(attrs))
    }

    /** `attachShadow` gives an empty shadow root. */
    constructor (attrs: Attributes)
      ensures this.attrs == attrs && shadow == [] && Valid()
    {
      this.attrs := attrs;
      shadow := [];
    }

    /** Mounting renders. */
    method ConnectedCallback()
      modifies this`shadow
      ensures shadow == PolaroidView(ReadAttributes(attrs))
    {
      Render();
    }

    /** Re-renders only when the value actually changed. */
    method AttributeChangedCallback(name: string, oldValue: Option<string>, newValue: Option<string>)
      modifies this`shadow
      ensures shadow == if oldValue != newValue then PolaroidView(ReadAttributes(attrs)) else old(shadow)
    {
      if oldValue != newValue {
        Render();
      }
    }

    /** Clears the shadow root, then appends the style and the frame. */
    method Render()
      modifies this`shadow
      ensures shadow == PolaroidView(ReadAttributes(attrs))
    {
      var style, outerFrame := BuildPolaroid(attrs);
      shadow := [];
      shadow := shadow + [style];
      shadow := shadow + [outerFrame];
    }

    /** The platform's side of `setAttribute`/`removeAttribute`: update the
        attribute, then report the change when the name is observed.
        Removing an attribute that is absent reports nothing. */
    method SetAttribute(name: string, value: Option<string>)
      requires Valid()
      modifies this
      ensures attrs == WithAttribute(old(attrs), name, value)
      ensures Valid()
      ensures shadow ==
        if old(shadow) == [] && (name !in ObservedAttributes || GetAttribute(old(attrs), name) == value)
        then [] else PolaroidView(ReadAttributes(attrs))
    {
      var oldValue := GetAttribute(attrs, name);
      if oldValue == value {
        WithSameAttribute(attrs, name);
      }
      if name !in ObservedAttributes {
        ReadsObservedOnly(attrs, name, value);
      }
      attrs := WithAttribute(attrs, name, value);
      if name in ObservedAttributes && (value.Some? || oldValue.Some?) {
        AttributeChangedCallback(name, oldValue, value);
      }
    }
  }
}
