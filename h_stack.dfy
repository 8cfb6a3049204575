/** The `<h-stack>` element (js-components/h-stack.js): a row flex
    container whose gap, cross-axis alignment and main-axis distribution come
    from attributes, with a slot for its children. */
module HStackComponent {
  import opened Dom

  const DefaultGap := "0"
  const DefaultAlign := "stretch"
  const DefaultJustify := "flex-start"

  /** The attributes whose changes the platform reports to the element. */
  const ObservedAttributes: seq<string> := ["gap", "items-align", "justify"]

  /** What `render()` reads with `getAttribute`, null when absent. */
  datatype HStackAttrs = HStackAttrs(gap: Option<string>, itemsAlign: Option<string>, justify: Option<string>)

  function ReadAttributes(attrs: Attributes): HStackAttrs
  {
    HStackAttrs(GetAttribute(attrs, "gap"), GetAttribute(attrs, "items-align"), GetAttribute(attrs, "justify"))
  }

  /** Only the observed attributes are read. */
  lemma ReadsObservedOnly(attrs: Attributes, name: string, value: Option<string>)
    requires name !in ObservedAttributes
    ensures ReadAttributes(WithAttribute(attrs, name, value)) == ReadAttributes(attrs)
  {
  }

  /** `getAttribute("gap") || "0"`. */
  function Gap(a: HStackAttrs): (r: string)
    ensures !Truthy(a.gap) ==> r == DefaultGap
    ensures Truthy(a.gap) ==> r == a.gap.value
  {
    OrElse(a.gap, DefaultGap)
  }

  /** `getAttribute("items-align") || "stretch"`. */
  function Align(a: HStackAttrs): (r: string)
    ensures !Truthy(a.itemsAlign) ==> r == DefaultAlign
    ensures Truthy(a.itemsAlign) ==> r == a.itemsAlign.value
  {
    OrElse(a.itemsAlign, DefaultAlign)
  }

  /** `getAttribute("justify") || "flex-start"`. */
  function Justify(a: HStackAttrs): (r: string)
    ensures !Truthy(a.justify) ==> r == DefaultJustify
    ensures Truthy(a.justify) ==> r == a.justify.value
  {
    OrElse(a.justify, DefaultJustify)
  }

  /** The `:host` rule of the template, in source order. */
  function HostSheet(a: HStackAttrs): (sheet: seq<Rule>)
    ensures |sheet| == 1 && sheet[0].Rule? && sheet[0].selector == ":host"
    ensures var ds := sheet[0].decls;
      |ds| == 5 && ds[0] == Decl("display", "flex") && ds[1] == Decl("flex-direction", "row")
      && ds[4] == Decl("gap", Gap(a) + "px")
  {
    [Rule(":host", [Decl("display", "flex"), Decl("flex-direction", "row"),
                    Decl("align-items", Align(a)), Decl("justify-content", Justify(a)),
                    Decl("gap", Gap(a) + "px")])]
  }

  /** What the shadow root holds after a render: the style, then the slot. */
  function HStackView(a: HStackAttrs): (view: seq<Node>)
    ensures |view| == 2 && view[0].Style? && view[1] == Slot
  {
    [Style(HostSheet(a)), Slot]
  }

  /** The host is always a row flex container, whatever the attributes and
      the viewport; the three attributes, or their defaults, fill in the
      alignment, the distribution and the gap in pixels. */
  lemma HostLayout(a: HStackAttrs, width: nat)
    ensures CascadedValue(HostSheet(a), ":host", "display", width) == Some("flex")
    ensures CascadedValue(HostSheet(a), ":host", "flex-direction", width) == Some("row")
    ensures CascadedValue(HostSheet(a), ":host", "align-items", width) == Some(Align(a))
    ensures CascadedValue(HostSheet(a), ":host", "justify-content", width) == Some(Justify(a))
    ensures CascadedValue(HostSheet(a), ":host", "gap", width) == Some(Gap(a) + "px")
  {
    var sheet := HostSheet(a);
    var properties := ["display", "flex-direction", "align-items", "justify-content", "gap"];
    forall k | 0 <= k < 5
      ensures CascadedValue(sheet, ":host", properties[k], width) == Some(sheet[0].decls[k].value)
    {
      SoleRuleDecides(sheet, 0, k, ":host", properties[k], width);
    }
    assert properties[0] == "display" && properties[1] == "flex-direction" && properties[2] == "align-items";
    assert properties[3] == "justify-content" && properties[4] == "gap";
  }

  /** The body of `render()` up to the shadow-root update. */
  method BuildHStack(attrs: Attributes) returns (style: Node, slot: Node)
    ensures [style, slot] == HStackView(ReadAttributes(attrs))
  {
    var gap := OrElse(GetAttribute(attrs, "gap"), DefaultGap);
    var align := OrElse(GetAttribute(attrs, "items-align"), DefaultAlign);
    var justify := OrElse(GetAttribute(attrs, "justify"), DefaultJustify);

    style := Style([Rule(":host", [Decl("display", "flex"), Decl("flex-direction", "row"),
                                   Decl("align-items", align), Decl("justify-content", justify),
                                   Decl("gap", gap + "px")])]);
    slot := Slot;
  }

  class HStack {
    /** The host element's attributes, as the platform holds them. */
    var attrs: Attributes
    /** The children of the open shadow root. */
    var shadow: seq<Node>

    /** Once rendered, the shadow root shows the current attributes. */
    ghost predicate Valid()
      reads this
    {
      shadow == [] || shadow == HStackView(ReadAttributes(attrs))
    }

    /** `attachShadow` gives an empty shadow root. */
    constructor (attrs: Attributes)
      ensures this.attrs == attrs && shadow == [] && Valid()
    {
      this.attrs := attrs;
      shadow := [];
    }

    /** Mounting renders. */
    method ConnectedCallback()
      modifies this`shadow
      ensures shadow == HStackView(ReadAttributes(attrs))
    {
      Render();
    }

    /** Re-renders on every reported change, even one to the same value. */
    method AttributeChangedCallback()
      modifies this`shadow
      ensures shadow == HStackView(ReadAttributes(attrs))
    {
      Render();
    }

    /** Clears the shadow root, then appends the style and the slot. */
    method Render()
      modifies this`shadow
      ensures shadow == HStackView(ReadAttributes(attrs))
    {
      var style, slot := BuildHStack(attrs);
      shadow := [];
      shadow := shadow + [style];
      shadow := shadow + [slot];
    }

    /** The platform's side of `setAttribute`/`removeAttribute`: update the
        attribute, then report the change when the name is observed. An
        observed attribute always renders, even when set to its old value;
        removing an attribute that is absent reports nothing. */
    method SetAttribute(name: string, value: Option<string>)
      requires Valid()
      modifies this
      ensures attrs == WithAttribute(old(attrs), name, value)
      ensures Valid()
      ensures shadow ==
        if old(shadow) == [] && (name !in ObservedAttributes || (value.None? && name !in old(attrs)))
        then [] else HStackView(ReadAttributes(attrs))
    {
      var oldValue := GetAttribute(attrs, name);
      if oldValue == value {
        WithSameAttribute(attrs, name);
      }
      if name !in ObservedAttributes {
        ReadsObservedOnly(attrs, name, value);
      }
      attrs := WithAttribute(attrs, name, value);
      if name in ObservedAttributes && (value.Some? || oldValue.Some?) {
        AttributeChangedCallback();
      }
    }
  }
}
