# Image and layout custom elements, modelled in Dafny

This project models three custom elements of a small web-component library:

- `<card-img>` shows an image over a coloured, gradient or patterned top
  section. It can add a radial ring over the image, a tint layer over
  everything and a bottom section with a title and a tag.
- `<polaroid-img>` shows an image inside a white frame. The inner container
  has a chosen colour (or white), rounded corners and an image offset, plus
  an optional tint layer.
- `<h-stack>` is a row flex container whose gap, alignment and distribution
  come from attributes.

Each element reads its attributes, fills in defaults and derives values
from strings. It then replaces the contents of its shadow root with a
`<style>` element and a tree of nodes.

The model has five modules, one per file:

- `Dom` (`dom.dfy`): the host's attributes as a map, with `getAttribute`,
  `hasAttribute` and JavaScript truthiness (`OrElse` is `v || fallback`).
  It also holds the node tree and the style sheet: rules of `property: value`
  declarations, plain or inside `@media (max-width: …px)`. `CascadedValue`
  says which declaration wins at a given viewport width.
- `JsText` (`js_text.dfy`): the JavaScript built-ins the elements call.
  These are `String.prototype.includes`, `split` with a one-character
  separator, `parseInt(s, 16)` following the steps ECMAScript defines, and
  the printing of an integer in a template literal. The model's `parseInt`
  computes exact integers. ECMAScript computes a double, which agrees with
  it on the one- and two-character inputs read here but rounds the value
  of long digit runs.
- `CardImgComponent`, `PolaroidImgComponent`, `HStackComponent`: one module
  per element. Each module has:
  - a record of the attributes `render()` reads;
  - pure functions for the derived values;
  - a declarative `…View` function giving what the shadow root holds after
    a render;
  - a `Build…` method that computes the same result step by step, as
    `render()` does, proved equal to the view;
  - a class whose `Render` replaces its `shadow` field wholesale.

  The class's `SetAttribute` stands for the platform's side of an attribute
  change. It updates the map and calls `AttributeChangedCallback` only for
  observed names, and not when an attribute that is absent is removed. It
  keeps the invariant that a shadow root, once rendered, shows the current
  attributes.

The style sheets list only what depends on attributes, plus the fixed
declarations that properties below are about. Those are the polaroid frame
sizes and their `@media` override, and `display: flex` and
`flex-direction: row` of the h-stack. The rest of the static CSS text is
left out.

The model follows the code where it does less than the attribute comments
in the source suggest:

- The radial ring is added for any `radial` value of six or more
  characters. The code does not check that they are hex digits. Each pair
  reads as `JsText.PairValue` says: "1G" reads as 1, " F", "+F" as 15 and
  "-F" as -15. A pair whose first character is not whitespace, a sign or a
  hex digit reads as `NaN` (`JsText.NoHexLeadIsNaN`).
- Colours are passed through unchecked. They are not required to be six hex
  digits.
- `<h-stack>`'s `attributeChangedCallback` calls `render()` with no
  condition, so it re-renders even when the old and new values are equal.
  Only the two image elements guard on a changed value.
- Any non-empty `tint` value adds the tint layer in `<card-img>`. Its
  length and format are never checked.

## Model

| member | source | states |
|---|---|---|
| Dom.GetAttribute | js-components/card-img.js:71-79 | `getAttribute` gives the value exactly when the attribute is present, null otherwise |
| Dom.HasAttribute | js-components/polaroid-img.js:75 | `hasAttribute` holds exactly when `getAttribute` gives a value, including the empty string |
| Dom.Truthy | js-components/card-img.js:82 | null and the empty string are falsy; every other string is truthy |
| Dom.OrElse | js-components/card-img.js:74 | the logical-or default is the value when it is non-null and non-empty, else the fallback; a non-empty fallback gives a non-empty result |
| Dom.LastDeclared | js-components/polaroid-img.js:138-144 | a property is declared in a rule exactly when some declaration names it, and the value found is one of the rule's declarations |
| Dom.CascadedValue | js-components/polaroid-img.js:89-144 | a property gets a value exactly when some rule that applies at that width declares it |
| Dom.LastDeclaredIs | js-components/polaroid-img.js:138-144 | within a rule, the last declaration of a property decides its value |
| Dom.CascadedValueIs | js-components/polaroid-img.js:138-144 | across rules, the last applicable rule that declares the property decides it, so a later `@media` rule overrides an earlier one |
| Dom.SoleRuleDecides | js-components/h-stack.js:66-72 | when one plain rule alone has the selector, its last declaration of the property decides it at every width |
| JsText.IncludesIff | js-components/card-img.js:105-106 | `s.includes(sub)` holds exactly when `sub` occurs at some index of `s` |
| JsText.OccursShift | js-components/card-img.js:105-106 | an occurrence at index i > 0 is an occurrence at i - 1 in the tail |
| JsText.IncludesAppended | js-components/card-img.js:109 | a string with "px" appended includes "px" |
| JsText.Split | js-components/card-img.js:97 | `split(",")` gives at least one piece and no piece holds the separator |
| JsText.JoinSplit | js-components/card-img.js:97 | joining the pieces of a split with the separator gives back the string |
| JsText.SplitJoin | js-components/card-img.js:97 | splitting a join of separator-free pieces gives back the pieces |
| JsText.SplitAtSeparator | js-components/card-img.js:97 | the first piece ends at the first separator and the rest is the split of what follows |
| JsText.SplitWithoutSeparator | js-components/card-img.js:97 | a string without the separator splits into itself alone |
| JsText.HexDigitValue | js-components/card-img.js:88-90 | a hex digit has a value below 16, below 10 exactly for decimal digits |
| JsText.TrimStart | js-components/card-img.js:88-90 | `parseInt` skips exactly the leading ECMAScript whitespace and line terminators and keeps the rest |
| JsText.HexPrefixLength | js-components/card-img.js:88-90 | the longest run of hex digits at the start: all digits before it, none right after |
| JsText.HexValue | js-components/card-img.js:88-90 | k hex digits have a value below 16^k |
| JsText.StripHexPrefix | js-components/card-img.js:88-90 | an optional `0x`/`0X` is dropped, nothing else |
| JsText.ParseIntHex | js-components/card-img.js:88-90 | nothing but whitespace, or a first character that is neither a hex digit nor a sign, reads as NaN; a negative result needs a leading minus sign |
| JsText.ParseIntHexPair | js-components/card-img.js:88-90 | `parseInt(p, 16)` of every two-character string is `PairValue(p)`: a byte for two hex digits, the first digit before a non-hex character (NaN for "0x"/"0X"), a signed digit after whitespace or a sign, NaN otherwise |
| JsText.WhitespacePair | js-components/card-img.js:88-90 | a pair starting with whitespace reads as its second character's digit, or NaN |
| JsText.SignPair | js-components/card-img.js:88-90 | a sign followed by a hex digit reads as that digit, negated for "-"; a sign followed by anything else is NaN |
| JsText.OneChar | js-components/card-img.js:88-90 | one character reads as its digit value when it is a hex digit, NaN otherwise |
| JsText.SameTrim | js-components/card-img.js:88-90 | `parseInt` depends only on the text after the leading whitespace |
| JsText.OneDigit | js-components/card-img.js:88-90 | a lone hex digit is read as its value and any other lone character gives no value |
| JsText.LeadingHex | js-components/card-img.js:88-90 | there is a value exactly when the text starts with a hex digit |
| JsText.HexByte | js-components/card-img.js:88-90 | two hex digits spell a byte, at most 255 |
| JsText.HexPairValue | js-components/card-img.js:88-90 | `parseInt` of two hex digits in base 16 is the byte they spell |
| JsText.HexPairPrefix | js-components/card-img.js:88-90 | a hex digit followed by a non-hex character reads as that digit alone, except "0x"/"0X", which read as NaN |
| JsText.NoHexLeadIsNaN | js-components/card-img.js:88-90 | text starting with neither whitespace, a sign nor a hex digit reads as NaN |
| JsText.IncludesInfix | js-components/card-img.js:186 | a string includes every piece it is built from |
| JsText.NumberToString | js-components/card-img.js:186 | NaN prints as "NaN"; an integer prints as a minus sign exactly when negative, followed by the shortest decimal digits denoting its magnitude (at least one digit, no leading zero) |
| JsText.NatToString | js-components/card-img.js:186 | an integer interpolated into the CSS prints as decimal digits denoting it, with no leading zero |
| CardImgComponent.ReadsObservedOnly | js-components/card-img.js:43-53 | `render()` reads only the nine observed attributes, so changing any other leaves its input unchanged |
| CardImgComponent.BackgroundColor | js-components/card-img.js:74 | the colour is "FFD600" whenever `color` is absent or empty, else `color` |
| CardImgComponent.HasTextSection | js-components/card-img.js:81-82 | the text section is wanted exactly when there is at least one text item, a non-empty title or a non-empty tag |
| CardImgComponent.PatternSize | js-components/card-img.js:78 | the pattern size is "auto" whenever `pattern-size` is absent or empty, else `pattern-size` |
| CardImgComponent.RadialRgb | js-components/card-img.js:85-92 | `radialRgb` is defined exactly when `radial` is present with at least six characters |
| CardImgComponent.RadialRgbReading | js-components/card-img.js:86-91 | for every colour of six or more characters, r, g and b are the pairs [0,2), [2,4) and [4,6) as `PairValue` reads them, hex or not |
| CardImgComponent.RadialRgbOfHex | js-components/card-img.js:85-92 | six hex digits give the three bytes they spell, each in 0..255 |
| CardImgComponent.RadialRgbIgnoresTail | js-components/card-img.js:86-91 | characters after the sixth do not change the colour |
| CardImgComponent.GradientStops | js-components/card-img.js:96-101 | the first stop is the first piece of the split; the second is the second piece when it exists and is non-empty, else the first |
| CardImgComponent.GradientSingleColor | js-components/card-img.js:96-101 | a single colour gives two equal stops |
| CardImgComponent.GradientPair | js-components/card-img.js:96-101 | "a,b" gives the stops a and b, with an empty b falling back to a |
| CardImgComponent.GradientIgnoresExtra | js-components/card-img.js:96-101 | entries past the second do not change the stops |
| CardImgComponent.NormalizePatternSize | js-components/card-img.js:104-109 | the size is unchanged exactly when it contains "px" or "%" or is "auto", otherwise "px" is appended; the result always has a unit |
| CardImgComponent.NormalizePatternSizeIdempotent | js-components/card-img.js:104-109 | normalising twice is normalising once |
| CardImgComponent.ChooseBackground | js-components/card-img.js:95-122 | a pattern is used exactly when `pattern` is truthy and a gradient exactly when `gradient` is truthy; the stops come from the split and the tile size is normalised |
| CardImgComponent.BackgroundDecls | js-components/card-img.js:95-122 | a solid colour or a gradient is one declaration, a pattern over a gradient three, a pattern over a solid colour four; the solid colour comes first where there is one; a pattern ends with its repeat and size |
| CardImgComponent.TopSectionBackground | js-components/card-img.js:95-122 | one declaration exactly when there is no pattern; `#color` alone without pattern or gradient; a pattern without a gradient starts with `#color` |
| CardImgComponent.TopSectionBackgroundCases | js-components/card-img.js:95-122 | pattern and gradient: url first, then the gradient, `repeat, no-repeat`, `size, 100% 100%`; pattern only: solid colour plus tiled pattern; gradient only: the gradient alone; neither: the solid colour |
| CardImgComponent.RadialDecls | js-components/card-img.js:184-188 | the ring declaration is there exactly when `radialRgb` is defined, and its `background` includes the four `rgba(r, g, b, …)` stops at opacity 0.3, 0.6, 0.85 and 1 |
| CardImgComponent.StopsIncluded | js-components/card-img.js:186 | each of the four stops occurs in the ring's text |
| CardImgComponent.CardView | js-components/card-img.js:303-305 | after render the shadow root holds exactly the style and the card container |
| CardImgComponent.TextSectionShape | js-components/card-img.js:281-301 | the bottom section exists exactly when title or tag is non-empty and holds the title, then the tag, each only when non-empty |
| CardImgComponent.TopSectionShape | js-components/card-img.js:246-279 | the image layer exists exactly when `img` is truthy and comes first; the image layer holds the image `img` with an empty `alt`; the tint layer exists exactly when `tint` is truthy and comes last, coloured `#tint` |
| CardImgComponent.RadialOverlayShape | js-components/card-img.js:259-264 | the wrapper class is "image-wrapper radial-gradient" and the ring declared exactly when `radial` has six or more characters, otherwise "image-wrapper" and no ring |
| CardImgComponent.GradientPairExample | js-components/card-img.js:96-101 | `gradient="111111,222222"` gives a gradient from #111111 to #222222 |
| CardImgComponent.SingleGradientExample | js-components/card-img.js:96-101 | `gradient="111111"` gives two #111111 stops |
| CardImgComponent.PairStops | js-components/card-img.js:97-100 | the stops of "111111,222222" are 111111 and 222222 |
| CardImgComponent.PatternOverGradientExample | js-components/card-img.js:111-118 | `pattern="p.svg"` over that gradient lists `url(p.svg)` before the gradient, with `repeat, no-repeat` |
| CardImgComponent.RadialExample | js-components/card-img.js:85-92 | `radial="0176E0"` reads as rgb(1, 118, 224), and the ring and the radial class are added |
| CardImgComponent.ShortRadialExample | js-components/card-img.js:85-92 | `radial="01"` gives no colour, no ring and the plain wrapper class |
| CardImgComponent.ComposeTopSectionBackground | js-components/card-img.js:94-122 | reassigning `topSectionBgStyle` step by step gives the background of the precedence rule |
| CardImgComponent.BuildTopSection | js-components/card-img.js:242-277 | appending the image layer and then the tint layer gives the top section's children |
| CardImgComponent.BuildContainer | js-components/card-img.js:279-301 | appending the top section, then a bottom section with title and tag when either is non-empty, gives the container's children |
| CardImgComponent.BuildCard | js-components/card-img.js:70-301 | the style and the container `render()` builds are the card view of the attributes |
| CardImgComponent.CardImg.constructor | js-components/card-img.js:55-58 | a new element has an empty shadow root |
| CardImgComponent.CardImg.ConnectedCallback | js-components/card-img.js:60-62 | mounting renders the current attributes |
| CardImgComponent.CardImg.AttributeChangedCallback | js-components/card-img.js:64-68 | it re-renders exactly when the old and new values differ, otherwise the shadow root is untouched |
| CardImgComponent.CardImg.Render | js-components/card-img.js:303-305 | the shadow root is cleared and then holds exactly the style and the container, with no earlier node left |
| CardImgComponent.CardImg.SetAttribute | js-components/card-img.js:43-68 | a rendered shadow root always shows the current attributes; a change to an observed attribute's value renders; setting the same value, removing an absent attribute or changing an unobserved one leaves the shadow root as it was |
| PolaroidImgComponent.ReadsObservedOnly | js-components/polaroid-img.js:49-56 | `render()` reads only the six observed attributes |
| PolaroidImgComponent.InnerBackground | js-components/polaroid-img.js:75-81 | white whenever `none` is present, whatever its value and `color`; otherwise `#color`, with `color` defaulting to FFD600 |
| PolaroidImgComponent.Round | js-components/polaroid-img.js:76 | `round` defaults to "0" when absent or empty |
| PolaroidImgComponent.Offset | js-components/polaroid-img.js:77 | `offset` defaults to "0" when absent or empty |
| PolaroidImgComponent.PolaroidSheet | js-components/polaroid-img.js:84-145 | four plain rules, then the `max-width: 649px` rule for `.outer-frame`, which the first rule also styles; the inner container and the tint layer both start with the inner background |
| PolaroidImgComponent.PolaroidView | js-components/polaroid-img.js:176-178 | after render the shadow root holds exactly the style and the outer frame |
| PolaroidImgComponent.FrameShape | js-components/polaroid-img.js:147-174 | the frame holds exactly one inner container, which holds an image wrapper exactly when `img` is truthy |
| PolaroidImgComponent.TintLayerShape | js-components/polaroid-img.js:153-172 | a tint layer exists exactly when `img` is truthy and `tint` is present, and comes after the image; the image wrapper holds exactly the image followed by the tint layer when `tint` is present, and the image alone otherwise |
| PolaroidImgComponent.TintMatchesInnerBackground | js-components/polaroid-img.js:100-136 | the tint layer and the inner container get the same background colour at every width |
| PolaroidImgComponent.RoundAndOffset | js-components/polaroid-img.js:100-125 | the border radius is `round` px, the image bottom is `offset` px and its height `calc(100% + offset px)` |
| PolaroidImgComponent.ResponsiveFrame | js-components/polaroid-img.js:89-144 | the frame is 300 by 300 with 50px padding, and 200 by 200 with 33px padding when the viewport is at most 649px |
| PolaroidImgComponent.FrameDecl | js-components/polaroid-img.js:138-144 | the `@media` rule decides the frame sizes up to 649px and the plain rule decides them above |
| PolaroidImgComponent.BuildPolaroid | js-components/polaroid-img.js:73-174 | the style and the frame `render()` builds are the polaroid view of the attributes |
| PolaroidImgComponent.PolaroidImg.constructor | js-components/polaroid-img.js:58-61 | a new element has an empty shadow root |
| PolaroidImgComponent.PolaroidImg.ConnectedCallback | js-components/polaroid-img.js:63-65 | mounting renders the current attributes |
| PolaroidImgComponent.PolaroidImg.AttributeChangedCallback | js-components/polaroid-img.js:67-71 | it re-renders exactly when the value actually changed |
| PolaroidImgComponent.PolaroidImg.Render | js-components/polaroid-img.js:176-178 | the shadow root is cleared and then holds exactly the style and the frame |
| PolaroidImgComponent.PolaroidImg.SetAttribute | js-components/polaroid-img.js:49-71 | a rendered shadow root always shows the current attributes; only a changed observed value renders |
| HStackComponent.ReadsObservedOnly | js-components/h-stack.js:44 | `render()` reads only the three observed attributes |
| HStackComponent.Gap | js-components/h-stack.js:60 | `gap` defaults to "0" when absent or empty |
| HStackComponent.Align | js-components/h-stack.js:61 | `items-align` defaults to "stretch" when absent or empty |
| HStackComponent.Justify | js-components/h-stack.js:62 | `justify` defaults to "flex-start" when absent or empty |
| HStackComponent.HostSheet | js-components/h-stack.js:64-72 | one `:host` rule with five declarations, starting `display: flex` and `flex-direction: row` and ending with `gap` in px |
| HStackComponent.HStackView | js-components/h-stack.js:78-82 | after render the shadow root holds exactly the style and a slot |
| HStackComponent.HostLayout | js-components/h-stack.js:64-72 | the host is always `display: flex` with `flex-direction: row`; alignment, distribution and `gap` in px come from the attributes or their defaults |
| HStackComponent.BuildHStack | js-components/h-stack.js:59-78 | the style and the slot `render()` builds are the h-stack view of the attributes |
| HStackComponent.HStack.constructor | js-components/h-stack.js:46-49 | a new element has an empty shadow root |
| HStackComponent.HStack.ConnectedCallback | js-components/h-stack.js:51-53 | mounting renders the current attributes |
| HStackComponent.HStack.AttributeChangedCallback | js-components/h-stack.js:55-57 | every reported change re-renders, even to the same value |
| HStackComponent.HStack.Render | js-components/h-stack.js:80-82 | the shadow root is cleared and then holds exactly the style and the slot |
| HStackComponent.HStack.SetAttribute | js-components/h-stack.js:44-57 | a rendered shadow root always shows the current attributes; every observed `setAttribute` renders, even to the same value; removing an absent attribute and unobserved changes render nothing |

## Left out

- index.js is not part of this model. It only imports the element files to register them.
- `customElements.define`, `HTMLElement` and `attachShadow` are platform calls and are not modelled. The constructor stands for an element with an empty open shadow root.
- The platform's dispatch of lifecycle callbacks is modelled only by `SetAttribute`. It calls `AttributeChangedCallback` for observed names, except when an absent attribute is removed. Mounting is a call to `ConnectedCallback`. The `name` given to `SetAttribute` is the attribute name after the lowercasing that `setAttribute` and `removeAttribute` apply in an HTML document; that lowercasing is not modelled. The callbacks the platform fires for each observed attribute an element already has when it is created or upgraded are not modelled: the constructor leaves the shadow root empty even when such attributes are present.
- Image loading and the `onerror` warning are asynchronous I/O with a logging side effect, so they are not modelled.
- The static CSS text is left out: fonts, sizes, borders, positions, z-index and blend modes. The sheets hold only what depends on attributes and the fixed declarations a property is about.
- Dom.CascadedValue: it models only source order among rules whose selector matches exactly, and `max-width` media rules on an integer pixel width. Specificity, inheritance, shadow-DOM scoping and the layout those declarations produce are left out.
- The `className`, `src`, `alt`, `textContent` and `style.backgroundColor` the code sets are modelled as node fields. The `onerror` handler is not.
- Strings are sequences of Unicode characters. JavaScript's `length` and `substring` count UTF-16 code units, so a radial colour containing characters outside the Basic Multilingual Plane is measured differently.
- JsText.NatToString and JsText.NumberToString print only integers and NaN. These are the only numbers `parseInt` produces here. A negative zero is modelled as 0, which is how it prints.
- Attribute values are interpolated into CSS without escaping, as the code does. The model keeps each interpolated value as one atomic declaration value. It does not model how the browser parses the resulting text. A value holding `;`, `{` or `}` can add or override declarations and rules in the browser, and the model does not capture that.
- A declaration's value is kept as the text the code writes. An invalid colour, which the browser ignores in `style.backgroundColor` and in the sheet, is still kept.
- HStackComponent.HostLayout: holds only for attribute values without `;`, `{` or `}`, since such a value in `items-align`, `justify` or `gap` can override `flex-direction` in the browser.
- PolaroidImgComponent.ResponsiveFrame: holds only for `color`, `round` and `offset` without `;`, `{` or `}`, since such a value can add rules that resize the frame.
- PolaroidImgComponent.TintMatchesInnerBackground: holds only for attribute values without `;`, `{` or `}`, for the same reason.
- PolaroidImgComponent.RoundAndOffset: holds only for attribute values without `;`, `{` or `}`, for the same reason.
- CardImgComponent.RadialDecls: the ensures name the four `rgba` stops the ring includes. The transparent stops at 0% and 85% and the order of the stops are in its body only.
