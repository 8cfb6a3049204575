/** The slice of the browser platform the components rely on: the host
    element's attributes as `getAttribute` and `hasAttribute` see them, the
    truthiness JavaScript gives to the value `getAttribute` returns, and the
    nodes a component appends to its shadow root. */
module Dom {

  datatype Option<+T> = None | Some(value: T)

  /** A JavaScript number as the components print it: an integer or NaN. */
  datatype JsNumber = Num(n: int) | NaN

  /** One CSS declaration `property: value;`. */
  datatype Decl = Decl(property: string, value: string)

  /** One rule of a component's style sheet, either plain or inside an
      `@media (max-width: …px)` block. Only the declarations that depend on
      attributes, or that a property below is about, are listed. */
  datatype Rule =
    | Rule(selector: string, decls: seq<Decl>)
    | MaxWidthRule(maxWidth: nat, selector: string, decls: seq<Decl>)

  /** The nodes the components create. `Div` carries its class name, its
      inline `background-color` (if set through `style`), its text content
      (if set) and its children in `appendChild` order. */
  datatype Node =
    | Style(rules: seq<Rule>)
    | Div(className: string, inlineBackground: Option<string>, text: Option<string>, children: seq<Node>)
    | Img(src: string, alt: string)
    | Slot

  /** The host element's attributes: name to value, absent names are unset. */
  type Attributes = map<string, string>

  /** `element.getAttribute(name)`: the value, or null when the attribute is absent. */
  function GetAttribute(attrs: Attributes, name: string): (r: Option<string>)
    ensures r.Some? <==> name in attrs
    ensures name in attrs ==> r.value == attrs[name]
  {
    if name in attrs then Some(attrs[name]) else None
  }

  /** `element.hasAttribute(name)`: presence, whatever the value (even ""). */
  predicate HasAttribute(attrs: Attributes, name: string)
    ensures HasAttribute(attrs, name) <==> GetAttribute(attrs, name).Some?
    ensures GetAttribute(attrs, name) == Some("") ==> HasAttribute(attrs, name)
  {
    name in attrs
  }

  /** JavaScript truthiness of a `string | null`: neither null nor "". */
  predicate Truthy(v: Option<string>)
    ensures v.None? ==> !Truthy(v)
    ensures v == Some("") ==> !Truthy(v)
    ensures v.Some? && |v.value| >= 1 ==> Truthy(v)
  {
    v.Some? && v.value != ""
  }

  /** `v || fallback` for a `string | null` value. */
  function OrElse(v: Option<string>, fallback: string): (r: string)
    ensures Truthy(v) ==> r == v.value
    ensures !Truthy(v) ==> r == fallback
    ensures fallback != "" ==> r != ""
  {
    if v.Some? && v.value != "" then v.value else fallback
  }

  /** `setAttribute(name, v)` for `Some(v)`, `removeAttribute(name)` for `None`. */
  function WithAttribute(attrs: Attributes, name: string, value: Option<string>): (r: Attributes)
    ensures GetAttribute(r, name) == value
    ensures forall other :: other != name ==> GetAttribute(r, other) == GetAttribute(attrs, other)
  {
    match value
    case Some(v) => attrs[name := v]
    case None => attrs - {name}
  }

  /** Setting an attribute to the value it already has leaves the map as it is. */
  lemma WithSameAttribute(attrs: Attributes, name: string)
    ensures WithAttribute(attrs, name, GetAttribute(attrs, name)) == attrs
  {
  }

  // ---------------------------------------------------------------------
  // Cascade

  /** Whether `rule` styles elements matched by `selector` when the viewport
      is `width` CSS pixels wide. */
  predicate Applies(rule: Rule, selector: string, width: nat)
  {
    rule.selector == selector && (rule.MaxWidthRule? ==> width <= rule.maxWidth)
  }

  /** The value of the last declaration of `property` in `decls`. */
  function LastDeclared(decls: seq<Decl>, property: string): (r: Option<string>)
    ensures r.Some? <==> exists i :: 0 <= i < |decls| && decls[i].property == property
    ensures r.Some? ==> Decl(property, r.value) in decls
    decreases |decls|
  {
    if decls == [] then None
    else if decls[|decls| - 1].property == property then Some(decls[|decls| - 1].value)
    else LastDeclared(decls[..|decls| - 1], property)
  }

  /** The value the cascade gives `property` on elements matched by
      `selector`: the last applicable declaration in source order. All the
      rules here have the same specificity, so source order decides. */
  function CascadedValue(rules: seq<Rule>, selector: string, property: string, width: nat): (r: Option<string>)
    ensures r.Some? <==> exists i :: 0 <= i < |rules| && Applies(rules[i], selector, width)
                                     && LastDeclared(rules[i].decls, property).Some?
    decreases |rules|
  {
    if rules == [] then None
    else
      var last := rules[|rules| - 1];
      var own := LastDeclared(last.decls, property);
      if Applies(last, selector, width) && own.Some? then own
      else CascadedValue(rules[..|rules| - 1], selector, property, width)
  }

  /** Within a rule, the last declaration of a property decides its value. */
  lemma {:induction false} LastDeclaredIs(decls: seq<Decl>, k: nat, property: string)
    requires k < |decls| && decls[k].property == property
    requires forall j :: k < j < |decls| ==> decls[j].property != property
    ensures LastDeclared(decls, property) == Some(decls[k].value)
    decreases |decls|
  {
    if k < |decls| - 1 {
      LastDeclaredIs(decls[..|decls| - 1], k, property);
    }
  }

  /** Across rules, the last applicable rule that declares the property
      decides its value. */
  lemma {:induction false} CascadedValueIs(rules: seq<Rule>, k: nat, selector: string, property: string, width: nat)
    requires k < |rules| && Applies(rules[k], selector, width)
    requires LastDeclared(rules[k].decls, property).Some?
    requires forall j :: k < j < |rules| ==>
               !Applies(rules[j], selector, width) || LastDeclared(rules[j].decls, property).None?
    ensures CascadedValue(rules, selector, property, width) == LastDeclared(rules[k].decls, property)
    decreases |rules|
  {
    if k < |rules| - 1 {
      CascadedValueIs(rules[..|rules| - 1], k, selector, property, width);
    }
  }

  /** When only one rule, a plain one, has the selector, the last
      declaration of the property in that rule decides its value at every
      viewport width. */
  lemma SoleRuleDecides(rules: seq<Rule>, k: nat, i: nat, selector: string, property: string, width: nat)
    requires k < |rules| && rules[k].Rule? && rules[k].selector == selector
    requires forall j :: 0 <= j < |rules| && j != k ==> rules[j].selector != selector
    requires i < |rules[k].decls| && rules[k].decls[i].property == property
    requires forall j :: i < j < |rules[k].decls| ==> rules[k].decls[j].property != property
    ensures CascadedValue(rules, selector, property, width) == Some(rules[k].decls[i].value)
  {
    LastDeclaredIs(rules[k].decls, i, property);
    CascadedValueIs(rules, k, selector, property, width);
  }
}
