/** The per-element rule of the attribute pass of `archive_url`
    (archiver.py:70-75, 294-303): which attribute holds an element's asset
    URL, and how the element changes once that URL has been resolved. */
module Html {
  import opened Text
  import opened Templates

  /** An element the HTML parser produced: its tag and its attributes. */
  datatype Element = Element(tag: string, attrs: map<string, string>)

  /** `lookup_tag_attrs` (archiver.py:70-75). */
  const LookupTagAttrs: map<string, string> :=
    map["image" := "xlink:href", "use" := "xlink:href", "object" := "data", "link" := "href"]

  /** `lookup_tag_attrs.get(tag, 'src')`. */
  function AttrFor(tag: string): string {
    if tag in LookupTagAttrs then LookupTagAttrs[tag] else "src"
  }

  /** Every element that `lookup_css_query` selects carries the attribute
      the tag rule names: each selector tests for exactly that attribute. */
  predicate Selected(e: Element) {
    AttrFor(e.tag) in e.attrs
  }

  type AssetElement = e: Element | Selected(e) witness Element("img", map["src" := ""])

  /** The URL the pass hands to the resolver for this element. */
  function AssetUrl(e: AssetElement): string {
    e.attrs[AttrFor(e.tag)]
  }

  const TemplateIdAttr: string := "data-template-id"

  /** The element after its URL resolved to `v`: a `link` keeps its `href`
      and gets `data-template-id` set to `v[4:-1]`; any other element has
      its asset attribute overwritten with `v`. */
  function RewriteElement(e: AssetElement, v: string): (r: AssetElement) {
    if e.tag == "link" then e.(attrs := e.attrs[TemplateIdAttr := PySlice(v, 4, -1)])
    else e.(attrs := e.attrs[AttrFor(e.tag) := v])
  }

  /** The tag rule: `image` and `use` name `xlink:href`, `object` names
      `data`, `link` names `href`, and every other tag `src`. */
  lemma AttrForRule(tag: string)
    ensures AttrFor(tag) == "xlink:href" <==> tag == "image" || tag == "use"
    ensures AttrFor(tag) == "data" <==> tag == "object"
    ensures AttrFor(tag) == "href" <==> tag == "link"
    ensures AttrFor(tag) == "src" <==> tag !in {"image", "use", "object", "link"}
  {
  }

  /** Slicing `[4:-1]` off a placeholder gives back the bare identifier. */
  lemma PlaceholderSliceIsId(id: string)
    ensures PySlice(Placeholder(id), 4, -1) == id
  {
    var v := Placeholder(id);
    assert |v| == |id| + 5;
    assert v[4..|v| - 1] == id;
  }

  /** The rewrite touches one attribute: `data-template-id` on a `link`
      (its `href` stays), the asset attribute on any other element. For a
      placeholder the `link` gets the bare identifier. */
  lemma RewriteElementEffect(e: AssetElement, v: string)
    ensures var r := RewriteElement(e, v);
      && r.tag == e.tag
      && (e.tag == "link" ==>
            r.attrs.Keys == e.attrs.Keys + {TemplateIdAttr}
            && r.attrs[TemplateIdAttr] == PySlice(v, 4, -1)
            && r.attrs["href"] == e.attrs["href"]
            && forall a :: a in e.attrs && a != TemplateIdAttr ==> r.attrs[a] == e.attrs[a])
      && (e.tag != "link" ==>
            r.attrs.Keys == e.attrs.Keys
            && r.attrs[AttrFor(e.tag)] == v
            && forall a :: a in e.attrs && a != AttrFor(e.tag) ==> r.attrs[a] == e.attrs[a])
  {
  }

  lemma LinkGetsIdentifier(e: AssetElement, id: string)
    requires e.tag == "link"
    ensures RewriteElement(e, Placeholder(id)).attrs[TemplateIdAttr] == id
    ensures RewriteElement(e, Placeholder(id)).attrs["href"] == e.attrs["href"]
  {
    PlaceholderSliceIsId(id);
  }
}
