/**
 * The foreign services the extractor leans on, reduced to what it observes of them.
 *
 * A parsed HTML document is seen only through `querySelector` with a fixed set of
 * selector strings, so it is modelled as a map from those selector strings to the first
 * matching element (its attributes and its `textContent`). URL parsing and resolution
 * (`new URL(s)`, `new URL(s, base)`) are uninterpreted partial functions supplied by
 * the caller.
 */
module Web {
  import opened Common

  datatype Element = Element(attributes: map<string, string>, textContent: string)

  /** Selector string -> first element that `querySelector` returns for it. */
  type Document = map<string, Element>

  function Query(doc: Document, selector: string): Option<Element> {
    if selector in doc then Some(doc[selector]) else None
  }

  /** `element.getAttribute(name)` */
  function GetAttribute(e: Element, name: string): Option<string> {
    if name in e.attributes then Some(e.attributes[name]) else None
  }

  /** `doc.querySelector(selector)?.getAttribute(name)` */
  function AttrOf(doc: Document, selector: string, name: string): Option<string> {
    match Query(doc, selector)
    case None => None
    case Some(e) => GetAttribute(e, name)
  }

  /** `doc.querySelector(selector)?.textContent` */
  function TextOf(doc: Document, selector: string): Option<string> {
    match Query(doc, selector)
    case None => None
    case Some(e) => Some(e.textContent)
  }

  /** JavaScript truthiness of a `string | null | undefined`. */
  predicate Truthy(v: Option<string>) {
    v.Some? && v.value != ""
  }

  /** `a || b` on `string | null | undefined`. */
  function Or(a: Option<string>, b: Option<string>): (r: Option<string>)
    ensures Truthy(r) <==> Truthy(a) || Truthy(b)
    ensures Truthy(a) ==> r == a
    ensures !Truthy(a) ==> r == b
  {
    if Truthy(a) then a else b
  }

  /** The parts of a parsed URL that the core reads. */
  datatype UrlParts = UrlParts(hostname: string, pathname: string, origin: string)

  /**
   * The WHATWG URL parser as the core uses it: `parse(s)` is `new URL(s)` (None when it
   * throws), `resolve(s, base)` is `new URL(s, base).href` (None when it throws), and
   * `invalidUrlMessage` is the message of the TypeError that `new URL` throws.
   */
  datatype UrlApi = UrlApi(
    parse: string -> Option<UrlParts>,
    resolve: (string, string) -> Option<string>,
    invalidUrlMessage: string)
}
