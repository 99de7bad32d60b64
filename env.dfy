/** The collaborators the archiver calls but does not implement, each as a
    function value: the SHA-1 digest, `normalize_url` and the pieces of
    `urllib.parse`, the HTTP fetcher, the CSS and HTML parsers and
    serializers, text encodings, `quote` and base64. */
module Env {
  import opened Outcomes
  import opened Templates
  import opened Html

  newtype byte = b: int | 0 <= b < 256

  type Bytes = seq<byte>

  predicate IsLowerHexDigit(c: char) {
    '0' <= c <= '9' || 'a' <= c <= 'f'
  }

  /** `hashlib.sha1(...).hexdigest()`: 40 lower-case hex digits. */
  predicate IsHexDigest(s: string) {
    |s| == 40 && forall i :: 0 <= i < |s| ==> IsLowerHexDigit(s[i])
  }

  type HexDigest = s: string | IsHexDigest(s)
    witness "0000000000000000000000000000000000000000"

  /** What `_url_fetcher(url, return_bytes=True)` returns: the response's
      encoding, its content type without parameters, its decoded text and
      its raw bytes. */
  datatype Response = Response(encoding: string, contentType: string, text: string, content: Bytes)

  /** A parsed stylesheet as `replaceUrls` sees it: literal CSS text and
      the values of the `url(...)` references between it. */
  datatype CssPiece = CssText(text: string) | CssUrl(ref: string)

  type Stylesheet = seq<CssPiece>

  datatype Primitives = Primitives(
    sha1Hex: string -> HexDigest,                    // sha1(url.encode()).hexdigest()
    normalize: (string, string) -> string,           // normalize_url(root_url, url)
    urlPath: string -> string,                       // urlsplit(url).path
    urlFragment: string -> string,                   // urlsplit(url).fragment
    fetch: string -> Option<Response>,               // the HTTP GET; None when it raises
    parseCss: (string, string, string) -> Stylesheet, // parseString(text, encoding, href) + resolveImports
    serializeCss: Stylesheet -> string,              // minified cssText, decoded
    parseHtml: string -> seq<AssetElement>,          // the elements `lookup_css_query` selects
    serializeHtml: (string, seq<AssetElement>) -> Bytes, // the rewritten document, encoded
    encode: (string, string) -> Bytes,               // text.encode(encoding), as write_text does
    decodeUtf8: Bytes -> Option<string>,             // read_text('utf-8'); None on invalid UTF-8
    parseTemplate: string -> Template,               // HTMLTemplate(text) matched by its pattern
    quote: string -> string,                         // urllib.parse.quote
    b64: Bytes -> string                             // base64.b64encode(...).decode()
  )
}
