# website-archiver, modelled in Dafny

website-archiver saves a web page for offline viewing. The archive is a
folder with three parts:

- the page's raw HTML;
- an `assets/` folder holding every image, font, media file and stylesheet
  the page refers to. Each file is named by the SHA-1 hash of its URL plus
  the URL's suffix;
- a *template* copy of the page, and `metadata.json`, which maps each
  asset's `id` to its content type and URL. In the template, a selected
  element whose URL has an asset suffix has that attribute replaced by a
  `$$${id}` placeholder, except a `<link>`, which keeps its `href` and
  gains `data-template-id="id"`. A URL without an asset suffix is kept (a
  `data:` URL), normalized, or reduced to its `#fragment`.

Rendering reads the template back and substitutes every placeholder with a
`data:` URL. A stylesheet is itself rendered as a template, recursively.

Each module covers one piece of the source.

- **`Text`, `Paths`** (text.dfy, paths.dfy): the Python string and
  `pathlib` operations the archiver relies on, namely `rfind`, `split`/`join`,
  ASCII `lower`, slicing, and a path's name, `suffix`, `stem` and
  `with_suffix`.
- **`Codec`** (codec.dfy): `generate_url_hash`, `url_to_file`, the template
  identifier `stem_ext` of an asset file, and `template_id_to_file`, with
  their round trip.
- **`Templates`** (templates.dfy): `HTMLTemplate`, a `string.Template` with
  the `$$$` delimiter, after its pattern has matched; `get_identifiers` and
  `substitute`.
- **`Html`** (html.dfy): the tag-to-attribute rule and how one selected
  element is rewritten.
- **`Resolver`** (resolver.dfy): `_url_resolver`, the `replaceUrls` walk over
  a fetched stylesheet, the attribute pass of `archive_url` and
  `archive_url`, all as functions of the archive's state. Each returns the
  answer together with the state reached, also on an exception.
- **`Renderer`** (renderer.dfy): `get_template_identifiers` and
  `render_url_to_flat_file` as functions.
- **`Archiver`** (archiver.dfy): the `Archiver` class itself.
  - It keeps the folder (`files`, the URLs `fetched`, `metadata.json`) in
    fields, and the ledger (`asset_urls_metadata`) in a `Ledger` object the
    resolver updates in place.
  - Its methods work step by step as the source does, with loops where the
    source loops.
  - Each method is proved to produce the answer and state of the matching
    `Resolver` or `Renderer` function.
- **`CssEscape`** (css_escape.dfy): `escape_css` from utils.py, as a loop
  proved equal to a per-code-point transducer, plus a reader of CSS escapes
  that takes its output back to its input.

Collaborators outside the core are parameters, gathered in the `Primitives`
datatype (env.dfy):

- the SHA-1 digest, `normalize_url` and the `urlsplit` fields;
- the HTTP fetch;
- `css_parser` parsing and serialization;
- HTML parsing and serialization;
- text encodings, `quote` and base64.

Python's recursion limit becomes a `fuel` argument: out of fuel is
`RecursionLimit`, Python's `RecursionError`.

Two points where the model departs from the code as written:

- `_url_resolver` reads a name `url` that is bound neither in its scope
  nor at module level (archiver.py:181, 212), so as written every call
  raises `NameError`. Here the model follows the evidently intended
  behaviour: it passes the page URL as an explicit `base`, and nested
  stylesheets use the same base.
- `url_to_file` calls `with_suffix` on the hash. The model names the file
  as the hash followed by the suffix, and `Codec.AssetFileName` proves the
  two names equal, so here the model and the code agree.

## Model

| member | source | states |
|---|---|---|
| Codec.GenerateUrlHash | archiver.py:42-47 | the hash is `_` followed by 40 lower-case hex digits, 41 characters in all |
| Codec.FormatShape | archiver.py:61-68 | every asset format is a dot followed by lower-case letters or digits, so none contains `_` |
| Codec.UrlSuffix | archiver.py:164-165 | `Path(urlsplit(url).path).suffix.lower()`; characterised by `Codec.UrlSuffixWellFormed` (no contract of its own) |
| Codec.UrlSuffixWellFormed | archiver.py:164-165 | the lower-cased suffix of a URL's path is empty or a dot followed by characters with no dot and no `/` |
| Codec.UrlToFile | archiver.py:161-169 | `url_to_file`; its naming is characterised by `Codec.AssetFileName` and `Codec.TemplateIdRoundTrip` (no contract of its own) |
| Codec.AssetFileName | archiver.py:161-169 | `url_to_file` names the hash plus the suffix in `assets/`; that suffix is accepted by `with_suffix`; the path's suffix and stem read back as the URL's suffix and the hash; its template identifier is `hash_ext` |
| Codec.HashHasNoDot | archiver.py:42-47 | the URL hash contains no dot, so it has no suffix of its own |
| Codec.HashedIdIsIdentifier | archiver.py:195 | `hash_ext` matches `string.Template`'s identifier pattern when `ext` is lower-case letters and digits |
| Codec.TemplateId | archiver.py:195 | the `stem_ext` identifier of an asset file; `Codec.AssetFileName` proves it is `hash_ext` and `Codec.TemplateIdRoundTrip` that `template_id_to_file` inverts it (no contract of its own) |
| Codec.TemplateIdToFile | archiver.py:171-178 | `template_id_to_file`, including the empty-stem case and the suffix `with_suffix` rejects; characterised by `Codec.HashedIdToFile` and `Codec.TemplateIdRoundTrip` (no contract of its own) |
| Codec.StemAndExt | archiver.py:171-173 | splitting `h_e` on `_` and re-joining all but the last chunk gives `h` back, and the last chunk is `e`, when `e` has no `_` |
| Codec.HashedIdToFile | archiver.py:171-178 | `template_id_to_file(h_ext)` returns the asset file `h.ext` |
| Codec.TemplateIdRoundTrip | archiver.py:161-195 | for a URL with an asset suffix, its template identifier is an identifier, and `template_id_to_file` maps it back to `url_to_file(url)` |
| Codec.RawHtmlFile | archiver.py:149-153 | `get_url_raw_html_file`; characterised by `Codec.HtmlFileNames` (no contract of its own) |
| Codec.TemplateHtmlFile | archiver.py:155-159 | `get_url_template_html_file`; characterised by `Codec.HtmlFileNames` (no contract of its own) |
| Codec.HtmlFileNames | archiver.py:149-159 | the raw and template HTML files share the page hash, end in `.raw.html` and `.template.html`, lie in the container folder and are distinct |
| Text.StartsWith | archiver.py:185 | `str.startswith`, used by the `data:` test, the `text...` content-type test (archiver.py:230) and the leading `-` test of `escape_css` (no contract of its own; characterised through `Resolver.ResolveNonAsset` and `Resolver.ResolveFetchesAsset`) |
| Text.LastIndexOf | archiver.py:165 | `rfind`: -1 exactly when the character is absent, otherwise the last index holding it |
| Text.Split | archiver.py:172 | `split` gives at least one chunk, and no chunk holds the separator |
| Text.Join | archiver.py:173 | `'_'.join(chunks)`; characterised by `Text.JoinSplit` and `Text.SplitAtLast` (no contract of its own) |
| Text.JoinSplit | archiver.py:172-173 | joining the chunks of `split(sep)` with `sep` gives the string back |
| Text.SplitAtLast | archiver.py:172 | splitting `a + sep + b`, where `b` has no separator, gives the chunks of `a` followed by `b` |
| Text.LowerAscii | archiver.py:165 | lower-casing keeps the length |
| Text.LowerAsciiAt | archiver.py:165 | each character of the lowered string is the lowered character at the same index |
| Text.SliceBound | archiver.py:301 | a Python slice bound is clamped to `0..len` |
| Text.PySlice | archiver.py:301 | a Python slice is never longer than the string |
| Paths.PathName | archiver.py:164-165 | a path's final component contains no `/` |
| Paths.LastComponent | archiver.py:164-165 | the last non-empty, non-`.` component contains no `/` |
| Paths.Suffix | archiver.py:165 | `PurePath.suffix`: from the last dot, unless that dot is first or last; characterised by `Paths.SuffixWellFormed` and `Paths.SuffixOfAppended` (no contract of its own) |
| Paths.Stem | archiver.py:195 | `PurePath.stem`, the name without its suffix; characterised by `Paths.SuffixOfAppended` and `Codec.AssetFileName` (no contract of its own) |
| Paths.WithSuffix | archiver.py:167-169 | `with_suffix` for an accepted suffix; characterised by `Codec.AssetFileName` and `Codec.HashedIdToFile` (no contract of its own) |
| Paths.SuffixWellFormed | archiver.py:165 | `Path.suffix` of a name without `/` is empty or a dot followed by characters with no dot |
| Paths.LowerKeepsWellFormed | archiver.py:165 | lower-casing keeps a suffix's shape |
| Paths.SuffixOfAppended | archiver.py:167-169 | a dot-free name followed by a suffix has that suffix, and the name as its stem |
| Templates.Identifiers | archiver.py:363 | `get_identifiers` lists the slot names without repetition, and a name is listed exactly when it occurs as a slot |
| Templates.IdentifiersInOrder | archiver.py:363 | the names are listed in the order of their first slot: no slot of a later name comes before the first slot of an earlier one |
| Templates.Substitute | archiver.py:403-405 | `substitute`, left to right, raising at the first invalid placeholder or missing name; characterised by `Templates.SubstituteSucceeds` (no contract of its own) |
| Templates.SubstituteSucceeds | archiver.py:403-405 | `substitute` succeeds exactly when there is no invalid placeholder and every slot has a value |
| Html.AttrFor | archiver.py:296 | `lookup_tag_attrs.get(tag, 'src')`; characterised by `Html.AttrForRule` (no contract of its own) |
| Html.AttrForRule | archiver.py:70-75 | `image` and `use` read `xlink:href`, `object` reads `data`, `link` reads `href`, and every other tag reads `src`, each in both directions |
| Html.PlaceholderSliceIsId | archiver.py:301 | `[4:-1]` of `$$${id}` is `id` |
| Html.AssetUrl | archiver.py:296-297 | `tag.attrs.get(tag_attr)` for the attribute `lookup_tag_attrs` names; characterised through `Resolver.RewriteElementsValue` (no contract of its own) |
| Html.RewriteElement | archiver.py:298-303 | one element rewritten with the resolver's answer; characterised by `Html.RewriteElementEffect` and `Html.LinkGetsIdentifier` (no contract of its own) |
| Html.RewriteElementEffect | archiver.py:298-303 | a `link` gains only `data-template-id`, set to `v[4:-1]`, and keeps `href`; any other element has only its asset attribute set to `v`; the tag and all other attributes are unchanged |
| Html.LinkGetsIdentifier | archiver.py:298-301 | a rewritten `link` carries the bare identifier in `data-template-id` and keeps its `href` |
| Resolver.Passthrough | archiver.py:185-193 | the answer for a URL without an asset suffix; characterised by `Resolver.ResolveNonAsset` (no contract of its own) |
| Resolver.Resolve | archiver.py:180-182 | `_url_resolver`: normalize the reference against the page URL, then resolve its asset file; characterised by `ResolveNonAsset`, `ResolveExisting`, `ResolveFetchesAsset`, `ResolveFetchesStylesheet`, `ResolveValue`, `ResolveGrows` (no contract of its own) |
| Resolver.ResolveFile | archiver.py:184-196 | the three cases of the resolver: passthrough, existing file, fetch (no contract of its own; see the lemmas on `Resolve`) |
| Resolver.FetchAsset | archiver.py:197-233 | the fetch branch: log the fetch, record `{content_type, url}`, store the asset; characterised by `ResolveFetchesAsset`, `StylesheetEntryRecorded`, `FetchAssetGrows` (no contract of its own) |
| Resolver.StoreStylesheet | archiver.py:208-228 | the stylesheet branch; characterised by `StoreStylesheetValue`, `StoreStylesheetKeepsFetched`, `StoreStylesheetGrows` (no contract of its own) |
| Resolver.ReplaceUrls | archiver.py:218-222 | the `replaceUrls` walk; characterised by `ReplaceUrlsValue` and `ReplaceUrlsGrows` (no contract of its own) |
| Resolver.RewriteElements | archiver.py:294-303 | the attribute pass; characterised by `RewriteElementsValue` and `RewriteElementsGrows` (no contract of its own) |
| Resolver.ArchivePage | archiver.py:261-358 | `archive_url` with the attribute pass; characterised by `ArchiveLedgerOnlyNewAssets`, `ArchiveKeepsStoredAssets` and `StoredAssetLeftOutOfLedger` (no contract of its own) |
| Resolver.RewriteSheet | archiver.py:218-222 | rewriting a stylesheet keeps its number of pieces |
| Resolver.RewriteSheetAt | archiver.py:218-222 | each piece of the rewritten sheet is the piece at the same index, with `url(...)` values resolved and text kept |
| Resolver.ResolveNonAsset | archiver.py:184-193 | a URL without an asset suffix changes nothing and comes back as a `data:` URL, as `#fragment`, or as the normalized URL |
| Resolver.ResolveExisting | archiver.py:195-235 | an asset whose file exists is not fetched, the state is unchanged, and the answer is `$$${id}` |
| Resolver.ResolveFetchesAsset | archiver.py:197-235 | a missing non-stylesheet asset is fetched once. A failed fetch raises `FetchFailed`. Otherwise the ledger gets `{content_type, url}` under its id, the file gets the re-encoded text for a `text...` type and the raw bytes for any other, and the answer is `$$${id}` |
| Resolver.ResolveFetchesStylesheet | archiver.py:197-213 | a missing stylesheet is fetched first, before the URLs in it. A failed fetch raises. Otherwise its `{content_type, url}` entry is recorded before the walk over the sheet starts, and with no fuel left that walk raises `RecursionLimit` |
| Resolver.StoreStylesheetKeepsFetched | archiver.py:208-228 | the stylesheet branch only appends to the fetched URLs, and raises at once with no fuel |
| Resolver.ResolveStoresStylesheet | archiver.py:203-235 | when a fetched stylesheet's pass succeeds, its id is in the ledger, the answer is `$$${id}`, and its file holds the serialized sheet with every `url(...)` rewritten; the entry under the id is stated by `Resolver.StylesheetEntryRecorded` |
| Resolver.StoreStylesheetValue | archiver.py:208-235 | a successful stylesheet branch answers `$$${id}`, keeps `id` in the ledger, and writes the rewritten sheet to the asset file |
| Resolver.ReplaceUrlsKeepsKey | archiver.py:218-222 | the `replaceUrls` walk keeps every ledger key it started with, and only appends fetches |
| Resolver.ResolveValue | archiver.py:180-235 | whatever the archive's state, a successful resolve answers with the placeholder for an asset and with the passthrough otherwise |
| Resolver.ReplaceUrlsValue | archiver.py:218-222 | a successful walk gives the sheet with every `url(...)` rewritten by that answer |
| Resolver.RewriteElementsValue | archiver.py:294-303 | a successful attribute pass keeps the number of elements and rewrites each one, in order, with that answer |
| Resolver.ResolveGrows | archiver.py:180-235 | the resolver never rewrites a file that exists (existence is its dedup test), only adds files and ledger keys and only appends fetches; every key it adds names an asset file that was missing |
| Resolver.MissingAssetKeyIsNew | archiver.py:195-206 | the id recorded for a missing asset maps back to that missing file |
| Resolver.GrowsByEntry | archiver.py:203-206 | recording a missing asset's entry only adds a new key |
| Resolver.FetchAssetGrows | archiver.py:197-235 | the fetch branch only adds to the state: existing files keep their bytes |
| Resolver.FetchAssetPlainGrows | archiver.py:197-233 | the non-stylesheet fetch only adds to the state: existing files keep their bytes |
| Resolver.FetchAssetSheetGrows | archiver.py:197-228 | the stylesheet fetch only adds to the state: existing files keep their bytes |
| Resolver.StoreStylesheetGrows | archiver.py:208-228 | for a stylesheet file not yet stored, the stylesheet branch only adds to the state: existing files keep their bytes |
| Resolver.ReplaceUrlsGrows | archiver.py:218-222 | the `replaceUrls` walk only adds to the state: existing files keep their bytes |
| Resolver.RewriteElementsGrows | archiver.py:294-303 | the attribute pass only adds to the state: existing files keep their bytes |
| Resolver.ResolveKeepsRecorded | archiver.py:180-235 | a ledger entry that is `{content_type, url}` of a fetched URL with its key's identifier stays so through a resolve |
| Resolver.FetchAssetKeepsRecorded | archiver.py:197-233 | the fetch branch records its own entry correctly and keeps every correct entry correct |
| Resolver.StoreStylesheetKeepsRecorded | archiver.py:208-228 | the stylesheet branch keeps every correct entry correct |
| Resolver.ReplaceUrlsKeepsRecorded | archiver.py:218-222 | the `replaceUrls` walk keeps every correct entry correct |
| Resolver.StylesheetEntryRecorded | archiver.py:203-222 | after a fetched stylesheet's pass, its id holds `{content_type, url}` of a fetched URL with that id; unless another URL fetched on the way has the same id, it is the stylesheet's own content type and URL |
| Resolver.ArchiveLedgerOnlyNewAssets | archiver.py:261-346 | on success `metadata.json` is overwritten with a ledger that started empty, and every key in it names an asset file missing before the call; on an exception `metadata.json` is untouched |
| Resolver.ArchiveKeepsStoredAssets | archiver.py:261-358 | `archive_url` never rewrites an asset file already in the archive, whether it succeeds or raises |
| Resolver.StoredAssetLeftOutOfLedger | archiver.py:261-346 | re-archiving into a folder that already holds an asset leaves that asset's id out of the new `metadata.json` |
| Renderer.ReadAsset | archiver.py:368-371 | `template_id_to_file(id)` then reading it: the path error or a missing file raises; characterised by `Renderer.DataUrlCases` (no contract of its own) |
| Renderer.CssDataUrl | archiver.py:378-380 | `data:text/css;charset=UTF-8,` plus the quoted CSS; characterised by `Renderer.DataUrlCases` (no contract of its own) |
| Renderer.BinaryDataUrl | archiver.py:382-388 | `data:<type>;base64,<b64>`; characterised by `Renderer.DataUrlCases` and `Renderer.FetchedAssetRenders` (no contract of its own) |
| Renderer.DataUrl | archiver.py:364-388 | one identifier's `data:` URL; characterised by `Renderer.MissingEntryFails` and `Renderer.DataUrlCases` (no contract of its own) |
| Renderer.VarsOf | archiver.py:362-392 | the loop of `get_template_identifiers` over a list of names; characterised by `Renderer.VarsOfSucceeds` and `Renderer.VarsOfContents` (no contract of its own) |
| Renderer.TemplateVars | archiver.py:360-392 | `get_template_identifiers`; characterised by `Renderer.TemplateVarsSpec` (no contract of its own) |
| Renderer.RenderUrl | archiver.py:394-405 | `render_url_to_flat_file` up to its final write; characterised by `Renderer.RenderUrlSucceeds` (no contract of its own) |
| Renderer.MissingEntryFails | archiver.py:364 | an identifier without a ledger entry raises a lookup error |
| Renderer.DataUrlCases | archiver.py:364-388 | a non-`text/css` asset becomes `data:<type>;base64,<b64 of the file>`; a `text/css` one becomes `data:text/css;charset=UTF-8,` plus the quoted rendering of the file as a template, using its own identifiers; read errors raise |
| Renderer.VarsOfSucceeds | archiver.py:363-392 | the loop succeeds exactly when every identifier's `data:` URL does |
| Renderer.VarsOfContents | archiver.py:363-392 | on success the keys are exactly the identifiers, each mapped to its `data:` URL |
| Renderer.TemplateVarsSpec | archiver.py:360-392 | `get_template_identifiers` succeeds exactly when every slot's `data:` URL does. On success its keys are exactly the slots, each mapped to its `data:` URL. A slot missing from the ledger makes it fail |
| Renderer.RenderUrlSucceeds | archiver.py:394-405 | rendering a page whose template exists succeeds exactly when the template has no invalid placeholder and every slot has a `data:` URL |
| Renderer.FetchedAssetRenders | archiver.py:382-388 | a non-stylesheet asset the resolver has just fetched renders as base64 of exactly the bytes it stored |
| Renderer.RearchiveBreaksRender | archiver.py:340-364 | after re-archiving into a folder that already holds an asset, rendering any template that names the asset fails |
| Archiver.Ledger.constructor | archiver.py:273 | the ledger starts empty |
| Archiver.Archiver.constructor | archiver.py:92-122 | the archiver starts over the given folder, with no fetches |
| Archiver.Archiver.ResolveUrl | archiver.py:180-235 | `_url_resolver` on the object state gives the answer and state of `Resolver.Resolve`; `metadata.json` is untouched |
| Archiver.Archiver.FetchAssetInto | archiver.py:197-235 | the fetch branch on the object state matches `Resolver.FetchAsset` |
| Archiver.Archiver.StoreStylesheetInto | archiver.py:208-228 | the stylesheet branch on the object state matches `Resolver.StoreStylesheet` |
| Archiver.Archiver.ReplaceUrlsIn | archiver.py:218-222 | the `replaceUrls` walk on the object state matches `Resolver.ReplaceUrls` |
| Archiver.Archiver.RewriteElementsIn | archiver.py:294-303 | the loop of the attribute pass matches `Resolver.RewriteElements` and keeps the number of elements |
| Archiver.Archiver.StoreNodes | archiver.py:298-303 | the parsed elements end up as the rewritten ones |
| Archiver.Archiver.RewriteAssetAttributes | archiver.py:292-303 | the attribute pass over the parsed elements leaves the state, the error and, on success, the elements that `Resolver.RewriteElements` gives |
| Archiver.Archiver.ArchiveUrl | archiver.py:261-358 | `archive_url` leaves the folder and answer of `Resolver.ArchivePage` |
| Archiver.Archiver.GetTemplateIdentifiers | archiver.py:360-392 | the loop of `get_template_identifiers` gives `Renderer.TemplateVars` |
| Archiver.Archiver.DataUrlOf | archiver.py:364-388 | the body of that loop for one identifier gives `Renderer.DataUrl` |
| Archiver.Archiver.RenderUrlToFlatFile | archiver.py:394-405 | `render_url_to_flat_file` produces the text of `Renderer.RenderUrl` |
| CssEscape.Hex | utils.py:19 | `{n:x}`: at least one lower-case hex digit, and no leading zero |
| CssEscape.HexDigit | utils.py:19 | a lower-case hex digit |
| CssEscape.HexValue | utils.py:19 | a hex digit's value is below 16 |
| CssEscape.HexRoundTrip | utils.py:19 | reading back `{n:x}` gives `n` |
| CssEscape.HexRunLength | utils.py:19 | the length of the leading run of hex digits: all of it is hex digits, and the next character, if any, is not |
| CssEscape.HexRunBeforeSpace | utils.py:19 | the hex digits of an escape end at the space that follows them |
| CssEscape.Chunk | utils.py:9-30 | each code point gives at least one character |
| CssEscape.Chunks | utils.py:8-30 | the output is at least as long as the input |
| CssEscape.EscapeWith | utils.py:2-32 | the escaped identifier is at least as long as the input |
| CssEscape.ChunkNoControl | utils.py:9-30 | no code point's chunk holds NUL, U+0001 to U+001F or U+007F |
| CssEscape.ChunksNoControl | utils.py:8-30 | the concatenated chunks hold none of those |
| CssEscape.EscapeNoControl | utils.py:2-32 | the output never holds NUL, U+0001 to U+001F or U+007F |
| CssEscape.Escape | utils.py:2-32 | `escape_css` as written; characterised by `CssEscape.EscapeRoundTrip`, `CssEscape.EscapeNoControl` and the leading-character lemmas (no contract of its own) |
| CssEscape.EscapeCss | utils.py:2-32 | the loop builds exactly the escaped identifier, `\-` for a lone `-` |
| CssEscape.NulReplaced | utils.py:9-10 | replacing NUL keeps the length |
| CssEscape.UnescapeHex | utils.py:19 | a backslash, hex digits and a space read back as the code point they spell |
| CssEscape.ChunkRoundTrip | utils.py:9-30 | each chunk reads back as its code point, NUL as U+FFFD |
| CssEscape.ChunksRoundTrip | utils.py:8-30 | the chunks from an index on read back as the input from there, NUL as U+FFFD |
| CssEscape.EscapeRoundTrip | utils.py:2-32 | reading the output back gives the input with NUL as U+FFFD, so two NUL-free inputs never escape alike |
| CssEscape.LeadingDigitEscaped | utils.py:11-19 | a leading digit `d` becomes `\3d ` |
| CssEscape.DashPrefix | utils.py:3-28 | an input starting with `-` and longer than it keeps the `-` and continues with the chunks of the rest |
| CssEscape.DashPrefixEscapesSecond | utils.py:11-19 | as written, after a leading `-` the next code point (NUL aside) becomes a hex escape, whatever it is |
| CssEscape.CssomDashPrefix | utils.py:11-19 | under the CSSOM rule, a digit after a leading `-` is hex-escaped and any other code point takes its ordinary chunk |
| CssEscape.EscapeDashLetterDeviates | utils.py:15-16 | `-a` escapes to `-\61 ` as written and stays `-a` under the CSSOM rule |
| CssEscape.CssomChunksKeep | utils.py:20-28 | under the CSSOM rule, copied code points are kept when no digit starts the identifier |
| CssEscape.CssomKeepsPlainIdentifier | utils.py:2-32 | under the CSSOM rule, a plain identifier is left unchanged |
| CssEscape.EscapeChangesDashIdentifier | utils.py:15-16 | as written, every plain identifier of two or more code points that starts with `-` is changed |

Proof helpers without rows: `Resolver.ReplaceUrlsHead`, `Resolver.RewriteElementsHead`,
`Resolver.RewriteElementsAdvance`, `Resolver.FetchAssetPlainStep`, `Resolver.FetchAssetSheetStep`,
`Resolver.ResolveMissing` and `Renderer.VarsOfHead` each unfold one step of a recursive function,
so that the proofs that use them stay cheap. `Archiver.MergedNil` and `Archiver.MergedStep` are
facts about `Archiver.Merged`, a combinator that exists only to state the loop invariant of
`Archiver.Archiver.GetTemplateIdentifiers`.

## Left out

- HTTP (`httpx`), `cgi.parse_header`, logging and the client context manager: the fetch is a parameter that answers with a response or fails.
- `selectolax` parsing and serialization, and the removal of `<script>` tags (archiver.py:348-351): the selected elements and the serialized template come from parameters.
- The inline `style` attribute pass (archiver.py:275-290) and the `<style>` tag pass (archiver.py:305-338). They call the same resolver over CSS; the model keeps only the attribute pass between them.
- `css_parser` internals (parsing, `resolveImports`, minified serialization): a stylesheet is a sequence of text and `url(...)` pieces given by parameters.
- The fetches `resolveImports` makes for `@import` targets through the parser's fetcher (archiver.py:129-133, used at archiver.py:216) happen inside the parsing parameter, so they are not in the model's log of fetched URLs.
- The final write of `render_url_to_flat_file` to `save_file` (archiver.py:407-410): `Archiver.Archiver.RenderUrlToFlatFile` returns the rendered text instead of writing it.
- SHA-1, `normalize_url`/`urljoin`/`unquote`, `urlsplit`, `quote`, base64 and text codecs are parameters; their own properties are not modelled.
- File system and JSON I/O: the folder is a map from paths to bytes, and `metadata.json` is the ledger itself. Folder creation and `archive_simple` are not modelled.
- `str.lower` on non-ASCII characters: only ASCII letters are lowered.
- Resolver.Resolve: as written, `_url_resolver` raises `NameError` on every call, because `url` (archiver.py:181, 212) is unbound; the model does not capture that failure and resolves against the page URL passed as `base` instead.
- Python's recursion limit: the recursions of the resolver and the renderer take a `fuel` bound, and running out raises `RecursionLimit` wherever the real limit might fall.
- Archiver.Archiver.RewriteAssetAttributes: on an exception it does not state the elements. It computes the rewritten elements first and then writes them all, while the source rewrites each element in place as it goes. The model therefore does not capture the partly rewritten tree that the source leaves, and `archive_url` discards it anyway.
- CssEscape.Unescape: a reference reader of the escapes `escape_css` writes. It does not cap the number of hex digits at six as CSS Syntax does.

## Findings

| source | as written | input that shows it | evidently intended | confidence | as-written member | corrected member |
|---|---|---|---|---|---|---|
| utils.py:15-16 | `0x30 <= c <= 0x39 and i == 0 or (i == 1 and css.startswith('-'))` parses as `(digit and i == 0) or (i == 1 and dash)`, so any code point after a leading `-` is hex-escaped | `escape_css('-a')` gives `-\61 ` | the CSSOM rule, under which only a digit after a leading `-` is escaped, so `-a` stays `-a` | high, from operator precedence; not executed | CssEscape.EscapeDashLetterDeviates | CssEscape.CssomKeepsPlainIdentifier |
