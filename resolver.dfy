/** The archive pass as functions of the archive's state: `_url_resolver`
    (archiver.py:180-235), the `replaceUrls` walk it is handed to for a
    stylesheet, the attribute pass of `archive_url` (archiver.py:292-303)
    and `archive_url` around it (archiver.py:261-358). The imperative
    methods of `Archiver` are proved equal to these. */
module Resolver {
  import opened Text
  import opened Paths
  import opened Outcomes
  import opened Templates
  import opened Html
  import opened Env
  import opened Codec

  /** One value of `asset_urls_metadata`: `{'content_type': ..., 'url': ...}`. */
  datatype Entry = Entry(contentType: string, url: string)

  /** What the resolver reads and changes: the files of the archive
      directory, the ledger being built and the URLs the archiver has
      fetched so far itself (not the `@import` targets the CSS parser
      fetches on its own). */
  datatype World = World(files: map<FilePath, Bytes>, ledger: map<string, Entry>, fetched: seq<string>)

  /** A result together with the state reached, also when it is an error:
      what was written before an exception stays written. */
  datatype Step<T> = Step(out: Result<T>, w: World)

  /** `x` in front of the values of a successful step. */
  function Cons<T>(x: T, s: Step<seq<T>>): Step<seq<T>> {
    if s.out.Err? then s else Step(Ok([x] + s.out.value), s.w)
  }

  /** `done` in front of the values of a successful step. */
  function Concat<T>(done: seq<T>, s: Step<seq<T>>): Step<seq<T>> {
    if s.out.Err? then s else Step(Ok(done + s.out.value), s.w)
  }

  lemma ConcatNil<T>(s: Step<seq<T>>)
    ensures Concat([], s) == s
  {
    if s.out.Ok? {
      assert [] + s.out.value == s.out.value;
    }
  }

  lemma ConcatCons<T>(done: seq<T>, x: T, s: Step<seq<T>>)
    ensures Concat(done, Cons(x, s)) == Concat(done + [x], s)
  {
    if s.out.Ok? {
      assert done + ([x] + s.out.value) == done + [x] + s.out.value;
    }
  }

  /** The answer for a URL whose suffix is not an asset format
      (archiver.py:185-193). */
  function Passthrough(p: Primitives, u: string): string {
    if StartsWith(u, "data:") then u
    else
      var fragment := p.urlFragment(u);
      if fragment == "" then u else "#" + fragment
  }

  /** The resolver's answer worked out from the reference alone, without
      the archive's state: a placeholder for an asset, else the passthrough. */
  function RewriteRef(p: Primitives, base: string, ref: string): string {
    var u := p.normalize(base, ref);
    if UrlSuffix(p, u) in AssetFormats then Placeholder(AssetId(p, u)) else Passthrough(p, u)
  }

  function RewritePiece(p: Primitives, base: string, piece: CssPiece): CssPiece {
    match piece
    case CssText(t) => CssText(t)
    case CssUrl(ref) => CssUrl(RewriteRef(p, base, ref))
  }

  /** The stylesheet with every `url(...)` value replaced by the
      resolver's answer and the literal text kept. */
  function RewriteSheet(p: Primitives, base: string, sheet: Stylesheet): (r: Stylesheet)
    ensures |r| == |sheet|
  {
    if sheet == [] then [] else [RewritePiece(p, base, sheet[0])] + RewriteSheet(p, base, sheet[1..])
  }

  /** Each piece of the rewritten sheet is the piece at the same place,
      rewritten: literal text kept, a `url(...)` value resolved. */
  lemma {:induction false} RewriteSheetAt(p: Primitives, base: string, sheet: Stylesheet)
    ensures forall i :: 0 <= i < |sheet| ==> RewriteSheet(p, base, sheet)[i] == RewritePiece(p, base, sheet[i])
  {
    if sheet != [] {
      RewriteSheetAt(p, base, sheet[1..]);
      forall i | 1 <= i < |sheet|
        ensures RewriteSheet(p, base, sheet)[i] == RewritePiece(p, base, sheet[i])
      {
        assert sheet[1..][i - 1] == sheet[i];
      }
    }
  }

  /** `_url_resolver(ref)` against the base URL `base`. */
  function Resolve(p: Primitives, base: string, ref: string, w: World, fuel: nat): Step<string>
    decreases fuel, 1, 1
  {
    var u := p.normalize(base, ref);
    ResolveFile(p, base, u, UrlToFile(p, u), w, fuel)
  }

  /** The resolver on the normalized URL `u` once its asset file `file`
      is known (archiver.py:183-196). */
  function ResolveFile(p: Primitives, base: string, u: string, file: FilePath, w: World, fuel: nat): Step<string>
    decreases fuel, 1, 0
  {
    if Suffix(file.name) !in AssetFormats then Step(Ok(Passthrough(p, u)), w)
    else if file in w.files then Step(Ok(Placeholder(TemplateId(file))), w)
    else FetchAsset(p, base, u, file, TemplateId(file), w, fuel)
  }

  /** The resolver once the asset file is known to be missing
      (archiver.py:197-235): fetch `u`, record the ledger entry under `id`,
      store the content in `file` and answer with the placeholder of `id`. */
  function FetchAsset(p: Primitives, base: string, u: string, file: FilePath, id: string, w: World, fuel: nat)
    : Step<string>
    decreases fuel, 0, 1
  {
    var w1 := w.(fetched := w.fetched + [u]);
    match p.fetch(u)
    case None => Step(Err(FetchFailed(u)), w1)
    case Some(resp) =>
      var w2 := w1.(ledger := w1.ledger[id := Entry(resp.contentType, u)]);
      if Suffix(file.name) == ".css" then StoreStylesheet(p, base, resp, file, id, w2, fuel)
      else
        var content := if StartsWith(resp.contentType, "text") then p.encode(resp.text, resp.encoding) else resp.content;
        Step(Ok(Placeholder(id)), w2.(files := w2.files[file := content]))
  }

  /** The stylesheet branch of the resolver (archiver.py:208-228): the
      fetched sheet is parsed with its imports resolved, every `url(...)`
      in it goes through the resolver, and only then is the flattened
      sheet is written to `file`, the answer being the placeholder of
      `id`. With no fuel left that recursion raises. */
  function StoreStylesheet(p: Primitives, base: string, resp: Response, file: FilePath, id: string, w: World, fuel: nat)
    : Step<string>
    decreases fuel, 0, 0
  {
    if fuel == 0 then Step(Err(RecursionLimit), w)
    else
      var rw := ReplaceUrls(p, base, p.parseCss(resp.text, resp.encoding, base), w, fuel - 1);
      if rw.out.Err? then Step(Err(rw.out.error), rw.w)
      else
        var css := p.encode(p.serializeCss(rw.out.value), resp.encoding);
        Step(Ok(Placeholder(id)), rw.w.(files := rw.w.files[file := css]))
  }

  /** `replaceUrls(sheet, resolver)`: every `url(...)` value, in order,
      goes through the resolver; the first exception stops the walk. */
  function ReplaceUrls(p: Primitives, base: string, sheet: Stylesheet, w: World, fuel: nat): Step<Stylesheet>
    decreases fuel, 2, |sheet|
  {
    if sheet == [] then Step(Ok([]), w)
    else
      match sheet[0]
      case CssText(t) => Cons(CssText(t), ReplaceUrls(p, base, sheet[1..], w, fuel))
      case CssUrl(ref) =>
        var r := Resolve(p, base, ref, w, fuel);
        if r.out.Err? then Step(Err(r.out.error), r.w)
        else Cons(CssUrl(r.out.value), ReplaceUrls(p, base, sheet[1..], r.w, fuel))
  }

  /** The attribute pass of `archive_url` (archiver.py:294-303) over the
      selected elements, in document order. */
  function RewriteElements(p: Primitives, base: string, elems: seq<AssetElement>, w: World, fuel: nat)
    : Step<seq<AssetElement>>
  {
    if elems == [] then Step(Ok([]), w)
    else
      var r := Resolve(p, base, AssetUrl(elems[0]), w, fuel);
      if r.out.Err? then Step(Err(r.out.error), r.w)
      else Cons(RewriteElement(elems[0], r.out.value), RewriteElements(p, base, elems[1..], r.w, fuel))
  }

  /** The archive directory as `archive_url` leaves it: its files, the URLs
      fetched, and the contents of `metadata.json` if it has been written. */
  datatype Archive = Archive(files: map<FilePath, Bytes>, fetched: seq<string>, metadata: Option<map<string, Entry>>)

  datatype ArchiveStep = ArchiveStep(out: Result<()>, a: Archive)

  /** `archive_url(url)` with the attribute pass as its only resolving
      pass: fetch the page and save it raw, rewrite the selected elements
      against a ledger that starts empty, then overwrite `metadata.json`
      with that ledger and save the template. */
  function ArchivePage(p: Primitives, url: string, a: Archive, fuel: nat): ArchiveStep {
    var fetched1 := a.fetched + [url];
    match p.fetch(url)
    case None => ArchiveStep(Err(FetchFailed(url)), a.(fetched := fetched1))
    case Some(resp) =>
      var files1 := a.files[RawHtmlFile(p, url) := p.encode(resp.text, resp.encoding)];
      var pass := RewriteElements(p, url, p.parseHtml(resp.text), World(files1, map[], fetched1), fuel);
      if pass.out.Err? then ArchiveStep(Err(pass.out.error), Archive(pass.w.files, pass.w.fetched, a.metadata))
      else
        var template := p.serializeHtml(resp.text, pass.out.value);
        ArchiveStep(Ok(()), Archive(pass.w.files[TemplateHtmlFile(p, url) := template], pass.w.fetched, Some(pass.w.ledger)))
  }

  /** One step of the `replaceUrls` walk. */
  lemma ReplaceUrlsHead(p: Primitives, base: string, sheet: Stylesheet, w: World, fuel: nat)
    requires sheet != []
    ensures sheet[0].CssText? ==>
      ReplaceUrls(p, base, sheet, w, fuel) == Cons(sheet[0], ReplaceUrls(p, base, sheet[1..], w, fuel))
    ensures sheet[0].CssUrl? ==>
      var r := Resolve(p, base, sheet[0].ref, w, fuel);
      ReplaceUrls(p, base, sheet, w, fuel) ==
        if r.out.Err? then Step(Err(r.out.error), r.w)
        else Cons(CssUrl(r.out.value), ReplaceUrls(p, base, sheet[1..], r.w, fuel))
  {
  }

  /** One step of the attribute pass. */
  lemma RewriteElementsHead(p: Primitives, base: string, elems: seq<AssetElement>, w: World, fuel: nat)
    requires elems != []
    ensures RewriteElements(p, base, elems, w, fuel) ==
      var r := Resolve(p, base, AssetUrl(elems[0]), w, fuel);
      if r.out.Err? then Step(Err(r.out.error), r.w)
      else Cons(RewriteElement(elems[0], r.out.value), RewriteElements(p, base, elems[1..], r.w, fuel))
  {
  }

  /** The attribute pass after `done`, advanced by the element at `i`
      whose resolution is `r`: an exception ends the pass, an answer
      rewrites the element and the pass goes on from the state `r` left. */
  lemma RewriteElementsAdvance(p: Primitives, base: string, elems: seq<AssetElement>, i: nat,
                               done: seq<AssetElement>, w: World, fuel: nat, r: Step<string>)
    requires i < |elems|
    requires r == Resolve(p, base, AssetUrl(elems[i]), w, fuel)
    ensures r.out.Err? ==>
      Concat(done, RewriteElements(p, base, elems[i..], w, fuel)) == Step(Err(r.out.error), r.w)
    ensures r.out.Ok? ==>
      Concat(done, RewriteElements(p, base, elems[i..], w, fuel)) ==
        Concat(done + [RewriteElement(elems[i], r.out.value)], RewriteElements(p, base, elems[i + 1..], r.w, fuel))
  {
    RewriteElementsHead(p, base, elems[i..], w, fuel);
    assert elems[i..][1..] == elems[i + 1..];
    if r.out.Ok? {
      ConcatCons(done, RewriteElement(elems[i], r.out.value), RewriteElements(p, base, elems[i + 1..], r.w, fuel));
    }
  }

  // ---------------------------------------------------------------------
  // The three cases of the resolver

  /** A URL whose suffix is not an asset format is not fetched and changes
      nothing: a `data:` URL comes back as it is, a URL with a fragment
      becomes that bare fragment, and any other URL comes back normalized. */
  lemma ResolveNonAsset(p: Primitives, base: string, ref: string, w: World, fuel: nat)
    requires UrlSuffix(p, p.normalize(base, ref)) !in AssetFormats
    ensures var u := p.normalize(base, ref);
      Resolve(p, base, ref, w, fuel) == Step(Ok(
        if StartsWith(u, "data:") then u
        else if p.urlFragment(u) == "" then u
        else "#" + p.urlFragment(u)), w)
  {
    AssetFileName(p, p.normalize(base, ref));
  }

  /** An asset whose file already exists is not fetched, the ledger and
      the files stay as they are, and the answer is `$$${id}`. */
  lemma ResolveExisting(p: Primitives, base: string, ref: string, w: World, fuel: nat)
    requires UrlSuffix(p, p.normalize(base, ref)) in AssetFormats
    requires UrlToFile(p, p.normalize(base, ref)) in w.files
    ensures Resolve(p, base, ref, w, fuel) == Step(Ok(Placeholder(AssetId(p, p.normalize(base, ref)))), w)
  {
    AssetFileName(p, p.normalize(base, ref));
  }

  /** An asset whose file is missing and that is not a stylesheet is
      fetched once; a failed fetch raises, otherwise the ledger gets
      `{content_type, url}` under its identifier, the file gets the decoded
      text re-encoded for a `text...` type and the raw bytes for any other,
      and the answer is `$$${id}`. */
  lemma ResolveFetchesAsset(p: Primitives, base: string, ref: string, w: World, fuel: nat)
    requires UrlSuffix(p, p.normalize(base, ref)) in AssetFormats
    requires UrlSuffix(p, p.normalize(base, ref)) != ".css"
    requires UrlToFile(p, p.normalize(base, ref)) !in w.files
    ensures var u := p.normalize(base, ref);
      var r := Resolve(p, base, ref, w, fuel);
      match p.fetch(u)
      case None => r == Step(Err(FetchFailed(u)), w.(fetched := w.fetched + [u]))
      case Some(resp) =>
        var content := if StartsWith(resp.contentType, "text") then p.encode(resp.text, resp.encoding)
                       else resp.content;
        r == Step(Ok(Placeholder(AssetId(p, u))),
                  World(w.files[UrlToFile(p, u) := content],
                        w.ledger[AssetId(p, u) := Entry(resp.contentType, u)],
                        w.fetched + [u]))
  {
    var u := p.normalize(base, ref);
    AssetFileName(p, u);
    ResolveMissing(p, base, ref, w, fuel);
    FetchAssetPlainStep(p, base, u, UrlToFile(p, u), TemplateId(UrlToFile(p, u)), w, fuel);
  }

  /** A stylesheet whose file is missing is fetched first of all, before
      the URLs inside it; a failed fetch raises, and with no fuel left the
      recursion into it raises. */
  lemma ResolveFetchesStylesheet(p: Primitives, base: string, ref: string, w: World, fuel: nat)
    requires UrlSuffix(p, p.normalize(base, ref)) == ".css"
    requires UrlToFile(p, p.normalize(base, ref)) !in w.files
    ensures var u := p.normalize(base, ref);
      var r := Resolve(p, base, ref, w, fuel);
      && |r.w.fetched| > |w.fetched|
      && r.w.fetched[..|w.fetched| + 1] == w.fetched + [u]
      && (p.fetch(u).None? ==> r == Step(Err(FetchFailed(u)), w.(fetched := w.fetched + [u])))
      && (p.fetch(u).Some? ==>
            var resp := p.fetch(u).value;
            r == StoreStylesheet(p, base, resp, UrlToFile(p, u), AssetId(p, u),
                                 World(w.files, w.ledger[AssetId(p, u) := Entry(resp.contentType, u)], w.fetched + [u]),
                                 fuel))
      && (p.fetch(u).Some? && fuel == 0 ==> r.out == Err(RecursionLimit))
  {
    var u := p.normalize(base, ref);
    var file := UrlToFile(p, u);
    AssetFileName(p, u);
    ResolveMissing(p, base, ref, w, fuel);
    if p.fetch(u).Some? {
      var resp := p.fetch(u).value;
      FetchAssetSheetStep(p, base, u, file, TemplateId(file), w, fuel);
      StoreStylesheetKeepsFetched(p, base, resp, file, TemplateId(file),
                                  World(w.files, w.ledger[TemplateId(file) := Entry(resp.contentType, u)], w.fetched + [u]), fuel);
    }
  }

  /** The pass over a stylesheet only appends to the fetched URLs, and
      with no fuel left it raises before fetching anything. */
  lemma StoreStylesheetKeepsFetched(p: Primitives, base: string, resp: Response, file: FilePath, id: string,
                                    w: World, fuel: nat)
    ensures var r := StoreStylesheet(p, base, resp, file, id, w, fuel);
      && w.fetched <= r.w.fetched
      && (fuel == 0 ==> r == Step(Err(RecursionLimit), w))
  {
    if fuel > 0 {
      ReplaceUrlsKeepsKey(p, base, p.parseCss(resp.text, resp.encoding, base), w, fuel - 1, id);
    }
  }

  /** When the pass over a fetched stylesheet succeeds, its identifier is
      in the ledger and its file holds the imported and flattened sheet
      with every `url(...)` replaced by the resolver's answer for it. */
  lemma ResolveStoresStylesheet(p: Primitives, base: string, ref: string, w: World, fuel: nat)
    requires UrlSuffix(p, p.normalize(base, ref)) == ".css"
    requires UrlToFile(p, p.normalize(base, ref)) !in w.files
    requires p.fetch(p.normalize(base, ref)).Some?
    ensures var u := p.normalize(base, ref);
      var r := Resolve(p, base, ref, w, fuel);
      var resp := p.fetch(u).value;
      r.out.Ok? ==>
        && r.out.value == Placeholder(AssetId(p, u))
        && AssetId(p, u) in r.w.ledger
        && UrlToFile(p, u) in r.w.files
        && r.w.files[UrlToFile(p, u)] ==
             p.encode(p.serializeCss(RewriteSheet(p, base, p.parseCss(resp.text, resp.encoding, base))),
                      resp.encoding)
  {
    var u := p.normalize(base, ref);
    AssetFileName(p, u);
    ResolveMissing(p, base, ref, w, fuel);
    FetchAssetSheetStep(p, base, u, UrlToFile(p, u), TemplateId(UrlToFile(p, u)), w, fuel);
    var resp := p.fetch(u).value;
    var w2 := World(w.files, w.ledger[AssetId(p, u) := Entry(resp.contentType, u)], w.fetched + [u]);
    StoreStylesheetValue(p, base, resp, UrlToFile(p, u), AssetId(p, u), w2, fuel);
  }

  /** What a successful stylesheet branch leaves: the placeholder of
      `id`, `id` still in the ledger if it was there, and the flattened,
      rewritten sheet in `file`. */
  lemma StoreStylesheetValue(p: Primitives, base: string, resp: Response, file: FilePath, id: string, w: World, fuel: nat)
    ensures var r := StoreStylesheet(p, base, resp, file, id, w, fuel);
      r.out.Ok? ==>
        && r.out.value == Placeholder(id)
        && (id in w.ledger ==> id in r.w.ledger)
        && file in r.w.files
        && r.w.files[file] ==
             p.encode(p.serializeCss(RewriteSheet(p, base, p.parseCss(resp.text, resp.encoding, base))),
                      resp.encoding)
  {
    if fuel > 0 {
      var sheet := p.parseCss(resp.text, resp.encoding, base);
      ReplaceUrlsKeepsKey(p, base, sheet, w, fuel - 1, id);
      ReplaceUrlsValue(p, base, sheet, w, fuel - 1);
    }
  }

  /** The `replaceUrls` walk keeps a ledger key it starts with and only
      appends to the fetched URLs. */
  lemma ReplaceUrlsKeepsKey(p: Primitives, base: string, sheet: Stylesheet, w: World, fuel: nat, id: string)
    ensures var rw := ReplaceUrls(p, base, sheet, w, fuel);
      (id in w.ledger ==> id in rw.w.ledger) && w.fetched <= rw.w.fetched
  {
    ReplaceUrlsGrows(p, base, sheet, w, fuel);
  }

  // ---------------------------------------------------------------------
  // The answer does not depend on the archive's state

  /** Whatever the state, a successful resolve answers with `RewriteRef`:
      the placeholder for an asset, the passthrough otherwise. */
  lemma ResolveValue(p: Primitives, base: string, ref: string, w: World, fuel: nat)
    ensures var r := Resolve(p, base, ref, w, fuel);
      r.out.Ok? ==> r.out.value == RewriteRef(p, base, ref)
  {
    var u := p.normalize(base, ref);
    var file := UrlToFile(p, u);
    AssetFileName(p, u);
    if Suffix(file.name) in AssetFormats && file !in w.files {
      ResolveMissing(p, base, ref, w, fuel);
      if p.fetch(u).Some? && Suffix(file.name) == ".css" {
        FetchAssetSheetStep(p, base, u, UrlToFile(p, u), TemplateId(UrlToFile(p, u)), w, fuel);
      }
    }
  }

  /** A successful `replaceUrls` walk maps each piece through `RewriteRef`. */
  lemma {:induction false} ReplaceUrlsValue(p: Primitives, base: string, sheet: Stylesheet, w: World, fuel: nat)
    ensures var r := ReplaceUrls(p, base, sheet, w, fuel);
      r.out.Ok? ==> r.out.value == RewriteSheet(p, base, sheet)
    decreases |sheet|
  {
    if sheet != [] {
      match sheet[0]
      case CssText(t) =>
        ReplaceUrlsValue(p, base, sheet[1..], w, fuel);
      case CssUrl(ref) =>
        ResolveValue(p, base, ref, w, fuel);
        var r := Resolve(p, base, ref, w, fuel);
        ReplaceUrlsValue(p, base, sheet[1..], r.w, fuel);
    }
  }

  /** A successful attribute pass rewrites each element with the answer
      `RewriteRef` gives for its asset URL, in order. */
  lemma {:induction false} RewriteElementsValue(p: Primitives, base: string, elems: seq<AssetElement>, w: World, fuel: nat)
    ensures var r := RewriteElements(p, base, elems, w, fuel);
      r.out.Ok? ==>
        |r.out.value| == |elems| &&
        forall i :: 0 <= i < |elems| ==>
          r.out.value[i] == RewriteElement(elems[i], RewriteRef(p, base, AssetUrl(elems[i])))
  {
    if elems != [] {
      ResolveValue(p, base, AssetUrl(elems[0]), w, fuel);
      var r := Resolve(p, base, AssetUrl(elems[0]), w, fuel);
      RewriteElementsValue(p, base, elems[1..], r.w, fuel);
    }
  }

  // ---------------------------------------------------------------------
  // How the state grows

  /** A ledger key is new against `files` when it is the identifier of an
      asset file that `files` does not hold. */
  predicate NewAssetKey(id: string, files: map<FilePath, Bytes>) {
    IsIdentifier(id) && TemplateIdToFile(id).Ok? &&
    TemplateIdToFile(id).value.InAssets? && TemplateIdToFile(id).value !in files
  }

  /** Files are only added, never rewritten, ledger keys are only added,
      fetches only appended, and every ledger key added names an asset
      file that was missing at the start. */
  predicate Grows(w: World, w': World) {
    && (forall f :: f in w.files ==> f in w'.files && w'.files[f] == w.files[f])
    && w.ledger.Keys <= w'.ledger.Keys
    && w.fetched <= w'.fetched
    && forall id :: id in w'.ledger && id !in w.ledger ==> NewAssetKey(id, w.files)
  }

  lemma GrowsTrans(w1: World, w2: World, w3: World)
    requires Grows(w1, w2) && Grows(w2, w3)
    ensures Grows(w1, w3)
  {
  }

  lemma {:induction false} ResolveGrows(p: Primitives, base: string, ref: string, w: World, fuel: nat)
    ensures Grows(w, Resolve(p, base, ref, w, fuel).w)
    decreases fuel, 1, 0
  {
    var u := p.normalize(base, ref);
    var file := UrlToFile(p, u);
    if Suffix(file.name) in AssetFormats && file !in w.files {
      FetchAssetGrows(p, base, u, file, TemplateId(file), w, fuel);
    }
  }

  /** The identifier of a missing asset file is a new key against the
      files: the codec maps it back to that file. */
  lemma MissingAssetKeyIsNew(p: Primitives, u: string, files: map<FilePath, Bytes>)
    requires Suffix(UrlToFile(p, u).name) in AssetFormats
    requires UrlToFile(p, u) !in files
    ensures TemplateId(UrlToFile(p, u)) == AssetId(p, u)
    ensures NewAssetKey(AssetId(p, u), files)
  {
    AssetFileName(p, u);
    TemplateIdRoundTrip(p, u);
  }

  /** What `FetchAsset` answers and leaves when the fetch fails or the
      asset is not a stylesheet. */
  lemma FetchAssetPlainStep(p: Primitives, base: string, u: string, file: FilePath, id: string, w: World, fuel: nat)
    requires p.fetch(u).None? || Suffix(file.name) != ".css"
    ensures var r := FetchAsset(p, base, u, file, id, w, fuel);
      match p.fetch(u)
      case None => r == Step(Err(FetchFailed(u)), w.(fetched := w.fetched + [u]))
      case Some(resp) =>
        r == Step(Ok(Placeholder(id)),
                  World(w.files[file := if StartsWith(resp.contentType, "text")
                                        then p.encode(resp.text, resp.encoding) else resp.content],
                        w.ledger[id := Entry(resp.contentType, u)],
                        w.fetched + [u]))
  {
  }

  /** What `FetchAsset` answers and leaves for a fetched stylesheet. */
  lemma FetchAssetSheetStep(p: Primitives, base: string, u: string, file: FilePath, id: string, w: World, fuel: nat)
    requires p.fetch(u).Some? && Suffix(file.name) == ".css"
    ensures var resp := p.fetch(u).value;
      FetchAsset(p, base, u, file, id, w, fuel) ==
        StoreStylesheet(p, base, resp, file, id,
                        World(w.files, w.ledger[id := Entry(resp.contentType, u)], w.fetched + [u]), fuel)
  {
  }

  /** The resolver on an asset whose file is missing is `FetchAsset`. */
  lemma ResolveMissing(p: Primitives, base: string, ref: string, w: World, fuel: nat)
    requires Suffix(UrlToFile(p, p.normalize(base, ref)).name) in AssetFormats
    requires UrlToFile(p, p.normalize(base, ref)) !in w.files
    ensures var u := p.normalize(base, ref);
      Resolve(p, base, ref, w, fuel) == FetchAsset(p, base, u, UrlToFile(p, u), TemplateId(UrlToFile(p, u)), w, fuel)
  {
  }

  /** Writing a file that was missing at the start keeps the growth. */
  lemma GrowsThenWrite(w: World, w': World, file: FilePath, content: Bytes)
    requires Grows(w, w') && file !in w.files
    ensures Grows(w, w'.(files := w'.files[file := content]))
  {
  }

  /** Recording the ledger entry of a missing asset, and the fetch of its
      URL, only adds to the state. */
  lemma GrowsByEntry(p: Primitives, u: string, w: World, e: Entry)
    requires Suffix(UrlToFile(p, u).name) in AssetFormats
    requires UrlToFile(p, u) !in w.files
    ensures Grows(w, World(w.files, w.ledger[TemplateId(UrlToFile(p, u)) := e], w.fetched + [u]))
  {
    MissingAssetKeyIsNew(p, u, w.files);
  }

  lemma {:induction false} FetchAssetGrows(p: Primitives, base: string, u: string, file: FilePath, id: string, w: World, fuel: nat)
    requires file == UrlToFile(p, u) && id == TemplateId(file)
    requires Suffix(file.name) in AssetFormats
    requires file !in w.files
    ensures Grows(w, FetchAsset(p, base, u, file, id, w, fuel).w)
    decreases fuel, 0, 2
  {
    if p.fetch(u).None? || Suffix(file.name) != ".css" {
      FetchAssetPlainGrows(p, base, u, file, id, w, fuel);
    } else {
      FetchAssetSheetGrows(p, base, u, file, id, w, fuel);
    }
  }

  /** A failed fetch only appends to `fetched`; a fetched asset that is not
      a stylesheet adds its ledger entry and its file. */
  lemma FetchAssetPlainGrows(p: Primitives, base: string, u: string, file: FilePath, id: string, w: World, fuel: nat)
    requires file == UrlToFile(p, u) && id == TemplateId(file)
    requires Suffix(file.name) in AssetFormats
    requires file !in w.files
    requires p.fetch(u).None? || Suffix(file.name) != ".css"
    ensures Grows(w, FetchAsset(p, base, u, file, id, w, fuel).w)
  {
    FetchAssetPlainStep(p, base, u, file, id, w, fuel);
    if p.fetch(u).Some? {
      var resp := p.fetch(u).value;
      var e := Entry(resp.contentType, u);
      GrowsByEntry(p, u, w, e);
      var w2 := World(w.files, w.ledger[id := e], w.fetched + [u]);
      var content := if StartsWith(resp.contentType, "text") then p.encode(resp.text, resp.encoding) else resp.content;
      GrowsThenWrite(w, w2, file, content);
    }
  }

  /** A fetched stylesheet adds its ledger entry, then whatever the
      `replaceUrls` walk adds, then its file. */
  lemma FetchAssetSheetGrows(p: Primitives, base: string, u: string, file: FilePath, id: string, w: World, fuel: nat)
    requires file == UrlToFile(p, u) && id == TemplateId(file)
    requires Suffix(file.name) == ".css"
    requires file !in w.files
    requires p.fetch(u).Some?
    ensures Grows(w, FetchAsset(p, base, u, file, id, w, fuel).w)
    decreases fuel, 0, 1
  {
    FetchAssetSheetStep(p, base, u, file, id, w, fuel);
    var resp := p.fetch(u).value;
    var e := Entry(resp.contentType, u);
    GrowsByEntry(p, u, w, e);
    var w2 := World(w.files, w.ledger[id := e], w.fetched + [u]);
    StoreStylesheetGrows(p, base, resp, file, id, w2, fuel);
    GrowsTrans(w, w2, StoreStylesheet(p, base, resp, file, id, w2, fuel).w);
  }

  /** The stylesheet branch only adds to the state: the `replaceUrls`
      walk, then the write of the flattened sheet. */
  lemma StoreStylesheetGrows(p: Primitives, base: string, resp: Response, file: FilePath, id: string, w: World, fuel: nat)
    requires file !in w.files
    ensures Grows(w, StoreStylesheet(p, base, resp, file, id, w, fuel).w)
    decreases fuel, 0, 0
  {
    if fuel > 0 {
      var sheet := p.parseCss(resp.text, resp.encoding, base);
      ReplaceUrlsGrows(p, base, sheet, w, fuel - 1);
      var rw := ReplaceUrls(p, base, sheet, w, fuel - 1);
      if rw.out.Ok? {
        var css := p.encode(p.serializeCss(rw.out.value), resp.encoding);
        GrowsThenWrite(w, rw.w, file, css);
      }
    }
  }

  lemma {:induction false} ReplaceUrlsGrows(p: Primitives, base: string, sheet: Stylesheet, w: World, fuel: nat)
    ensures Grows(w, ReplaceUrls(p, base, sheet, w, fuel).w)
    decreases fuel, 2, |sheet|
  {
    if sheet != [] {
      match sheet[0]
      case CssText(t) =>
        ReplaceUrlsGrows(p, base, sheet[1..], w, fuel);
      case CssUrl(ref) =>
        ResolveGrows(p, base, ref, w, fuel);
        var r := Resolve(p, base, ref, w, fuel);
        if r.out.Ok? {
          ReplaceUrlsGrows(p, base, sheet[1..], r.w, fuel);
          var rest := ReplaceUrls(p, base, sheet[1..], r.w, fuel);
          assert ReplaceUrls(p, base, sheet, w, fuel) == Cons(CssUrl(r.out.value), rest);
          GrowsTrans(w, r.w, rest.w);
        } else {
          assert ReplaceUrls(p, base, sheet, w, fuel) == Step(Err(r.out.error), r.w);
        }
    }
  }

  lemma {:induction false} RewriteElementsGrows(p: Primitives, base: string, elems: seq<AssetElement>, w: World, fuel: nat)
    ensures Grows(w, RewriteElements(p, base, elems, w, fuel).w)
  {
    if elems != [] {
      ResolveGrows(p, base, AssetUrl(elems[0]), w, fuel);
      var r := Resolve(p, base, AssetUrl(elems[0]), w, fuel);
      if r.out.Ok? {
        RewriteElementsGrows(p, base, elems[1..], r.w, fuel);
        GrowsTrans(w, r.w, RewriteElements(p, base, elems[1..], r.w, fuel).w);
      }
    }
  }

  // ---------------------------------------------------------------------
  // What a ledger entry records

  /** The entry under `id` is `{content_type, url}` of a URL fetched so
      far, drawn from `urls`, with the content type that URL's response
      gave. */
  ghost predicate Recorded(p: Primitives, w: World, id: string, urls: iset<string>) {
    && id in w.ledger
    && w.ledger[id].url in w.fetched
    && w.ledger[id].url in urls
    && p.fetch(w.ledger[id].url).Some?
    && p.fetch(w.ledger[id].url).value.contentType == w.ledger[id].contentType
  }

  /** `urls` holds every URL whose identifier is `id`. */
  ghost predicate HoldsIdOf(p: Primitives, id: string, urls: iset<string>) {
    forall v :: AssetId(p, v) == id ==> v in urls
  }

  lemma {:induction false} ResolveKeepsRecorded(p: Primitives, base: string, ref: string, w: World, fuel: nat,
                                                id: string, urls: iset<string>)
    requires HoldsIdOf(p, id, urls) && Recorded(p, w, id, urls)
    ensures Recorded(p, Resolve(p, base, ref, w, fuel).w, id, urls)
    decreases fuel, 1, 0
  {
    var u := p.normalize(base, ref);
    var file := UrlToFile(p, u);
    if Suffix(file.name) in AssetFormats && file !in w.files {
      FetchAssetKeepsRecorded(p, base, u, file, TemplateId(file), w, fuel, id, urls);
    }
  }

  /** Fetching an asset records its own entry correctly and keeps every
      correct entry correct. */
  lemma {:induction false} FetchAssetKeepsRecorded(p: Primitives, base: string, u: string, file: FilePath, key: string,
                                                   w: World, fuel: nat, id: string, urls: iset<string>)
    requires file == UrlToFile(p, u) && key == TemplateId(file)
    requires HoldsIdOf(p, id, urls)
    requires Recorded(p, w, id, urls) || (id == key && p.fetch(u).Some?)
    ensures Recorded(p, FetchAsset(p, base, u, file, key, w, fuel).w, id, urls)
    decreases fuel, 0, 1
  {
    AssetFileName(p, u);
    if p.fetch(u).Some? {
      var resp := p.fetch(u).value;
      var w2 := World(w.files, w.ledger[key := Entry(resp.contentType, u)], w.fetched + [u]);
      assert Recorded(p, w2, id, urls);
      if Suffix(file.name) == ".css" {
        FetchAssetSheetStep(p, base, u, file, key, w, fuel);
        StoreStylesheetKeepsRecorded(p, base, resp, file, key, w2, fuel, id, urls);
      } else {
        FetchAssetPlainStep(p, base, u, file, key, w, fuel);
      }
    }
  }

  lemma {:induction false} StoreStylesheetKeepsRecorded(p: Primitives, base: string, resp: Response, file: FilePath,
                                                        key: string, w: World, fuel: nat, id: string, urls: iset<string>)
    requires HoldsIdOf(p, id, urls) && Recorded(p, w, id, urls)
    ensures Recorded(p, StoreStylesheet(p, base, resp, file, key, w, fuel).w, id, urls)
    decreases fuel, 0, 0
  {
    if fuel > 0 {
      ReplaceUrlsKeepsRecorded(p, base, p.parseCss(resp.text, resp.encoding, base), w, fuel - 1, id, urls);
    }
  }

  lemma {:induction false} ReplaceUrlsKeepsRecorded(p: Primitives, base: string, sheet: Stylesheet, w: World,
                                                    fuel: nat, id: string, urls: iset<string>)
    requires HoldsIdOf(p, id, urls) && Recorded(p, w, id, urls)
    ensures Recorded(p, ReplaceUrls(p, base, sheet, w, fuel).w, id, urls)
    decreases fuel, 2, |sheet|
  {
    if sheet != [] {
      match sheet[0]
      case CssText(t) =>
        ReplaceUrlsKeepsRecorded(p, base, sheet[1..], w, fuel, id, urls);
      case CssUrl(ref) =>
        ResolveKeepsRecorded(p, base, ref, w, fuel, id, urls);
        var r := Resolve(p, base, ref, w, fuel);
        if r.out.Ok? {
          ReplaceUrlsKeepsRecorded(p, base, sheet[1..], r.w, fuel, id, urls);
        }
    }
  }

  /** A fetched stylesheet's entry is recorded before the URLs inside it
      are resolved, and when the pass ends it is still the entry of a
      fetched URL with the stylesheet's identifier; unless another URL
      fetched on the way has that identifier, it is `{content_type, url}`
      of the stylesheet itself. */
  lemma StylesheetEntryRecorded(p: Primitives, base: string, ref: string, w: World, fuel: nat)
    requires UrlSuffix(p, p.normalize(base, ref)) == ".css"
    requires UrlToFile(p, p.normalize(base, ref)) !in w.files
    requires p.fetch(p.normalize(base, ref)).Some?
    ensures var u := p.normalize(base, ref);
      var r := Resolve(p, base, ref, w, fuel);
      && AssetId(p, u) in r.w.ledger
      && r.w.ledger[AssetId(p, u)].url in r.w.fetched
      && AssetId(p, r.w.ledger[AssetId(p, u)].url) == AssetId(p, u)
      && p.fetch(r.w.ledger[AssetId(p, u)].url).Some?
      && r.w.ledger[AssetId(p, u)].contentType == p.fetch(r.w.ledger[AssetId(p, u)].url).value.contentType
      && ((forall v :: v in r.w.fetched && AssetId(p, v) == AssetId(p, u) ==> v == u) ==>
            r.w.ledger[AssetId(p, u)] == Entry(p.fetch(u).value.contentType, u))
  {
    var u := p.normalize(base, ref);
    var file := UrlToFile(p, u);
    var urls := iset v | AssetId(p, v) == AssetId(p, u);
    AssetFileName(p, u);
    ResolveMissing(p, base, ref, w, fuel);
    FetchAssetKeepsRecorded(p, base, u, file, TemplateId(file), w, fuel, AssetId(p, u), urls);
  }

  // ---------------------------------------------------------------------
  // The ledger `archive_url` writes

  /** `archive_url` starts its ledger empty and overwrites `metadata.json`
      with it: every key of the ledger it writes names an asset file that
      was not in the archive before the call, so an asset already stored by
      an earlier call gets no entry. On an exception `metadata.json` is
      left as it was. */
  lemma ArchiveLedgerOnlyNewAssets(p: Primitives, url: string, a: Archive, fuel: nat)
    ensures var s := ArchivePage(p, url, a, fuel);
      && (s.out.Err? ==> s.a.metadata == a.metadata)
      && (s.out.Ok? ==>
            && s.a.metadata.Some?
            && forall id :: id in s.a.metadata.value ==> NewAssetKey(id, a.files))
  {
    if p.fetch(url).Some? {
      var resp := p.fetch(url).value;
      var files1 := a.files[RawHtmlFile(p, url) := p.encode(resp.text, resp.encoding)];
      var w0 := World(files1, map[], a.fetched + [url]);
      RewriteElementsGrows(p, url, p.parseHtml(resp.text), w0, fuel);
    }
  }

  /** `archive_url` rewrites only the page's raw and template HTML: an
      asset file already in the archive keeps its content, whether the
      call succeeds or raises. */
  lemma ArchiveKeepsStoredAssets(p: Primitives, url: string, a: Archive, fuel: nat)
    ensures var s := ArchivePage(p, url, a, fuel);
      forall f :: f in a.files && f.InAssets? ==> f in s.a.files && s.a.files[f] == a.files[f]
  {
    if p.fetch(url).Some? {
      var resp := p.fetch(url).value;
      var files1 := a.files[RawHtmlFile(p, url) := p.encode(resp.text, resp.encoding)];
      var w0 := World(files1, map[], a.fetched + [url]);
      RewriteElementsGrows(p, url, p.parseHtml(resp.text), w0, fuel);
    }
  }

  /** The consequence: re-archiving into a directory that already holds an
      asset leaves that asset's identifier out of the new `metadata.json`. */
  lemma StoredAssetLeftOutOfLedger(p: Primitives, url: string, a: Archive, fuel: nat, assetUrl: string)
    requires UrlSuffix(p, assetUrl) in AssetFormats
    requires UrlToFile(p, assetUrl) in a.files
    requires ArchivePage(p, url, a, fuel).out.Ok?
    ensures AssetId(p, assetUrl) !in ArchivePage(p, url, a, fuel).a.metadata.value
  {
    ArchiveLedgerOnlyNewAssets(p, url, a, fuel);
    TemplateIdRoundTrip(p, assetUrl);
  }
}
