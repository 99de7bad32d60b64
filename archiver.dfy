/** The `Archiver` class (archiver.py:90-410) over an in-memory archive
    directory: its methods change the directory and the ledger in place,
    step by step as the source does, and each is proved to leave the state
    and answer that the functions of `Resolver` and `Renderer` describe. */
module Archiver {
  import opened Text
  import opened Paths
  import opened Outcomes
  import opened Templates
  import opened Html
  import opened Env
  import opened Codec
  import opened Resolver
  import opened Renderer

  /** `asset_urls_metadata`: the dictionary `archive_url` creates empty and
      the resolver fills in place. */
  class Ledger {
    var entries: map<string, Entry>

    constructor ()
      ensures entries == map[]
    {
      entries := map[];
    }
  }

  class Archiver {
    /** The collaborators: hashing, URL handling, the fetcher, parsers. */
    const prims: Primitives
    /** The files of the container folder and its `assets` folder. */
    var files: map<FilePath, Bytes>
    /** Every URL the archiver fetched itself, in order; `@import` targets
        fetched inside the CSS parser are not logged here. */
    var fetched: seq<string>
    /** The contents of `metadata.json`, if the file exists. */
    var metadata: Option<map<string, Entry>>

    /** An archiver over a folder that already holds `files` and, maybe,
        a `metadata.json`. */
    constructor (prims: Primitives, files: map<FilePath, Bytes>, metadata: Option<map<string, Entry>>)
      ensures this.prims == prims && this.files == files && this.metadata == metadata
      ensures fetched == []
    {
      this.prims := prims;
      this.files := files;
      this.fetched := [];
      this.metadata := metadata;
    }

    /** The state the resolver sees: this archive with `ledger`. */
    function Snapshot(ledger: Ledger): World
      reads this, ledger
    {
      World(files, ledger.entries, fetched)
    }

    /** The directory as `archive_url` leaves it. */
    function Directory(): Archive
      reads this
    {
      Archive(files, fetched, metadata)
    }

    /** `_url_resolver(ref, ledger)` against the page URL `base`. */
    method ResolveUrl(base: string, ref: string, ledger: Ledger, fuel: nat) returns (r: Result<string>)
      modifies this, ledger
      ensures Step(r, Snapshot(ledger)) == Resolve(prims, base, ref, old(Snapshot(ledger)), fuel)
      ensures metadata == old(metadata)
      decreases fuel, 1, 0
    {
      ghost var w0 := Snapshot(ledger);
      var u := prims.normalize(base, ref);
      var file := UrlToFile(prims, u);
      AssetFileName(prims, u);
      if Suffix(file.name) !in AssetFormats {
        ResolveNonAsset(prims, base, ref, w0, fuel);
        if StartsWith(u, "data:") {
          return Ok(u);
        }
        var fragment := prims.urlFragment(u);
        if fragment == "" {
          return Ok(u);
        }
        return Ok("#" + fragment);
      }
      if file in files {
        ResolveExisting(prims, base, ref, w0, fuel);
        return Ok(Placeholder(TemplateId(file)));
      }
      ResolveMissing(prims, base, ref, w0, fuel);
      r := FetchAssetInto(base, u, file, TemplateId(file), ledger, fuel);
    }

    /** The resolver once `file`, the asset file of `u`, is known to be
        missing: fetch `u`, record its ledger entry under `id`, store the
        content and answer with the placeholder of `id`. */
    method FetchAssetInto(base: string, u: string, file: FilePath, id: string, ledger: Ledger, fuel: nat)
      returns (r: Result<string>)
      modifies this, ledger
      ensures Step(r, Snapshot(ledger)) == FetchAsset(prims, base, u, file, id, old(Snapshot(ledger)), fuel)
      ensures metadata == old(metadata)
      decreases fuel, 0, 1
    {
      ghost var w0 := Snapshot(ledger);
      fetched := fetched + [u];
      var response := prims.fetch(u);
      if response.None? {
        FetchAssetPlainStep(prims, base, u, file, id, w0, fuel);
        return Err(FetchFailed(u));
      }
      var resp := response.value;
      ledger.entries := ledger.entries[id := Entry(resp.contentType, u)];
      if Suffix(file.name) == ".css" {
        FetchAssetSheetStep(prims, base, u, file, id, w0, fuel);
        r := StoreStylesheetInto(base, resp, file, id, ledger, fuel);
        return;
      }
      FetchAssetPlainStep(prims, base, u, file, id, w0, fuel);
      if StartsWith(resp.contentType, "text") {
        files := files[file := prims.encode(resp.text, resp.encoding)];
      } else {
        files := files[file := resp.content];
      }
      return Ok(Placeholder(id));
    }

    /** The stylesheet branch: resolve every `url(...)` of the fetched
        sheet, then write the flattened sheet to `file`. */
    method StoreStylesheetInto(base: string, resp: Response, file: FilePath, id: string, ledger: Ledger, fuel: nat)
      returns (r: Result<string>)
      modifies this, ledger
      ensures Step(r, Snapshot(ledger)) == StoreStylesheet(prims, base, resp, file, id, old(Snapshot(ledger)), fuel)
      ensures metadata == old(metadata)
      decreases fuel, 0, 0
    {
      if fuel == 0 {
        return Err(RecursionLimit);
      }
      var sheet := prims.parseCss(resp.text, resp.encoding, base);
      var flat := ReplaceUrlsIn(base, sheet, ledger, fuel - 1);
      if flat.Err? {
        return Err(flat.error);
      }
      files := files[file := prims.encode(prims.serializeCss(flat.value), resp.encoding)];
      return Ok(Placeholder(id));
    }

    /** `replaceUrls(sheet, resolver)`: the first `url(...)` value is
        replaced by the resolver's answer, then the rest of the sheet. */
    method ReplaceUrlsIn(base: string, sheet: Stylesheet, ledger: Ledger, fuel: nat) returns (r: Result<Stylesheet>)
      modifies this, ledger
      ensures Step(r, Snapshot(ledger)) == ReplaceUrls(prims, base, sheet, old(Snapshot(ledger)), fuel)
      ensures metadata == old(metadata)
      decreases fuel, 2, |sheet|
    {
      if sheet == [] {
        return Ok([]);
      }
      ReplaceUrlsHead(prims, base, sheet, Snapshot(ledger), fuel);
      var piece := sheet[0];
      if piece.CssUrl? {
        var v := ResolveUrl(base, piece.ref, ledger, fuel);
        if v.Err? {
          return Err(v.error);
        }
        piece := CssUrl(v.value);
      }
      var rest := ReplaceUrlsIn(base, sheet[1..], ledger, fuel);
      if rest.Err? {
        return rest;
      }
      return Ok([piece] + rest.value);
    }

    /** The attribute pass of `archive_url` over the selected elements: each
        element's asset URL goes through the resolver and the element is
        rewritten with the answer. */
    method RewriteAssetAttributes(base: string, nodes: array<AssetElement>, ledger: Ledger, fuel: nat)
      returns (r: Result<()>)
      modifies this, ledger, nodes
      ensures var s := RewriteElements(prims, base, old(nodes[..]), old(Snapshot(ledger)), fuel);
        && Snapshot(ledger) == s.w
        && (r.Ok? <==> s.out.Ok?)
        && (r.Err? ==> r.error == s.out.error)
        && (r.Ok? ==> nodes[..] == s.out.value)
      ensures metadata == old(metadata)
    {
      var out := RewriteElementsIn(base, nodes[..], ledger, fuel);
      if out.Err? {
        return Err(out.error);
      }
      StoreNodes(nodes, out.value);
      return Ok(());
    }

    /** The elements `elems` as the attribute pass rewrites them, one after
        the other, stopping at the first exception. */
    method RewriteElementsIn(base: string, elems: seq<AssetElement>, ledger: Ledger, fuel: nat)
      returns (r: Result<seq<AssetElement>>)
      modifies this, ledger
      ensures Step(r, Snapshot(ledger)) == RewriteElements(prims, base, elems, old(Snapshot(ledger)), fuel)
      ensures r.Ok? ==> |r.value| == |elems|
      ensures metadata == old(metadata)
    {
      ghost var whole := RewriteElements(prims, base, elems, Snapshot(ledger), fuel);
      var done: seq<AssetElement> := [];
      ConcatNil(whole);
      assert elems[0..] == elems;
      var i := 0;
      while i < |elems|
        invariant 0 <= i <= |elems|
        invariant |done| == i
        invariant whole == Concat(done, RewriteElements(prims, base, elems[i..], Snapshot(ledger), fuel))
        invariant metadata == old(metadata)
      {
        ghost var w := Snapshot(ledger);
        var v := ResolveUrl(base, AssetUrl(elems[i]), ledger, fuel);
        RewriteElementsAdvance(prims, base, elems, i, done, w, fuel, Step(v, Snapshot(ledger)));
        if v.Err? {
          return Err(v.error);
        }
        done := done + [RewriteElement(elems[i], v.value)];
        i := i + 1;
      }
      assert elems[i..] == [];
      assert done + [] == done;
      return Ok(done);
    }

    /** The rewritten elements written back into the parsed tree. */
    static method StoreNodes(nodes: array<AssetElement>, elems: seq<AssetElement>)
      requires nodes.Length == |elems|
      modifies nodes
      ensures nodes[..] == elems
    {
      var k := 0;
      while k < nodes.Length
        invariant 0 <= k <= nodes.Length
        invariant nodes[..k] == elems[..k]
      {
        nodes[k] := elems[k];
        k := k + 1;
      }
    }

    /** `archive_url(url)` with the attribute pass as its resolving pass:
        fetch the page and save it raw, rewrite the selected elements
        against a fresh ledger, write that ledger as `metadata.json` and
        save the template. */
    method ArchiveUrl(url: string, fuel: nat) returns (r: Result<()>)
      modifies this
      ensures ArchiveStep(r, Directory()) == ArchivePage(prims, url, old(Directory()), fuel)
    {
      ghost var a0 := Directory();
      fetched := fetched + [url];
      var page := prims.fetch(url);
      if page.None? {
        return Err(FetchFailed(url));
      }
      var resp := page.value;
      files := files[RawHtmlFile(prims, url) := prims.encode(resp.text, resp.encoding)];
      var elems := prims.parseHtml(resp.text);
      var nodes := new AssetElement[|elems|](k requires 0 <= k < |elems| => elems[k]);
      assert nodes[..] == elems;
      var ledger := new Ledger();
      ghost var w0 := Snapshot(ledger);
      assert w0 == World(a0.files[RawHtmlFile(prims, url) := prims.encode(resp.text, resp.encoding)], map[], a0.fetched + [url]);
      ghost var spec := RewriteElements(prims, url, elems, w0, fuel);
      var pass := RewriteAssetAttributes(url, nodes, ledger, fuel);
      assert Snapshot(ledger) == spec.w;
      if pass.Err? {
        assert Directory() == Archive(spec.w.files, spec.w.fetched, a0.metadata);
        return pass;
      }
      assert nodes[..] == spec.out.value;
      metadata := Some(ledger.entries);
      files := files[TemplateHtmlFile(prims, url) := prims.serializeHtml(resp.text, nodes[..])];
      assert Directory() == Archive(spec.w.files[TemplateHtmlFile(prims, url) := prims.serializeHtml(resp.text, spec.out.value)],
                                    spec.w.fetched, Some(spec.w.ledger));
      return Ok(());
    }

    /** `get_template_identifiers(t, ledger)`: the `data:` URL of every
        identifier of `t`, rendering nested stylesheets recursively. */
    method GetTemplateIdentifiers(t: Template, ledger: map<string, Entry>, fuel: nat)
      returns (r: Result<map<Identifier, string>>)
      ensures r == TemplateVars(prims, t, ledger, files, fuel)
      decreases fuel, 1
    {
      var ids := Identifiers(t);
      ghost var whole := VarsOf(prims, ids, ledger, files, fuel);
      var vars: map<Identifier, string> := map[];
      var i := 0;
      assert ids[i..] == ids;
      MergedNil(whole);
      while i < |ids|
        invariant 0 <= i <= |ids|
        invariant forall k :: k in vars ==> k in ids[..i]
        invariant whole == Merged(vars, VarsOf(prims, ids[i..], ledger, files, fuel))
      {
        var id := ids[i];
        VarsOfHead(prims, ids[i..], ledger, files, fuel);
        assert ids[i..][1..] == ids[i + 1..];
        var dataUrl := DataUrlOf(id, ledger, fuel);
        if dataUrl.Err? {
          return Err(dataUrl.error);
        }
        assert id !in vars by {
          assert forall j :: 0 <= j < i ==> ids[..i][j] != id;
          assert id !in ids[..i];
        }
        MergedStep(vars, id, dataUrl.value, VarsOf(prims, ids[i + 1..], ledger, files, fuel));
        vars := vars[id := dataUrl.value];
        i := i + 1;
      }
      assert ids[i..] == [];
      assert map[] + vars == vars;
      return Ok(vars);
    }

    /** The body of the loop of `get_template_identifiers` for one
        identifier: its ledger entry, its file, and its `data:` URL. */
    method DataUrlOf(id: Identifier, ledger: map<string, Entry>, fuel: nat) returns (r: Result<string>)
      ensures r == DataUrl(prims, id, ledger, files, fuel)
      decreases fuel, 0
    {
      if id !in ledger {
        return Err(LookupError(id));
      }
      var contentType := ledger[id].contentType;
      var file := TemplateIdToFile(id);
      if file.Err? {
        return Err(file.error);
      }
      if file.value !in files {
        return Err(FileMissing(file.value));
      }
      var content := files[file.value];
      if contentType == "text/css" {
        var text := prims.decodeUtf8(content);
        if text.None? {
          return Err(DecodeError(file.value));
        }
        if fuel == 0 {
          return Err(RecursionLimit);
        }
        var nested := prims.parseTemplate(text.value);
        var nestedVars := GetTemplateIdentifiers(nested, ledger, fuel - 1);
        if nestedVars.Err? {
          return Err(nestedVars.error);
        }
        var css := Substitute(nested, nestedVars.value);
        if css.Err? {
          return Err(css.error);
        }
        return Ok(CssDataUrl(prims, css.value));
      }
      return Ok(BinaryDataUrl(prims, contentType, content));
    }

    /** `render_url_to_flat_file(url, ...)` up to its final write: the
        page's template with every identifier substituted. */
    method RenderUrlToFlatFile(url: string, fuel: nat) returns (r: Result<string>)
      ensures r == RenderUrl(prims, url, metadata, files, fuel)
    {
      if metadata.None? {
        return Err(FileMissing(MetadataFile));
      }
      var file := TemplateHtmlFile(prims, url);
      if file !in files {
        return Err(FileMissing(file));
      }
      var text := prims.decodeUtf8(files[file]);
      if text.None? {
        return Err(DecodeError(file));
      }
      var template := prims.parseTemplate(text.value);
      var vars := GetTemplateIdentifiers(template, metadata.value, fuel);
      if vars.Err? {
        return Err(vars.error);
      }
      r := Substitute(template, vars.value);
    }
  }

  /** The values found so far laid over the values still to come. */
  function Merged(vars: map<Identifier, string>, rest: Result<map<Identifier, string>>): Result<map<Identifier, string>> {
    if rest.Err? then rest else Ok(rest.value + vars)
  }

  lemma MergedNil(rest: Result<map<Identifier, string>>)
    ensures Merged(map[], rest) == rest
  {
    if rest.Ok? {
      assert rest.value + map[] == rest.value;
    }
  }

  lemma MergedStep(vars: map<Identifier, string>, id: Identifier, v: string, rest: Result<map<Identifier, string>>)
    requires id !in vars
    ensures Merged(vars, if rest.Err? then rest else Ok(rest.value[id := v])) == Merged(vars[id := v], rest)
  {
    if rest.Ok? {
      assert rest.value[id := v] + vars == rest.value + vars[id := v];
    }
  }
}
