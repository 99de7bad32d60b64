/** The render pass as functions of the archive's state:
    `get_template_identifiers` (archiver.py:360-392) and the substitution
    of `render_url_to_flat_file` (archiver.py:394-410). Each identifier of
    a template becomes a `data:` URL (RFC 2397, section 3): a stylesheet is
    itself rendered as a template and percent-encoded, anything else is
    base64-encoded. */
module Renderer {
  import opened Text
  import opened Paths
  import opened Outcomes
  import opened Templates
  import opened Env
  import opened Codec
  import opened Resolver

  /** `self.metadata_file`. */
  const MetadataFile: FilePath := InContainer("metadata.json")

  const CssDataUrlPrefix: string := "data:text/css;charset=UTF-8,"

  /** `f'data:text/css;charset=UTF-8,{quote(css)}'`. */
  function CssDataUrl(p: Primitives, css: string): string {
    CssDataUrlPrefix + p.quote(css)
  }

  /** `f'data:{content_type};base64,{b64encode(content).decode()}'`. */
  function BinaryDataUrl(p: Primitives, contentType: string, content: Bytes): string {
    "data:" + contentType + ";base64," + p.b64(content)
  }

  /** `template_id_to_file(id).read_bytes()`: the path can raise, and the
      file can be missing. */
  function ReadAsset(id: Identifier, files: map<FilePath, Bytes>): Result<Bytes> {
    var f := TemplateIdToFile(id);
    if f.Err? then Err(f.error)
    else if f.value !in files then Err(FileMissing(f.value))
    else Ok(files[f.value])
  }

  /** The `data:` URL of one identifier (archiver.py:364-387). A missing
      ledger entry raises; a stylesheet (by its recorded content type) is
      read as UTF-8, parsed as a template and rendered with its own
      identifiers, with no fuel left for that recursion it raises. */
  function DataUrl(p: Primitives, id: Identifier, ledger: map<string, Entry>, files: map<FilePath, Bytes>, fuel: nat)
    : Result<string>
    decreases fuel, 0, 0
  {
    if id !in ledger then Err(LookupError(id))
    else
      var contentType := ledger[id].contentType;
      var content := ReadAsset(id, files);
      if content.Err? then Err(content.error)
      else if contentType == "text/css" then
        match p.decodeUtf8(content.value)
        case None => Err(DecodeError(TemplateIdToFile(id).value))
        case Some(text) =>
          if fuel == 0 then Err(RecursionLimit)
          else
            var nested := p.parseTemplate(text);
            var vars := VarsOf(p, Identifiers(nested), ledger, files, fuel - 1);
            if vars.Err? then Err(vars.error)
            else
              var css := Substitute(nested, vars.value);
              if css.Err? then Err(css.error) else Ok(CssDataUrl(p, css.value))
      else Ok(BinaryDataUrl(p, contentType, content.value))
  }

  /** The loop of `get_template_identifiers` over `ids`: each identifier in
      turn gets its `data:` URL, and the first one that raises stops it. */
  function VarsOf(p: Primitives, ids: seq<Identifier>, ledger: map<string, Entry>, files: map<FilePath, Bytes>, fuel: nat)
    : Result<map<Identifier, string>>
    decreases fuel, 1, |ids|
  {
    if ids == [] then Ok(map[])
    else
      var d := DataUrl(p, ids[0], ledger, files, fuel);
      if d.Err? then Err(d.error)
      else
        var rest := VarsOf(p, ids[1..], ledger, files, fuel);
        if rest.Err? then rest else Ok(rest.value[ids[0] := d.value])
  }

  /** `get_template_identifiers(template, metadata)`. */
  function TemplateVars(p: Primitives, t: Template, ledger: map<string, Entry>, files: map<FilePath, Bytes>, fuel: nat)
    : Result<map<Identifier, string>>
  {
    VarsOf(p, Identifiers(t), ledger, files, fuel)
  }

  /** `render_url_to_flat_file(url, ...)` up to its final write: load the
      ledger, read the page's template as UTF-8 and substitute every
      identifier's `data:` URL into it. */
  function RenderUrl(p: Primitives, url: string, metadata: Option<map<string, Entry>>,
                     files: map<FilePath, Bytes>, fuel: nat): Result<string>
  {
    if metadata.None? then Err(FileMissing(MetadataFile))
    else
      var file := TemplateHtmlFile(p, url);
      if file !in files then Err(FileMissing(file))
      else
        match p.decodeUtf8(files[file])
        case None => Err(DecodeError(file))
        case Some(text) =>
          var t := p.parseTemplate(text);
          var vars := TemplateVars(p, t, metadata.value, files, fuel);
          if vars.Err? then Err(vars.error) else Substitute(t, vars.value)
  }

  /** One step of the loop of `get_template_identifiers`. */
  lemma VarsOfHead(p: Primitives, ids: seq<Identifier>, ledger: map<string, Entry>, files: map<FilePath, Bytes>, fuel: nat)
    requires ids != []
    ensures VarsOf(p, ids, ledger, files, fuel) ==
      var d := DataUrl(p, ids[0], ledger, files, fuel);
      if d.Err? then Err(d.error)
      else
        var rest := VarsOf(p, ids[1..], ledger, files, fuel);
        if rest.Err? then rest else Ok(rest.value[ids[0] := d.value])
  {
  }

  // ---------------------------------------------------------------------
  // One identifier

  /** A ledger miss raises a lookup error. */
  lemma MissingEntryFails(p: Primitives, id: Identifier, ledger: map<string, Entry>, files: map<FilePath, Bytes>, fuel: nat)
    requires id !in ledger
    ensures DataUrl(p, id, ledger, files, fuel) == Err(LookupError(id))
  {
  }

  /** The two shapes of a `data:` URL: for any content type other than
      `text/css`, the base64 of the stored bytes; for `text/css`, the
      percent-encoded rendering of the stored file as a template, whose
      own identifiers are rendered the same way. */
  lemma DataUrlCases(p: Primitives, id: Identifier, ledger: map<string, Entry>, files: map<FilePath, Bytes>, fuel: nat)
    requires id in ledger
    ensures var d := DataUrl(p, id, ledger, files, fuel);
      var contentType := ledger[id].contentType;
      && (ReadAsset(id, files).Err? ==> d == Err(ReadAsset(id, files).error))
      && (ReadAsset(id, files).Ok? && contentType != "text/css" ==>
            d == Ok("data:" + contentType + ";base64," + p.b64(ReadAsset(id, files).value)))
      && (d.Ok? && contentType == "text/css" ==>
            && ReadAsset(id, files).Ok?
            && p.decodeUtf8(ReadAsset(id, files).value).Some?
            && fuel > 0
            && var nested := p.parseTemplate(p.decodeUtf8(ReadAsset(id, files).value).value);
               && TemplateVars(p, nested, ledger, files, fuel - 1).Ok?
               && Substitute(nested, TemplateVars(p, nested, ledger, files, fuel - 1).value).Ok?
               && d.value == "data:text/css;charset=UTF-8," +
                             p.quote(Substitute(nested, TemplateVars(p, nested, ledger, files, fuel - 1).value).value))
  {
  }

  // ---------------------------------------------------------------------
  // The map `get_template_identifiers` returns

  /** The loop succeeds exactly when every identifier's `data:` URL does. */
  lemma {:induction false} VarsOfSucceeds(p: Primitives, ids: seq<Identifier>, ledger: map<string, Entry>,
                                          files: map<FilePath, Bytes>, fuel: nat)
    ensures VarsOf(p, ids, ledger, files, fuel).Ok? <==>
            forall id :: id in ids ==> DataUrl(p, id, ledger, files, fuel).Ok?
  {
    if ids != [] {
      VarsOfSucceeds(p, ids[1..], ledger, files, fuel);
      assert ids[0] in ids;
      assert forall id :: id in ids[1..] ==> id in ids;
      if VarsOf(p, ids, ledger, files, fuel).Ok? {
        forall id | id in ids ensures DataUrl(p, id, ledger, files, fuel).Ok? {
          if id != ids[0] {
            assert id in ids[1..];
          }
        }
      }
    }
  }

  /** On success the map has exactly the identifiers as keys, and each
      maps to its `data:` URL. */
  lemma {:induction false} VarsOfContents(p: Primitives, ids: seq<Identifier>, ledger: map<string, Entry>,
                                          files: map<FilePath, Bytes>, fuel: nat)
    ensures var r := VarsOf(p, ids, ledger, files, fuel);
      r.Ok? ==>
        && (forall id :: id in r.value <==> id in ids)
        && (forall id :: id in r.value ==> DataUrl(p, id, ledger, files, fuel) == Ok(r.value[id]))
  {
    if ids != [] {
      VarsOfContents(p, ids[1..], ledger, files, fuel);
    }
  }

  /** `get_template_identifiers`: on success its keys are exactly the
      template's identifiers, each mapped to its `data:` URL; it fails
      exactly when some identifier's `data:` URL fails, in particular when
      an identifier has no ledger entry. */
  lemma TemplateVarsSpec(p: Primitives, t: Template, ledger: map<string, Entry>, files: map<FilePath, Bytes>, fuel: nat)
    ensures var r := TemplateVars(p, t, ledger, files, fuel);
      && (r.Ok? <==> forall id: Identifier :: Slot(id) in t ==> DataUrl(p, id, ledger, files, fuel).Ok?)
      && (r.Ok? ==>
            && (forall id :: id in r.value <==> Slot(id) in t)
            && (forall id :: id in r.value ==> DataUrl(p, id, ledger, files, fuel) == Ok(r.value[id])))
      && (forall id: Identifier :: Slot(id) in t && id !in ledger ==> r.Err?)
  {
    VarsOfSucceeds(p, Identifiers(t), ledger, files, fuel);
    VarsOfContents(p, Identifiers(t), ledger, files, fuel);
  }

  /** Rendering a page whose template has been read succeeds exactly when
      the template has no invalid placeholder and every identifier in it
      has a `data:` URL. */
  lemma RenderUrlSucceeds(p: Primitives, url: string, ledger: map<string, Entry>, files: map<FilePath, Bytes>, fuel: nat)
    requires TemplateHtmlFile(p, url) in files
    requires p.decodeUtf8(files[TemplateHtmlFile(p, url)]).Some?
    ensures var t := p.parseTemplate(p.decodeUtf8(files[TemplateHtmlFile(p, url)]).value);
      RenderUrl(p, url, Some(ledger), files, fuel).Ok? <==>
        (Invalid !in t && forall id: Identifier :: Slot(id) in t ==> DataUrl(p, id, ledger, files, fuel).Ok?)
  {
    var t := p.parseTemplate(p.decodeUtf8(files[TemplateHtmlFile(p, url)]).value);
    TemplateVarsSpec(p, t, ledger, files, fuel);
    var vars := TemplateVars(p, t, ledger, files, fuel);
    if vars.Ok? {
      SubstituteSucceeds(t, vars.value);
    }
  }

  // ---------------------------------------------------------------------
  // Archive, then render

  /** A non-stylesheet asset the resolver has just fetched renders as the
      base64 of what it stored: the fetched bytes for a non-`text` content
      type, the re-encoded text for a `text...` one. */
  lemma FetchedAssetRenders(p: Primitives, base: string, ref: string, w: World, fuel: nat, renderFuel: nat)
    requires UrlSuffix(p, p.normalize(base, ref)) in AssetFormats
    requires UrlSuffix(p, p.normalize(base, ref)) != ".css"
    requires UrlToFile(p, p.normalize(base, ref)) !in w.files
    requires p.fetch(p.normalize(base, ref)).Some?
    requires p.fetch(p.normalize(base, ref)).value.contentType != "text/css"
    ensures var u := p.normalize(base, ref);
      var resp := p.fetch(u).value;
      var r := Resolve(p, base, ref, w, fuel);
      && IsIdentifier(AssetId(p, u))
      && DataUrl(p, AssetId(p, u), r.w.ledger, r.w.files, renderFuel) ==
           Ok(BinaryDataUrl(p, resp.contentType,
                            if StartsWith(resp.contentType, "text") then p.encode(resp.text, resp.encoding)
                            else resp.content))
  {
    var u := p.normalize(base, ref);
    ResolveFetchesAsset(p, base, ref, w, fuel);
    TemplateIdRoundTrip(p, u);
  }

  /** Re-archiving a page into a directory that already holds one of its
      assets leaves that asset out of `metadata.json`, so rendering any
      template that names the asset fails. */
  lemma RearchiveBreaksRender(p: Primitives, url: string, a: Archive, fuel: nat,
                              assetUrl: string, t: Template, renderFuel: nat)
    requires UrlSuffix(p, assetUrl) in AssetFormats
    requires UrlToFile(p, assetUrl) in a.files
    requires ArchivePage(p, url, a, fuel).out.Ok?
    ensures IsIdentifier(AssetId(p, assetUrl))
    ensures var s := ArchivePage(p, url, a, fuel);
      Slot(AssetId(p, assetUrl)) in t ==> TemplateVars(p, t, s.a.metadata.value, s.a.files, renderFuel).Err?
  {
    TemplateIdRoundTrip(p, assetUrl);
    StoredAssetLeftOutOfLedger(p, url, a, fuel, assetUrl);
    var s := ArchivePage(p, url, a, fuel);
    TemplateVarsSpec(p, t, s.a.metadata.value, s.a.files, renderFuel);
  }
}
