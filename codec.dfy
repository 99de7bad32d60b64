/** The identifier codec (archiver.py:42-47, 61-68, 149-178, 195): the
    hash of a URL, the asset file a URL is stored in, the template
    identifier of an asset file and the inverse map from an identifier back
    to its file. */
module Codec {
  import opened Text
  import opened Paths
  import opened Outcomes
  import opened Templates
  import opened Env

  /** `asset_url_file_formats` (archiver.py:61-68). */
  const AssetFormats: set<string> := {
    ".bmp", ".css", ".doc", ".docx", ".eot", ".gif",
    ".ico", ".jpeg", ".jpg", ".mp3", ".mp4", ".odt",
    ".ogg", ".otf", ".pdf", ".png", ".rtf", ".svg",
    ".tif", ".tiff", ".ttf", ".txt", ".wav", ".webm",
    ".webp", ".woff", ".woff2", ".xls", ".xlsb",
    ".xlsx", ".xml"
  }

  predicate IsLowerAlnum(c: char) {
    'a' <= c <= 'z' || '0' <= c <= '9'
  }

  /** Every format is a dot followed by at least one lower-case letter or
      digit; in particular none contains `_`. */
  lemma FormatShape(f: string)
    requires f in AssetFormats
    ensures |f| >= 2 && f[0] == '.' && forall k :: 1 <= k < |f| ==> IsLowerAlnum(f[k])
  {
  }

  /** `generate_url_hash`: `'_'` followed by the hex SHA-1 digest. */
  function GenerateUrlHash(p: Primitives, url: string): (h: string)
    ensures |h| == 41 && h[0] == '_'
    ensures forall k :: 1 <= k < |h| ==> IsLowerHexDigit(h[k])
  {
    "_" + p.sha1Hex(url)
  }

  /** `Path(urlsplit(url).path).suffix.lower()` (archiver.py:164-165). */
  function UrlSuffix(p: Primitives, url: string): string {
    LowerAscii(Suffix(PathName(p.urlPath(url))))
  }

  lemma UrlSuffixWellFormed(p: Primitives, url: string)
    ensures WellFormedSuffix(UrlSuffix(p, url))
  {
    SuffixWellFormed(PathName(p.urlPath(url)));
    LowerKeepsWellFormed(Suffix(PathName(p.urlPath(url))));
  }

  /** `Archiver.url_to_file` (archiver.py:161-169): the hash, in the assets
      folder, given the URL's suffix with `with_suffix`. The hash has no
      suffix of its own, so that is the hash followed by the suffix;
      `AssetFileName` proves the two agree. */
  function UrlToFile(p: Primitives, url: string): FilePath {
    InAssets(GenerateUrlHash(p, url) + UrlSuffix(p, url))
  }

  /** `f'{asset_file.stem}_{asset_file.suffix[1:]}'` (archiver.py:195). */
  function TemplateId(file: FilePath): string {
    var sfx := Suffix(file.name);
    Stem(file.name) + "_" + PySlice(sfx, 1, |sfx|)
  }

  /** `Archiver.template_id_to_file` (archiver.py:171-178): split on `_`,
      the last chunk is the suffix and the rest, joined again, the stem. An
      empty stem joins to the assets folder itself, whose suffix is then
      replaced; an empty suffix makes `with_suffix('.')` raise. */
  function TemplateIdToFile(id: Identifier): Result<FilePath> {
    var chunks := Split(id, '_');
    var stem := Join(chunks[..|chunks| - 1], '_');
    var ext := "." + chunks[|chunks| - 1];
    if !SuffixAccepted(ext) then Err(InvalidSuffix(ext))
    else if stem == "" then Ok(InContainer(WithSuffix(AssetsFolderName, ext)))
    else Ok(InAssets(WithSuffix(stem, ext)))
  }

  /** `get_url_raw_html_file` (archiver.py:149-153). */
  function RawHtmlFile(p: Primitives, url: string): FilePath {
    InContainer(GenerateUrlHash(p, url) + ".raw.html")
  }

  /** `get_url_template_html_file` (archiver.py:155-159). */
  function TemplateHtmlFile(p: Primitives, url: string): FilePath {
    InContainer(GenerateUrlHash(p, url) + ".template.html")
  }

  /** The identifier the resolver derives for an asset URL, written in
      terms of the URL: the hash, `_`, and the suffix without its dot. */
  function AssetId(p: Primitives, url: string): string {
    var s := UrlSuffix(p, url);
    GenerateUrlHash(p, url) + "_" + PySlice(s, 1, |s|)
  }

  /** The asset file is named by the hash followed by the lower-cased URL
      suffix, and `Path` reads that suffix and the hash back from it. */
  lemma AssetFileName(p: Primitives, url: string)
    ensures SuffixAccepted(UrlSuffix(p, url))
    ensures UrlToFile(p, url) == InAssets(WithSuffix(GenerateUrlHash(p, url), UrlSuffix(p, url)))
    ensures Suffix(UrlToFile(p, url).name) == UrlSuffix(p, url)
    ensures Stem(UrlToFile(p, url).name) == GenerateUrlHash(p, url)
    ensures TemplateId(UrlToFile(p, url)) == AssetId(p, url)
  {
    var h := GenerateUrlHash(p, url);
    UrlSuffixWellFormed(p, url);
    HashHasNoDot(p, url);
    SuffixOfAppended(h, "");
    assert h + "" == h;
    assert WithSuffix(h, UrlSuffix(p, url)) == h + UrlSuffix(p, url);
    SuffixOfAppended(h, UrlSuffix(p, url));
  }

  /** The hash has no dot, so it has no suffix of its own. */
  lemma HashHasNoDot(p: Primitives, url: string)
    ensures '.' !in GenerateUrlHash(p, url)
  {
    var h := GenerateUrlHash(p, url);
    forall k | 0 <= k < |h| ensures h[k] != '.' {
      if k > 0 { assert IsLowerHexDigit(h[k]); }
    }
  }

  /** A hash followed by `_` and lower-case letters and digits matches the
      identifier pattern of `string.Template`. */
  lemma HashedIdIsIdentifier(h: string, e: string)
    requires |h| == 41 && h[0] == '_' && forall k :: 1 <= k < |h| ==> IsLowerHexDigit(h[k])
    requires forall k :: 0 <= k < |e| ==> IsLowerAlnum(e[k])
    ensures IsIdentifier(h + "_" + e)
  {
    var id := h + "_" + e;
    forall i | 1 <= i < |id| ensures IdChar(id[i]) {
      if i < |h| {
        assert id[i] == h[i] && IsLowerHexDigit(h[i]);
      } else if i > |h| {
        assert id[i] == e[i - |h| - 1];
      }
    }
  }

  /** Splitting `h_e` on `_` and joining all but the last chunk gives back
      `h` when `e` has no `_`, whatever `h` holds. */
  lemma {:induction false} StemAndExt(h: string, e: string)
    requires '_' !in e
    ensures var chunks := Split(h + "_" + e, '_');
      Join(chunks[..|chunks| - 1], '_') == h && chunks[|chunks| - 1] == e
  {
    SplitAtLast(h, e, '_');
    assert h + "_" + e == h + ['_'] + e;
    var chunks := Split(h + "_" + e, '_');
    assert chunks[..|chunks| - 1] == Split(h, '_');
    JoinSplit(h, '_');
  }

  /** `template_id_to_file` inverts the identifier of a file named by a
      hash and a suffix of lower-case letters and digits. */
  lemma {:induction false} HashedIdToFile(h: string, s: string)
    requires |h| == 41 && h[0] == '_' && forall k :: 1 <= k < |h| ==> IsLowerHexDigit(h[k])
    requires |s| >= 2 && s[0] == '.' && forall k :: 1 <= k < |s| ==> IsLowerAlnum(s[k])
    ensures IsIdentifier(h + "_" + s[1..])
    ensures SuffixAccepted(s)
    ensures TemplateIdToFile(h + "_" + s[1..]) == Ok(InAssets(WithSuffix(h, s)))
  {
    var e := s[1..];
    assert forall k :: 0 <= k < |e| ==> IsLowerAlnum(e[k]) by {
      forall k | 0 <= k < |e| ensures IsLowerAlnum(e[k]) {
        assert e[k] == s[k + 1];
      }
    }
    HashedIdIsIdentifier(h, e);
    assert '_' !in e by {
      forall k | 0 <= k < |e| ensures e[k] != '_' {
        assert IsLowerAlnum(e[k]);
      }
    }
    assert '/' !in s by {
      forall k | 0 <= k < |s| ensures s[k] != '/' {
        if k > 0 { assert IsLowerAlnum(s[k]); }
      }
    }
    StemAndExt(h, e);
    assert "." + e == s;
  }

  /** The codec round trip: for a URL with an asset suffix, the template
      identifier is an identifier in `string.Template`'s sense, and
      `template_id_to_file` maps it back to `url_to_file(url)`. This holds
      because no format contains `_` and the hex digest has none either,
      so the split on the last `_` separates exactly the suffix. */
  lemma {:induction false} TemplateIdRoundTrip(p: Primitives, url: string)
    requires UrlSuffix(p, url) in AssetFormats
    ensures IsIdentifier(AssetId(p, url))
    ensures TemplateId(UrlToFile(p, url)) == AssetId(p, url)
    ensures TemplateIdToFile(AssetId(p, url)) == Ok(UrlToFile(p, url))
  {
    AssetFileName(p, url);
    var h := GenerateUrlHash(p, url);
    var s := UrlSuffix(p, url);
    FormatShape(s);
    HashedIdToFile(h, s);
    assert PySlice(s, 1, |s|) == s[1..];
  }

  /** The raw and template HTML files of a page share its hash and differ
      only in their final extension; neither is an asset file. */
  lemma HtmlFileNames(p: Primitives, url: string)
    ensures RawHtmlFile(p, url).InContainer? && TemplateHtmlFile(p, url).InContainer?
    ensures RawHtmlFile(p, url).name[..41] == TemplateHtmlFile(p, url).name[..41] == GenerateUrlHash(p, url)
    ensures RawHtmlFile(p, url).name[41..] == ".raw.html"
    ensures TemplateHtmlFile(p, url).name[41..] == ".template.html"
    ensures RawHtmlFile(p, url) != TemplateHtmlFile(p, url)
  {
    var r := RawHtmlFile(p, url).name;
    var t := TemplateHtmlFile(p, url).name;
    assert |r| != |t|;
  }
}
