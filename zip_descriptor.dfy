/** The descriptor: the member list of one archive plus the suggested
    download file name, built from an already decoded JSON manifest. */
module Descriptor {
  import opened Wrappers
  import opened GoStrings
  import opened Entries

  const ZipSuffix := ".zip"
  const DefaultFilename := "archive.zip"

  /** The characters the sanitiser keeps: code points 32 through 126 except `"`. */
  predicate Printable(c: char): (b: bool)
    ensures b <==> 31 < c as int < 127 && c != '"'
  {
    ' ' <= c <= '~' && c != '"'
  }

  /** The printable characters of `s`, in their order. */
  function KeepPrintable(s: string): (r: string)
    ensures |r| <= |s|
    ensures forall i :: 0 <= i < |r| ==> Printable(r[i])
  {
    if s == [] then []
    else KeepPrintable(s[..|s| - 1]) + (if Printable(s[|s| - 1]) then [s[|s| - 1]] else [])
  }

  /** The file name `EscapedSuggestedFilename` returns for a raw suggestion. */
  function SanitizedFilename(raw: string): (r: string)
    ensures HasSuffix(r, ZipSuffix)
    ensures forall i :: 0 <= i < |r| ==> Printable(r[i])
  {
    var escaped := KeepPrintable(raw);
    SuffixPrintable(escaped);
    if escaped != "" && escaped != ZipSuffix then
      if HasSuffix(escaped, ZipSuffix) then escaped else escaped + ZipSuffix
    else DefaultFilename
  }

  /** Appending `.zip` to a printable name gives a printable name ending in
      `.zip`; the default name is one too. */
  lemma SuffixPrintable(s: string)
    requires forall i :: 0 <= i < |s| ==> Printable(s[i])
    ensures HasSuffix(s + ZipSuffix, ZipSuffix)
    ensures forall i :: 0 <= i < |s + ZipSuffix| ==> Printable((s + ZipSuffix)[i])
    ensures HasSuffix(DefaultFilename, ZipSuffix)
    ensures forall i :: 0 <= i < |DefaultFilename| ==> Printable(DefaultFilename[i])
  {
    assert (s + ZipSuffix)[|s|..] == ZipSuffix;
    assert DefaultFilename == "archive" + ZipSuffix;
  }

  /** Filtering distributes over concatenation: every character is kept or
      dropped on its own, so the kept ones stay in their original order. */
  lemma {:induction false} KeepPrintableAppend(s: string, t: string)
    ensures KeepPrintable(s + t) == KeepPrintable(s) + KeepPrintable(t)
    decreases |t|
  {
    if t == [] {
      assert s + t == s;
    } else {
      var t' := t[..|t| - 1];
      assert (s + t)[..|s + t| - 1] == s + t';
      KeepPrintableAppend(s, t');
    }
  }

  /** The filter changes a string exactly when some character is not printable. */
  lemma {:induction false} KeepPrintableIdentity(s: string)
    ensures KeepPrintable(s) == s <==> forall i :: 0 <= i < |s| ==> Printable(s[i])
  {
    if s != [] {
      var s', c := s[..|s| - 1], s[|s| - 1];
      assert s == s' + [c];
      KeepPrintableIdentity(s');
      if Printable(c) {
        assert forall i :: 0 <= i < |s'| ==> s'[i] == s[i];
      } else {
        assert |KeepPrintable(s)| < |s|;
      }
    }
  }

  /** The result is the default name, or the filtered name, or the filtered
      name with `.zip` appended once; which one is decided by whether the
      filtered name is empty or `.zip`, and whether it already ends in `.zip`. */
  lemma SanitizedShape(raw: string)
    ensures var escaped := KeepPrintable(raw);
      && (escaped == "" || escaped == ZipSuffix ==> SanitizedFilename(raw) == DefaultFilename)
      && (escaped != "" && escaped != ZipSuffix && HasSuffix(escaped, ZipSuffix) ==> SanitizedFilename(raw) == escaped)
      && (escaped != "" && !HasSuffix(escaped, ZipSuffix) ==> SanitizedFilename(raw) == escaped + ZipSuffix)
  {
  }

  /** Sanitising a sanitised name gives it back unchanged. */
  lemma SanitizedIdempotent(raw: string)
    ensures SanitizedFilename(SanitizedFilename(raw)) == SanitizedFilename(raw)
  {
    var name := SanitizedFilename(raw);
    KeepPrintableIdentity(name);
    assert KeepPrintable(name) == name;
    assert name != ZipSuffix by {
      var escaped := KeepPrintable(raw);
      if escaped != "" && escaped != ZipSuffix && !HasSuffix(escaped, ZipSuffix) {
        assert |name| > |ZipSuffix|;
      }
    }
  }

  /** Names made only of allowed characters pass the filter unchanged. */
  lemma KeepPrintablePlainNames()
    ensures KeepPrintable("report") == "report"
    ensures KeepPrintable("already.zip") == "already.zip"
  {
    KeepPrintableIdentity("report");
    KeepPrintableIdentity("already.zip");
  }

  /** Worked cases: an empty suggestion falls back to the default name, a
      bare name gains the suffix, an existing suffix is kept. */
  lemma SanitizedExamples()
    ensures SanitizedFilename("") == DefaultFilename
    ensures SanitizedFilename("report") == "report.zip"
    ensures SanitizedFilename("already.zip") == "already.zip"
  {
    KeepPrintablePlainNames();
    assert HasSuffix("already.zip", ZipSuffix) by {
      assert "already.zip"[7..] == ".zip";
    }
  }

  /** The filter drops the double quote ... */
  lemma KeepPrintableQuote()
    ensures KeepPrintable("\"") == ""
  {
  }

  /** ... and keeps what follows it ... */
  lemma KeepPrintableQuoteZip()
    ensures KeepPrintable("\".zip") == ".zip"
  {
    KeepPrintableQuote();
    KeepPrintableIdentity(".zip");
    KeepPrintableAppend("\"", ".zip");
    assert "\".zip" == "\"" + ".zip";
  }

  /** ... and what precedes it. */
  lemma KeepPrintableEvil()
    ensures KeepPrintable("evil\".zip") == "evil.zip"
  {
    KeepPrintableQuoteZip();
    KeepPrintableIdentity("evil");
    KeepPrintableAppend("evil", "\".zip");
    assert "evil\".zip" == "evil" + "\".zip";
  }

  /** Worked cases: `evil".zip` gives `evil.zip`, and `".zip` falls back to
      the default name. */
  lemma SanitizedQuoteExamples()
    ensures SanitizedFilename("evil\".zip") == "evil.zip"
    ensures SanitizedFilename("\".zip") == DefaultFilename
  {
    KeepPrintableQuoteZip();
    KeepPrintableEvil();
    assert HasSuffix("evil.zip", ZipSuffix) by {
      assert "evil.zip"[4..] == ".zip";
    }
  }

  /** One decoded element of the manifest's `files` array. */
  datatype JsonZipEntry = JsonZipEntry(url: string, zipPath: string)

  /** The decoded manifest. */
  datatype JsonZipPayload = JsonZipPayload(files: seq<JsonZipEntry>, suggestedFilename: string)

  /** A pair with no URL is skipped unless its path ends in a slash. */
  predicate SkippedItem(item: JsonZipEntry): (b: bool)
    ensures b <==> item.url == "" && (item.zipPath == "" || item.zipPath[|item.zipPath| - 1] != '/')
  {
    item.url == "" && !HasSuffix(item.zipPath, "/")
  }

  /** The entry a pair contributes, if any: it must not be skipped and must construct. */
  function ItemEntry(item: JsonZipEntry, urlPrefix: string, parse: UrlParser): (r: Option<FileEntry>)
    ensures r.Some? <==> !SkippedItem(item) && NewFileEntry(item.url, item.zipPath, urlPrefix, parse).Ok?
    ensures r.Some? ==> r.value == FileEntry(Some(parse(item.url).value), GoPath.Clean(item.zipPath))
  {
    if SkippedItem(item) then None
    else match NewFileEntry(item.url, item.zipPath, urlPrefix, parse)
      case Ok(e) => Some(e)
      case Err(_) => None
  }

  /** The entries the manifest's pairs yield, in order. */
  function AdmittedEntries(items: seq<JsonZipEntry>, urlPrefix: string, parse: UrlParser): (r: seq<FileEntry>)
    ensures |r| <= |items|
    ensures forall i :: 0 <= i < |r| ==> ValidEntry(r[i])
  {
    if items == [] then []
    else
      var rest := AdmittedEntries(items[..|items| - 1], urlPrefix, parse);
      match ItemEntry(items[|items| - 1], urlPrefix, parse)
      case Some(e) => rest + [e]
      case None => rest
  }

  /** Admitting one more pair of the manifest. */
  lemma AdmittedStep(items: seq<JsonZipEntry>, i: nat, urlPrefix: string, parse: UrlParser)
    requires i < |items|
    ensures AdmittedEntries(items[..i + 1], urlPrefix, parse)
         == AdmittedEntries(items[..i], urlPrefix, parse)
            + (if ItemEntry(items[i], urlPrefix, parse).Some? then [ItemEntry(items[i], urlPrefix, parse).value] else [])
  {
    assert items[..i + 1][..i] == items[..i];
  }

  /** Admission is decided pair by pair, so it preserves the manifest's order. */
  lemma {:induction false} AdmittedAppend(xs: seq<JsonZipEntry>, ys: seq<JsonZipEntry>, urlPrefix: string, parse: UrlParser)
    ensures AdmittedEntries(xs + ys, urlPrefix, parse)
         == AdmittedEntries(xs, urlPrefix, parse) + AdmittedEntries(ys, urlPrefix, parse)
    decreases |ys|
  {
    if ys == [] {
      assert xs + ys == xs;
    } else {
      var ys' := ys[..|ys| - 1];
      assert (xs + ys)[..|xs + ys| - 1] == xs + ys';
      AdmittedAppend(xs, ys', urlPrefix, parse);
    }
  }

  /** An entry is admitted exactly when some pair of the manifest passes the
      skip rule and constructs to it. */
  lemma {:induction false} AdmittedMembership(items: seq<JsonZipEntry>, urlPrefix: string, parse: UrlParser, e: FileEntry)
    ensures e in AdmittedEntries(items, urlPrefix, parse) <==>
      exists i :: 0 <= i < |items| && !SkippedItem(items[i])
                  && NewFileEntry(items[i].url, items[i].zipPath, urlPrefix, parse) == Ok(e)
  {
    if items != [] {
      var n := |items| - 1;
      var items' := items[..n];
      AdmittedMembership(items', urlPrefix, parse, e);
      ItemYields(items[n], urlPrefix, parse, e);
      assert forall i :: 0 <= i < n ==> items'[i] == items[i];
    }
  }

  /** A pair yields `e` exactly when it passes the skip rule and constructs to `e`. */
  lemma ItemYields(item: JsonZipEntry, urlPrefix: string, parse: UrlParser, e: FileEntry)
    ensures ItemEntry(item, urlPrefix, parse) == Some(e)
        <==> !SkippedItem(item) && NewFileEntry(item.url, item.zipPath, urlPrefix, parse) == Ok(e)
  {
  }

  /** When every pair passes, the descriptor keeps all of them, one entry per
      pair in the same place, holding the parsed URL and the cleaned path. */
  lemma {:induction false} AllAdmitted(items: seq<JsonZipEntry>, urlPrefix: string, parse: UrlParser)
    requires forall i :: 0 <= i < |items| ==> ItemEntry(items[i], urlPrefix, parse).Some?
    ensures |AdmittedEntries(items, urlPrefix, parse)| == |items|
    ensures forall i :: 0 <= i < |items| ==>
      AdmittedEntries(items, urlPrefix, parse)[i] == ItemEntry(items[i], urlPrefix, parse).value
  {
    if items != [] {
      var items' := items[..|items| - 1];
      AllAdmitted(items', urlPrefix, parse);
      var last := ItemEntry(items[|items| - 1], urlPrefix, parse);
      var r, r' := AdmittedEntries(items, urlPrefix, parse), AdmittedEntries(items', urlPrefix, parse);
      assert r == r' + [last.value];
      forall i | 0 <= i < |items| ensures r[i] == ItemEntry(items[i], urlPrefix, parse).value {
        if i < |items'| {
          assert items'[i] == items[i];
        }
      }
    }
  }

  /** A pair without a URL never survives: its path loses the trailing slash
      to `Clean`, and the empty URL has no http(s) scheme (Go's `url.Parse`
      turns "" into a URL with an empty scheme). Directory markers thus
      never reach the descriptor. */
  lemma EmptyUrlDropped(item: JsonZipEntry, urlPrefix: string, parse: UrlParser)
    requires item.url == ""
    requires parse("").Ok? ==> !IsHttpScheme(parse("").value.scheme)
    ensures ItemEntry(item, urlPrefix, parse) == None
  {
  }

  /** The descriptor: the raw suggested name and the admitted entries. */
  class ZipDescriptor {
    var suggestedFilenameRaw: string
    var files: seq<FileEntry>

    ghost predicate Valid()
      reads this
    {
      forall i :: 0 <= i < |files| ==> ValidEntry(files[i])
    }

    /** `NewZipDescriptor`: no files and an empty suggestion. */
    constructor ()
      ensures Valid()
      ensures suggestedFilenameRaw == "" && files == []
    {
      suggestedFilenameRaw := "";
      files := [];
    }

    /** `EscapedSuggestedFilename`: filter the raw name rune by rune, then
        force the `.zip` suffix. */
    method EscapedSuggestedFilename() returns (name: string)
      ensures name == SanitizedFilename(suggestedFilenameRaw)
    {
      var raw := suggestedFilenameRaw;
      var builder: string := [];
      var i := 0;
      while i < |raw|
        invariant 0 <= i <= |raw|
        invariant builder == KeepPrintable(raw[..i])
      {
        var r := raw[i];
        assert raw[..i + 1][..i] == raw[..i];
        if ' ' <= r <= '~' && r != '"' {
          builder := builder + [r];
        }
        i := i + 1;
      }
      assert raw[..i] == raw;
      var escaped := builder;
      if escaped != "" && escaped != ZipSuffix {
        if HasSuffix(escaped, ZipSuffix) {
          return escaped;
        }
        return escaped + ZipSuffix;
      }
      return DefaultFilename;
    }

    /** `Files`: only validated entries are ever exposed. */
    function Files(): (r: seq<FileEntry>)
      reads this
      requires Valid()
      ensures forall i :: 0 <= i < |r| ==> ValidEntry(r[i])
    {
      files
    }
  }

  /** The part of `UnmarshalJsonZipDescriptor` after JSON decoding: copy the
      suggestion and append, in order, every pair that is not skipped and
      constructs. */
  method UnmarshalJsonZipDescriptor(parsed: JsonZipPayload, urlPrefix: string, parse: UrlParser)
    returns (zd: ZipDescriptor)
    ensures fresh(zd) && zd.Valid()
    ensures zd.suggestedFilenameRaw == parsed.suggestedFilename
    ensures zd.files == AdmittedEntries(parsed.files, urlPrefix, parse)
  {
    zd := new ZipDescriptor();
    zd.suggestedFilenameRaw := parsed.suggestedFilename;
    var items := parsed.files;
    var i := 0;
    while i < |items|
      invariant 0 <= i <= |items|
      invariant zd.files == AdmittedEntries(items[..i], urlPrefix, parse)
      invariant zd.suggestedFilenameRaw == parsed.suggestedFilename
    {
      var item := items[i];
      AdmittedStep(items, i, urlPrefix, parse);
      if !(item.url == "" && !HasSuffix(item.zipPath, "/")) {
        var entry := NewFileEntry(item.url, item.zipPath, urlPrefix, parse);
        if entry.Ok? {
          zd.files := zd.files + [entry.value];
        }
      }
      i := i + 1;
    }
    assert items[..i] == items;
  }
}
