/** Archive members (`FileEntry`) and their only constructor, `NewFileEntry`:
    the single validation gate for what may go into an archive. */
module Entries {
  import opened Wrappers
  import opened GoStrings
  import opened GoPath

  /** What `url.Parse` hands back, as far as the core looks at it: the
      (lower-cased) scheme and the text `URL.String()` gives for a fetch. */
  datatype ParsedUrl = ParsedUrl(scheme: string)

  /** `url.Parse`, supplied by the caller: its internals are not modelled. */
  type UrlParser = string -> Result<ParsedUrl, string>

  datatype EntryError =
    | ZipPathNotRelative          // "zip path must be relative"
    | UrlParseFailed(reason: string) // the error `url.Parse` returned
    | SchemeNotHttp               // "url must be a http url"
    | UrlNotAllowed               // "URL not allowed"

  /** A member of the archive.  `url == None` is a directory marker.  The
      destructors `url` and `zipPath` are the accessors `Url()` and `ZipPath()`. */
  datatype FileEntry = FileEntry(url: Option<ParsedUrl>, zipPath: string)

  predicate IsHttpScheme(scheme: string) {
    scheme == "http" || scheme == "https"
  }

  /** What every entry built by `NewFileEntry` satisfies. */
  predicate ValidEntry(e: FileEntry) {
    && e.url.Some?
    && IsHttpScheme(e.url.value.scheme)
    && e.zipPath != ""
    && !IsAbs(e.zipPath)
    && !HasSuffix(e.zipPath, "/")
  }

  /** `NewFileEntry(urlString, zipPath)` with `ZS_URL_PREFIX` read as
      `urlPrefix` and `url.Parse` as `parse`.  It succeeds exactly when the
      cleaned path is relative, the URL parses with an http(s) scheme and the
      raw URL text starts with the prefix; it then stores the parsed URL and
      the cleaned path, and nothing else. */
  function NewFileEntry(urlString: string, zipPath: string, urlPrefix: string, parse: UrlParser)
    : (r: Result<FileEntry, EntryError>)
    ensures r.Ok? <==>
      && !IsAbs(Clean(zipPath))
      && parse(urlString).Ok?
      && IsHttpScheme(parse(urlString).value.scheme)
      && HasPrefix(urlString, urlPrefix)
    ensures r.Ok? ==> r.value == FileEntry(Some(parse(urlString).value), Clean(zipPath))
    ensures r.Ok? ==> ValidEntry(r.value)
  {
    var cleaned := Clean(zipPath);
    if IsAbs(cleaned) then Err(ZipPathNotRelative)
    else if HasSuffix(cleaned, "/") then
      // directory marker: the guard above and `Clean` leave no way in
      Ok(FileEntry(None, cleaned))
    else
      match parse(urlString)
      case Err(reason) => Err(UrlParseFailed(reason))
      case Ok(u) =>
        if !IsHttpScheme(u.scheme) then Err(SchemeNotHttp)
        else if !HasPrefix(urlString, urlPrefix) then Err(UrlNotAllowed)
        else Ok(FileEntry(Some(u), cleaned))
  }

  /** A cleaned path that passed the absolute-path check never ends in a
      slash, so the directory-marker branch of `NewFileEntry` cannot fire and
      no constructed entry lacks a URL. */
  lemma DirectoryBranchUnreachable(urlString: string, zipPath: string, urlPrefix: string, parse: UrlParser)
    ensures !IsAbs(Clean(zipPath)) ==> !HasSuffix(Clean(zipPath), "/")
    ensures NewFileEntry(urlString, zipPath, urlPrefix, parse).Ok? ==>
              NewFileEntry(urlString, zipPath, urlPrefix, parse).value.url.Some?
  {
  }

  /** The checks run in the order path, URL parse, scheme, prefix: the first
      one that fails decides the error, whatever the later ones would say. */
  lemma ErrorPrecedence(urlString: string, zipPath: string, urlPrefix: string, parse: UrlParser)
    ensures IsAbs(Clean(zipPath)) ==>
              NewFileEntry(urlString, zipPath, urlPrefix, parse) == Err(ZipPathNotRelative)
    ensures !IsAbs(Clean(zipPath)) && parse(urlString).Err? ==>
              NewFileEntry(urlString, zipPath, urlPrefix, parse) == Err(UrlParseFailed(parse(urlString).error))
    ensures !IsAbs(Clean(zipPath)) && parse(urlString).Ok? && !IsHttpScheme(parse(urlString).value.scheme) ==>
              NewFileEntry(urlString, zipPath, urlPrefix, parse) == Err(SchemeNotHttp)
    ensures !IsAbs(Clean(zipPath)) && parse(urlString).Ok? && IsHttpScheme(parse(urlString).value.scheme)
            && !HasPrefix(urlString, urlPrefix) ==>
              NewFileEntry(urlString, zipPath, urlPrefix, parse) == Err(UrlNotAllowed)
  {
  }

  /** An absolute zip path is rejected before the URL is even parsed: the
      result does not depend on the URL, the prefix or the parser. */
  lemma AbsolutePathRejectedFirst(zipPath: string, u1: string, u2: string, prefix1: string, prefix2: string,
                                  parse1: UrlParser, parse2: UrlParser)
    requires IsAbs(zipPath)
    ensures NewFileEntry(u1, zipPath, prefix1, parse1) == NewFileEntry(u2, zipPath, prefix2, parse2) == Err(ZipPathNotRelative)
  {
  }

  /** The allow-list guard: a URL outside the prefix never yields an entry,
      whatever its scheme; with an empty (unset) prefix every http(s) URL
      with a relative path does. */
  lemma PrefixGuard(urlString: string, zipPath: string, urlPrefix: string, parse: UrlParser)
    ensures !HasPrefix(urlString, urlPrefix) ==> NewFileEntry(urlString, zipPath, urlPrefix, parse).Err?
    ensures NewFileEntry(urlString, zipPath, "", parse).Ok? <==>
              !IsAbs(Clean(zipPath)) && parse(urlString).Ok? && IsHttpScheme(parse(urlString).value.scheme)
  {
  }

  /** A path that climbs out of the archive root is accepted: `../x` stays
      `../x` after cleaning and is not absolute. */
  lemma ParentPathAccepted(urlString: string, urlPrefix: string, parse: UrlParser)
    requires parse(urlString).Ok? && IsHttpScheme(parse(urlString).value.scheme)
    requires HasPrefix(urlString, urlPrefix)
    ensures NewFileEntry(urlString, "../x", urlPrefix, parse) == Ok(FileEntry(Some(parse(urlString).value), "../x"))
  {
    CleanKeepsLeadingDotDot();
  }

  /** A directory-style path loses its slash and is handled as a file:
      `a/` needs a valid URL like any other path. */
  lemma DirectoryPathNeedsUrl(urlString: string, urlPrefix: string, parse: UrlParser)
    ensures NewFileEntry(urlString, "a/", urlPrefix, parse).Ok? <==>
              parse(urlString).Ok? && IsHttpScheme(parse(urlString).value.scheme) && HasPrefix(urlString, urlPrefix)
    ensures NewFileEntry(urlString, "a/", urlPrefix, parse).Ok? ==>
              NewFileEntry(urlString, "a/", urlPrefix, parse).value.zipPath == "a"
  {
  }
}
