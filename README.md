# gozipstreamer archive-assembly engine, in Dafny

This project models the core of gozipstreamer, a service that gathers
remotely hosted files into one ZIP archive and streams it to the client as
it is built. Four pieces are modelled:

- **Entry validation** (`Entries`, from `zipstreamer/file_entry.go`).
  `NewFileEntry` cleans the zip path and rejects absolute paths. It then
  requires an `http`/`https` URL that starts with the configured prefix
  (`ZS_URL_PREFIX`). The prefix is a parameter of the model. Go's
  `path.Clean` and `path.IsAbs` are written out by their documented lexical
  rules (`GoPath`). `url.Parse` is a parameter (`UrlParser`).
- **Descriptor** (`Descriptor`, from `zipstreamer/zip_descriptor.go`). It
  covers the file-name sanitiser `EscapedSuggestedFilename` and the filter
  that turns the decoded manifest `(url, zipPath)` pairs into entries. It is
  a class with the two fields the source mutates.
- **Size estimator** (`ZipSize`, from `calculateZipSize` in `main.go`). It
  sums the fixed ZIP header sizes of PKWARE's APPNOTE.TXT: local file
  header, 30 bytes (section 4.3.7); central directory header, 46 bytes
  (section 4.3.12); end of central directory record, 22 bytes (section
  4.3.16). Each header also carries the UTF-8 byte length of the name, plus
  each entry's mapped size. The global `fileSizeMap` is a `map<string, int>`
  parameter.
- **Stream assembler** (`Streamer`, from `zipstreamer/zip_streamer.go`).
  `NewZipStream` and the per-entry state machine of `StreamAllFiles`. The
  HTTP fetches and the `zip.Writer` outcomes come from an `Oracle`. The
  archive written is a log of records (`Header`, `Data`,
  `CentralDirectory`) kept by a `ZipWriter` object.

Each imperative Go function is a Dafny method with a loop. Its `ensures`
ties the result to a specification function (`SanitizedFilename`,
`AdmittedEntries`, `LocalHeaders`/`FileData`/`CentralDir`, `StreamAll`).
The lemmas state what the source promises about those functions.

Behaviours of the code worth knowing, each proved in the model:
- **Directory markers.** The comments at `zipstreamer/file_entry.go:24`,
  `zipstreamer/zip_descriptor.go:66` and `zipstreamer/zip_streamer.go:39`
  say that empty folders (paths ending in `/`, with no URL) are allowed and
  added to the archive. But `NewFileEntry` cleans the path first, and
  `Clean` never leaves a trailing slash except on `/`, which is rejected as
  absolute. So the directory branch of `NewFileEntry` is unreachable
  (`DirectoryBranchUnreachable`). A manifest pair with no URL is always
  dropped (`EmptyUrlDropped`), and streams of constructed entries write no
  directory headers (`ConstructedEntriesWriteNoDirectories`).
- **Parent paths.** `Clean` keeps a leading `..` and `IsAbs` is false for
  it, so `../x` is accepted and stored as `../x` (`ParentPathAccepted`).
- **Quotes in the suggested name.** The filter drops only the characters
  it refuses, so `evil".zip` becomes `evil.zip` (`SanitizedQuoteExamples`).
- **Fetch status.** Every status other than exactly 200 skips the entry
  (`zipstreamer/zip_streamer.go:70`).
- **Names in the size estimate.** Every entry's name is counted twice,
  once in the local header and once in the central directory header
  (`AppendEntrySize`).

## Model

| member | source | states |
|---|---|---|
| `GoStrings.HasPrefix` | zipstreamer/file_entry.go:42 | `strings.HasPrefix`: the string begins with the prefix |
| `GoStrings.HasPrefixChars` | zipstreamer/file_entry.go:42 | `HasPrefix` holds exactly when the prefix is no longer than the string and agrees with it character by character at the front |
| `GoStrings.HasSuffix` | zipstreamer/file_entry.go:25 | `strings.HasSuffix`: the string ends with the suffix |
| `GoStrings.HasSuffixChars` | zipstreamer/zip_descriptor.go:33 | `HasSuffix` holds exactly when the suffix is no longer than the string and agrees with its last characters one by one |
| `GoPath.IsAbs` | zipstreamer/file_entry.go:20 | `path.IsAbs` holds exactly when the path has the prefix `/` |
| `GoPath.Resolve` | zipstreamer/file_entry.go:19 | the lexical rules of `path.Clean` keep only non-empty, slash-free elements |
| `GoPath.JoinShape` | zipstreamer/file_entry.go:19 | joining clean elements never gives a leading or trailing slash, and is empty only for no elements |
| `GoPath.Clean` | zipstreamer/file_entry.go:19-20 | the cleaned path is non-empty, starts with `/` exactly when the input does, and ends with `/` only when it is `/` |
| `GoPath.CleanDropsTrailingSlash` | zipstreamer/file_entry.go:19 | `a/` cleans to `a` |
| `GoPath.CleanKeepsLeadingDotDot` | zipstreamer/file_entry.go:19 | `../x` cleans to itself |
| `Entries.NewFileEntry` | zipstreamer/file_entry.go:18-47 | succeeds iff the cleaned path is relative, the URL parses with scheme `http` or `https`, and the raw URL starts with the prefix; on success it stores exactly the parsed URL and the cleaned path, and the entry is valid (has a URL, a relative path with no trailing `/`) |
| `Entries.DirectoryBranchUnreachable` | zipstreamer/file_entry.go:19-30 | a relative cleaned path never ends in `/`, so every constructed entry has a URL |
| `Entries.ErrorPrecedence` | zipstreamer/file_entry.go:19-44 | the first failing check decides the error: path, then URL parse, then scheme, then prefix |
| `Entries.AbsolutePathRejectedFirst` | zipstreamer/file_entry.go:19-22 | an absolute path is rejected whatever the URL, prefix or parser |
| `Entries.PrefixGuard` | zipstreamer/file_entry.go:41-44 | a URL outside the prefix always fails; an empty prefix admits every http(s) URL with a relative path |
| `Entries.ParentPathAccepted` | zipstreamer/file_entry.go:19-22 | `../x` with a good URL is accepted and stored as `../x` |
| `Entries.DirectoryPathNeedsUrl` | zipstreamer/file_entry.go:19-46 | `a/` is handled as the file `a` and needs a valid allowed URL |
| `Descriptor.Printable` | zipstreamer/zip_descriptor.go:25 | a character is kept exactly when its code point is greater than 31, less than 127 and not `"` |
| `Descriptor.KeepPrintable` | zipstreamer/zip_descriptor.go:23-29 | the filtered name is no longer than the raw one and holds only code points 32..126 other than `"` |
| `Descriptor.SanitizedFilename` | zipstreamer/zip_descriptor.go:21-39 | the sanitised name ends in `.zip` and holds only allowed characters |
| `Descriptor.KeepPrintableAppend` | zipstreamer/zip_descriptor.go:24-28 | each character is kept or dropped on its own, so order is preserved |
| `Descriptor.KeepPrintableIdentity` | zipstreamer/zip_descriptor.go:24-28 | the filter leaves a string unchanged exactly when all its characters are allowed |
| `Descriptor.SanitizedShape` | zipstreamer/zip_descriptor.go:31-38 | an empty or `.zip` filtered name gives `archive.zip`; a name ending in `.zip` is kept; otherwise `.zip` is appended once |
| `Descriptor.SanitizedIdempotent` | zipstreamer/zip_descriptor.go:21-39 | sanitising a sanitised name returns it unchanged |
| `Descriptor.SanitizedExamples` | zipstreamer/zip_descriptor.go:31-38 | `""` gives `archive.zip`, `report` gives `report.zip`, `already.zip` is unchanged |
| `Descriptor.SanitizedQuoteExamples` | zipstreamer/zip_descriptor.go:24-38 | `evil".zip` gives `evil.zip`; `".zip` gives `archive.zip` |
| `Descriptor.SkippedItem` | zipstreamer/zip_descriptor.go:67 | a pair is skipped exactly when its URL is empty and its path is empty or does not end in `/` |
| `Descriptor.ItemEntry` | zipstreamer/zip_descriptor.go:67-74 | a pair yields an entry iff it is not skipped and `NewFileEntry` succeeds, and the entry holds the parsed URL and the cleaned path |
| `Descriptor.ItemYields` | zipstreamer/zip_descriptor.go:67-74 | a pair yields `e` exactly when it is not skipped and `NewFileEntry` returns `e` for it |
| `Descriptor.AdmittedEntries` | zipstreamer/zip_descriptor.go:65-75 | no more entries than pairs, and every admitted entry is valid |
| `Descriptor.AdmittedStep` | zipstreamer/zip_descriptor.go:65-75 | one more turn of the loop appends the next pair's entry, if it yields one, to those admitted so far |
| `Descriptor.AdmittedAppend` | zipstreamer/zip_descriptor.go:65-75 | admission distributes over concatenation, so manifest order is kept |
| `Descriptor.AdmittedMembership` | zipstreamer/zip_descriptor.go:65-75 | an entry is admitted iff some pair passes the skip rule and constructs to it |
| `Descriptor.AllAdmitted` | zipstreamer/zip_descriptor.go:65-75 | when every pair passes, one entry per pair is kept, in the same position |
| `Descriptor.EmptyUrlDropped` | zipstreamer/zip_descriptor.go:67-74 | a pair with an empty URL never yields an entry, given Go's parse of `""` has no http scheme |
| `Descriptor.ZipDescriptor.constructor` | zipstreamer/zip_descriptor.go:13-18 | a fresh descriptor has no files and an empty raw name |
| `Descriptor.ZipDescriptor.EscapedSuggestedFilename` | zipstreamer/zip_descriptor.go:21-39 | the rune loop and suffix logic return `SanitizedFilename` of the raw name |
| `Descriptor.ZipDescriptor.Files` | zipstreamer/zip_descriptor.go:41-43 | only validated entries are exposed |
| `Descriptor.UnmarshalJsonZipDescriptor` | zipstreamer/zip_descriptor.go:62-77 | the result is fresh and keeps the raw name; its files are `AdmittedEntries` of the decoded pairs |
| `ZipSize.ByteLength` | main.go:113 | Go's `len` of the name: between one and four bytes per character, and exactly one per character for ASCII text |
| `ZipSize.SizeOf` | main.go:114 | the mapped size of the path, and Go's zero value 0 for a path missing from the map |
| `ZipSize.LocalHeaders` | main.go:113-116 | the local-header total is at least 30 bytes per entry |
| `ZipSize.FileData` | main.go:114-117 | the file-data total is non-negative when no mapped size is negative |
| `ZipSize.CentralDir` | main.go:113-118 | the central-directory total is at least 46 bytes per entry |
| `ZipSize.TotalsStep` | main.go:113-118 | one more turn adds 30 + name length, the mapped size, and 46 + name length to the three running totals |
| `ZipSize.CentralDirOffset` | main.go:97-98 | the central directory total is the local header total plus 16 per entry |
| `ZipSize.EmptyArchiveSize` | main.go:101-103 | an empty list gives (22, 0, 0, 0) |
| `ZipSize.AppendEntrySize` | main.go:105-121 | one more entry with path `p` adds exactly 76 + 2 times the byte length of `p` + its mapped size (0 if missing), even for a duplicate path |
| `ZipSize.RunningTotalsBounded` | main.go:101-118 | with non-negative sizes every running total is between 0 and the final one, so int64 cannot wrap unless the final total does |
| `ZipSize.CalculateZipSize` | main.go:96-132 | returns (total, local headers, file data, central directory) with local = sum of 30 + byte length, data = sum of mapped sizes per entry, central = local + 16N, total = their sum + 22 |
| `Streamer.DirName` | zipstreamer/zip_streamer.go:41-44 | the folder name ends in `/`; a path already ending in `/` is unchanged, and any other path gets exactly one `/` appended (the name begins with the path and is at most one character longer) |
| `Streamer.ZipWriter.CreateHeader` | zipstreamer/zip_streamer.go:55 | a header is logged exactly when the writer accepts it |
| `Streamer.ZipWriter.Copy` | zipstreamer/zip_streamer.go:84 | the body bytes are logged verbatim exactly when the copy succeeds |
| `Streamer.ZipWriter.Close` | zipstreamer/zip_streamer.go:99 | the central directory is logged exactly when closing succeeds |
| `Streamer.VisitEntry` | zipstreamer/zip_streamer.go:40-95 | one turn of the loop as a function of where the loop stands (a definition; its properties are `VisitBounds`, `VisitFatal`, `VisitFault` and `VisitFaultFree`) |
| `Streamer.VisitBounds` | zipstreamer/zip_streamer.go:40-95 | a turn appends at most two records, keeps every record written before, and adds at most one to the success counter |
| `Streamer.VisitFatal` | zipstreamer/zip_streamer.go:55-87 | a turn raises an error exactly when the entry reaches the writer (a directory, or a file fetched with status 200) and its header call, or for a file its copy call, fails; the error is a writer error |
| `Streamer.VisitFault` | zipstreamer/zip_streamer.go:79-87 | a failing turn adds nothing, except the header of a file whose copy failed |
| `Streamer.VisitFaultFree` | zipstreamer/zip_streamer.go:40-95 | a turn without writer errors adds exactly the entry's records and counts a directory or a 200 fetch |
| `Streamer.Run` | zipstreamer/zip_streamer.go:38-96 | the loop over the first `k` entries, stopping at the first writer error (a definition; its properties are the `Run` lemmas) |
| `Streamer.RunStep` | zipstreamer/zip_streamer.go:38-96 | while no writer error has occurred, the loop over `k + 1` entries is one more turn after the loop over `k` |
| `Streamer.RunBounds` | zipstreamer/zip_streamer.go:38-96 | after `k` entries the success counter is at most `k` and the log holds at most `2k` records |
| `Streamer.RunLogGrows` | zipstreamer/zip_streamer.go:38-96 | records once written are never taken back: every earlier log begins every later one |
| `Streamer.RunStopsAtFatal` | zipstreamer/zip_streamer.go:55-58 | after a writer error no later entry is processed |
| `Streamer.RunFaultFree` | zipstreamer/zip_streamer.go:38-96 | with no writer errors, each entry is visited once in order, the log is each entry's records in list order, and the counter is directories + 200-fetched files |
| `Streamer.RunFatalIff` | zipstreamer/zip_streamer.go:55-87 | the loop stops with an error iff some writer call fails, and that error is a header or copy error |
| `Streamer.FirstFault` | zipstreamer/zip_streamer.go:79-87 | at the first writer error the log holds the earlier entries' records, plus the header for a failed copy |
| `Streamer.RunNoCentralDirectory` | zipstreamer/zip_streamer.go:38-96 | the loop itself never writes the central directory |
| `Streamer.StreamAll` | zipstreamer/zip_streamer.go:34-108 | the error and log `StreamAllFiles` produces (a definition; its properties are `StreamAllOutcome` and `StreamAllOfRun`) |
| `Streamer.StreamAllOfRun` | zipstreamer/zip_streamer.go:97-107 | after the loop, a writer error is returned as is; otherwise a failed `Close` is returned, then the all-failed error, else nil |
| `Streamer.StreamAllOutcome` | zipstreamer/zip_streamer.go:99-107 | a writer error wins, then a Close error, then "all failed" iff success is 0; Close runs and the central directory is written only when no writer call failed |
| `Streamer.DirectoriesOnlySucceed` | zipstreamer/zip_streamer.go:40-61 | a non-empty list of directories with a willing writer streams successfully |
| `Streamer.ConstructedEntriesWriteNoDirectories` | zipstreamer/zip_streamer.go:40 | entries built by `NewFileEntry` never produce a directory header |
| `Streamer.ZipStream.constructor` | zipstreamer/zip_streamer.go:27-31 | stores the entries, with CompressionMethod Store |
| `Streamer.ZipStream.StreamAllFiles` | zipstreamer/zip_streamer.go:34-108 | the returned error and the writer log are exactly `StreamAll` of the entries, the compression method and the oracle |
| `Streamer.StreamEntry` | zipstreamer/zip_streamer.go:40-95 | one loop turn takes the writer from `Run` of the first `i` entries to `Run` of the first `i + 1`: a directory header always counts; a failed or non-200 fetch writes nothing and does not count; a 200 fetch writes the header with the stream's method, then the body, then counts; a writer error is returned |
| `Streamer.NewZipStream` | zipstreamer/zip_streamer.go:22-32 | fails iff the entry list is empty; otherwise a fresh stream over the entries with method Store |

## Left out

- JSON decoding of the manifest (`encoding/json`). The model starts from the decoded file name and pairs, so its top-level parse error is not modelled.
- The internals of `url.Parse`, including scheme lower-casing and host checks. It is a parameter. Only its documented result for `""`, a URL with an empty scheme, is used, as a precondition of `EmptyUrlDropped`.
- `os.Getenv(ZS_URL_PREFIX)` is the `urlPrefix` parameter.
- A parsed URL keeps only its scheme. The URL passed to `http.Get` is not tied to the fetch outcome: the oracle gives the outcome per entry index.
- The accessors `Url()` and `ZipPath()` are the datatype destructors `url` and `zipPath`.
- The stream's `destination` writer, `http.Get`, `io.Copy`, the `zip.Writer` byte format, `zipWriter.Flush`, and the `http.Flusher` check. Fetch, header, copy and close outcomes come from the `Oracle`. Flush results are ignored by the source and are not modelled.
- Streamer.ZipWriter.Copy: a failed copy logs no partial bytes, because the bytes written before an `io.Copy` error are not determined by the code.
- Streamer.StreamEntry: the loop body of `StreamAllFiles` is its own method, so each obligation stays small; the code is one function. A writer error ends the loop through the loop condition and is returned right after it, where the code returns from inside the loop; no further entry is visited in either form.
- `time.Now`, `SetMode(os.ModeDir|0755)`, `defer resp.Body.Close()` and `fmt.Printf` logging. They hold no checkable logic.
- The estimator is not proved to equal the emitted archive size. The real framing of `archive/zip` (data descriptors, extra fields) is not part of this model.
- ZipSize.CalculateZipSize: int64 accumulators are unbounded integers. `RunningTotalsBounded` shows wrap-around cannot happen while sizes are non-negative and the final total fits in 63 bits.
- The two arms of the type assertion in `calculateZipSize` (main.go:107-111) call the same accessor and are one path here.
- `fetchFolderContents`, `traverseFolder`, `zipHandler`, `processZipRequest`, `main` and `serveHTML` in main.go: remote listing API, HTTP routing and responses.
- Byte-level string comparisons (`len`, `HasPrefix`, `HasSuffix`) are done on code points, which agrees with Go on valid UTF-8. Lengths use the UTF-8 byte count.
