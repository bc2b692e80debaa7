/** `calculateZipSize`: the byte size of the stored (uncompressed) archive,
    predicted from the entry list and a path-to-size map alone. */
module ZipSize {
  import opened Entries

  /** Fixed parts of the ZIP structures (PKWARE APPNOTE.TXT): local file
      header (section 4.3.7), central directory header (section 4.3.12),
      end of central directory record (section 4.3.16). */
  const LocalHeaderSize := 30
  const CentralDirSize := 46
  const EocdSize := 22

  /** Bytes of one code point in UTF-8. */
  function RuneLength(c: char): (n: nat)
    ensures 1 <= n <= 4
  {
    if c as int < 0x80 then 1
    else if c as int < 0x800 then 2
    else if c as int < 0x1_0000 then 3
    else 4
  }

  /** Go's `len` of a string: its length in UTF-8 bytes. */
  function ByteLength(s: string): (n: nat)
    ensures |s| <= n <= 4 * |s|
    ensures (forall i :: 0 <= i < |s| ==> s[i] as int < 0x80) ==> n == |s|
  {
    if s == [] then 0 else ByteLength(s[..|s| - 1]) + RuneLength(s[|s| - 1])
  }

  /** `fileSizeMap[zipPath]`: a missing key reads as Go's zero value. */
  function SizeOf(sizes: map<string, int>, zipPath: string): (size: int)
    ensures zipPath in sizes ==> size == sizes[zipPath]
    ensures zipPath !in sizes ==> size == 0
  {
    if zipPath in sizes then sizes[zipPath] else 0
  }

  /** Sum of 30 + name length over the entries. */
  function LocalHeaders(files: seq<FileEntry>): (total: int)
    ensures total >= LocalHeaderSize * |files|
  {
    if files == [] then 0
    else LocalHeaders(files[..|files| - 1]) + LocalHeaderSize + ByteLength(files[|files| - 1].zipPath)
  }

  /** Sum of the mapped sizes, once per entry (duplicate paths count again). */
  function FileData(files: seq<FileEntry>, sizes: map<string, int>): (total: int)
    ensures (forall p :: p in sizes ==> sizes[p] >= 0) ==> total >= 0
  {
    if files == [] then 0
    else FileData(files[..|files| - 1], sizes) + SizeOf(sizes, files[|files| - 1].zipPath)
  }

  /** Sum of 46 + name length over the entries. */
  function CentralDir(files: seq<FileEntry>): (total: int)
    ensures total >= CentralDirSize * |files|
  {
    if files == [] then 0
    else CentralDir(files[..|files| - 1]) + CentralDirSize + ByteLength(files[|files| - 1].zipPath)
  }

  /** The predicted archive size. */
  function ZipSizeTotal(files: seq<FileEntry>, sizes: map<string, int>): int {
    LocalHeaders(files) + FileData(files, sizes) + CentralDir(files) + EocdSize
  }

  /** Each central directory header is 16 bytes longer than the local header
      for the same name. */
  lemma {:induction false} CentralDirOffset(files: seq<FileEntry>)
    ensures CentralDir(files) == LocalHeaders(files) + 16 * |files|
  {
    if files != [] {
      CentralDirOffset(files[..|files| - 1]);
    }
  }

  /** An empty list is just the end of central directory record. */
  lemma EmptyArchiveSize(sizes: map<string, int>)
    ensures ZipSizeTotal([], sizes) == EocdSize == 22
    ensures LocalHeaders([]) == FileData([], sizes) == CentralDir([]) == 0
  {
  }

  /** One more entry with path `p` adds its two headers, both carrying the
      name, and its mapped size, whether or not `p` is already in the list. */
  lemma AppendEntrySize(files: seq<FileEntry>, e: FileEntry, sizes: map<string, int>)
    ensures ZipSizeTotal(files + [e], sizes)
         == ZipSizeTotal(files, sizes) + 76 + 2 * ByteLength(e.zipPath) + SizeOf(sizes, e.zipPath)
  {
    assert (files + [e])[..|files + [e]| - 1] == files;
  }

  /** With no negative sizes every running total of the loop lies between 0
      and the final one, so an int64 accumulator overflows only if the final
      total itself exceeds 2^63 - 1. */
  lemma {:induction false} RunningTotalsBounded(files: seq<FileEntry>, sizes: map<string, int>, k: nat)
    requires k <= |files|
    requires forall p :: p in sizes ==> sizes[p] >= 0
    ensures 0 <= LocalHeaders(files[..k]) <= LocalHeaders(files)
    ensures 0 <= FileData(files[..k], sizes) <= FileData(files, sizes)
    ensures 0 <= CentralDir(files[..k]) <= CentralDir(files)
    decreases |files|
  {
    if k == |files| {
      assert files[..k] == files;
      if files != [] {
        RunningTotalsBounded(files[..|files| - 1], sizes, |files| - 1);
        assert files[..|files| - 1][..|files| - 1] == files[..|files| - 1];
      }
    } else {
      var init := files[..|files| - 1];
      assert init[..k] == files[..k];
      RunningTotalsBounded(init, sizes, k);
    }
  }

  /** One more turn of the loop adds the next entry to each running total. */
  lemma TotalsStep(files: seq<FileEntry>, sizes: map<string, int>, i: nat)
    requires i < |files|
    ensures LocalHeaders(files[..i + 1]) == LocalHeaders(files[..i]) + LocalHeaderSize + ByteLength(files[i].zipPath)
    ensures FileData(files[..i + 1], sizes) == FileData(files[..i], sizes) + SizeOf(sizes, files[i].zipPath)
    ensures CentralDir(files[..i + 1]) == CentralDir(files[..i]) + CentralDirSize + ByteLength(files[i].zipPath)
  {
    assert files[..i + 1][..i] == files[..i];
  }

  /** `calculateZipSize(files)` with the global `fileSizeMap` passed as
      `sizes`; results in Go's order (total, local headers, file data,
      central directory). */
  method CalculateZipSize(files: seq<FileEntry>, sizes: map<string, int>)
    returns (totalZipSize: int, totalLocalHeaders: int, totalFileData: int, totalCentralDir: int)
    ensures totalLocalHeaders == LocalHeaders(files)
    ensures totalFileData == FileData(files, sizes)
    ensures totalCentralDir == CentralDir(files)
    ensures totalCentralDir == totalLocalHeaders + 16 * |files|
    ensures totalZipSize == totalLocalHeaders + totalFileData + totalCentralDir + EocdSize
    ensures totalZipSize == ZipSizeTotal(files, sizes)
  {
    totalLocalHeaders, totalFileData, totalCentralDir := 0, 0, 0;
    var i := 0;
    while i < |files|
      invariant 0 <= i <= |files|
      invariant totalLocalHeaders == LocalHeaders(files[..i])
      invariant totalFileData == FileData(files[..i], sizes)
      invariant totalCentralDir == CentralDir(files[..i])
    {
      var zipPath := files[i].zipPath;
      var filenameLen := ByteLength(zipPath);
      var fileSize := SizeOf(sizes, zipPath);
      TotalsStep(files, sizes, i);
      totalLocalHeaders := totalLocalHeaders + LocalHeaderSize + filenameLen;
      totalFileData := totalFileData + fileSize;
      totalCentralDir := totalCentralDir + CentralDirSize + filenameLen;
      i := i + 1;
    }
    assert files[..i] == files;
    CentralDirOffset(files);
    totalZipSize := totalLocalHeaders + totalFileData + totalCentralDir + EocdSize;
  }
}
