/** The stream assembler: `NewZipStream` and `StreamAllFiles`.  The HTTP
    fetches and the `zip.Writer` outcomes are oracle inputs; what reaches the
    destination is a log of the records the writer accepted. */
module Streamer {
  import opened Wrappers
  import opened GoStrings
  import opened Entries

  newtype uint16 = x: int | 0 <= x < 0x1_0000
  newtype byte = x: int | 0 <= x < 0x100

  /** `zip.Store`: no compression. */
  const Store: uint16 := 0
  /** `http.StatusOK` */
  const StatusOK := 200

  /** What `http.Get` gives for one entry. */
  datatype FetchOutcome = TransportError | Response(statusCode: int, body: seq<byte>)

  /** The outside world, per entry index: the fetch outcome, whether the
      writer refuses that entry's header, whether copying its body fails;
      and whether closing the archive fails. */
  datatype Oracle = Oracle(
    fetch: nat -> FetchOutcome,
    headerFails: nat -> bool,
    copyFails: nat -> bool,
    closeFails: bool)

  /** What the writer has put out: a header, an entry's bytes, or the
      central directory and end record written by `Close`. */
  datatype Record =
    | Header(name: string, compression: uint16, isDir: bool)
    | Data(bytes: seq<byte>)
    | CentralDirectory

  datatype StreamError =
    | NoEntries                         // "must have at least 1 entry"
    | DirectoryHeaderFailed(folder: string) // "failed to create directory entry ..."
    | HeaderFailed                      // CreateHeader's error, returned as is
    | CopyFailed                        // io.Copy's error, returned as is
    | CloseFailed                       // Close's error, returned as is
    | AllEntriesFailed                  // "empty file - all files and folders failed"

  /** The name of a directory header: the path with a slash appended only if missing. */
  function DirName(zipPath: string): (name: string)
    ensures HasSuffix(name, "/")
    ensures HasSuffix(zipPath, "/") ==> name == zipPath
    ensures HasPrefix(name, zipPath) && |name| <= |zipPath| + 1
  {
    if HasSuffix(zipPath, "/") then zipPath else zipPath + "/"
  }

  /** `zip.Writer`, reduced to the records it has accepted. */
  class ZipWriter {
    var log: seq<Record>

    constructor ()
      ensures log == []
    {
      log := [];
    }

    method CreateHeader(h: Record, fails: bool) returns (ok: bool)
      requires h.Header?
      modifies this
      ensures ok == !fails
      ensures log == if ok then old(log) + [h] else old(log)
    {
      ok := !fails;
      if ok {
        log := log + [h];
      }
    }

    /** `io.Copy` of a response body into the current entry. */
    method Copy(body: seq<byte>, fails: bool) returns (ok: bool)
      modifies this
      ensures ok == !fails
      ensures log == if ok then old(log) + [Data(body)] else old(log)
    {
      ok := !fails;
      if ok {
        log := log + [Data(body)];
      }
    }

    method Close(fails: bool) returns (ok: bool)
      modifies this
      ensures ok == !fails
      ensures log == if ok then old(log) + [CentralDirectory] else old(log)
    {
      ok := !fails;
      if ok {
        log := log + [CentralDirectory];
      }
    }
  }

  /** Where the loop of `StreamAllFiles` stands: the writer's log, the
      success counter and, once a writer call failed, the error returned. */
  datatype Progress = Progress(log: seq<Record>, success: nat, fatal: Option<StreamError>)

  /** One turn of the loop, for entry `i`. */
  function VisitEntry(e: FileEntry, i: nat, compression: uint16, o: Oracle, p: Progress): Progress {
    match e.url
    case None =>
      var folderPath := DirName(e.zipPath);
      if o.headerFails(i) then p.(fatal := Some(DirectoryHeaderFailed(folderPath)))
      else Progress(p.log + [Header(folderPath, Store, true)], p.success + 1, None)
    case Some(_) =>
      match o.fetch(i)
      case TransportError => p
      case Response(status, body) =>
        if status != StatusOK then p
        else if o.headerFails(i) then p.(fatal := Some(HeaderFailed))
        else if o.copyFails(i) then Progress(p.log + [Header(e.zipPath, compression, false)], p.success, Some(CopyFailed))
        else Progress(p.log + [Header(e.zipPath, compression, false), Data(body)], p.success + 1, None)
  }

  /** The loop over the first `k` entries; it stops at the first writer error. */
  function Run(entries: seq<FileEntry>, compression: uint16, o: Oracle, k: nat): Progress
    requires k <= |entries|
  {
    if k == 0 then Progress([], 0, None)
    else
      var p := Run(entries, compression, o, k - 1);
      if p.fatal.Some? then p else VisitEntry(entries[k - 1], k - 1, compression, o, p)
  }

  /** What `StreamAllFiles` returns and leaves in the writer. */
  function StreamAll(entries: seq<FileEntry>, compression: uint16, o: Oracle): (Option<StreamError>, seq<Record>) {
    var p := Run(entries, compression, o, |entries|);
    if p.fatal.Some? then (p.fatal, p.log)
    else if o.closeFails then (Some(CloseFailed), p.log)
    else if p.success == 0 then (Some(AllEntriesFailed), p.log + [CentralDirectory])
    else (None, p.log + [CentralDirectory])
  }

  /** `StreamAll` read off the loop's final state. */
  lemma StreamAllOfRun(entries: seq<FileEntry>, compression: uint16, o: Oracle, p: Progress)
    requires Run(entries, compression, o, |entries|) == p
    ensures StreamAll(entries, compression, o) ==
      if p.fatal.Some? then (p.fatal, p.log)
      else if o.closeFails then (Some(CloseFailed), p.log)
      else if p.success == 0 then (Some(AllEntriesFailed), p.log + [CentralDirectory])
      else (None, p.log + [CentralDirectory])
  {
  }

  /** One more turn of the loop, while no writer call has failed. */
  lemma RunStep(entries: seq<FileEntry>, compression: uint16, o: Oracle, k: nat)
    requires k < |entries|
    requires Run(entries, compression, o, k).fatal.None?
    ensures Run(entries, compression, o, k + 1)
         == VisitEntry(entries[k], k, compression, o, Run(entries, compression, o, k))
  {
  }

  /** Once a writer call has failed nothing more happens. */
  lemma {:induction false} RunStopsAtFatal(entries: seq<FileEntry>, compression: uint16, o: Oracle, j: nat, k: nat)
    requires j <= k <= |entries|
    requires Run(entries, compression, o, j).fatal.Some?
    ensures Run(entries, compression, o, k) == Run(entries, compression, o, j)
    decreases k
  {
    if k > j {
      RunStopsAtFatal(entries, compression, o, j, k - 1);
    }
  }

  /** A turn appends at most two records (a header and a body), keeps what
      was written before, and adds at most one to the counter. */
  lemma VisitBounds(e: FileEntry, i: nat, compression: uint16, o: Oracle, p: Progress)
    ensures var r := VisitEntry(e, i, compression, o, p);
      && |p.log| <= |r.log| <= |p.log| + 2 && r.log[..|p.log|] == p.log
      && p.success <= r.success <= p.success + 1
  {
  }

  /** After `k` entries the counter is at most `k` and the log holds at most
      two records per entry. */
  lemma {:induction false} RunBounds(entries: seq<FileEntry>, compression: uint16, o: Oracle, k: nat)
    requires k <= |entries|
    ensures Run(entries, compression, o, k).success <= k
    ensures |Run(entries, compression, o, k).log| <= 2 * k
  {
    if k > 0 {
      RunBounds(entries, compression, o, k - 1);
      VisitBounds(entries[k - 1], k - 1, compression, o, Run(entries, compression, o, k - 1));
    }
  }

  /** Records once written are never taken back: the log after `j` entries
      begins the log after any later `k`. */
  lemma {:induction false} RunLogGrows(entries: seq<FileEntry>, compression: uint16, o: Oracle, j: nat, k: nat)
    requires j <= k <= |entries|
    ensures var lj, lk := Run(entries, compression, o, j).log, Run(entries, compression, o, k).log;
      |lj| <= |lk| && lk[..|lj|] == lj
    decreases k
  {
    if j < k {
      RunLogGrows(entries, compression, o, j, k - 1);
      var lj, lm := Run(entries, compression, o, j).log, Run(entries, compression, o, k - 1).log;
      VisitBounds(entries[k - 1], k - 1, compression, o, Run(entries, compression, o, k - 1));
      var lk := Run(entries, compression, o, k).log;
      assert lk[..|lm|] == lm;
      assert lk[..|lj|] == lm[..|lj|];
    }
  }

  // ---- Reference view: what each entry contributes on its own ----

  /** Entry `i` counts as a success: a directory, or a file fetched with status 200. */
  predicate Succeeds(e: FileEntry, i: nat, o: Oracle) {
    e.url.None? || (o.fetch(i).Response? && o.fetch(i).statusCode == StatusOK)
  }

  /** The writer fails on entry `i` (only entries that reach the writer can). */
  predicate WriterFault(e: FileEntry, i: nat, o: Oracle) {
    Succeeds(e, i, o) && (o.headerFails(i) || (e.url.Some? && o.copyFails(i)))
  }

  predicate FaultFree(entries: seq<FileEntry>, o: Oracle, k: nat)
    requires k <= |entries|
  {
    forall j :: 0 <= j < k ==> !WriterFault(entries[j], j, o)
  }

  /** The records entry `i` adds when the writer accepts them. */
  function Emitted(e: FileEntry, i: nat, compression: uint16, o: Oracle): seq<Record> {
    if e.url.None? then [Header(DirName(e.zipPath), Store, true)]
    else if Succeeds(e, i, o) then [Header(e.zipPath, compression, false), Data(o.fetch(i).body)]
    else []
  }

  /** The records of the first `k` entries, each entry's in turn. */
  function Expected(entries: seq<FileEntry>, compression: uint16, o: Oracle, k: nat): seq<Record>
    requires k <= |entries|
  {
    if k == 0 then [] else Expected(entries, compression, o, k - 1) + Emitted(entries[k - 1], k - 1, compression, o)
  }

  /** Directory entries among the first `k`. */
  function DirectoryCount(entries: seq<FileEntry>, k: nat): nat
    requires k <= |entries|
  {
    if k == 0 then 0 else DirectoryCount(entries, k - 1) + (if entries[k - 1].url.None? then 1 else 0)
  }

  /** File entries among the first `k` whose fetch answered 200. */
  function FetchedCount(entries: seq<FileEntry>, o: Oracle, k: nat): nat
    requires k <= |entries|
  {
    if k == 0 then 0
    else FetchedCount(entries, o, k - 1) + (if entries[k - 1].url.Some? && Succeeds(entries[k - 1], k - 1, o) then 1 else 0)
  }

  /** Without writer errors the loop visits every entry once, in order: the
      log is each entry's records in list order (nothing for a skipped
      fetch), and the counter is the directories plus the 200-fetched files. */
  lemma {:induction false} RunFaultFree(entries: seq<FileEntry>, compression: uint16, o: Oracle, k: nat)
    requires k <= |entries|
    requires FaultFree(entries, o, k)
    ensures Run(entries, compression, o, k)
         == Progress(Expected(entries, compression, o, k), DirectoryCount(entries, k) + FetchedCount(entries, o, k), None)
  {
    if k > 0 {
      RunFaultFree(entries, compression, o, k - 1);
      VisitFaultFree(entries[k - 1], k - 1, compression, o, Run(entries, compression, o, k - 1));
    }
  }

  /** A turn without a writer error adds the entry's records and counts a success. */
  lemma VisitFaultFree(e: FileEntry, i: nat, compression: uint16, o: Oracle, p: Progress)
    requires p.fatal.None? && !WriterFault(e, i, o)
    ensures VisitEntry(e, i, compression, o, p)
         == Progress(p.log + Emitted(e, i, compression, o),
                     p.success + (if e.url.None? || Succeeds(e, i, o) then 1 else 0), None)
  {
  }

  /** A turn with a writer error keeps the log, plus the header of a file whose copy failed. */
  lemma VisitFault(e: FileEntry, i: nat, compression: uint16, o: Oracle, p: Progress)
    requires p.fatal.None? && WriterFault(e, i, o)
    ensures VisitEntry(e, i, compression, o, p).fatal.Some?
    ensures VisitEntry(e, i, compression, o, p).log
         == p.log + (if e.url.Some? && !o.headerFails(i) then [Header(e.zipPath, compression, false)] else [])
  {
  }

  /** A turn adds only headers and data. */
  lemma VisitNoCentralDirectory(e: FileEntry, i: nat, compression: uint16, o: Oracle, p: Progress)
    requires CentralDirectory !in p.log
    ensures CentralDirectory !in VisitEntry(e, i, compression, o, p).log
  {
  }

  /** The errors a writer call can raise inside the loop. */
  predicate IsWriterError(err: StreamError) {
    err.DirectoryHeaderFailed? || err.HeaderFailed? || err.CopyFailed?
  }

  /** A turn of the loop raises an error exactly when that entry's writer call fails. */
  lemma VisitFatal(e: FileEntry, i: nat, compression: uint16, o: Oracle, p: Progress)
    requires p.fatal.None?
    ensures VisitEntry(e, i, compression, o, p).fatal.Some? <==> WriterFault(e, i, o)
    ensures VisitEntry(e, i, compression, o, p).fatal.Some? ==> IsWriterError(VisitEntry(e, i, compression, o, p).fatal.value)
  {
  }

  /** The loop ends in a writer error exactly when some entry's writer call fails. */
  lemma {:induction false} RunFatalIff(entries: seq<FileEntry>, compression: uint16, o: Oracle, k: nat)
    requires k <= |entries|
    ensures Run(entries, compression, o, k).fatal.Some? <==> !FaultFree(entries, o, k)
    ensures Run(entries, compression, o, k).fatal.Some? ==> IsWriterError(Run(entries, compression, o, k).fatal.value)
  {
    if k > 0 {
      RunFatalIff(entries, compression, o, k - 1);
      var p := Run(entries, compression, o, k - 1);
      if p.fatal.None? {
        VisitFatal(entries[k - 1], k - 1, compression, o, p);
      }
      assert FaultFree(entries, o, k) <==> FaultFree(entries, o, k - 1) && !WriterFault(entries[k - 1], k - 1, o);
    }
  }

  /** At the first writer error `j` the loop returns at once: the log holds
      the records of the entries before `j` and, for a failed copy, the
      header just written; later entries are not visited. */
  lemma FirstFault(entries: seq<FileEntry>, compression: uint16, o: Oracle, j: nat, k: nat)
    requires j < k <= |entries|
    requires FaultFree(entries, o, j) && WriterFault(entries[j], j, o)
    ensures Run(entries, compression, o, k).fatal.Some?
    ensures Run(entries, compression, o, k).log == Expected(entries, compression, o, j) +
      (if entries[j].url.Some? && !o.headerFails(j) then [Header(entries[j].zipPath, compression, false)] else [])
  {
    RunFaultFree(entries, compression, o, j);
    RunStep(entries, compression, o, j);
    VisitFault(entries[j], j, compression, o, Run(entries, compression, o, j));
    RunStopsAtFatal(entries, compression, o, j + 1, k);
  }

  /** The loop itself never writes the central directory. */
  lemma {:induction false} RunNoCentralDirectory(entries: seq<FileEntry>, compression: uint16, o: Oracle, k: nat)
    requires k <= |entries|
    ensures CentralDirectory !in Run(entries, compression, o, k).log
  {
    if k > 0 {
      RunNoCentralDirectory(entries, compression, o, k - 1);
      VisitNoCentralDirectory(entries[k - 1], k - 1, compression, o, Run(entries, compression, o, k - 1));
    }
  }

  /** How `StreamAllFiles` ends: a writer error wins, then a `Close` error,
      then the all-failed check; `Close` is reached, and the central
      directory written, only when no writer call failed. */
  lemma StreamAllOutcome(entries: seq<FileEntry>, compression: uint16, o: Oracle)
    ensures var (err, log) := StreamAll(entries, compression, o);
      var n := |entries|;
      var successes := DirectoryCount(entries, n) + FetchedCount(entries, o, n);
      && (err == None <==> FaultFree(entries, o, n) && !o.closeFails && successes > 0)
      && (err == Some(CloseFailed) <==> FaultFree(entries, o, n) && o.closeFails)
      && (err == Some(AllEntriesFailed) <==> FaultFree(entries, o, n) && !o.closeFails && successes == 0)
      && (err.Some? && IsWriterError(err.value) <==> !FaultFree(entries, o, n))
      && (CentralDirectory in log <==> FaultFree(entries, o, n) && !o.closeFails)
      && (FaultFree(entries, o, n) ==> log == Expected(entries, compression, o, n) + (if o.closeFails then [] else [CentralDirectory]))
  {
    var n := |entries|;
    RunFatalIff(entries, compression, o, n);
    RunNoCentralDirectory(entries, compression, o, n);
    if FaultFree(entries, o, n) {
      RunFaultFree(entries, compression, o, n);
    }
  }

  /** A list of directories only, with a willing writer, streams successfully. */
  lemma DirectoriesOnlySucceed(entries: seq<FileEntry>, compression: uint16, o: Oracle)
    requires |entries| > 0
    requires forall j :: 0 <= j < |entries| ==> entries[j].url.None?
    requires forall j :: 0 <= j < |entries| ==> !o.headerFails(j)
    requires !o.closeFails
    ensures StreamAll(entries, compression, o).0 == None
  {
    var n := |entries|;
    assert DirectoryCount(entries, n) > 0 by {
      DirectoryCountPositive(entries, n);
    }
    StreamAllOutcome(entries, compression, o);
  }

  lemma {:induction false} DirectoryCountPositive(entries: seq<FileEntry>, k: nat)
    requires 0 < k <= |entries|
    requires entries[k - 1].url.None?
    ensures DirectoryCount(entries, k) > 0
  {
  }

  /** Entries built by `NewFileEntry` always carry a URL, so no directory
      header is ever written for them. */
  lemma {:induction false} ConstructedEntriesWriteNoDirectories(entries: seq<FileEntry>, compression: uint16, o: Oracle, k: nat)
    requires k <= |entries|
    requires forall j :: 0 <= j < |entries| ==> ValidEntry(entries[j])
    ensures DirectoryCount(entries, k) == 0
    ensures forall r :: r in Run(entries, compression, o, k).log && r.Header? ==> !r.isDir
  {
    if k > 0 {
      ConstructedEntriesWriteNoDirectories(entries, compression, o, k - 1);
    }
  }

  /** One archive transmission: the entries and the method for file entries. */
  class ZipStream {
    var entries: seq<FileEntry>
    var compressionMethod: uint16

    constructor (entries: seq<FileEntry>)
      ensures this.entries == entries && compressionMethod == Store
    {
      this.entries := entries;
      compressionMethod := Store;
    }

    /** `StreamAllFiles`: returns the error (`None` for nil) and the
        writer's log. */
    method StreamAllFiles(o: Oracle) returns (err: Option<StreamError>, log: seq<Record>)
      ensures (err, log) == StreamAll(entries, compressionMethod, o)
    {
      var zipWriter := new ZipWriter();
      var es, cm := entries, compressionMethod;
      var success: nat := 0;
      var fatal: Option<StreamError> := None;
      var i := 0;
      while i < |es| && fatal.None?
        invariant 0 <= i <= |es|
        invariant Run(es, cm, o, i) == Progress(zipWriter.log, success, fatal)
      {
        var counted;
        fatal, counted := StreamEntry(zipWriter, es, i, cm, o, success);
        if counted {
          success := success + 1;
        }
        i := i + 1;
      }
      if fatal.Some? {
        RunStopsAtFatal(es, cm, o, i, |es|);
      }
      StreamAllOfRun(es, cm, o, Progress(zipWriter.log, success, fatal));
      if fatal.Some? {
        return fatal, zipWriter.log;
      }
      var closed := zipWriter.Close(o.closeFails);
      if !closed {
        return Some(CloseFailed), zipWriter.log;
      }
      if success == 0 {
        return Some(AllEntriesFailed), zipWriter.log;
      }
      return None, zipWriter.log;
    }
  }

  /** One turn of the loop of `StreamAllFiles`: a directory header, or
      the fetch, header and body copy of a file; `counted` is the
      increment of the success counter, `fatal` a writer error that ends
      the stream. */
  method StreamEntry(zipWriter: ZipWriter, es: seq<FileEntry>, i: nat, cm: uint16, o: Oracle, ghost success: nat)
    returns (fatal: Option<StreamError>, counted: bool)
    requires i < |es|
    requires Run(es, cm, o, i) == Progress(zipWriter.log, success, None)
    modifies zipWriter
    ensures Run(es, cm, o, i + 1) == Progress(zipWriter.log, if counted then success + 1 else success, fatal)
  {
    RunStep(es, cm, o, i);
    var entry := es[i];
    fatal, counted := None, false;
    if entry.url == None {
      var folderPath := entry.zipPath;
      if !HasSuffix(folderPath, "/") {
        folderPath := folderPath + "/";
      }
      var ok := zipWriter.CreateHeader(Header(folderPath, Store, true), o.headerFails(i));
      if !ok {
        return Some(DirectoryHeaderFailed(folderPath)), false;
      }
      counted := true;
    } else {
      var resp := o.fetch(i);
      if resp.TransportError? {
        return;
      }
      if resp.statusCode != StatusOK {
        return;
      }
      var ok := zipWriter.CreateHeader(Header(entry.zipPath, cm, false), o.headerFails(i));
      if !ok {
        return Some(HeaderFailed), false;
      }
      ok := zipWriter.Copy(resp.body, o.copyFails(i));
      if !ok {
        return Some(CopyFailed), false;
      }
      counted := true;
    }
  }

  /** `NewZipStream`: refuses an empty list, otherwise a stream over the
      given entries with method Store. */
  method NewZipStream(entries: seq<FileEntry>) returns (r: Result<ZipStream, StreamError>)
    ensures r.Err? <==> |entries| == 0
    ensures r.Err? ==> r.error == NoEntries
    ensures r.Ok? ==> fresh(r.value) && r.value.entries == entries && r.value.compressionMethod == Store
  {
    if |entries| == 0 {
      return Err(NoEntries);
    }
    var z := new ZipStream(entries);
    return Ok(z);
  }
}
