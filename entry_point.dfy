/**
 * `__main__.py`: the older entry point. Its `process_chunk` deletes a file
 * right after parsing it and before saving the record, with no `finally`;
 * its `main` raises when the date has no source; its argument check refuses
 * an empty date and a thread count that is not positive.
 */
module EntryPoint {
  import opened Common
  import opened Records
  import opened Filesystem
  import opened EntryParser
  import opened AdsbGlobeHistory
  import opened Chunking
  import opened ParseCommand

  // ---------------------------------------------------------------------------
  // process_chunk, older version

  /**
   * One iteration of the older `process_chunk`: parse, unlink, then save the
   * record if there is one. A parse exception skips the unlink, so the file
   * stays.
   */
  function LegacyProcessFileOn(s: FsState, p: Path, outputDir: Path, matches: (real, real) -> bool): Effect<FileError> {
    match ParseFileOn(s, p, matches)
    case Err(e) => Effect(s, Some(e))
    case Ok(parsed) =>
      match UnlinkOn(s, p)
      case Err(e) => Effect(s, Some(Io(e)))
      case Ok(s1) =>
        match parsed
        case None => Effect(s1, None)
        case Some(record) => Lift(SaveEntryOn(s1, record, record.icao, outputDir))
  }

  /** The older `process_chunk(chunk, output_dir)`: the files in order, until the first exception. */
  function LegacyChunkOn(s: FsState, chunk: seq<Path>, outputDir: Path, matches: (real, real) -> bool): Effect<FileError>
    decreases |chunk|
  {
    if chunk == [] then Effect(s, None)
    else
      var first := LegacyProcessFileOn(s, chunk[0], outputDir, matches);
      if first.error.Some? then first
      else LegacyChunkOn(first.state, chunk[1..], outputDir, matches)
  }

  /** The thread pool of `main` over all chunks: every chunk runs; the first failing chunk's exception is re-raised. */
  function LegacyAllChunksOn(s: FsState, chunks: seq<seq<Path>>, outputDir: Path, matches: (real, real) -> bool): Effect<FileError>
    decreases |chunks|
  {
    if chunks == [] then Effect(s, None)
    else
      var first := LegacyChunkOn(s, chunks[0], outputDir, matches);
      var rest := LegacyAllChunksOn(first.state, chunks[1..], outputDir, matches);
      Effect(rest.state, if first.error.Some? then first.error else rest.error)
  }

  /** The older `process_chunk(file_paths, output_dir)`, in place on the disk. */
  method LegacyProcessChunk(disk: Disk, filePaths: seq<Path>, outputDir: Path, matches: (real, real) -> bool)
    returns (err: Option<FileError>)
    requires disk.Valid()
    modifies disk
    ensures disk.Valid()
    ensures Effect(disk.State(), err) == LegacyChunkOn(old(disk.State()), filePaths, outputDir, matches)
  {
    for i := 0 to |filePaths|
      invariant disk.Valid()
      invariant LegacyChunkOn(old(disk.State()), filePaths, outputDir, matches)
                == LegacyChunkOn(disk.State(), filePaths[i..], outputDir, matches)
    {
      var filePath := filePaths[i];
      assert filePaths[i..][1..] == filePaths[i + 1..];
      var parsed := ParseFile(disk, filePath, matches);
      if parsed.Err? {
        return Some(parsed.error);
      }
      var unlinkErr := disk.Unlink(filePath);
      if unlinkErr.Some? {
        return Some(Io(unlinkErr.value));
      }
      if parsed.value.None? {
        continue;
      }
      var record := parsed.value.value;
      var saveErr := disk.SaveEntry(record, record.icao, outputDir);
      if saveErr.Some? {
        return Some(Io(saveErr.value));
      }
    }
    return None;
  }

  /** The `ThreadPoolExecutor` block of `main`. */
  method LegacyProcessAllChunks(disk: Disk, chunks: seq<seq<Path>>, outputDir: Path, matches: (real, real) -> bool)
    returns (err: Option<FileError>)
    requires disk.Valid()
    modifies disk
    ensures disk.Valid()
    ensures Effect(disk.State(), err) == LegacyAllChunksOn(old(disk.State()), chunks, outputDir, matches)
  {
    err := None;
    for i := 0 to |chunks|
      invariant disk.Valid()
      invariant var total, rest := LegacyAllChunksOn(old(disk.State()), chunks, outputDir, matches),
                                   LegacyAllChunksOn(disk.State(), chunks[i..], outputDir, matches);
        total.state == rest.state && total.error == (if err.Some? then err else rest.error)
    {
      assert chunks[i..][1..] == chunks[i + 1..];
      var chunkErr := LegacyProcessChunk(disk, chunks[i], outputDir, matches);
      if err.None? {
        err := chunkErr;
      }
    }
  }

  // ---------------------------------------------------------------------------
  // The two versions of process_chunk compared

  /**
   * A file that does not parse: the older version raises and leaves the disk
   * as it was, the file included; the version with `finally` deletes it.
   */
  lemma UnparsableFileKeptOnlyByLegacy(s: FsState, p: Path, outputDir: Path, matches: (real, real) -> bool)
    requires WellFormed(s) && ParseFileOn(s, p, matches).Err?
    ensures LegacyProcessFileOn(s, p, outputDir, matches) == Effect(s, Some(ParseFileOn(s, p, matches).error))
    ensures p !in ProcessFileOn(s, p, outputDir, matches).state.files
    ensures ProcessFileOn(s, p, outputDir, matches).error.Some?
  {
    ProcessFileFrame(s, p, outputDir, matches);
  }

  /**
   * When the version with `finally` processes a file outside the output
   * directory without exception, so does the older one, with the same
   * result: deleting before or after the save makes no difference then.
   */
  lemma LegacyAgreesOnCleanFile(s: FsState, p: Path, outputDir: Path, matches: (real, real) -> bool)
    requires WellFormed(s) && !(outputDir <= p)
    requires ProcessFileOn(s, p, outputDir, matches).error.None?
    ensures LegacyProcessFileOn(s, p, outputDir, matches) == ProcessFileOn(s, p, outputDir, matches)
  {
    var body := ParseAndSaveOn(s, p, outputDir, matches);
    var parsed := ParseFileOn(s, p, matches);
    assert parsed.Ok?;
    if parsed.value.Some? {
      var record := parsed.value.value;
      SaveEntryEffect(s, record, record.icao, outputDir);
    }
    assert WellFormed(body.state) && body.state.dirs >= s.dirs && body.state.files.Keys >= s.files.Keys;
    UnlinkWellFormed(body.state, p);
    UnlinkWellFormed(s, p);
    forall k | 0 < k < |p| ensures p[..k] !in s.files {
      assert p[..k] !in body.state.files;
    }
    if parsed.value.Some? {
      var record := parsed.value.value;
      SaveAfterUnlink(s, UnlinkOn(s, p).value, p, record, outputDir);
    }
  }

  /** The save on the disk without `p` succeeds when the save on the disk with it did, to the same files and directories. */
  lemma SaveAfterUnlink(s: FsState, s1: FsState, p: Path, record: TraceRecord, outputDir: Path)
    requires !(outputDir <= p)
    requires s1.files == s.files - {p} && s1.dirs == s.dirs
    requires SaveEntryOn(s, record, record.icao, outputDir).error.None?
    ensures var after := SaveEntryOn(s1, record, record.icao, outputDir);
      var before := SaveEntryOn(s, record, record.icao, outputDir);
      && after.error.None?
      && after.state.files == before.state.files - {p}
      && after.state.dirs == before.state.dirs
  {
    var dir := ShardDir(record.icao, outputDir);
    var target := OutputPath(record.icao, outputDir);
    OutputPathUnder(record.icao, outputDir);
    assert target != p;
    var m := MakeDirsOn(s, dir).value;
    MakeDirsFewerFiles(s, s1, dir);
    var m1 := MakeDirsOn(s1, dir).value;
    WriteFewerFiles(m, m1, target, Json(record));
    UpdateRemoveCommute(s.files, target, Json(record), p);
  }

  /** Fewer files never make `mkdir` fail. */
  lemma MakeDirsFewerFiles(s: FsState, s1: FsState, dir: Path)
    requires s1.files.Keys <= s.files.Keys && s1.dirs == s.dirs && MakeDirsOn(s, dir).Ok?
    ensures MakeDirsOn(s1, dir) == Ok(FsState(s1.files, MakeDirsOn(s, dir).value.dirs))
  {
    forall k | 0 < k < |dir| ensures dir[..k] !in s1.files {
      assert dir[..k] !in s.files;
    }
  }

  /** Fewer files never make a write fail. */
  lemma WriteFewerFiles(m: FsState, m1: FsState, target: Path, c: Content)
    requires m1.files.Keys <= m.files.Keys && m1.dirs == m.dirs && WriteOn(m, target, c).Ok?
    ensures WriteOn(m1, target, c) == Ok(FsState(m1.files[target := c], m1.dirs))
  {
    forall k | 0 < k < |target| ensures target[..k] !in m1.files {
      assert target[..k] !in m.files;
    }
  }

  /** Proof helper on maps: setting one key and removing another commute. */
  lemma UpdateRemoveCommute<K, V>(m: map<K, V>, k: K, v: V, p: K)
    requires k != p
    ensures (m - {p})[k := v] == m[k := v] - {p}
  {
  }

  /**
   * A chunk of files outside the output directory that the version with
   * `finally` runs without exception: the older version ends in the same
   * state.
   */
  lemma {:induction false} LegacyAgreesOnCleanChunk(s: FsState, chunk: seq<Path>, outputDir: Path, matches: (real, real) -> bool)
    requires WellFormed(s)
    requires forall p | p in chunk :: !(outputDir <= p)
    requires ChunkOn(s, chunk, outputDir, matches).error.None?
    ensures LegacyChunkOn(s, chunk, outputDir, matches) == ChunkOn(s, chunk, outputDir, matches)
    decreases |chunk|
  {
    if chunk != [] {
      assert chunk[0] in chunk;
      LegacyAgreesOnCleanFile(s, chunk[0], outputDir, matches);
      ProcessFileFrame(s, chunk[0], outputDir, matches);
      var first := ProcessFileOn(s, chunk[0], outputDir, matches);
      forall p | p in chunk[1..] ensures !(outputDir <= p) {
        assert p in chunk;
      }
      LegacyAgreesOnCleanChunk(first.state, chunk[1..], outputDir, matches);
    }
  }

  // ---------------------------------------------------------------------------
  // main and the argument check

  /** `main` from the working directories on, with the older `process_chunk`. */
  function LegacyProcessDateOn(s: FsState, threads: int, listing: seq<Node>, matches: (real, real) -> bool): Run {
    var prepared := MakeAllDirsOn(s, [Workdir, SourceWorkdir, ParsedWorkdir]);
    if prepared.error.Some? then Run(prepared.state, Err(DirectoryFailed(prepared.error.value)))
    else
      var files := Walk(TracesPath, listing);
      match Partition(files, threads)
      case None => Run(prepared.state, Err(ZeroStep))
      case Some(chunks) =>
        if threads <= 0 then Run(prepared.state, Err(NoWorkers(threads)))
        else
          var ran := LegacyAllChunksOn(prepared.state, chunks, ParsedWorkdir, matches);
          if ran.error.Some? then Run(ran.state, Err(FileFailed(ran.error.value)))
          else match MakeDirsOn(ran.state, OutputDir)
            case Err(e) => Run(ran.state, Err(DirectoryFailed(e)))
            case Ok(s') => Run(s', Ok(Done))
  }

  /** `main(date, threads)`: like `parse_command`, but a date without source raises. */
  function MainOn(s: FsState, date: string, threads: int, tagExists: bool,
                  fetch: string -> Option<string>, listing: seq<Node>, matches: (real, real) -> bool): Run
  {
    if tagExists then Run(s, Err(TagExists(date)))
    else match Collect(fetch, SourceRepositories)
      case Err(e) => Run(s, Err(SourcesFailed(e)))
      case Ok(all) =>
        if NoSourceFor(all, date) then Run(s, Err(MissingSources(date)))
        else LegacyProcessDateOn(s, threads, listing, matches)
  }

  /** Why the command line is refused. */
  datatype ArgumentError =
    | DateRequired        // the date argument is empty
    | ThreadsNotPositive  // `--threads` is zero or negative

  /** The checks of the `__main__` block, in order. */
  function ValidateArguments(date: string, threads: int): Option<ArgumentError> {
    if date == "" then Some(DateRequired)
    else if threads <= 0 then Some(ThreadsNotPositive)
    else None
  }

  /** The `__main__` block: refused arguments, or the run of `main`. */
  datatype Invocation = Refused(reason: ArgumentError) | Ran(run: Run)

  function EntryOn(s: FsState, date: string, threads: int, tagExists: bool,
                   fetch: string -> Option<string>, listing: seq<Node>, matches: (real, real) -> bool): Invocation
  {
    match ValidateArguments(date, threads)
    case Some(reason) => Refused(reason)
    case None => Ran(MainOn(s, date, threads, tagExists, fetch, listing, matches))
  }

  /** `main` from the working directories on, in place on the disk. */
  method LegacyProcessDate(disk: Disk, threads: int, listing: seq<Node>, matches: (real, real) -> bool)
    returns (r: Result<Outcome, CommandError>)
    requires disk.Valid()
    modifies disk
    ensures disk.Valid()
    ensures Run(disk.State(), r) == LegacyProcessDateOn(old(disk.State()), threads, listing, matches)
  {
    ghost var dirs := [Workdir, SourceWorkdir, ParsedWorkdir];
    assert dirs[1..] == [SourceWorkdir, ParsedWorkdir] && dirs[1..][1..] == [ParsedWorkdir];
    ghost var s0 := disk.State();
    var err := disk.MakeDirs(Workdir);
    if err.Some? {
      return Err(DirectoryFailed(err.value));
    }
    ghost var s1 := disk.State();
    assert MakeAllDirsOn(s0, dirs) == MakeAllDirsOn(s1, dirs[1..]);
    err := disk.MakeDirs(SourceWorkdir);
    if err.Some? {
      assert MakeAllDirsOn(s1, dirs[1..]) == Effect(s1, err);
      return Err(DirectoryFailed(err.value));
    }
    ghost var s2 := disk.State();
    assert MakeAllDirsOn(s1, dirs[1..]) == MakeAllDirsOn(s2, dirs[1..][1..]);
    var files := Walk(TracesPath, listing);
    err := disk.MakeDirs(ParsedWorkdir);
    if err.Some? {
      assert MakeAllDirsOn(s2, dirs[1..][1..]) == Effect(s2, err);
      return Err(DirectoryFailed(err.value));
    }
    assert MakeAllDirsOn(s2, dirs[1..][1..]) == Effect(disk.State(), None) by {
      assert dirs[1..][1..][1..] == [];
    }
    var chunks := Partition(files, threads);
    if chunks.None? {
      return Err(ZeroStep);
    }
    if threads <= 0 {
      return Err(NoWorkers(threads));
    }
    var failure := LegacyProcessAllChunks(disk, chunks.value, ParsedWorkdir, matches);
    if failure.Some? {
      return Err(FileFailed(failure.value));
    }
    err := disk.MakeDirs(OutputDir);
    if err.Some? {
      return Err(DirectoryFailed(err.value));
    }
    return Ok(Done);
  }

  /** `main(date, threads)`, in place on the disk. */
  method MainCommand(disk: Disk, date: string, threads: int, tagExists: bool,
                     fetch: string -> Option<string>, listing: seq<Node>, matches: (real, real) -> bool)
    returns (r: Result<Outcome, CommandError>)
    requires disk.Valid()
    modifies disk
    ensures disk.Valid()
    ensures Run(disk.State(), r) == MainOn(old(disk.State()), date, threads, tagExists, fetch, listing, matches)
  {
    if tagExists {
      return Err(TagExists(date));
    }
    var allSources := GetSourceFiles(fetch);
    if allSources.Err? {
      return Err(SourcesFailed(allSources.error));
    }
    if NoSourceFor(allSources.value, date) {
      return Err(MissingSources(date));
    }
    r := LegacyProcessDate(disk, threads, listing, matches);
  }

  /** The `__main__` block, in place on the disk: refused arguments change nothing. */
  method Entry(disk: Disk, date: string, threads: int, tagExists: bool,
               fetch: string -> Option<string>, listing: seq<Node>, matches: (real, real) -> bool)
    returns (r: Invocation)
    requires disk.Valid()
    modifies disk
    ensures disk.Valid()
    ensures r == EntryOn(old(disk.State()), date, threads, tagExists, fetch, listing, matches)
    ensures r.Ran? ==> r.run.state == disk.State()
    ensures r.Refused? ==> disk.State() == old(disk.State())
  {
    var reason := ValidateArguments(date, threads);
    if reason.Some? {
      return Refused(reason.value);
    }
    var result := MainCommand(disk, date, threads, tagExists, fetch, listing, matches);
    return Ran(Run(disk.State(), result));
  }

  // ---------------------------------------------------------------------------
  // Properties of the entry point

  /**
   * The argument check refuses exactly an empty date or a thread count that
   * is not positive, the date first; arguments it accepts never reach the
   * zero-step `range` error nor the executor's `max_workers` error.
   */
  lemma ValidatedArgumentsReachNoThreadError(s: FsState, date: string, threads: int, tagExists: bool,
                                            fetch: string -> Option<string>, listing: seq<Node>, matches: (real, real) -> bool)
    ensures var inv := EntryOn(s, date, threads, tagExists, fetch, listing, matches);
      && (inv.Refused? <==> date == "" || threads <= 0)
      && (inv == Refused(DateRequired) <==> date == "")
      && (inv.Ran? ==> inv.run.result != Err(ZeroStep) && inv.run.result != Err(NoWorkers(threads)))
  {
    if date != "" && threads > 0 {
      PositiveThreadsReachNoThreadError(s, threads, listing, matches);
    }
  }

  lemma PositiveThreadsReachNoThreadError(s: FsState, threads: int, listing: seq<Node>, matches: (real, real) -> bool)
    requires threads > 0
    ensures var run := LegacyProcessDateOn(s, threads, listing, matches);
      run.result != Err(ZeroStep) && run.result != Err(NoWorkers(threads))
  {
    PartitionCases(Walk(TracesPath, listing), threads);
  }

  /**
   * A date without source: `main` raises and leaves the disk as it was,
   * where `parse_command` returns normally.
   */
  lemma MissingDateRaisesOnlyInMain(s: FsState, date: string, threads: int,
                                    fetch: string -> Option<string>, listing: seq<Node>, matches: (real, real) -> bool)
    requires Collect(fetch, SourceRepositories).Ok?
    requires NoSourceFor(Collect(fetch, SourceRepositories).value, date)
    ensures MainOn(s, date, threads, false, fetch, listing, matches) == Run(s, Err(MissingSources(date)))
    ensures ParseCommandOn(s, date, threads, false, fetch, listing, matches) == Run(s, Ok(NoSourceFiles))
  {
  }

  /**
   * When the version with `finally` runs every chunk without exception, the
   * older `main` steps end in the same state and outcome.
   */
  lemma {:induction false} LegacyAgreesOnCleanChunks(s: FsState, chunks: seq<seq<Path>>, outputDir: Path, matches: (real, real) -> bool)
    requires WellFormed(s)
    requires forall c, p | c in chunks && p in c :: !(outputDir <= p)
    requires AllChunksOn(s, chunks, outputDir, matches).error.None?
    ensures LegacyAllChunksOn(s, chunks, outputDir, matches) == AllChunksOn(s, chunks, outputDir, matches)
    decreases |chunks|
  {
    if chunks != [] {
      assert chunks[0] in chunks;
      var first := ChunkOn(s, chunks[0], outputDir, matches);
      LegacyAgreesOnCleanChunk(s, chunks[0], outputDir, matches);
      ChunkCleansUp(s, chunks[0], outputDir, matches);
      forall c, p | c in chunks[1..] && p in c ensures !(outputDir <= p) {
        assert c in chunks;
      }
      LegacyAgreesOnCleanChunks(first.state, chunks[1..], outputDir, matches);
    }
  }

  /**
   * Whenever `parse_command` completes, the older `main` with the same
   * arguments and the same world completes too, with the same files and
   * directories: the two `process_chunk` versions differ only when a file
   * raises.
   */
  lemma MainAgreesWithParseCommandWhenDone(s: FsState, date: string, threads: int, tagExists: bool,
                                          fetch: string -> Option<string>, listing: seq<Node>, matches: (real, real) -> bool)
    requires WellFormed(s)
    requires ParseCommandOn(s, date, threads, tagExists, fetch, listing, matches).result == Ok(Done)
    ensures MainOn(s, date, threads, tagExists, fetch, listing, matches) == ParseCommandOn(s, date, threads, tagExists, fetch, listing, matches)
  {
    ParseCommandEarlyExits(s, date, threads, tagExists, fetch, listing, matches);
    var dirs := [Workdir, SourceWorkdir, ParsedWorkdir];
    var prepared := MakeAllDirsOn(s, dirs);
    MakeAllDirsKeepsFiles(s, dirs);
    var files := Walk(TracesPath, listing);
    ProcessDateResultsNeedThreads(s, threads, listing, matches);
    var chunks := Chunks(files, threads);
    ListedOutsideParsed(listing);
    forall c, p | c in chunks && p in c ensures !(ParsedWorkdir <= p) {
      ChunksPartition(files, threads);
      InFlatten(chunks, c, p);
    }
    LegacyAgreesOnCleanChunks(prepared.state, chunks, ParsedWorkdir, matches);
  }

  /** A completed run had a positive thread count and created its directories. */
  lemma ProcessDateResultsNeedThreads(s: FsState, threads: int, listing: seq<Node>, matches: (real, real) -> bool)
    requires ProcessDateOn(s, threads, listing, matches).result == Ok(Done)
    ensures threads > 0
    ensures MakeAllDirsOn(s, [Workdir, SourceWorkdir, ParsedWorkdir]).error.None?
    ensures AllChunksOn(MakeAllDirsOn(s, [Workdir, SourceWorkdir, ParsedWorkdir]).state,
                        Chunks(Walk(TracesPath, listing), threads), ParsedWorkdir, matches).error.None?
  {
  }
}
