/**
 * `commands/parse.py`: `process_chunk`, which parses, saves and deletes the
 * trace files of one chunk, and `parse_command`, which lists the trace files
 * of a date, splits them into chunks and runs every chunk.
 */
module ParseCommand {
  import opened Common
  import opened Records
  import opened Filesystem
  import opened EntryParser
  import opened AdsbGlobeHistory
  import opened Chunking

  // ---------------------------------------------------------------------------
  // process_chunk

  /** An `OSError` of the filesystem helpers, as an exception of the chunk. */
  function Lift(e: Effect<FsError>): Effect<FileError> {
    match e.error
    case None => Effect(e.state, None)
    case Some(fe) => Effect(e.state, Some(Io(fe)))
  }

  /**
   * The `try` block for one file: parse it and, when a record comes out,
   * save it under its ICAO code.
   */
  function ParseAndSaveOn(s: FsState, p: Path, outputDir: Path, matches: (real, real) -> bool): Effect<FileError> {
    match ParseFileOn(s, p, matches)
    case Err(e) => Effect(s, Some(e))
    case Ok(None) => Effect(s, None)
    case Ok(Some(record)) => Lift(SaveEntryOn(s, record, record.icao, outputDir))
  }

  /**
   * One iteration of `process_chunk`: the `try` block, then the `finally`
   * that unlinks the file. An exception raised by the unlink replaces the
   * one of the `try` block.
   */
  function ProcessFileOn(s: FsState, p: Path, outputDir: Path, matches: (real, real) -> bool): Effect<FileError> {
    var body := ParseAndSaveOn(s, p, outputDir, matches);
    match UnlinkOn(body.state, p)
    case Err(e) => Effect(body.state, Some(Io(e)))
    case Ok(s') => Effect(s', body.error)
  }

  /** `process_chunk(chunk, output_dir)`: the files in order, until the first exception. */
  function ChunkOn(s: FsState, chunk: seq<Path>, outputDir: Path, matches: (real, real) -> bool): Effect<FileError>
    decreases |chunk|
  {
    if chunk == [] then Effect(s, None)
    else
      var first := ProcessFileOn(s, chunk[0], outputDir, matches);
      if first.error.Some? then first
      else ChunkOn(first.state, chunk[1..], outputDir, matches)
  }

  /**
   * The thread pool over all chunks: every chunk runs, one after the other,
   * and `future.result()` re-raises the exception of the first chunk that
   * failed, in submission order.
   */
  function AllChunksOn(s: FsState, chunks: seq<seq<Path>>, outputDir: Path, matches: (real, real) -> bool): Effect<FileError>
    decreases |chunks|
  {
    if chunks == [] then Effect(s, None)
    else
      var first := ChunkOn(s, chunks[0], outputDir, matches);
      var rest := AllChunksOn(first.state, chunks[1..], outputDir, matches);
      Effect(rest.state, if first.error.Some? then first.error else rest.error)
  }

  /** `process_chunk(file_paths, output_dir)`, in place on the disk. */
  method ProcessChunk(disk: Disk, filePaths: seq<Path>, outputDir: Path, matches: (real, real) -> bool)
    returns (err: Option<FileError>)
    requires disk.Valid()
    modifies disk
    ensures disk.Valid()
    ensures Effect(disk.State(), err) == ChunkOn(old(disk.State()), filePaths, outputDir, matches)
  {
    for i := 0 to |filePaths|
      invariant disk.Valid()
      invariant ChunkOn(old(disk.State()), filePaths, outputDir, matches)
                == ChunkOn(disk.State(), filePaths[i..], outputDir, matches)
    {
      var filePath := filePaths[i];
      assert filePaths[i..][1..] == filePaths[i + 1..];
      ghost var before := disk.State();
      var failure: Option<FileError> := None;
      var parsed := ParseFile(disk, filePath, matches);
      if parsed.Err? {
        failure := Some(parsed.error);
      } else if parsed.value.Some? {
        var record := parsed.value.value;
        var saveErr := disk.SaveEntry(record, record.icao, outputDir);
        if saveErr.Some? {
          failure := Some(Io(saveErr.value));
        }
      }
      assert Effect(disk.State(), failure) == ParseAndSaveOn(before, filePath, outputDir, matches);
      var unlinkErr := disk.Unlink(filePath);
      if unlinkErr.Some? {
        return Some(Io(unlinkErr.value));
      }
      if failure.Some? {
        return failure;
      }
    }
    return None;
  }

  /** The `ThreadPoolExecutor` block: every chunk is submitted, then each future's result is taken in order. */
  method ProcessAllChunks(disk: Disk, chunks: seq<seq<Path>>, outputDir: Path, matches: (real, real) -> bool)
    returns (err: Option<FileError>)
    requires disk.Valid()
    modifies disk
    ensures disk.Valid()
    ensures Effect(disk.State(), err) == AllChunksOn(old(disk.State()), chunks, outputDir, matches)
  {
    err := None;
    for i := 0 to |chunks|
      invariant disk.Valid()
      invariant var total, rest := AllChunksOn(old(disk.State()), chunks, outputDir, matches),
                                   AllChunksOn(disk.State(), chunks[i..], outputDir, matches);
        total.state == rest.state && total.error == (if err.Some? then err else rest.error)
    {
      assert chunks[i..][1..] == chunks[i + 1..];
      var chunkErr := ProcessChunk(disk, chunks[i], outputDir, matches);
      if err.None? {
        err := chunkErr;
      }
    }
  }

  // ---------------------------------------------------------------------------
  // What a chunk does to the files

  /** The files outside the output directory, with their contents. */
  function OutsideFiles(s: FsState, outputDir: Path): map<Path, Content> {
    map q | q in s.files && !(outputDir <= q) :: s.files[q]
  }

  /** The files under the output directory other than `written`, with their contents. */
  function UntouchedFiles(s: FsState, outputDir: Path, written: set<Path>): map<Path, Content> {
    map q | q in s.files && outputDir <= q && q !in written :: s.files[q]
  }

  /** The paths of a chunk, as a set. */
  function Elems(chunk: seq<Path>): set<Path> {
    set p | p in chunk
  }

  /** A write under the output directory leaves every file outside it as it was. */
  lemma WriteInsideKeepsOutside(after: FsState, s: FsState, target: Path, c: Content, outputDir: Path)
    requires outputDir <= target
    requires after.files == s.files[target := c]
    ensures OutsideFiles(after, outputDir) == OutsideFiles(s, outputDir)
  {
    var a, b := OutsideFiles(after, outputDir), OutsideFiles(s, outputDir);
    forall q ensures (q in a <==> q in b) && (q in a ==> a[q] == b[q]) {
      if !(outputDir <= q) {
        assert q != target;
      }
    }
  }

  /** Saving an entry under the output directory leaves every file outside it as it was. */
  lemma SaveKeepsOutside(s: FsState, record: TraceRecord, outputDir: Path)
    ensures OutsideFiles(SaveEntryOn(s, record, record.icao, outputDir).state, outputDir) == OutsideFiles(s, outputDir)
  {
    var e := SaveEntryOn(s, record, record.icao, outputDir);
    SaveEntryFiles(s, record, record.icao, outputDir);
    if e.error.None? {
      var target := OutputPath(record.icao, outputDir);
      OutputPathUnder(record.icao, outputDir);
      WriteInsideKeepsOutside(e.state, s, target, Json(record), outputDir);
    }
  }

  /** The output file of a name lies under the output directory. */
  lemma OutputPathUnder(filename: string, outputDir: Path)
    ensures outputDir <= OutputPath(filename, outputDir)
  {
    OutputPathShape(filename, outputDir);
    var p := OutputPath(filename, outputDir);
    var dir := ShardDir(filename, outputDir);
    PrefixTransitive(outputDir, dir, p);
  }

  lemma PrefixTransitive<T>(a: seq<T>, b: seq<T>, c: seq<T>)
    requires a <= b && |b| <= |c| && c[..|b|] == b
    ensures a <= c
  {
    assert c[..|a|] == c[..|b|][..|a|];
  }

  /**
   * Whatever happens to one file, the `finally` leaves no regular file at its
   * path, and outside the output directory nothing else changes.
   */
  lemma ProcessFileFrame(s: FsState, p: Path, outputDir: Path, matches: (real, real) -> bool)
    requires WellFormed(s)
    ensures var e := ProcessFileOn(s, p, outputDir, matches);
      && WellFormed(e.state)
      && p !in e.state.files
      && OutsideFiles(e.state, outputDir) == OutsideFiles(s, outputDir) - {p}
  {
    var body := ParseAndSaveOn(s, p, outputDir, matches);
    match ParseFileOn(s, p, matches)
    case Err(_) =>
    case Ok(None) =>
    case Ok(Some(record)) =>
      SaveKeepsOutside(s, record, outputDir);
      SaveEntryEffect(s, record, record.icao, outputDir);
    assert WellFormed(body.state) && OutsideFiles(body.state, outputDir) == OutsideFiles(s, outputDir);
    UnlinkWellFormed(body.state, p);
    RemoveKeepsOutside(body.state, p, outputDir);
  }

  /** Removing `p` from the files, or finding it absent, removes it from the files outside the output directory. */
  lemma RemoveKeepsOutside(s: FsState, p: Path, outputDir: Path)
    ensures OutsideFiles(FsState(s.files - {p}, s.dirs), outputDir) == OutsideFiles(s, outputDir) - {p}
    ensures p !in s.files ==> OutsideFiles(s, outputDir) == OutsideFiles(s, outputDir) - {p}
  {
    var after, before := OutsideFiles(FsState(s.files - {p}, s.dirs), outputDir), OutsideFiles(s, outputDir) - {p};
    assert forall q :: (q in after <==> q in before);
  }

  /**
   * `process_chunk` deletes the files it reaches, including the one whose
   * exception stops it, and no other file outside the output directory: all
   * of the chunk when nothing is raised, a non-empty prefix of it otherwise.
   */
  lemma {:induction false} ChunkCleansUp(s: FsState, chunk: seq<Path>, outputDir: Path, matches: (real, real) -> bool)
    requires WellFormed(s)
    ensures var e := ChunkOn(s, chunk, outputDir, matches);
      && WellFormed(e.state)
      && (e.error.None? ==> OutsideFiles(e.state, outputDir) == OutsideFiles(s, outputDir) - Elems(chunk))
      && (e.error.Some? ==> exists k | 1 <= k <= |chunk| ::
            OutsideFiles(e.state, outputDir) == OutsideFiles(s, outputDir) - Elems(chunk[..k]))
    decreases |chunk|
  {
    if chunk != [] {
      var first := ProcessFileOn(s, chunk[0], outputDir, matches);
      ProcessFileFrame(s, chunk[0], outputDir, matches);
      var before := OutsideFiles(s, outputDir);
      if first.error.Some? {
        ElemsOfPrefix(chunk, 0);
        assert OutsideFiles(first.state, outputDir) == before - Elems(chunk[..1]);
      } else {
        ChunkCleansUp(first.state, chunk[1..], outputDir, matches);
        var e := ChunkOn(first.state, chunk[1..], outputDir, matches);
        if e.error.Some? {
          var k :| 1 <= k <= |chunk[1..]| &&
            OutsideFiles(e.state, outputDir) == OutsideFiles(first.state, outputDir) - Elems(chunk[1..][..k]);
          ElemsOfPrefix(chunk, k);
          RemoveTwice(before, {chunk[0]}, Elems(chunk[1..][..k]));
          assert OutsideFiles(e.state, outputDir) == before - Elems(chunk[..k + 1]);
        } else {
          ElemsOfPrefix(chunk, |chunk| - 1);
          assert chunk[..|chunk|] == chunk && chunk[1..][..|chunk| - 1] == chunk[1..];
          RemoveTwice(before, {chunk[0]}, Elems(chunk[1..]));
        }
      }
    }
  }

  /** The first `k + 1` paths of a chunk are its first path and the next `k`. */
  lemma ElemsOfPrefix(chunk: seq<Path>, k: nat)
    requires k < |chunk|
    ensures Elems(chunk[..k + 1]) == {chunk[0]} + Elems(chunk[1..][..k])
  {
    assert chunk[..k + 1] == [chunk[0]] + chunk[1..][..k];
  }

  /** Proof helper on maps: removing two key sets one after the other removes their union. */
  lemma RemoveTwice<K, V>(m: map<K, V>, a: set<K>, b: set<K>)
    ensures m - a - b == m - (a + b)
  {
  }

  /** Running `a` then `b` in one chunk is running `a`, then `b` unless `a` raised. */
  lemma {:induction false} ChunkOnAppend(s: FsState, a: seq<Path>, b: seq<Path>, outputDir: Path, matches: (real, real) -> bool)
    ensures ChunkOn(s, a + b, outputDir, matches) ==
      var e := ChunkOn(s, a, outputDir, matches);
      if e.error.Some? then e else ChunkOn(e.state, b, outputDir, matches)
    decreases |a|
  {
    if a == [] {
      assert a + b == b;
    } else {
      assert (a + b)[0] == a[0];
      assert (a + b)[1..] == a[1..] + b;
      var first := ProcessFileOn(s, a[0], outputDir, matches);
      if first.error.None? {
        ChunkOnAppend(first.state, a[1..], b, outputDir, matches);
      }
    }
  }

  /**
   * When no chunk raises, splitting the files into chunks changes nothing:
   * the run is that of one chunk holding all the files in order.
   */
  lemma {:induction false} AllChunksAsOne(s: FsState, chunks: seq<seq<Path>>, outputDir: Path, matches: (real, real) -> bool)
    requires AllChunksOn(s, chunks, outputDir, matches).error.None?
    ensures AllChunksOn(s, chunks, outputDir, matches) == ChunkOn(s, Flatten(chunks), outputDir, matches)
    decreases |chunks|
  {
    if chunks != [] {
      var first := ChunkOn(s, chunks[0], outputDir, matches);
      AllChunksAsOne(first.state, chunks[1..], outputDir, matches);
      ChunkOnAppend(s, chunks[0], Flatten(chunks[1..]), outputDir, matches);
    }
  }

  // ---------------------------------------------------------------------------
  // What a chunk writes

  /** The record parsing `p` yields on `s`, if any. */
  function RecordOf(s: FsState, p: Path, matches: (real, real) -> bool): Option<TraceRecord> {
    match ParseFileOn(s, p, matches)
    case Ok(Some(record)) => Some(record)
    case _ => None
  }

  /** The code a record is saved under, with the record. */
  function Here(record: Option<TraceRecord>): map<string, TraceRecord> {
    match record
    case Some(r) => map[r.icao := r]
    case None => map[]
  }

  /** The files after saving `record`, if any, under its code. */
  function WithRecord(files: map<Path, Content>, record: Option<TraceRecord>, outputDir: Path): map<Path, Content> {
    match record
    case Some(r) => files[OutputPath(r.icao, outputDir) := Json(r)]
    case None => files
  }

  /**
   * The record that ends up saved under each ICAO code when the files are
   * parsed in order: a later file's record replaces an earlier one's.
   */
  function Outputs(s: FsState, chunk: seq<Path>, matches: (real, real) -> bool): map<string, TraceRecord>
    decreases |chunk|
  {
    if chunk == [] then map[]
    else Here(RecordOf(s, chunk[0], matches)) + Outputs(s, chunk[1..], matches)
  }

  /** The output files of a set of ICAO codes. */
  function OutputPaths(names: set<string>, outputDir: Path): set<Path> {
    set n | n in names :: OutputPath(n, outputDir)
  }

  /** Every code of `outs` has its output file, holding its record. */
  ghost predicate Saved(files: map<Path, Content>, outs: map<string, TraceRecord>, outputDir: Path) {
    forall n | n in outs :: OutputPath(n, outputDir) in files && files[OutputPath(n, outputDir)] == Json(outs[n])
  }

  /**
   * One file processed without exception: it was a regular file, its record
   * (if any) is saved under its ICAO code, and it is deleted.
   */
  lemma ProcessFileSaves(s: FsState, p: Path, outputDir: Path, matches: (real, real) -> bool)
    requires WellFormed(s)
    ensures var e := ProcessFileOn(s, p, outputDir, matches);
      e.error.None? ==>
        && p in s.files
        && e.state.files == WithRecord(s.files, RecordOf(s, p, matches), outputDir) - {p}
  {
    var body := ParseAndSaveOn(s, p, outputDir, matches);
    match ParseFileOn(s, p, matches)
    case Err(_) =>
    case Ok(None) =>
    case Ok(Some(record)) =>
      SaveEntryEffect(s, record, record.icao, outputDir);
    assert WellFormed(body.state);
    UnlinkWellFormed(body.state, p);
  }

  /** Parsing reads nothing but the file itself: the same files give the same records. */
  lemma {:induction false} OutputsFrame(a: FsState, b: FsState, chunk: seq<Path>, matches: (real, real) -> bool)
    requires forall p | p in chunk :: p in a.files && p in b.files && a.files[p] == b.files[p]
    ensures Outputs(a, chunk, matches) == Outputs(b, chunk, matches)
    decreases |chunk|
  {
    if chunk != [] {
      assert RecordOf(a, chunk[0], matches) == RecordOf(b, chunk[0], matches);
      OutputsFrame(a, b, chunk[1..], matches);
    }
  }

  /**
   * When `process_chunk` raises nothing and its files lie outside the output
   * directory, each ICAO code's output file holds the record of the LAST file
   * of the chunk with that code, and every other file under the output
   * directory is as it was.
   */
  lemma {:induction false} ChunkSavesLastRecord(s: FsState, chunk: seq<Path>, outputDir: Path, matches: (real, real) -> bool)
    requires WellFormed(s)
    requires forall p | p in chunk :: !(outputDir <= p)
    ensures var e := ChunkOn(s, chunk, outputDir, matches);
      var outs := Outputs(s, chunk, matches);
      var written := OutputPaths(outs.Keys, outputDir);
      e.error.None? ==>
        && (forall p | p in chunk :: p in s.files)
        && Saved(e.state.files, outs, outputDir)
        && UntouchedFiles(e.state, outputDir, written) == UntouchedFiles(s, outputDir, written)
    decreases |chunk|
  {
    var e := ChunkOn(s, chunk, outputDir, matches);
    if chunk != [] && e.error.None? {
      var c0, rest := chunk[0], chunk[1..];
      var first := ProcessFileOn(s, c0, outputDir, matches);
      var s1 := first.state;
      ProcessFileSaves(s, c0, outputDir, matches);
      ProcessFileFrame(s, c0, outputDir, matches);
      forall p | p in rest ensures !(outputDir <= p) {
        assert p in chunk;
      }
      ChunkSavesLastRecord(s1, rest, outputDir, matches);
      var final := e.state;
      assert final == ChunkOn(s1, rest, outputDir, matches).state;

      forall p | p in rest ensures p in s.files && s1.files[p] == s.files[p] {
        assert p in OutsideFiles(s1, outputDir);
      }
      OutputsFrame(s1, s, rest, matches);
      var here := Here(RecordOf(s, c0, matches));
      var later := Outputs(s, rest, matches);
      assert Outputs(s, chunk, matches) == here + later;
      assert c0 in chunk;
      FirstFileWrites(s, c0, outputDir, matches);
      UntouchedStep(final, s1, s, OutputPaths(later.Keys, outputDir), OutputPaths(here.Keys, outputDir), outputDir);
      SavedStep(final.files, s1.files, here, later, outputDir);
      OutputPathsUnion(here, later, outputDir);
    }
  }

  /** One file processed without exception saves its record, and changes no other file under the output directory. */
  lemma FirstFileWrites(s: FsState, p: Path, outputDir: Path, matches: (real, real) -> bool)
    requires WellFormed(s) && !(outputDir <= p)
    ensures var e := ProcessFileOn(s, p, outputDir, matches);
      var here := Here(RecordOf(s, p, matches));
      var written := OutputPaths(here.Keys, outputDir);
      e.error.None? ==>
        Saved(e.state.files, here, outputDir) && UntouchedFiles(e.state, outputDir, written) == UntouchedFiles(s, outputDir, written)
  {
    var e := ProcessFileOn(s, p, outputDir, matches);
    ProcessFileSaves(s, p, outputDir, matches);
    if e.error.None? {
      WriteRecordInside(e.state, s, p, RecordOf(s, p, matches), outputDir);
    }
  }

  /** Saving a record and deleting a file outside the output directory. */
  lemma WriteRecordInside(after: FsState, s: FsState, p: Path, record: Option<TraceRecord>, outputDir: Path)
    requires !(outputDir <= p)
    requires after.files == WithRecord(s.files, record, outputDir) - {p}
    ensures var written := OutputPaths(Here(record).Keys, outputDir);
      Saved(after.files, Here(record), outputDir) && UntouchedFiles(after, outputDir, written) == UntouchedFiles(s, outputDir, written)
  {
    match record
    case Some(r) =>
      assert Here(record).Keys == {r.icao};
      WriteOneRecord(after, s, p, r, outputDir);
    case None =>
      assert OutputPaths(Here(record).Keys, outputDir) == {};
      DeleteOutsideUntouched(after, s, p, outputDir);
  }

  lemma WriteOneRecord(after: FsState, s: FsState, p: Path, r: TraceRecord, outputDir: Path)
    requires !(outputDir <= p)
    requires after.files == s.files[OutputPath(r.icao, outputDir) := Json(r)] - {p}
    ensures Saved(after.files, map[r.icao := r], outputDir)
    ensures var written := OutputPaths({r.icao}, outputDir);
      UntouchedFiles(after, outputDir, written) == UntouchedFiles(s, outputDir, written)
  {
    var target := OutputPath(r.icao, outputDir);
    OutputPathUnder(r.icao, outputDir);
    assert OutputPaths({r.icao}, outputDir) == {target};
    WriteInsideUntouched(after, s, p, target, Json(r), outputDir);
  }

  lemma WriteInsideUntouched(after: FsState, s: FsState, p: Path, target: Path, c: Content, outputDir: Path)
    requires !(outputDir <= p) && outputDir <= target
    requires after.files == s.files[target := c] - {p}
    ensures target in after.files && after.files[target] == c
    ensures UntouchedFiles(after, outputDir, {target}) == UntouchedFiles(s, outputDir, {target})
  {
    var a, b := UntouchedFiles(after, outputDir, {target}), UntouchedFiles(s, outputDir, {target});
    assert target != p;
    forall q ensures (q in a <==> q in b) && (q in a ==> a[q] == b[q]) {
      if outputDir <= q {
        assert q != p;
      }
    }
    assert a == b;
  }

  lemma DeleteOutsideUntouched(after: FsState, s: FsState, p: Path, outputDir: Path)
    requires !(outputDir <= p)
    requires after.files == s.files - {p}
    ensures UntouchedFiles(after, outputDir, {}) == UntouchedFiles(s, outputDir, {})
  {
    var a, b := UntouchedFiles(after, outputDir, {}), UntouchedFiles(s, outputDir, {});
    forall q ensures (q in a <==> q in b) && (q in a ==> a[q] == b[q]) {
      if outputDir <= q {
        assert q != p;
      }
    }
    assert a == b;
  }

  /** The codes saved by the first file and those saved later: a later record replaces an earlier one. */
  lemma SavedStep(final: map<Path, Content>, middle: map<Path, Content>, here: map<string, TraceRecord>,
                  later: map<string, TraceRecord>, outputDir: Path)
    requires Saved(middle, here, outputDir) && Saved(final, later, outputDir)
    requires forall q | q in middle && outputDir <= q && q !in OutputPaths(later.Keys, outputDir) ::
      q in final && final[q] == middle[q]
    ensures Saved(final, here + later, outputDir)
  {
    forall n | n in here + later
      ensures OutputPath(n, outputDir) in final && final[OutputPath(n, outputDir)] == Json((here + later)[n])
    {
      if n !in later {
        var target := OutputPath(n, outputDir);
        OutputPathUnder(n, outputDir);
        forall m | m in later.Keys ensures OutputPath(m, outputDir) != target {
          OutputPathsDistinct(m, n, outputDir);
        }
        assert target in middle && target !in OutputPaths(later.Keys, outputDir);
      }
    }
  }

  /** Files left alone by two runs in turn are left alone by both together. */
  lemma UntouchedStep(final: FsState, middle: FsState, s: FsState, later: set<Path>, here: set<Path>, outputDir: Path)
    requires UntouchedFiles(final, outputDir, later) == UntouchedFiles(middle, outputDir, later)
    requires UntouchedFiles(middle, outputDir, here) == UntouchedFiles(s, outputDir, here)
    ensures UntouchedFiles(final, outputDir, here + later) == UntouchedFiles(s, outputDir, here + later)
    ensures forall q | q in middle.files && outputDir <= q && q !in later :: q in final.files && final.files[q] == middle.files[q]
  {
    var after, before := UntouchedFiles(final, outputDir, here + later), UntouchedFiles(s, outputDir, here + later);
    forall q ensures (q in after <==> q in before) && (q in after ==> after[q] == before[q]) {
      if outputDir <= q && q !in here + later {
        assert q in final.files <==> q in UntouchedFiles(middle, outputDir, later);
        assert q in middle.files <==> q in UntouchedFiles(s, outputDir, here);
      }
    }
    assert after == before;
    forall q | q in middle.files && outputDir <= q && q !in later ensures q in final.files && final.files[q] == middle.files[q] {
      assert q in UntouchedFiles(middle, outputDir, later);
    }
  }

  lemma OutputPathsUnion(here: map<string, TraceRecord>, later: map<string, TraceRecord>, outputDir: Path)
    ensures OutputPaths((here + later).Keys, outputDir) == OutputPaths(here.Keys, outputDir) + OutputPaths(later.Keys, outputDir)
  {
    assert (here + later).Keys == here.Keys + later.Keys;
  }

  /**
   * Even when chunks raise, every chunk runs: the first file of every
   * non-empty chunk is deleted, and outside the output directory the run
   * only deletes files. Without any exception, exactly the files of all
   * chunks are deleted.
   */
  lemma {:induction false} AllChunksCleanUp(s: FsState, chunks: seq<seq<Path>>, outputDir: Path, matches: (real, real) -> bool)
    requires WellFormed(s)
    ensures var e := AllChunksOn(s, chunks, outputDir, matches);
      && WellFormed(e.state)
      && (forall q | q in OutsideFiles(e.state, outputDir) ::
            q in OutsideFiles(s, outputDir) && OutsideFiles(e.state, outputDir)[q] == OutsideFiles(s, outputDir)[q])
      && (forall k | 0 <= k < |chunks| && chunks[k] != [] :: chunks[k][0] !in OutsideFiles(e.state, outputDir))
      && (e.error.None? ==> OutsideFiles(e.state, outputDir) == OutsideFiles(s, outputDir) - Elems(Flatten(chunks)))
    decreases |chunks|
  {
    if chunks != [] {
      var first := ChunkOn(s, chunks[0], outputDir, matches);
      ChunkCleansUp(s, chunks[0], outputDir, matches);
      AllChunksCleanUp(first.state, chunks[1..], outputDir, matches);
      var e := AllChunksOn(s, chunks, outputDir, matches);
      var mid := OutsideFiles(first.state, outputDir);
      var k0: nat := if first.error.None? then |chunks[0]| else
        var k :| 1 <= k <= |chunks[0]| && mid == OutsideFiles(s, outputDir) - Elems(chunks[0][..k]); k;
      assert mid == OutsideFiles(s, outputDir) - Elems(chunks[0][..k0]) by {
        if first.error.None? {
          assert chunks[0][..k0] == chunks[0];
        }
      }
      if chunks[0] != [] {
        assert k0 >= 1 && chunks[0][0] == chunks[0][..k0][0];
        assert chunks[0][0] !in mid;
      }
      forall k | 0 <= k < |chunks| && chunks[k] != [] ensures chunks[k][0] !in OutsideFiles(e.state, outputDir) {
        if k > 0 {
          assert chunks[k] == chunks[1..][k - 1];
        }
      }
      if e.error.None? {
        assert Elems(Flatten(chunks)) == Elems(chunks[0]) + Elems(Flatten(chunks[1..]));
      }
    }
  }

  // ---------------------------------------------------------------------------
  // parse_command

  const Workdir: Path := ["workdir"]
  const SourceWorkdir: Path := ["workdir", "source"]
  const TracesPath: Path := ["workdir", "source", "traces"]
  const ParsedWorkdir: Path := ["workdir", "parsed"]
  const OutputDir: Path := ["output"]

  /** What `parse_command` (and the older `main`) raises. */
  datatype CommandError =
    | TagExists(date: string)            // `ValueError`: the release tag is already there
    | SourcesFailed(sourceError: SourceError)  // `get_source_files` raised
    | MissingSources(date: string)       // `ValueError` of the older `main` when the date has no source
    | DirectoryFailed(fsError: FsError)  // a `mkdir` raised
    | ZeroStep                           // `range()` refuses a zero step
    | NoWorkers(threads: int)            // `ThreadPoolExecutor` refuses `max_workers <= 0`
    | FileFailed(fileError: FileError)     // re-raised by `future.result()`

  /** How a command that raises nothing ends. */
  datatype Outcome =
    | NoSourceFiles   // the date has no source: a message, nothing else
    | Done            // the files were processed and the output directory exists

  /** The filesystem after a command, and how the command ended. */
  datatype Run = Run(state: FsState, result: Result<Outcome, CommandError>)

  /** `mkdir(parents=True, exist_ok=True)` on each path in turn, until one raises. */
  function MakeAllDirsOn(s: FsState, paths: seq<Path>): Effect<FsError>
    decreases |paths|
  {
    if paths == [] then Effect(s, None)
    else match MakeDirsOn(s, paths[0])
      case Err(e) => Effect(s, Some(e))
      case Ok(s1) => MakeAllDirsOn(s1, paths[1..])
  }

  /** `all_sources.get(date)` is missing or empty. */
  predicate NoSourceFor(all: SourceFiles, date: string) {
    date !in all || all[date] == []
  }

  /**
   * From the working directories on: list the trace files, split them into
   * chunks, run every chunk into the parsed directory, and create the output
   * directory. The download and the zip are not part of this model.
   */
  function ProcessDateOn(s: FsState, threads: int, listing: seq<Node>, matches: (real, real) -> bool): Run {
    var prepared := MakeAllDirsOn(s, [Workdir, SourceWorkdir, ParsedWorkdir]);
    if prepared.error.Some? then Run(prepared.state, Err(DirectoryFailed(prepared.error.value)))
    else
      var files := Walk(TracesPath, listing);
      match Partition(files, threads)
      case None => Run(prepared.state, Err(ZeroStep))
      case Some(chunks) =>
        if threads <= 0 then Run(prepared.state, Err(NoWorkers(threads)))
        else
          var ran := AllChunksOn(prepared.state, chunks, ParsedWorkdir, matches);
          if ran.error.Some? then Run(ran.state, Err(FileFailed(ran.error.value)))
          else match MakeDirsOn(ran.state, OutputDir)
            case Err(e) => Run(ran.state, Err(DirectoryFailed(e)))
            case Ok(s') => Run(s', Ok(Done))
  }

  /**
   * `parse_command(arguments)`: `tagExists` is the answer of
   * `tag_exists(CURRENT_REPO_NAME, date)`, `fetch` the release-list fetch of
   * `get_source_files`, and `listing` the tree found under the traces
   * directory once the archive is extracted.
   */
  function ParseCommandOn(s: FsState, date: string, threads: int, tagExists: bool,
                          fetch: string -> Option<string>, listing: seq<Node>, matches: (real, real) -> bool): Run
  {
    if tagExists then Run(s, Err(TagExists(date)))
    else match Collect(fetch, SourceRepositories)
      case Err(e) => Run(s, Err(SourcesFailed(e)))
      case Ok(all) =>
        if NoSourceFor(all, date) then Run(s, Ok(NoSourceFiles))
        else ProcessDateOn(s, threads, listing, matches)
  }

  /** The steps of `parse_command` after the source lookup, in place on the disk. */
  method ProcessDate(disk: Disk, threads: int, listing: seq<Node>, matches: (real, real) -> bool)
    returns (r: Result<Outcome, CommandError>)
    requires disk.Valid()
    modifies disk
    ensures disk.Valid()
    ensures Run(disk.State(), r) == ProcessDateOn(old(disk.State()), threads, listing, matches)
  {
    ghost var dirs := [Workdir, SourceWorkdir, ParsedWorkdir];
    assert dirs[1..] == [SourceWorkdir, ParsedWorkdir] && dirs[1..][1..] == [ParsedWorkdir];
    ghost var s0 := disk.State();
    var err := disk.MakeDirs(Workdir);
    if err.Some? {
      return Err(DirectoryFailed(err.value));
    }
    ghost var s1 := disk.State();
    assert MakeAllDirsOn(s0, dirs) == MakeAllDirsOn(s1, dirs[1..]);
    err := disk.MakeDirs(SourceWorkdir);
    if err.Some? {
      assert MakeAllDirsOn(s1, dirs[1..]) == Effect(s1, err);
      return Err(DirectoryFailed(err.value));
    }
    ghost var s2 := disk.State();
    assert MakeAllDirsOn(s1, dirs[1..]) == MakeAllDirsOn(s2, dirs[1..][1..]);
    var files := Walk(TracesPath, listing);
    err := disk.MakeDirs(ParsedWorkdir);
    if err.Some? {
      assert MakeAllDirsOn(s2, dirs[1..][1..]) == Effect(s2, err);
      return Err(DirectoryFailed(err.value));
    }
    assert MakeAllDirsOn(s2, dirs[1..][1..]) == Effect(disk.State(), None) by {
      assert dirs[1..][1..][1..] == [];
    }
    var chunks := Partition(files, threads);
    if chunks.None? {
      return Err(ZeroStep);
    }
    if threads <= 0 {
      return Err(NoWorkers(threads));
    }
    var failure := ProcessAllChunks(disk, chunks.value, ParsedWorkdir, matches);
    if failure.Some? {
      return Err(FileFailed(failure.value));
    }
    err := disk.MakeDirs(OutputDir);
    if err.Some? {
      return Err(DirectoryFailed(err.value));
    }
    return Ok(Done);
  }

  /** `parse_command(arguments)`, in place on the disk. */
  method ParseCommand(disk: Disk, date: string, threads: int, tagExists: bool,
                      fetch: string -> Option<string>, listing: seq<Node>, matches: (real, real) -> bool)
    returns (r: Result<Outcome, CommandError>)
    requires disk.Valid()
    modifies disk
    ensures disk.Valid()
    ensures Run(disk.State(), r) == ParseCommandOn(old(disk.State()), date, threads, tagExists, fetch, listing, matches)
  {
    if tagExists {
      return Err(TagExists(date));
    }
    var allSources := GetSourceFiles(fetch);
    if allSources.Err? {
      return Err(SourcesFailed(allSources.error));
    }
    if NoSourceFor(allSources.value, date) {
      return Ok(NoSourceFiles);
    }
    r := ProcessDate(disk, threads, listing, matches);
  }

  /** Creating directories changes no file and keeps the tree well formed. */
  lemma {:induction false} MakeAllDirsKeepsFiles(s: FsState, paths: seq<Path>)
    requires WellFormed(s)
    ensures var e := MakeAllDirsOn(s, paths);
      WellFormed(e.state) && e.state.files == s.files
    decreases |paths|
  {
    if paths != [] {
      MakeDirsWellFormed(s, paths[0]);
      if MakeDirsOn(s, paths[0]).Ok? {
        MakeAllDirsKeepsFiles(MakeDirsOn(s, paths[0]).value, paths[1..]);
      }
    }
  }

  /** Every listed trace file lies under the traces directory, so outside the parsed directory. */
  lemma ListedOutsideParsed(listing: seq<Node>)
    ensures forall p | p in Walk(TracesPath, listing) :: !(ParsedWorkdir <= p)
  {
    forall p | p in Walk(TracesPath, listing) ensures !(ParsedWorkdir <= p) {
      WalkSound(TracesPath, listing, p);
      assert p[1] == TracesPath[1] == "source";
    }
  }

  /**
   * The steps after the source lookup. Outside the parsed directory they
   * never create or change a file: they only delete trace files. A zero or
   * negative thread count is refused. When they complete, the thread count
   * was positive, every listed trace file was a regular file and is deleted,
   * each ICAO code's output file holds the record of the last listed file
   * with that code, and every other file of the parsed directory is as it
   * was.
   */
  lemma ProcessDateOutcome(s: FsState, threads: int, listing: seq<Node>, matches: (real, real) -> bool)
    requires WellFormed(s)
    ensures var run := ProcessDateOn(s, threads, listing, matches);
      var files := Walk(TracesPath, listing);
      var outs := Outputs(s, files, matches);
      var written := OutputPaths(outs.Keys, ParsedWorkdir);
      && WellFormed(run.state)
      && (forall q | q in OutsideFiles(run.state, ParsedWorkdir) ::
            q in OutsideFiles(s, ParsedWorkdir) && OutsideFiles(run.state, ParsedWorkdir)[q] == OutsideFiles(s, ParsedWorkdir)[q])
      && (run.result == Err(ZeroStep) ==> threads == 0)
      && (run.result == Err(NoWorkers(threads)) ==> threads < 0)
      && (threads > 0 ==> run.result != Err(ZeroStep) && run.result != Err(NoWorkers(threads)))
      && (run.result == Ok(Done) ==>
            && threads > 0
            && (forall p | p in files :: p in s.files)
            && OutsideFiles(run.state, ParsedWorkdir) == OutsideFiles(s, ParsedWorkdir) - Elems(files)
            && Saved(run.state.files, outs, ParsedWorkdir)
            && UntouchedFiles(run.state, ParsedWorkdir, written) == UntouchedFiles(s, ParsedWorkdir, written))
  {
    var prepared := MakeAllDirsOn(s, [Workdir, SourceWorkdir, ParsedWorkdir]);
    MakeAllDirsKeepsFiles(s, [Workdir, SourceWorkdir, ParsedWorkdir]);
    var p0 := prepared.state;
    assert OutsideFiles(p0, ParsedWorkdir) == OutsideFiles(s, ParsedWorkdir);
    var files := Walk(TracesPath, listing);
    if prepared.error.None? && threads > 0 {
      var chunks := Chunks(files, threads);
      ChunksPartition(files, threads);
      var ran := AllChunksOn(p0, chunks, ParsedWorkdir, matches);
      AllChunksCleanUp(p0, chunks, ParsedWorkdir, matches);
      if ran.error.None? {
        AllChunksAsOne(p0, chunks, ParsedWorkdir, matches);
        ListedOutsideParsed(listing);
        ChunkSavesLastRecord(p0, files, ParsedWorkdir, matches);
        OutputsFrame(p0, s, files, matches);
        var outs := Outputs(s, files, matches);
        var written := OutputPaths(outs.Keys, ParsedWorkdir);
        assert UntouchedFiles(p0, ParsedWorkdir, written) == UntouchedFiles(s, ParsedWorkdir, written);
        MakeDirsWellFormed(ran.state, OutputDir);
      }
    }
  }

  /** The steps after the source lookup end in `Done` or raise a directory, thread count or file error. */
  lemma ProcessDateResults(s: FsState, threads: int, listing: seq<Node>, matches: (real, real) -> bool)
    ensures var r := ProcessDateOn(s, threads, listing, matches).result;
      r == Ok(Done) || (r.Err? && (r.error.DirectoryFailed? || r.error.ZeroStep? || r.error.NoWorkers? || r.error.FileFailed?))
  {
  }

  /**
   * `parse_command` returns or raises before touching the disk exactly when
   * the tag exists, the source lookup raises, or the date has no source;
   * a date without source ends normally.
   */
  lemma ParseCommandEarlyExits(s: FsState, date: string, threads: int, tagExists: bool,
                               fetch: string -> Option<string>, listing: seq<Node>, matches: (real, real) -> bool)
    ensures var run := ParseCommandOn(s, date, threads, tagExists, fetch, listing, matches);
      var sources := Collect(fetch, SourceRepositories);
      var early := tagExists || sources.Err? || NoSourceFor(sources.value, date);
      && (early ==> run.state == s)
      && (run.result == Ok(NoSourceFiles) <==> (!tagExists && sources.Ok? && NoSourceFor(sources.value, date)))
      && (run.result == Err(TagExists(date)) <==> tagExists)
      && (!early ==> run == ProcessDateOn(s, threads, listing, matches))
  {
    ProcessDateResults(s, threads, listing, matches);
  }
}
