/**
 * The working directory tree as the pipeline sees it, and the two helpers of
 * the `Filesystem` class: the sharded writer `save_entry` and the recursive
 * file enumeration `get_files_recursively`.
 */
module Filesystem {
  import opened Common
  import opened Records

  /** A path as the list of its components, relative to the working directory (`[]`). */
  type Path = seq<string>

  /** What a regular file holds. */
  datatype Content =
    | Compressed(doc: Document)   // a gzip-compressed JSON object: a source trace file
    | Undecodable                 // bytes that gzip or JSON decoding rejects
    | Json(record: TraceRecord)   // the JSON text that `save_entry` writes

  /** The `OSError` subclasses the helpers can raise. */
  datatype FsError =
    | FileNotFound(path: Path)
    | FileExists(path: Path)
    | IsADirectory(path: Path)
    | NotADirectory(path: Path)

  /** The regular files with their contents, and the directories. */
  datatype FsState = FsState(files: map<Path, Content>, dirs: set<Path>)

  /** The state after an operation that may raise, and what it raised. */
  datatype Effect<+E> = Effect(state: FsState, error: Option<E>)

  /** Every non-empty proper prefix of `p` is one of `dirs`. */
  ghost predicate AncestorsAreDirs(p: Path, dirs: set<Path>) {
    forall k | 0 < k < |p| :: p[..k] in dirs
  }

  /** A tree: no path is both a file and a directory, and every entry's parents exist. */
  ghost predicate WellFormed(s: FsState) {
    && s.files.Keys !! s.dirs
    && (forall p | p in s.files :: p != [] && AncestorsAreDirs(p, s.dirs))
    && (forall d | d in s.dirs :: d != [] && AncestorsAreDirs(d, s.dirs))
  }

  /** A proper prefix of `p` is a regular file, so `p` cannot be reached. */
  predicate UnderFile(s: FsState, p: Path) {
    exists k | 0 < k < |p| :: p[..k] in s.files
  }

  /** `p` names a directory; the working directory `[]` always exists. */
  predicate IsDir(s: FsState, p: Path) {
    p == [] || p in s.dirs
  }

  /** All non-empty prefixes of `p`, `p` included. */
  function Prefixes(p: Path): set<Path> {
    set k | 0 < k <= |p| :: p[..k]
  }

  /**
   * `p / c` in pathlib for a name `c` that is at most one path component:
   * empty and `.` names add nothing, any other name is appended as it is.
   */
  function Join(p: Path, c: string): Path {
    if c == "" || c == "." then p else p + [c]
  }

  /** `filename[-2:]`: the last two characters, or the whole name when it is shorter. */
  function Shard(filename: string): (r: string)
    ensures |r| == (if |filename| < 2 then |filename| else 2)
    ensures r == filename[|filename| - |r|..]
  {
    if |filename| < 2 then filename else filename[|filename| - 2..]
  }

  /** `output_dir / filename[-2:]`, the shard directory. */
  function ShardDir(filename: string, outputDir: Path): Path {
    Join(outputDir, Shard(filename))
  }

  /** `output_dir / filename[-2:] / f"{filename}.json"`. */
  function OutputPath(filename: string, outputDir: Path): Path {
    Join(ShardDir(filename, outputDir), filename + ".json")
  }

  /** `open(p)` for reading. */
  function ReadOn(s: FsState, p: Path): Result<Content, FsError> {
    if p in s.files then Ok(s.files[p])
    else if IsDir(s, p) then Err(IsADirectory(p))
    else if UnderFile(s, p) then Err(NotADirectory(p))
    else Err(FileNotFound(p))
  }

  /**
   * `p.mkdir(parents=True, exist_ok=True)`: creates every missing ancestor and
   * `p`. A file on the way fails `os.mkdir` with `NotADirectoryError`; a file
   * at `p` itself with `FileExistsError`, which `exist_ok` forgives only for a
   * directory.
   */
  function MakeDirsOn(s: FsState, p: Path): Result<FsState, FsError> {
    if UnderFile(s, p) then Err(NotADirectory(p))
    else if p in s.files then Err(FileExists(p))
    else Ok(FsState(s.files, s.dirs + Prefixes(p)))
  }

  /** `open(p, "w")` followed by a write: creates or truncates the file. */
  function WriteOn(s: FsState, p: Path, c: Content): Result<FsState, FsError> {
    if IsDir(s, p) then Err(IsADirectory(p))
    else if UnderFile(s, p) then Err(NotADirectory(p))
    else if exists k | 0 < k < |p| :: p[..k] !in s.dirs then Err(FileNotFound(p))
    else Ok(FsState(s.files[p := c], s.dirs))
  }

  /** `p.unlink(missing_ok=True)`: only a missing file is forgiven. */
  function UnlinkOn(s: FsState, p: Path): Result<FsState, FsError> {
    if IsDir(s, p) then Err(IsADirectory(p))
    else if UnderFile(s, p) then Err(NotADirectory(p))
    else Ok(FsState(s.files - {p}, s.dirs))
  }

  /** `Filesystem.save_entry(entry, filename, output_dir)`: mkdir of the shard, then the write. */
  function SaveEntryOn(s: FsState, entry: TraceRecord, filename: string, outputDir: Path): Effect<FsError> {
    match MakeDirsOn(s, ShardDir(filename, outputDir))
    case Err(e) => Effect(s, Some(e))
    case Ok(s1) =>
      match WriteOn(s1, OutputPath(filename, outputDir), Json(entry))
      case Err(e) => Effect(s1, Some(e))
      case Ok(s2) => Effect(s2, None)
  }

  /** Proof helper on paths: a prefix of a prefix is a prefix. */
  lemma PrefixOfPrefix(p: Path, k: nat, j: nat)
    requires j <= k <= |p|
    ensures p[..k][..j] == p[..j]
  {
  }

  /** The output file sits directly in the shard directory, which sits in the output directory. */
  lemma OutputPathShape(filename: string, outputDir: Path)
    ensures var p := OutputPath(filename, outputDir);
      && |p| == |ShardDir(filename, outputDir)| + 1
      && p[..|p| - 1] == ShardDir(filename, outputDir)
      && p[|p| - 1] == filename + ".json"
      && outputDir <= ShardDir(filename, outputDir)
      && |ShardDir(filename, outputDir)| <= |outputDir| + 1
  {
    var dir, name := ShardDir(filename, outputDir), filename + ".json";
    assert |name| == |filename| + 5;
    assert name != "" && name != ".";
    assert OutputPath(filename, outputDir) == dir + [name];
    assert (dir + [name])[..|dir|] == dir;
  }

  /**
   * Two names with the same last two characters share a shard directory, and
   * distinct names never share a file.
   */
  lemma OutputPathsDistinct(f1: string, f2: string, outputDir: Path)
    ensures Shard(f1) == Shard(f2) ==> ShardDir(f1, outputDir) == ShardDir(f2, outputDir)
    ensures f1 != f2 ==> OutputPath(f1, outputDir) != OutputPath(f2, outputDir)
  {
    OutputPathShape(f1, outputDir);
    OutputPathShape(f2, outputDir);
    var p1, p2 := OutputPath(f1, outputDir), OutputPath(f2, outputDir);
    if p1 == p2 {
      var n1, n2 := f1 + ".json", f2 + ".json";
      assert n1 == p1[|p1| - 1] == n2;
      assert |f1| == |f2|;
      assert f1 == n1[..|f1|] == n2[..|f2|] == f2;
    }
  }

  /** mkdir keeps the tree well formed, and afterwards `p` and all its ancestors are directories. */
  lemma MakeDirsWellFormed(s: FsState, p: Path)
    requires WellFormed(s)
    ensures MakeDirsOn(s, p).Ok? <==> p !in s.files && !UnderFile(s, p)
    ensures MakeDirsOn(s, p) == Err(NotADirectory(p)) <==> UnderFile(s, p)
    ensures MakeDirsOn(s, p) == Err(FileExists(p)) <==> p in s.files
    ensures MakeDirsOn(s, p).Ok? ==>
      var s' := MakeDirsOn(s, p).value;
      WellFormed(s') && s'.files == s.files && Prefixes(p) <= s'.dirs && s.dirs <= s'.dirs
  {
    if MakeDirsOn(s, p).Ok? {
      var s' := MakeDirsOn(s, p).value;
      forall d | d in Prefixes(p) ensures d !in s.files && d != [] && AncestorsAreDirs(d, s'.dirs) {
        var k :| 0 < k <= |p| && d == p[..k];
        if k < |p| {
          assert d !in s.files;
        } else {
          assert d == p;
        }
        forall j | 0 < j < |d| ensures d[..j] in s'.dirs {
          PrefixOfPrefix(p, k, j);
        }
      }
      forall d | d in s'.dirs ensures d != [] && AncestorsAreDirs(d, s'.dirs) {
        if d in s.dirs {
          assert AncestorsAreDirs(d, s.dirs);
        }
      }
      forall f | f in s'.files ensures AncestorsAreDirs(f, s'.dirs) {
        assert AncestorsAreDirs(f, s.dirs);
      }
    }
  }

  /** A successful write stores the content at `p`, changes no other file, and keeps the tree well formed. */
  lemma WriteWellFormed(s: FsState, p: Path, c: Content)
    requires WellFormed(s)
    ensures WriteOn(s, p, c).Ok? ==>
      var s' := WriteOn(s, p, c).value;
      WellFormed(s') && s'.files == s.files[p := c] && s'.dirs == s.dirs
  {
    if WriteOn(s, p, c).Ok? {
      var s' := WriteOn(s, p, c).value;
      assert AncestorsAreDirs(p, s.dirs);
      forall f | f in s'.files ensures f != [] && AncestorsAreDirs(f, s'.dirs) {
        if f != p {
          assert AncestorsAreDirs(f, s.dirs);
        }
      }
      forall d | d in s'.dirs ensures AncestorsAreDirs(d, s'.dirs) {
        assert AncestorsAreDirs(d, s.dirs);
      }
    }
  }

  /** unlink removes exactly `p` from the files (nothing when it was missing) and keeps the tree well formed. */
  lemma UnlinkWellFormed(s: FsState, p: Path)
    requires WellFormed(s)
    ensures UnlinkOn(s, p).Ok? <==> !IsDir(s, p) && !UnderFile(s, p)
    ensures UnlinkOn(s, p).Err? ==> p !in s.files
    ensures UnlinkOn(s, p).Ok? ==>
      var s' := UnlinkOn(s, p).value;
      WellFormed(s') && s'.files == s.files - {p} && s'.dirs == s.dirs
  {
    if UnlinkOn(s, p).Ok? {
      var s' := UnlinkOn(s, p).value;
      forall f | f in s'.files ensures AncestorsAreDirs(f, s'.dirs) {
        assert AncestorsAreDirs(f, s.dirs);
      }
      forall d | d in s'.dirs ensures AncestorsAreDirs(d, s'.dirs) {
        assert AncestorsAreDirs(d, s.dirs);
      }
    } else if UnderFile(s, p) {
      var k :| 0 < k < |p| && p[..k] in s.files;
      assert p[..k] !in s.dirs;
      assert !AncestorsAreDirs(p, s.dirs);
    }
  }

  /** `save_entry` changes at most the one output file. */
  lemma SaveEntryFiles(s: FsState, entry: TraceRecord, filename: string, outputDir: Path)
    ensures var r := SaveEntryOn(s, entry, filename, outputDir);
      && (r.error.None? ==> r.state.files == s.files[OutputPath(filename, outputDir) := Json(entry)])
      && (r.error.Some? ==> r.state.files == s.files)
  {
  }

  /**
   * `save_entry`: it fails exactly when the shard directory cannot be created
   * (a file is in the way) or the target is a directory; on success the shard
   * directory exists, whether or not it existed before, the target holds the
   * entry's encoding whatever it held before, and no other file changes. A
   * failure changes no file.
   */
  lemma SaveEntryEffect(s: FsState, entry: TraceRecord, filename: string, outputDir: Path)
    requires WellFormed(s)
    ensures var r := SaveEntryOn(s, entry, filename, outputDir);
      var dir, target := ShardDir(filename, outputDir), OutputPath(filename, outputDir);
      && WellFormed(r.state)
      && (r.error.None? <==> dir !in s.files && !UnderFile(s, dir) && target !in s.dirs)
      && (r.error.None? ==>
            && r.state.files == s.files[target := Json(entry)]
            && r.state.dirs == s.dirs + Prefixes(dir)
            && IsDir(r.state, dir))
      && (r.error.Some? ==> r.state.files == s.files)
  {
    var dir, target := ShardDir(filename, outputDir), OutputPath(filename, outputDir);
    OutputPathShape(filename, outputDir);
    MakeDirsWellFormed(s, dir);
    if MakeDirsOn(s, dir).Ok? {
      var s1 := MakeDirsOn(s, dir).value;
      assert target[..|target| - 1] == dir;
      assert dir == [] || dir in Prefixes(dir) by {
        if dir != [] { assert dir[..|dir|] == dir; }
      }
      assert !UnderFile(s1, target) by {
        forall k | 0 < k < |target| ensures target[..k] !in s1.files {
          PrefixOfPrefix(target, |target| - 1, k);
          if k < |dir| {
            assert target[..k] == dir[..k];
          } else {
            assert target[..k] == dir;
          }
        }
      }
      assert forall k | 0 < k < |target| :: target[..k] in s1.dirs by {
        forall k | 0 < k < |target| ensures target[..k] in s1.dirs {
          PrefixOfPrefix(target, |target| - 1, k);
          assert target[..k] == dir[..k];
          assert dir[..k] in Prefixes(dir);
        }
      }
      assert target in s1.dirs <==> target in s.dirs by {
        forall d | d in Prefixes(dir) ensures d != target {
          assert |d| <= |dir| < |target|;
        }
      }
      WriteWellFormed(s1, target, Json(entry));
    }
  }

  /** The effect of an operation that either raises and changes nothing or succeeds with a new state. */
  function Attempt(s: FsState, r: Result<FsState, FsError>): Effect<FsError> {
    match r
    case Ok(s') => Effect(s', None)
    case Err(e) => Effect(s, Some(e))
  }

  /** The operating system's filesystem, which the helpers change in place. */
  class Disk {
    var files: map<Path, Content>
    var dirs: set<Path>

    function State(): FsState
      reads this
    {
      FsState(files, dirs)
    }

    ghost predicate Valid()
      reads this
    {
      WellFormed(State())
    }

    constructor (s: FsState)
      requires WellFormed(s)
      ensures Valid() && State() == s
    {
      files, dirs := s.files, s.dirs;
    }

    /** `path.mkdir(parents=True, exist_ok=True)`. */
    method MakeDirs(p: Path) returns (err: Option<FsError>)
      requires Valid()
      modifies this
      ensures Valid()
      ensures Effect(State(), err) == Attempt(old(State()), MakeDirsOn(old(State()), p))
    {
      MakeDirsWellFormed(State(), p);
      if exists k | 0 < k < |p| :: p[..k] in files {
        return Some(NotADirectory(p));
      }
      if p in files {
        return Some(FileExists(p));
      }
      dirs := dirs + Prefixes(p);
      err := None;
    }

    /** `open(path, "w")` and a write of `c`. */
    method Write(p: Path, c: Content) returns (err: Option<FsError>)
      requires Valid()
      modifies this
      ensures Valid()
      ensures Effect(State(), err) == Attempt(old(State()), WriteOn(old(State()), p, c))
    {
      WriteWellFormed(State(), p, c);
      if p == [] || p in dirs {
        return Some(IsADirectory(p));
      } else if exists k | 0 < k < |p| :: p[..k] in files {
        return Some(NotADirectory(p));
      } else if exists k | 0 < k < |p| :: p[..k] !in dirs {
        return Some(FileNotFound(p));
      }
      files := files[p := c];
      err := None;
    }

    /** `path.unlink(missing_ok=True)`; afterwards `p` is not a file, whatever happened. */
    method Unlink(p: Path) returns (err: Option<FsError>)
      requires Valid()
      modifies this
      ensures Valid() && p !in files
      ensures Effect(State(), err) == Attempt(old(State()), UnlinkOn(old(State()), p))
    {
      UnlinkWellFormed(State(), p);
      if p == [] || p in dirs {
        return Some(IsADirectory(p));
      } else if exists k | 0 < k < |p| :: p[..k] in files {
        return Some(NotADirectory(p));
      }
      files := files - {p};
      err := None;
    }

    /**
     * `Filesystem.save_entry(entry, filename, output_dir)`: creates the shard
     * directory, then creates or overwrites the output file.
     */
    method SaveEntry(entry: TraceRecord, filename: string, outputDir: Path) returns (err: Option<FsError>)
      requires Valid()
      modifies this
      ensures Valid()
      ensures Effect(State(), err) == SaveEntryOn(old(State()), entry, filename, outputDir)
      ensures err.None? ==>
        && files == old(files)[OutputPath(filename, outputDir) := Json(entry)]
        && IsDir(State(), ShardDir(filename, outputDir))
      ensures err.Some? ==> files == old(files)
    {
      SaveEntryEffect(State(), entry, filename, outputDir);
      var subdir := Shard(filename);
      var parent := Join(outputDir, subdir);
      err := MakeDirs(parent);
      if err.None? {
        err := Write(Join(parent, filename + ".json"), Json(entry));
      }
    }
  }

  // ---------------------------------------------------------------------------
  // get_files_recursively, over a directory listing as a tree

  /** One entry of a directory, in `iterdir()` order; `Special` is neither a file nor a directory. */
  datatype Node = File(name: string) | Dir(name: string, children: seq<Node>) | Special(name: string)

  /** `get_files_recursively(root)` for a root whose listing is `items`. */
  function Walk(root: Path, items: seq<Node>): seq<Path>
    decreases items
  {
    if items == [] then []
    else
      var here :=
        match items[0]
        case File(n) => [root + [n]]
        case Dir(n, children) => Walk(root + [n], children)
        case Special(_) => [];
      here + Walk(root, items[1..])
  }

  /** The relative path `rel` leads through directories of `items` to a regular file. */
  ghost predicate IsFileAt(items: seq<Node>, rel: Path)
    decreases items
  {
    |rel| > 0 &&
    exists i | 0 <= i < |items| ::
      items[i].name == rel[0] &&
      match items[i]
      case File(_) => |rel| == 1
      case Dir(_, children) => |rel| > 1 && IsFileAt(children, rel[1..])
      case Special(_) => false
  }

  /** The relative path `rel` leads through directories of `items` to a directory. */
  ghost predicate IsDirAt(items: seq<Node>, rel: Path)
    decreases items
  {
    |rel| > 0 &&
    exists i | 0 <= i < |items| ::
      items[i].name == rel[0] &&
      match items[i]
      case File(_) => false
      case Dir(_, children) => |rel| == 1 || IsDirAt(children, rel[1..])
      case Special(_) => false
  }

  /** A real listing: names are non-empty, unique among siblings, at every depth. */
  ghost predicate UniqueNames(items: seq<Node>)
    decreases items
  {
    && (forall i | 0 <= i < |items| :: items[i].name != "")
    && (forall i, j | 0 <= i < j < |items| :: items[i].name != items[j].name)
    && (forall i | 0 <= i < |items| :: items[i].Dir? ==> UniqueNames(items[i].children))
  }

  /** No path is yielded twice. */
  ghost predicate Distinct(ps: seq<Path>) {
    forall i, j | 0 <= i < j < |ps| :: ps[i] != ps[j]
  }

  lemma DistinctConcat(a: seq<Path>, b: seq<Path>)
    requires Distinct(a) && Distinct(b)
    requires forall p | p in a :: p !in b
    ensures Distinct(a + b)
  {
    forall i, j | 0 <= i < j < |a + b| ensures (a + b)[i] != (a + b)[j] {
      if j >= |a| && i < |a| {
        assert (a + b)[i] in a && (a + b)[j] in b;
      }
    }
  }

  /** Every yielded path lies under `root` and leads to a regular file of the listing. */
  lemma {:induction false} WalkSound(root: Path, items: seq<Node>, p: Path)
    requires p in Walk(root, items)
    ensures |root| < |p| && p[..|root|] == root && IsFileAt(items, p[|root|..])
    decreases items
  {
    if p in Walk(root, items[1..]) {
      WalkSound(root, items[1..], p);
      FileAtLater(items, p[|root|..]);
    } else {
      match items[0]
      case File(n) =>
        assert p == root + [n];
        assert p[|root|..] == [n];
        FileAtFirst(items, [n]);
      case Dir(n, children) =>
        assert p in Walk(root + [n], children);
        WalkSound(root + [n], children, p);
        var rel := p[|root|..];
        assert p[..|root| + 1] == root + [n] by {
          assert p[..|root| + 1][..|root|] == p[..|root|];
        }
        assert rel[0] == n && rel[1..] == p[|root + [n]|..];
        FileAtFirst(items, rel);
      case Special(_) =>
        assert false;
    }
  }

  /** A file of the later siblings is a file of the listing. */
  lemma FileAtLater(items: seq<Node>, rel: Path)
    requires items != [] && IsFileAt(items[1..], rel)
    ensures IsFileAt(items, rel)
  {
    var i :| 0 <= i < |items[1..]| && items[1..][i].name == rel[0] &&
      match items[1..][i]
      case File(_) => |rel| == 1
      case Dir(_, children) => |rel| > 1 && IsFileAt(children, rel[1..])
      case Special(_) => false;
    assert items[i + 1] == items[1..][i];
  }

  /** A file reached through the first entry is a file of the listing. */
  lemma FileAtFirst(items: seq<Node>, rel: Path)
    requires items != [] && |rel| > 0 && items[0].name == rel[0]
    requires match items[0]
      case File(_) => |rel| == 1
      case Dir(_, children) => |rel| > 1 && IsFileAt(children, rel[1..])
      case Special(_) => false
    ensures IsFileAt(items, rel)
  {
  }

  /** Every regular file of the listing, at any depth, is yielded. */
  lemma {:induction false} WalkComplete(root: Path, items: seq<Node>, rel: Path)
    requires IsFileAt(items, rel)
    ensures root + rel in Walk(root, items)
    decreases items
  {
    var i :| 0 <= i < |items| && items[i].name == rel[0] &&
      match items[i]
      case File(_) => |rel| == 1
      case Dir(_, children) => |rel| > 1 && IsFileAt(children, rel[1..])
      case Special(_) => false;
    if i == 0 {
      match items[0]
      case File(n) =>
        assert rel == [n];
      case Dir(n, children) =>
        WalkComplete(root + [n], children, rel[1..]);
        assert root + [n] + rel[1..] == root + rel;
    } else {
      assert items[1..][i - 1] == items[i];
      assert IsFileAt(items[1..], rel);
      WalkComplete(root, items[1..], rel);
    }
  }

  /** In a real listing nothing is both a regular file and a directory. */
  lemma {:induction false} FileIsNotDir(items: seq<Node>, rel: Path)
    requires UniqueNames(items) && IsFileAt(items, rel)
    ensures !IsDirAt(items, rel)
    decreases items
  {
    var i :| 0 <= i < |items| && items[i].name == rel[0] &&
      match items[i]
      case File(_) => |rel| == 1
      case Dir(_, children) => |rel| > 1 && IsFileAt(children, rel[1..])
      case Special(_) => false;
    if IsDirAt(items, rel) {
      var j :| 0 <= j < |items| && items[j].name == rel[0] &&
        match items[j]
        case File(_) => false
        case Dir(_, children) => |rel| == 1 || IsDirAt(children, rel[1..])
        case Special(_) => false;
      assert i == j;
      FileIsNotDir(items[i].children, rel[1..]);
    }
  }

  /**
   * `get_files_recursively` yields exactly the regular files at any depth under
   * the root, never a directory and never an entry that is neither, and in a
   * real listing each of them exactly once.
   */
  lemma WalkYieldsEachFileOnce(root: Path, items: seq<Node>)
    ensures forall p :: p in Walk(root, items) <==>
      |root| < |p| && p[..|root|] == root && IsFileAt(items, p[|root|..])
    ensures UniqueNames(items) ==>
      && Distinct(Walk(root, items))
      && forall p | p in Walk(root, items) :: !IsDirAt(items, p[|root|..])
  {
    forall p ensures p in Walk(root, items) <==>
      |root| < |p| && p[..|root|] == root && IsFileAt(items, p[|root|..])
    {
      if p in Walk(root, items) {
        WalkSound(root, items, p);
      }
      if |root| < |p| && p[..|root|] == root && IsFileAt(items, p[|root|..]) {
        WalkComplete(root, items, p[|root|..]);
        assert root + p[|root|..] == p;
      }
    }
    if UniqueNames(items) {
      WalkDistinct(root, items);
      forall p | p in Walk(root, items) ensures !IsDirAt(items, p[|root|..]) {
        WalkSound(root, items, p);
        FileIsNotDir(items, p[|root|..]);
      }
    }
  }

  lemma {:induction false} WalkDistinct(root: Path, items: seq<Node>)
    requires UniqueNames(items)
    ensures Distinct(Walk(root, items))
    decreases items
  {
    if items != [] {
      var here :=
        match items[0]
        case File(n) => [root + [n]]
        case Dir(n, children) => Walk(root + [n], children)
        case Special(_) => [];
      var rest := Walk(root, items[1..]);
      assert UniqueNames(items[1..]);
      WalkDistinct(root, items[1..]);
      if items[0].Dir? {
        WalkDistinct(root + [items[0].name], items[0].children);
      }
      forall p | p in here ensures |root| < |p| && p[|root|] == items[0].name {
        match items[0]
        case File(n) =>
          assert p == root + [n];
        case Dir(n, children) =>
          WalkSound(root + [n], children, p);
          assert p[..|root| + 1] == root + [n];
          assert p[|root|] == p[..|root| + 1][|root|];
      }
      forall q | q in rest ensures |root| < |q| && q[|root|] != items[0].name {
        WalkSound(root, items[1..], q);
        var rel := q[|root|..];
        var j :| 0 <= j < |items[1..]| && items[1..][j].name == rel[0] &&
          match items[1..][j]
          case File(_) => |rel| == 1
          case Dir(_, children) => |rel| > 1 && IsFileAt(children, rel[1..])
          case Special(_) => false;
        assert items[j + 1].name == q[|root|];
      }
      DistinctConcat(here, rest);
    }
  }
}
