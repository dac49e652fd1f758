/**
 * `EntryParser.parse_file`: from one decoded trace document to the record of
 * the points inside the geographic boundary. The boundary test `matches(lat,
 * lon)` is a parameter; gzip and JSON decoding are abstracted by the file
 * contents of the filesystem model.
 */
module EntryParser {
  import opened Common
  import opened Records
  import opened Filesystem

  /** Why the parsing of one decoded document raises. */
  datatype ParseError =
    | IcaoNotString                        // `data.get("icao").upper()` on a missing or non-string value
    | KeyMissing(key: string)              // `data["timestamp"]` or `data["trace"]`
    | TraceNotIterable                     // `for entry in data["trace"]` on a number, a boolean or null
    | NotSubscriptable(index: nat)         // `entry[k]` on a number, a boolean or null
    | FieldMissing(index: nat, field: nat) // `entry[k]`: `IndexError` past the end, `KeyError` on an object
    | NotANumber(index: nat)               // a latitude, longitude or timestamp that is not a number

  /** What parsing one file raises: opening it, decompressing and decoding it, or reading the document. */
  datatype FileError =
    | Io(fs: FsError)
    | BadArchive(path: Path)
    | Malformed(path: Path, parse: ParseError)

  /** `str.upper()` on one character, for the ASCII letters. */
  function UpperChar(c: char): char {
    if 'a' <= c <= 'z' then (c as int - 32) as char else c
  }

  /** `str.upper()`: same length, each lower-case ASCII letter turned into its own capital, every other character kept. */
  function Upper(s: string): (r: string)
    ensures |r| == |s|
    ensures forall i | 0 <= i < |r| :: !('a' <= r[i] <= 'z')
    ensures forall i | 0 <= i < |s| :: 'a' <= s[i] <= 'z' ==>
      'A' <= r[i] <= 'Z' && r[i] as int - 'A' as int == s[i] as int - 'a' as int
    ensures forall i | 0 <= i < |r| :: !('a' <= s[i] <= 'z') ==> r[i] == s[i]
  {
    seq(|s|, i requires 0 <= i < |s| => UpperChar(s[i]))
  }

  /** `data.get("t")`: the raw value, `None` when the key is absent. */
  function AircraftType(doc: Document): Value {
    if "t" in doc then doc["t"] else Null
  }

  // ---------------------------------------------------------------------------
  // Python's view of a decoded value

  /**
   * `iter(v)`: an array yields its items, a string its characters as
   * one-character strings, an object its keys; anything else raises `TypeError`.
   */
  function Items(v: Value): Option<seq<Value>> {
    match v
    case Arr(items) => Some(items)
    case Str(s) => Some(seq(|s|, i requires 0 <= i < |s| => Str([s[i]])))
    case Obj(members) => Some(seq(|members|, i requires 0 <= i < |members| => Str(members[i].0)))
    case _ => None
  }

  /** What `v[k]` does for an integer `k`. */
  datatype Lookup = Found(value: Value) | Missing | Unsubscriptable

  /**
   * `v[k]` for `k >= 0`: the item or character at `k`, `IndexError` past the
   * end, `KeyError` on an object (whose keys are strings, never `k`), and
   * `TypeError` on anything else.
   */
  function Get(v: Value, k: nat): Lookup {
    match v
    case Arr(items) => if k < |items| then Found(items[k]) else Missing
    case Str(s) => if k < |s| then Found(Str([s[k]])) else Missing
    case Obj(_) => Missing
    case _ => Unsubscriptable
  }

  /** `entry[k]` inside the loop at `index`, with the exception it raises. */
  function Subscript(entry: Value, k: nat, index: nat): Result<Value, ParseError> {
    match Get(entry, k)
    case Found(v) => Ok(v)
    case Missing => Err(FieldMissing(index, k))
    case Unsubscriptable => Err(NotSubscriptable(index))
  }

  /** `v` as a Python number; a boolean is the integer 0 or 1. */
  function AsNumber(v: Value): Option<real> {
    match v
    case Num(n) => Some(n)
    case Bool(b) => Some(if b then 1.0 else 0.0)
    case _ => None
  }

  /**
   * One iteration of the loop over `data["trace"]`, for the entry at `index`:
   * `None` when the point is rejected, the point when it is kept. `entry[1]`
   * and `entry[2]` are read first; `entry[0]` and `entry[10]` only for a kept
   * point.
   */
  function Classify(base: Value, entry: Value, index: nat, matches: (real, real) -> bool)
    : Result<Option<TracePoint>, ParseError>
  {
    match Subscript(entry, 1, index)
    case Err(e) => Err(e)
    case Ok(lat) =>
      match Subscript(entry, 2, index)
      case Err(e) => Err(e)
      case Ok(lon) =>
        if AsNumber(lat).None? || AsNumber(lon).None? then Err(NotANumber(index))
        else if !matches(AsNumber(lat).value, AsNumber(lon).value) then Ok(None)
        else
          match Subscript(entry, 0, index)
          case Err(e) => Err(e)
          case Ok(offset) =>
            if AsNumber(base).None? || AsNumber(offset).None? then Err(NotANumber(index))
            else
              match Subscript(entry, 10, index)
              case Err(e) => Err(e)
              case Ok(altitude) =>
                Ok(Some(TracePoint(AsNumber(base).value + AsNumber(offset).value, lat, lon, altitude)))
  }

  /** The points kept from the first `n` entries, or the first error among them. */
  function KeptPoints(base: Value, entries: seq<Value>, n: nat, matches: (real, real) -> bool)
    : Result<seq<TracePoint>, ParseError>
    requires n <= |entries|
  {
    if n == 0 then Ok([])
    else
      match KeptPoints(base, entries, n - 1, matches)
      case Err(e) => Err(e)
      case Ok(points) =>
        match Classify(base, entries[n - 1], n - 1, matches)
        case Err(e) => Err(e)
        case Ok(None) => Ok(points)
        case Ok(Some(p)) => Ok(points + [p])
  }

  /** Once an entry raises, the loop raises that error: later entries are never reached. */
  lemma {:induction false} ErrorSticks(base: Value, entries: seq<Value>, n: nat, matches: (real, real) -> bool)
    requires n <= |entries|
    requires KeptPoints(base, entries, n, matches).Err?
    ensures KeptPoints(base, entries, |entries|, matches) == KeptPoints(base, entries, n, matches)
    decreases |entries| - n
  {
    if n < |entries| {
      ErrorSticks(base, entries, n + 1, matches);
    }
  }

  /** `parse_file` from the decoded document on: `None` when no point survives. */
  function ParseDocumentSpec(doc: Document, matches: (real, real) -> bool): Result<Option<TraceRecord>, ParseError> {
    if "icao" !in doc || !doc["icao"].Str? then Err(IcaoNotString)
    else if "timestamp" !in doc then Err(KeyMissing("timestamp"))
    else if "trace" !in doc then Err(KeyMissing("trace"))
    else if Items(doc["trace"]).None? then Err(TraceNotIterable)
    else
      var entries := Items(doc["trace"]).value;
      match KeptPoints(doc["timestamp"], entries, |entries|, matches)
      case Err(e) => Err(e)
      case Ok(points) =>
        if points == [] then Ok(None)
        else Ok(Some(TraceRecord(Upper(doc["icao"].s), AircraftType(doc), points)))
  }

  /** `EntryParser.parse_file(path)`: open, decompress and decode the file, then parse the document. */
  function ParseFileOn(s: FsState, p: Path, matches: (real, real) -> bool): Result<Option<TraceRecord>, FileError> {
    match ReadOn(s, p)
    case Err(e) => Err(Io(e))
    case Ok(Compressed(doc)) =>
      (match ParseDocumentSpec(doc, matches)
       case Err(e) => Err(Malformed(p, e))
       case Ok(r) => Ok(r))
    case Ok(_) => Err(BadArchive(p))
  }

  /** The body of `parse_file` after `json.load`: the loop that appends the kept points. */
  method ParseDocument(doc: Document, matches: (real, real) -> bool) returns (r: Result<Option<TraceRecord>, ParseError>)
    ensures r == ParseDocumentSpec(doc, matches)
  {
    if "icao" !in doc || !doc["icao"].Str? {
      return Err(IcaoNotString);
    }
    var icao := Upper(doc["icao"].s);
    var aircraftType := AircraftType(doc);
    if "timestamp" !in doc {
      return Err(KeyMissing("timestamp"));
    }
    var baseTimestamp := doc["timestamp"];
    if "trace" !in doc {
      return Err(KeyMissing("trace"));
    }
    var entries := Items(doc["trace"]);
    if entries.None? {
      return Err(TraceNotIterable);
    }
    var trace: seq<TracePoint> := [];
    var i := 0;
    while i < |entries.value|
      invariant 0 <= i <= |entries.value|
      invariant KeptPoints(baseTimestamp, entries.value, i, matches) == Ok(trace)
    {
      var entry := entries.value[i];
      var lat := Subscript(entry, 1, i);
      if lat.Err? {
        ErrorSticks(baseTimestamp, entries.value, i + 1, matches);
        return Err(lat.error);
      }
      var lon := Subscript(entry, 2, i);
      if lon.Err? {
        ErrorSticks(baseTimestamp, entries.value, i + 1, matches);
        return Err(lon.error);
      }
      var latNum, lonNum := AsNumber(lat.value), AsNumber(lon.value);
      if latNum.None? || lonNum.None? {
        ErrorSticks(baseTimestamp, entries.value, i + 1, matches);
        return Err(NotANumber(i));
      }
      if matches(latNum.value, lonNum.value) {
        var offset := Subscript(entry, 0, i);
        if offset.Err? {
          ErrorSticks(baseTimestamp, entries.value, i + 1, matches);
          return Err(offset.error);
        }
        var baseNum, offsetNum := AsNumber(baseTimestamp), AsNumber(offset.value);
        if baseNum.None? || offsetNum.None? {
          ErrorSticks(baseTimestamp, entries.value, i + 1, matches);
          return Err(NotANumber(i));
        }
        var timestamp := baseNum.value + offsetNum.value;
        var altFeet := Subscript(entry, 10, i);
        if altFeet.Err? {
          ErrorSticks(baseTimestamp, entries.value, i + 1, matches);
          return Err(altFeet.error);
        }
        trace := trace + [TracePoint(timestamp, lat.value, lon.value, altFeet.value)];
      }
      i := i + 1;
    }
    if trace == [] {
      return Ok(None);
    }
    return Ok(Some(TraceRecord(icao, aircraftType, trace)));
  }

  /** `parse_file(path)` on the current filesystem. */
  method ParseFile(disk: Disk, p: Path, matches: (real, real) -> bool) returns (r: Result<Option<TraceRecord>, FileError>)
    ensures r == ParseFileOn(disk.State(), p, matches)
  {
    var content := ReadOn(disk.State(), p);
    if content.Err? {
      return Err(Io(content.error));
    }
    if !content.value.Compressed? {
      return Err(BadArchive(p));
    }
    var parsed := ParseDocument(content.value.doc, matches);
    if parsed.Err? {
      return Err(Malformed(p, parsed.error));
    }
    return Ok(parsed.value);
  }

  // ---------------------------------------------------------------------------
  // The filter, stated independently of the loop

  /** `entry[1]` and `entry[2]` are numbers that pass the boundary test. */
  predicate Inside(entry: Value, matches: (real, real) -> bool) {
    && Get(entry, 1).Found? && AsNumber(Get(entry, 1).value).Some?
    && Get(entry, 2).Found? && AsNumber(Get(entry, 2).value).Some?
    && matches(AsNumber(Get(entry, 1).value).value, AsNumber(Get(entry, 2).value).value)
  }

  /** The entries that pass the boundary test, in input order. */
  function Passing(entries: seq<Value>, matches: (real, real) -> bool): seq<Value> {
    if entries == [] then []
    else (if Inside(entries[0], matches) then [entries[0]] else []) + Passing(entries[1..], matches)
  }

  /** `p` is the output point for `entry`: base + `entry[0]`, then `entry[1]`, `entry[2]` and `entry[10]` as read. */
  predicate PointOf(p: TracePoint, base: Value, entry: Value) {
    && Get(entry, 0).Found? && Get(entry, 1).Found? && Get(entry, 2).Found? && Get(entry, 10).Found?
    && AsNumber(base).Some? && AsNumber(Get(entry, 0).value).Some?
    && p == TracePoint(AsNumber(base).value + AsNumber(Get(entry, 0).value).value,
                       Get(entry, 1).value, Get(entry, 2).value, Get(entry, 10).value)
  }

  lemma {:induction false} PassingAppend(entries: seq<Value>, e: Value, matches: (real, real) -> bool)
    ensures Passing(entries + [e], matches) == Passing(entries, matches) + (if Inside(e, matches) then [e] else [])
    decreases |entries|
  {
    if entries == [] {
      assert [e][1..] == [];
    } else {
      var head := if Inside(entries[0], matches) then [entries[0]] else [];
      var last := if Inside(e, matches) then [e] else [];
      assert (entries + [e])[0] == entries[0] && (entries + [e])[1..] == entries[1..] + [e];
      PassingAppend(entries[1..], e, matches);
      calc {
        Passing(entries + [e], matches);
        head + Passing(entries[1..] + [e], matches);
        head + (Passing(entries[1..], matches) + last);
        { assert head + (Passing(entries[1..], matches) + last) == (head + Passing(entries[1..], matches)) + last; }
        Passing(entries, matches) + last;
      }
    }
  }

  lemma {:induction false} PassingLength(entries: seq<Value>, matches: (real, real) -> bool)
    ensures |Passing(entries, matches)| <= |entries|
    decreases |entries|
  {
    if entries != [] {
      PassingLength(entries[1..], matches);
    }
  }

  /**
   * The loop keeps exactly the entries that pass the boundary test, in input
   * order, each turned into its output point.
   */
  lemma {:induction false} KeptPointsAreFilter(base: Value, entries: seq<Value>, n: nat, matches: (real, real) -> bool)
    requires n <= |entries|
    requires KeptPoints(base, entries, n, matches).Ok?
    ensures var points, passing := KeptPoints(base, entries, n, matches).value, Passing(entries[..n], matches);
      && |points| == |passing|
      && forall k | 0 <= k < |points| :: PointOf(points[k], base, passing[k])
  {
    if n > 0 {
      KeptPointsAreFilter(base, entries, n - 1, matches);
      assert entries[..n] == entries[..n - 1] + [entries[n - 1]];
      PassingAppend(entries[..n - 1], entries[n - 1], matches);
    }
  }

  /**
   * `parse_file` on a decoded document: the ICAO is the input's, upper-cased;
   * the aircraft type is the raw `t` value (null when absent); the trace holds
   * exactly the passing entries in order, as base timestamp + offset, latitude,
   * longitude and `entry[10]`; `None` comes back exactly when no entry passes,
   * and otherwise the trace is non-empty and no longer than the input's.
   */
  lemma ParseDocumentFilters(doc: Document, matches: (real, real) -> bool)
    requires ParseDocumentSpec(doc, matches).Ok?
    ensures "icao" in doc && doc["icao"].Str? && "timestamp" in doc && "trace" in doc && Items(doc["trace"]).Some?
    ensures var entries, r := Items(doc["trace"]).value, ParseDocumentSpec(doc, matches).value;
      var passing := Passing(entries, matches);
      && (r.None? <==> passing == [])
      && (r.Some? ==>
            && r.value.icao == Upper(doc["icao"].s)
            && r.value.aircraftType == AircraftType(doc)
            && 0 < |r.value.trace| == |passing| <= |entries|
            && forall k | 0 <= k < |r.value.trace| :: PointOf(r.value.trace[k], doc["timestamp"], passing[k]))
  {
    var entries := Items(doc["trace"]).value;
    KeptPointsAreFilter(doc["timestamp"], entries, |entries|, matches);
    assert entries[..|entries|] == entries;
    PassingLength(entries, matches);
  }

  /**
   * A missing or non-string `icao`, a missing `timestamp` or a missing `trace`
   * raises, even when no point would survive: these are read before the loop.
   */
  lemma MissingFieldsRaise(doc: Document, matches: (real, real) -> bool)
    ensures ("icao" !in doc || !doc["icao"].Str?) ==> ParseDocumentSpec(doc, matches) == Err(IcaoNotString)
    ensures "icao" in doc && doc["icao"].Str? && "timestamp" !in doc ==>
      ParseDocumentSpec(doc, matches) == Err(KeyMissing("timestamp"))
    ensures "icao" in doc && doc["icao"].Str? && "timestamp" in doc && "trace" !in doc ==>
      ParseDocumentSpec(doc, matches) == Err(KeyMissing("trace"))
  {
  }

  /**
   * A rejected entry is never read past index 2: its length, its timestamp
   * and the base timestamp do not matter; an entry shorter than 11 fields
   * raises only when it passes the filter.
   */
  lemma RejectedEntriesReadThreeFields(base: Value, entry: Value, index: nat, matches: (real, real) -> bool)
    ensures && Get(entry, 1).Found? && AsNumber(Get(entry, 1).value).Some?
            && Get(entry, 2).Found? && AsNumber(Get(entry, 2).value).Some?
            && !Inside(entry, matches) ==>
      Classify(base, entry, index, matches) == Ok(None)
    ensures Classify(base, entry, index, matches) == Err(FieldMissing(index, 10)) ==> Inside(entry, matches)
    ensures Classify(base, entry, index, matches).Ok? && Classify(base, entry, index, matches).value.Some? ==>
      Inside(entry, matches) && PointOf(Classify(base, entry, index, matches).value.value, base, entry)
  {
  }

  /**
   * `for entry in data["trace"]` iterates whatever the document holds: an
   * empty array, string or object yields no entry and so `None`; a non-empty
   * string yields one-character strings, whose `entry[1]` raises; a non-empty
   * object yields its keys, and the first key raises: too short for `entry[1]`
   * or `entry[2]`, or a string where a latitude is due; a number, a boolean or
   * null cannot be iterated.
   */
  lemma TraceIteration(doc: Document, matches: (real, real) -> bool)
    requires "icao" in doc && doc["icao"].Str? && "timestamp" in doc && "trace" in doc
    ensures doc["trace"] == Arr([]) || doc["trace"] == Str([]) || doc["trace"] == Obj([]) ==>
      ParseDocumentSpec(doc, matches) == Ok(None)
    ensures doc["trace"].Str? && doc["trace"].s != [] ==>
      ParseDocumentSpec(doc, matches) == Err(FieldMissing(0, 1))
    ensures doc["trace"].Obj? && doc["trace"].members != [] ==>
      var key := doc["trace"].members[0].0;
      ParseDocumentSpec(doc, matches) ==
        Err(if |key| < 2 then FieldMissing(0, 1) else if |key| == 2 then FieldMissing(0, 2) else NotANumber(0))
    ensures doc["trace"].Null? || doc["trace"].Bool? || doc["trace"].Num? ==>
      ParseDocumentSpec(doc, matches) == Err(TraceNotIterable)
  {
    var trace := doc["trace"];
    if (trace.Str? && trace.s != []) || (trace.Obj? && trace.members != []) {
      var entries := Items(trace).value;
      assert entries[0].Str?;
      assert KeptPoints(doc["timestamp"], entries, 1, matches).Err?;
      ErrorSticks(doc["timestamp"], entries, 1, matches);
    }
  }

  /**
   * An entry goes through one iteration without raising exactly when its
   * `entry[1]` and `entry[2]` are numbers and, for an entry inside the
   * boundary, `entry[0]` and the base timestamp are numbers and `entry[10]`
   * exists.
   */
  predicate ReadsCleanly(base: Value, entry: Value, matches: (real, real) -> bool) {
    && Get(entry, 1).Found? && AsNumber(Get(entry, 1).value).Some?
    && Get(entry, 2).Found? && AsNumber(Get(entry, 2).value).Some?
    && (Inside(entry, matches) ==>
          && Get(entry, 0).Found? && AsNumber(Get(entry, 0).value).Some?
          && AsNumber(base).Some? && Get(entry, 10).Found?)
  }

  lemma ClassifyOk(base: Value, entry: Value, index: nat, matches: (real, real) -> bool)
    ensures Classify(base, entry, index, matches).Ok? <==> ReadsCleanly(base, entry, matches)
  {
  }

  /** The loop runs through the first `n` entries without raising exactly when each of them reads cleanly. */
  lemma {:induction false} KeptPointsOk(base: Value, entries: seq<Value>, n: nat, matches: (real, real) -> bool)
    requires n <= |entries|
    ensures KeptPoints(base, entries, n, matches).Ok? <==>
      forall k | 0 <= k < n :: ReadsCleanly(base, entries[k], matches)
  {
    if n > 0 {
      KeptPointsOk(base, entries, n - 1, matches);
      ClassifyOk(base, entries[n - 1], n - 1, matches);
    }
  }

  /**
   * `parse_file` on a decoded document raises nothing exactly when `icao` is a
   * string, `timestamp` and `trace` are present, `trace` is iterable, and
   * every one of its entries reads cleanly.
   */
  lemma ParseDocumentOk(doc: Document, matches: (real, real) -> bool)
    ensures ParseDocumentSpec(doc, matches).Ok? <==>
      && "icao" in doc && doc["icao"].Str? && "timestamp" in doc && "trace" in doc
      && Items(doc["trace"]).Some?
      && forall k | 0 <= k < |Items(doc["trace"]).value| ::
           ReadsCleanly(doc["timestamp"], Items(doc["trace"]).value[k], matches)
  {
    if "icao" in doc && doc["icao"].Str? && "timestamp" in doc && "trace" in doc && Items(doc["trace"]).Some? {
      var entries := Items(doc["trace"]).value;
      KeptPointsOk(doc["timestamp"], entries, |entries|, matches);
    }
  }

  /**
   * A document whose entries all have numeric `entry[1]` and `entry[2]` outside
   * the boundary gives `None`, whatever the entries' lengths, their offsets and
   * the base timestamp.
   */
  lemma AllRejectedGivesNone(doc: Document, matches: (real, real) -> bool)
    requires "icao" in doc && doc["icao"].Str? && "timestamp" in doc && "trace" in doc
    requires Items(doc["trace"]).Some?
    requires forall k | 0 <= k < |Items(doc["trace"]).value| ::
      var entry := Items(doc["trace"]).value[k];
      && Get(entry, 1).Found? && AsNumber(Get(entry, 1).value).Some?
      && Get(entry, 2).Found? && AsNumber(Get(entry, 2).value).Some?
      && !Inside(entry, matches)
    ensures ParseDocumentSpec(doc, matches) == Ok(None)
  {
    var entries := Items(doc["trace"]).value;
    ParseDocumentOk(doc, matches);
    ParseDocumentFilters(doc, matches);
    NoneInside(entries, matches);
  }

  lemma {:induction false} NoneInside(entries: seq<Value>, matches: (real, real) -> bool)
    requires forall k | 0 <= k < |entries| :: !Inside(entries[k], matches)
    ensures Passing(entries, matches) == []
    decreases |entries|
  {
    if entries != [] {
      NoneInside(entries[1..], matches);
    }
  }
}
