# ADS-B Poland history: a verified model of the ingest core

adsb-poland-history builds a daily archive of aircraft traces over Poland.
For one day it takes the ADS-B trace files published by the adsb.lol
`globe_history` repositories and keeps only the points inside the Polish
border. It writes one JSON record per aircraft, sharded by the last two
characters of the ICAO code, and deletes each source file once processed. A
second command lists the days of a year that have no release tag yet and
dispatches one parse event per missing day.

This project models that core in Dafny and proves what it promises. There is
one module per source file:

- `Common` and `Records`: `Option`/`Result` and the decoded JSON values. A
  record (`TraceRecord`) holds the ICAO code, the aircraft type and its points.
- `Filesystem` (`helpers/filesystem.py`):
  - The disk is a value `FsState`: a map from paths to contents, and a set of
    directories.
  - A class `Disk` holds that state, and its methods `MakeDirs`, `Write`,
    `Unlink` and `SaveEntry` update it in place.
  - pathlib's `mkdir(parents=True, exist_ok=True)`, `open(..., "w")` and
    `unlink(missing_ok=True)` are written out with the errors a tree of
    files and directories produces: `FileNotFoundError`, `FileExistsError`,
    `IsADirectoryError` and `NotADirectoryError`.
  - `save_entry` is modelled on top of them.
  - `get_files_recursively` is `Walk` over a tree of directory entries.
- `EntryParser` (`parsing/entry_parser.py`): `parse_file` from the decoded
  document on. It is a loop proved against a specification function, plus a
  filter characterisation.
- `AdsbGlobeHistory` (`sourcing/adsb_globe_history.py`): the release-list loops
  of `get_source_files`, together with:
  - the regular expression's greedy match;
  - `str.splitlines` and `str.split(",")`.
- `HandleMissing` (`commands/handle_missing.py`):
  - the Gregorian calendar;
  - `strftime("%Y-%m-%d")`;
  - the day loop, the Python slice for `--limit`, and the dispatch loop.
- `Chunking`: the comprehension `[files[i: i + threads] for i in range(0, len(files), threads)]`, shared by `commands/parse.py:61` and `__main__.py:56-58`.
- `ParseCommand` (`commands/parse.py`): `process_chunk` with its `try`/`finally`,
  the thread pool run chunk after chunk, and `parse_command`.
- `EntryPoint` (`__main__.py`):
  - the older `process_chunk`, which unlinks right after parsing, with no
    `finally`;
  - `main`;
  - the argument checks of the `__main__` block.

Every loop of the source that updates variables step by step is a Dafny
`method` with a loop. Its `ensures` ties the result, or the new disk
state, to a specification function of the inputs. The promised properties are
proved as lemmas about those functions. The recursive generator
`get_files_recursively` stays recursive: it is the function `Walk`, proved
sound and complete by lemmas.

Three behaviours of the code are worth knowing, and the model keeps them:

- **An error stops its chunk.** `process_chunk` has no `except`: the first
  exception ends the loop, so the rest of that chunk is neither parsed nor
  deleted. `future.result()` re-raises the first failing chunk's exception
  once all chunks have run.
- **Source files can remain.** When a chunk raises, only the files it reached
  are deleted. The model proves what the code guarantees:
  - the first file of every chunk is deleted;
  - every file of every chunk is deleted when nothing raises.
- **A failed delete is escalated.** An `unlink` that raises inside `finally`
  replaces the `try` block's exception.

## Model

| member | source | states |
|---|---|---|
| Filesystem.Shard | adsb_poland_history/helpers/filesystem.py:16 | the shard name is the last two characters of the name, or the whole name when it is shorter |
| Filesystem.OutputPathShape | adsb_poland_history/helpers/filesystem.py:16-18 | the output path is the shard directory plus `<name>.json`, and the shard directory lies in the output directory |
| Filesystem.OutputPathsDistinct | adsb_poland_history/helpers/filesystem.py:16-18 | names with the same last two characters share a shard directory; distinct names never share an output file |
| Filesystem.MakeDirsWellFormed | adsb_poland_history/helpers/filesystem.py:19 | `mkdir(parents=True, exist_ok=True)` succeeds exactly when neither the path nor an ancestor is a regular file; a file on the way raises `NotADirectoryError`, a file at the path `FileExistsError`; an existing directory is no error; afterwards the path and all its ancestors are directories and no file changed |
| Filesystem.WriteWellFormed | adsb_poland_history/helpers/filesystem.py:21-22 | a successful write replaces or creates exactly the target file and keeps the tree well formed |
| Filesystem.UnlinkWellFormed | adsb_poland_history/commands/parse.py:23 | `unlink(missing_ok=True)` succeeds exactly when the path is not a directory and has no file ancestor, a missing file included; afterwards no regular file is at the path |
| Filesystem.SaveEntryEffect | adsb_poland_history/helpers/filesystem.py:15-22 | `save_entry` succeeds exactly when the shard directory can be made and the target is not a directory; then the shard directory exists and only the target file changes, to the record; on failure no file changes |
| Filesystem.Disk.MakeDirs | adsb_poland_history/helpers/filesystem.py:19 | the disk's new state and error are those of the mkdir specification |
| Filesystem.Disk.Write | adsb_poland_history/helpers/filesystem.py:21-22 | the disk's new state and error are those of the write specification |
| Filesystem.Disk.Unlink | adsb_poland_history/commands/parse.py:23 | the disk's new state and error are those of the unlink specification, and no regular file remains at the path |
| Filesystem.Disk.SaveEntry | adsb_poland_history/helpers/filesystem.py:15-22 | mkdir of the shard then the write, in place; on success the files are the old files with the target replaced, on failure they are unchanged |
| Filesystem.WalkSound | adsb_poland_history/helpers/filesystem.py:7-12 | every yielded path lies under the root and leads through directories to a regular file; directories and other entries are never yielded |
| Filesystem.WalkComplete | adsb_poland_history/helpers/filesystem.py:7-12 | every regular file at any depth under the root is yielded |
| Filesystem.FileIsNotDir | adsb_poland_history/helpers/filesystem.py:9-12 | in a real listing no path is both a regular file and a directory |
| Filesystem.WalkYieldsEachFileOnce | adsb_poland_history/helpers/filesystem.py:7-12 | a path is yielded exactly when it is a regular file under the root, and in a real listing each one exactly once |
| Filesystem.WalkDistinct | adsb_poland_history/helpers/filesystem.py:7-12 | in a real listing the walk never yields a path twice |
| EntryParser.Upper | adsb_poland_history/parsing/entry_parser.py:19 | upper-casing keeps the length, turns each lower-case letter into its own capital, leaves no lower-case letter and changes nothing else |
| EntryParser.ErrorSticks | adsb_poland_history/parsing/entry_parser.py:25-38 | an exception raised by one entry ends the loop: later entries cannot change the outcome |
| EntryParser.ParseDocument | adsb_poland_history/parsing/entry_parser.py:18-44 | the loop over `trace` computes exactly the specification's record, `None`, or the exception |
| EntryParser.ParseFile | adsb_poland_history/parsing/entry_parser.py:14-44 | reading the file then parsing: an unreadable or undecodable file raises, otherwise the document's result |
| EntryParser.KeptPointsAreFilter | adsb_poland_history/parsing/entry_parser.py:25-38 | the kept points are, in order and one for one, the entries whose `entry[1]` and `entry[2]` are numbers (booleans count as 0 and 1) inside the boundary, each as base timestamp + `entry[0]`, `entry[1]`, `entry[2]` and `entry[10]` as read |
| EntryParser.ParseDocumentFilters | adsb_poland_history/parsing/entry_parser.py:18-44 | a successful parse read `icao`, `timestamp` and `trace`; it returns `None` exactly when no entry passes; otherwise the ICAO is upper-cased, the type is raw `t` or null, and the trace is non-empty, no longer than the input, and holds exactly the passing entries as points |
| EntryParser.MissingFieldsRaise | adsb_poland_history/parsing/entry_parser.py:19-25 | a missing or non-string `icao`, a missing `timestamp` or a missing `trace` raises, even when no point would survive |
| EntryParser.TraceIteration | adsb_poland_history/parsing/entry_parser.py:25-26 | `for entry in data["trace"]` iterates any iterable: an empty array, string or object gives `None`; a non-empty string raises at `entry[1]`; a non-empty object raises at its first key; a number, boolean or null raises `TypeError` |
| EntryParser.RejectedEntriesReadThreeFields | adsb_poland_history/parsing/entry_parser.py:26-38 | an entry outside the boundary is skipped whatever its length or offset; only an entry inside it can raise for lacking `entry[10]`; a kept entry becomes its point |
| EntryParser.ClassifyOk | adsb_poland_history/parsing/entry_parser.py:26-35 | one iteration raises nothing exactly when `entry[1]` and `entry[2]` are numbers and, for an entry inside the boundary, `entry[0]` and the base timestamp are numbers and `entry[10]` exists |
| EntryParser.KeptPointsOk | adsb_poland_history/parsing/entry_parser.py:25-38 | the loop over the first `n` entries raises nothing exactly when each of them reads cleanly |
| EntryParser.ParseDocumentOk | adsb_poland_history/parsing/entry_parser.py:18-44 | `parse_file` on a document raises nothing exactly when `icao` is a string, `timestamp` and `trace` exist, `trace` is iterable and every entry reads cleanly |
| EntryParser.AllRejectedGivesNone | adsb_poland_history/parsing/entry_parser.py:25-44 | a document whose entries all have numeric coordinates outside the boundary gives `None`, whatever their lengths, offsets and the base timestamp |
| AdsbGlobeHistory.SplitLines | adsb_poland_history/sourcing/adsb_globe_history.py:30 | the lines contain no line break |
| AdsbGlobeHistory.SplitJoinLines | adsb_poland_history/sourcing/adsb_globe_history.py:30 | break-free lines joined with one terminator (any break character, or `\r\n`), plus an unterminated last line, split back into exactly those lines, the last one only when non-empty |
| AdsbGlobeHistory.SplitLinesKeepsText | adsb_poland_history/sourcing/adsb_globe_history.py:30 | the lines, concatenated, are the text with its break characters removed: nothing else is dropped, reordered or added |
| AdsbGlobeHistory.LastMatch | adsb_poland_history/sourcing/adsb_globe_history.py:32 | finds the rightmost position where the pattern's tail matches, or reports that none exists |
| AdsbGlobeHistory.DotsToDashes | adsb_poland_history/sourcing/adsb_globe_history.py:35-37 | every `.` becomes `-` and every other character stays |
| AdsbGlobeHistory.DateOfRightmostTag | adsb_poland_history/sourcing/adsb_globe_history.py:32-37 | a line has no date exactly when the pattern matches nowhere; otherwise the date is the rightmost `/vDDDD.DD.DD-` with dots turned to dashes, shaped `DDDD-DD-DD` |
| AdsbGlobeHistory.Split | adsb_poland_history/sourcing/adsb_globe_history.py:39 | the pieces are at least one and contain no comma |
| AdsbGlobeHistory.JoinSplit | adsb_poland_history/sourcing/adsb_globe_history.py:39-40 | joining the stored pieces with `,` gives the line back |
| AdsbGlobeHistory.GetSourceFiles | adsb_poland_history/sourcing/adsb_globe_history.py:18-42 | the nested loops compute exactly the specification's map or exception |
| AdsbGlobeHistory.AddReleaseLines | adsb_poland_history/sourcing/adsb_globe_history.py:30-40 | the inner loop over one repository's lines computes exactly the specification's map or exception |
| AdsbGlobeHistory.AddLinesErrorSticks | adsb_poland_history/sourcing/adsb_globe_history.py:33-34 | a line without a date ends the call: later lines cannot change the outcome |
| AdsbGlobeHistory.CollectErrorSticks | adsb_poland_history/sourcing/adsb_globe_history.py:25-34 | an exception for one repository ends the call: later repositories cannot change the outcome |
| AdsbGlobeHistory.AddLinesLastWins | adsb_poland_history/sourcing/adsb_globe_history.py:31-40 | the lines are accepted exactly when each names a date; each date then maps to the split of the last line naming it, others keep their entry |
| AdsbGlobeHistory.CollectFails | adsb_poland_history/sourcing/adsb_globe_history.py:21-34 | the call fails exactly when a repository's list is missing or empty or one of the lines names no date |
| AdsbGlobeHistory.CollectLastWins | adsb_poland_history/sourcing/adsb_globe_history.py:9-42 | on success, with repositories in list order and lines in file order, each date maps to the comma-split of the last line naming it, and no other key exists |
| HandleMissing.NextDayIsSuccessor | adsb_poland_history/commands/handle_missing.py:17-26 | adding one day gives a valid later date with no valid date in between |
| HandleMissing.ReadDecimalOfDecimal | adsb_poland_history/commands/handle_missing.py:23 | a zero-padded decimal field reads back as its number |
| HandleMissing.TagRoundTrip | adsb_poland_history/commands/handle_missing.py:23 | the `%Y-%m-%d` tag of a date parses back to that date |
| HandleMissing.TagInjective | adsb_poland_history/commands/handle_missing.py:23-24 | distinct dates have distinct tags |
| HandleMissing.MissingDays | adsb_poland_history/commands/handle_missing.py:21-26 | every day it lists is a valid, representable date |
| HandleMissing.MissingDaysExact | adsb_poland_history/commands/handle_missing.py:14-26 | a date is listed exactly when it is valid, in the range, and its tag is not among the existing tags |
| HandleMissing.MissingDaysAscending | adsb_poland_history/commands/handle_missing.py:22-26 | the list is in strictly ascending day order |
| HandleMissing.TagsDistinct | adsb_poland_history/commands/handle_missing.py:23-25 | the missing tags contain no duplicate |
| HandleMissing.RangeEnd | adsb_poland_history/commands/handle_missing.py:15 | the end date is today or 31 December, a representable date |
| HandleMissing.FutureYearHasNoMissingDays | adsb_poland_history/commands/handle_missing.py:15-22 | a year after the current one yields no missing date |
| HandleMissing.Head | adsb_poland_history/commands/handle_missing.py:30-31 | `s[:limit]` is a prefix of the list, of length `min(limit, n)`, or `n + limit` floored at 0 for a negative limit, or the whole list without a limit |
| HandleMissing.ListMissingDates | adsb_poland_history/commands/handle_missing.py:21-26 | the while loop yields exactly the tags of the missing days, and raises the overflow exactly when the range reaches 9999-12-31 |
| HandleMissing.DispatchAll | adsb_poland_history/commands/handle_missing.py:35-42 | one dispatch per kept date, in order, with event `trigger-parse-globe-history-date`; a failure is recorded and the loop goes on to the later dates |
| HandleMissing.HandleMissingDatesCommand | adsb_poland_history/commands/handle_missing.py:8-44 | a year outside 1..9999 raises; otherwise the command raises the overflow exactly when the range ends on 9999-12-31 and succeeds in every other case, raising nothing else; the missing tags are exactly those of the days from 1 January to the end date; the kept list is the limited prefix, dispatched in order, and the failed list is exactly the failing dispatches |
| Chunking.Range | adsb_poland_history/commands/parse.py:61 | every start index lies in `[start, stop)` and the first one is `start` |
| Chunking.Slice | adsb_poland_history/commands/parse.py:61 | a slice clamps both bounds to the list's length |
| Chunking.SlicesFromPartition | adsb_poland_history/commands/parse.py:61 | the chunks from any start index concatenate to the rest of the list and are well sized |
| Chunking.ChunksPartition | adsb_poland_history/commands/parse.py:61 | the chunks concatenate to the file list; each holds 1 to `threads` files, all but the last exactly `threads`; there are none exactly for no file; for `c` chunks, `(c-1)*threads < n <= c*threads` |
| Chunking.RangeLength | adsb_poland_history/__main__.py:56-58 | `range(start, stop, step)` has `c` elements with `(c-1)*step < stop-start <= c*step`, or none |
| Chunking.PartitionCases | adsb_poland_history/__main__.py:56-58 | the comprehension raises exactly for zero threads, yields no chunk for a negative count, and partitions the list otherwise |
| ParseCommand.ProcessChunk | adsb_poland_history/commands/parse.py:14-23 | the loop leaves the disk and the exception exactly as the specification of the chunk says |
| ParseCommand.ProcessAllChunks | adsb_poland_history/commands/parse.py:63-70 | every chunk runs in order; the exception raised is the first failing chunk's |
| ParseCommand.SaveKeepsOutside | adsb_poland_history/commands/parse.py:21 | saving a record changes no file outside the output directory |
| ParseCommand.OutputPathUnder | adsb_poland_history/helpers/filesystem.py:18 | the output file lies under the output directory |
| ParseCommand.ProcessFileFrame | adsb_poland_history/commands/parse.py:14-23 | whatever parse and save do, the `finally` leaves no regular file at the path, and outside the output directory nothing else changes |
| ParseCommand.ChunkCleansUp | adsb_poland_history/commands/parse.py:14-23 | without exception the chunk's files are deleted, and no other file outside the output directory; with one, a non-empty prefix of the chunk up to the failing file is deleted, and nothing else |
| ParseCommand.ChunkOnAppend | adsb_poland_history/commands/parse.py:14-23 | running two lists as one chunk is running the first, then the second unless the first raised |
| ParseCommand.AllChunksAsOne | adsb_poland_history/commands/parse.py:61-70 | without exception, running the chunks is running all files in order as one chunk |
| ParseCommand.ProcessFileSaves | adsb_poland_history/commands/parse.py:16-23 | a file processed without exception was a regular file; its record, if any, is saved under its ICAO code; a `None` writes nothing; the file is deleted |
| ParseCommand.OutputsFrame | adsb_poland_history/commands/parse.py:17 | parsing reads only the file itself, so the same files give the same records |
| ParseCommand.ChunkSavesLastRecord | adsb_poland_history/commands/parse.py:14-23 | for files outside the output directory and without exception, each file existed, each ICAO code's output file holds the record of the last file with that code, and every other file under the output directory is unchanged |
| ParseCommand.AllChunksCleanUp | adsb_poland_history/commands/parse.py:63-70 | even when chunks raise, every chunk runs: outside the output directory files are only deleted, and the first file of every chunk is deleted; without exception exactly the files of all chunks are deleted |
| ParseCommand.ProcessDate | adsb_poland_history/commands/parse.py:47-75 | the steps after the source lookup leave the disk and the outcome as their specification says |
| ParseCommand.ParseCommand | adsb_poland_history/commands/parse.py:26-82 | `parse_command` leaves the disk and the outcome as its specification says |
| ParseCommand.MakeAllDirsKeepsFiles | adsb_poland_history/commands/parse.py:47-58 | creating the working directories changes no file and keeps the tree well formed |
| ParseCommand.ListedOutsideParsed | adsb_poland_history/commands/parse.py:53-57 | every listed trace file lies outside the parsed directory |
| ParseCommand.ProcessDateOutcome | adsb_poland_history/commands/parse.py:47-75 | files outside the parsed directory are only deleted; zero or negative threads raise; on completion every listed trace file existed and is deleted, each ICAO file holds the last record with that code, and the rest of the parsed directory is unchanged |
| ParseCommand.ProcessDateResults | adsb_poland_history/commands/parse.py:47-75 | the steps after the lookup complete or raise a directory, thread count or file error, nothing else |
| ParseCommand.ParseCommandEarlyExits | adsb_poland_history/commands/parse.py:35-44 | an existing tag raises and a date without source returns, both before touching the disk; otherwise the run is that of the processing steps |
| EntryPoint.LegacyProcessChunk | adsb_poland_history/__main__.py:13-21 | the older loop leaves the disk and the exception exactly as its specification says |
| EntryPoint.LegacyProcessAllChunks | adsb_poland_history/__main__.py:60-68 | every chunk runs in order; the exception raised is the first failing chunk's |
| EntryPoint.UnparsableFileKeptOnlyByLegacy | adsb_poland_history/__main__.py:15-16 | a file whose parse raises is left in place by the older loop, while the `finally` version deletes it and also raises |
| EntryPoint.LegacyAgreesOnCleanFile | adsb_poland_history/__main__.py:13-21 | for a file outside the output directory processed without exception, unlinking before the save gives the same disk as unlinking after it |
| EntryPoint.LegacyAgreesOnCleanChunk | adsb_poland_history/__main__.py:13-21 | for a chunk outside the output directory processed without exception, both loops give the same disk |
| EntryPoint.LegacyAgreesOnCleanChunks | adsb_poland_history/__main__.py:60-68 | when no chunk raises and no file lies in the output directory, both thread-pool blocks give the same disk |
| EntryPoint.LegacyProcessDate | adsb_poland_history/__main__.py:40-78 | the steps of `main` after the source lookup leave the disk and outcome as their specification says |
| EntryPoint.MainCommand | adsb_poland_history/__main__.py:24-80 | `main` leaves the disk and the outcome as its specification says |
| EntryPoint.Entry | adsb_poland_history/__main__.py:83-98 | the `__main__` block either refuses its arguments without touching the disk, or runs `main` |
| EntryPoint.ValidatedArgumentsReachNoThreadError | adsb_poland_history/__main__.py:93-96 | the arguments are refused exactly for an empty date or threads <= 0, the date checked first; accepted arguments never reach the zero-step or worker-count error |
| EntryPoint.PositiveThreadsReachNoThreadError | adsb_poland_history/__main__.py:56-60 | a positive thread count never makes `range` or the executor raise |
| EntryPoint.MissingDateRaisesOnlyInMain | adsb_poland_history/__main__.py:36-38 | a date without source makes `main` raise, with the disk untouched, where `parse_command` returns normally |
| EntryPoint.MainAgreesWithParseCommandWhenDone | adsb_poland_history/__main__.py:24-80 | whenever `parse_command` completes, `main` with the same inputs completes with the same disk |

## Left out

- Networking is not modelled; its results are parameters:
  - The GitHub client (`helpers/github_client.py`) is not part of this model.
  - Tag existence is a boolean.
  - Each repository's release list is `fetch(repo)`: `None` when the read fails.
  - The existing tags are a sequence.
  - Whether dispatching a date raises is `dispatchFails(date)`.
- The release repository name is not modelled. It is `CURRENT_REPO_NAME` in one place and the literal `adsb-poland-history` in `main`. It only selects which tag list is asked, and that answer is the `tagExists` parameter.
- The download is not modelled. `Downloader` (`helpers/downloader.py`) is not part of this model, and neither is the `tar` extraction.
  - The disk is taken to already hold the extracted traces.
  - The listing of the traces directory is a parameter `listing`, a tree of entries.
  - The model does not link that tree to the disk's map: it proves what the run does to each listed path.
- A missing traces directory is not modelled. `iterdir` on it raises, but the model assumes the listing exists.
- Zip packaging through `os.chdir` and `os.system` is not modelled. A completed run ends at `output_dir.mkdir`.
- `print` output is not modelled.
- The `gzip` and JSON codecs are not modelled. A file's content is either:
  - a decoded document;
  - content that does not decode, which raises;
  - a saved record.
- The geographic polygon (`parsing/geography_filter.py`) is not part of this model. It is the parameter `matches(lat, lon)`.
- A latitude or longitude that is not a number or a boolean is treated as raising. That stands in for shapely's behaviour on `Point(None, None)` or on strings, which is not part of this model.
- `Filesystem.Join` appends a name as one path component. pathlib's `/` also splits a name at `/`, restarts from the root for a name that begins with `/`, and keeps `..` for the operating system to resolve. The model therefore takes every ICAO code to contain no `/` and its last two characters not to be `..`.
- `ParseCommand.OutputPathUnder`, `ParseCommand.SaveKeepsOutside` and `Filesystem.OutputPathsDistinct` hold for such ICAO codes only. With an ICAO code `AB/C` the source writes `/C/AB/C.json`, and with one ending in `..` it writes into the parent of the output directory; `a//b` and `a/b` name the same file.
- A non-numeric base timestamp or offset is treated as raising. Python would concatenate two strings or two lists.
- A decoded trace file is always a JSON object (`Document`). A file whose top-level value is an array, string, number or null makes `data.get` raise `AttributeError` in the source; the model has no such document, and counts such a file among the contents that do not decode, which raise as well.
- Floating point is not modelled: numbers are `real`. `base + offset` is exact.
- Concurrency is not modelled. The `ThreadPoolExecutor` runs the chunks one after another, in submission order, and scheduling interleavings are not modelled. Files of different chunks sharing an ICAO code could race in the source; in the model the later chunk wins.
- Parallel `mkdir` of the same directory is not modelled.
- Permissions, a full disk and other operating-system errors of `mkdir`, `open` and `unlink` (`PermissionError` and the like) are not modelled: the filesystem model raises only the errors its tree of files and directories determines.
- Symbolic links are not modelled. `is_file` and `is_dir` in `get_files_recursively` follow them; the listing tree has only regular files, directories and other entries.
- `datetime.now()` is a parameter `now`. The source calls it up to three times, and the model assumes all calls return the same day.
- The time of day is not modelled: the range includes today because midnight is never after the current time.
- `EntryParser.Upper` only maps ASCII letters. Python's `str.upper` also maps other scripts and can lengthen a string.
- `AdsbGlobeHistory.DateOfRightmostTag` reads the regular expression's `\d` as an ASCII digit, whereas Python's `\d` also matches other Unicode decimal digits.
- `HandleMissing.Decimal` pads the year to four digits. `%Y` for years below 1000 is platform dependent in CPython.
- `HandleMissing.HandleMissingDatesCommand` requires `now` to be a valid date between years 1 and 9999, as `datetime.now()` always is.
