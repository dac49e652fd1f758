/**
 * `AdsbGlobeHistory.get_source_files`: reads the preferred-release list of
 * each history repository and maps every release date to the comma-split line
 * that names it. The GitHub client is a parameter: `fetch(repo)` is the
 * decoded `PREFERRED_RELEASES.txt` of that repository, or `None` when the
 * client raises.
 */
module AdsbGlobeHistory {
  import opened Common

  const ReleaseListFilename: string := "PREFERRED_RELEASES.txt"

  const SourceRepositories: seq<string> := [
    "adsblol/globe_history_2023",
    "adsblol/globe_history_2024",
    "adsblol/globe_history_2025"
  ]

  /** What `get_source_files` raises. */
  datatype SourceError =
    | FetchFailed(repo: string)          // the client raised
    | EmptyReleaseList(repo: string)     // `if not preferred_raw`
    | NoDateInLine(line: string)         // `Could not infer date from line`

  // ---------------------------------------------------------------------------
  // str.splitlines()

  /** The characters `str.splitlines()` ends a line at (`\r\n` counts as one boundary). */
  predicate IsLineBreak(c: char) {
    c in {'\n', '\r', '\U{0B}', '\U{0C}', '\U{1C}', '\U{1D}', '\U{1E}', '\U{85}', '\U{2028}', '\U{2029}'}
  }

  /** The index of the first line break in `s` at or after `i`, or `|s|`. */
  function LineEnd(s: string, i: nat): (j: nat)
    requires i <= |s|
    ensures i <= j <= |s|
    ensures forall k | i <= k < j :: !IsLineBreak(s[k])
    ensures j < |s| ==> IsLineBreak(s[j])
    decreases |s| - i
  {
    if i == |s| || IsLineBreak(s[i]) then i else LineEnd(s, i + 1)
  }

  /** Where the line after a break at `j` starts: past `\r\n` as one boundary, past any other break, or at the end. */
  function NextStart(s: string, j: nat): (next: nat)
    requires j <= |s|
    requires j < |s| ==> IsLineBreak(s[j])
    ensures j <= next <= |s|
    ensures j < |s| ==> j < next
    ensures forall k | j <= k < next :: IsLineBreak(s[k])
  {
    if j + 1 < |s| && s[j] == '\r' && s[j + 1] == '\n' then j + 2
    else if j < |s| then j + 1
    else j
  }

  /** `s.splitlines()`: no empty last line for a trailing break, and no line holds a break. */
  function SplitLines(s: string): (lines: seq<string>)
    ensures forall l, k | l in lines && 0 <= k < |l| :: !IsLineBreak(l[k])
    decreases |s|
  {
    if s == [] then []
    else
      var j := LineEnd(s, 0);
      [s[..j]] + SplitLines(s[NextStart(s, j)..])
  }

  /** A line terminator `str.splitlines()` recognises: one break character, or `\r\n`. */
  predicate IsTerminator(eol: string) {
    eol == "\r\n" || (|eol| == 1 && IsLineBreak(eol[0]))
  }

  /** No character of `s` is a line break. */
  predicate BreakFree(s: string) {
    forall k | 0 <= k < |s| :: !IsLineBreak(s[k])
  }

  /** Each line followed by `eol`, then an unterminated last line `tail`. */
  function JoinLines(lines: seq<string>, eol: string, tail: string): string {
    if lines == [] then tail else lines[0] + eol + JoinLines(lines[1..], eol, tail)
  }

  /** `s` with every line-break character removed. */
  function Unbroken(s: string): string {
    if s == [] then [] else (if IsLineBreak(s[0]) then [] else [s[0]]) + Unbroken(s[1..])
  }

  /** The lines of `lines`, concatenated. */
  function Concat(lines: seq<string>): string {
    if lines == [] then [] else lines[0] + Concat(lines[1..])
  }

  lemma {:induction false} LineEndAt(s: string, i: nat, j: nat)
    requires i <= j <= |s|
    requires forall k | i <= k < j :: !IsLineBreak(s[k])
    requires j < |s| ==> IsLineBreak(s[j])
    ensures LineEnd(s, i) == j
    decreases j - i
  {
    if i < j {
      LineEndAt(s, i + 1, j);
    }
  }

  /** With `\r` as the terminator, a joined text never starts with a `\n`. */
  lemma JoinedFirst(lines: seq<string>, eol: string, tail: string)
    requires IsTerminator(eol) && BreakFree(tail)
    requires forall i | 0 <= i < |lines| :: BreakFree(lines[i])
    ensures var t := JoinLines(lines, eol, tail);
      t != [] ==> !IsLineBreak(t[0]) || t[0] == eol[0]
  {
    if lines != [] && lines[0] == [] {
      assert JoinLines(lines, eol, tail) == eol + JoinLines(lines[1..], eol, tail);
    } else if lines != [] {
      assert JoinLines(lines, eol, tail)[0] == lines[0][0];
    }
  }

  /** One terminated line comes off the front of the text as the first line. */
  lemma SplitLinesStep(s: string, l: string, eol: string, rest: string)
    requires IsTerminator(eol) && BreakFree(l)
    requires rest != [] ==> !IsLineBreak(rest[0]) || rest[0] == eol[0]
    requires s == l + eol + rest
    ensures SplitLines(s) == [l] + SplitLines(rest)
  {
    var j, next := |l|, |l| + |eol|;
    assert s[..j] == l && s[j..next] == eol && s[next..] == rest;
    assert s[j] == eol[0];
    LineEndAt(s, 0, j);
    assert NextStart(s, j) == next by {
      if eol != "\r\n" && next < |s| {
        assert s[next] == rest[0];
      }
    }
  }

  /** An unterminated, non-empty, break-free text is one line. */
  lemma SplitLinesOfLine(tail: string)
    requires tail != [] && BreakFree(tail)
    ensures SplitLines(tail) == [tail]
  {
    LineEndAt(tail, 0, |tail|);
    assert tail[..|tail|] == tail && tail[|tail|..] == [];
  }

  /**
   * `str.splitlines()` undoes joining: break-free lines, each ended by the same
   * terminator, with a break-free last line that counts only when non-empty,
   * split back into exactly those lines.
   */
  lemma {:induction false} SplitJoinLines(lines: seq<string>, eol: string, tail: string)
    requires IsTerminator(eol) && BreakFree(tail)
    requires forall i | 0 <= i < |lines| :: BreakFree(lines[i])
    ensures SplitLines(JoinLines(lines, eol, tail)) == lines + (if tail == [] then [] else [tail])
    decreases |lines|
  {
    var last := if tail == [] then [] else [tail];
    if lines == [] {
      if tail != [] {
        SplitLinesOfLine(tail);
      }
    } else {
      JoinStep(lines, eol, tail);
      SplitJoinLines(lines[1..], eol, tail);
      ConsAppend(lines, last);
    }
  }

  /** Proof helper on sequences: the head, then the rest followed by `ys`. */
  lemma ConsAppend<T>(xs: seq<T>, ys: seq<T>)
    requires xs != []
    ensures [xs[0]] + (xs[1..] + ys) == xs + ys
  {
  }

  /** The first joined line comes back as the first split line. */
  lemma JoinStep(lines: seq<string>, eol: string, tail: string)
    requires lines != []
    requires IsTerminator(eol) && BreakFree(tail)
    requires forall i | 0 <= i < |lines| :: BreakFree(lines[i])
    ensures SplitLines(JoinLines(lines, eol, tail)) == [lines[0]] + SplitLines(JoinLines(lines[1..], eol, tail))
  {
    var s, rest := JoinLines(lines, eol, tail), JoinLines(lines[1..], eol, tail);
    assert s == lines[0] + eol + rest;
    JoinedFirst(lines[1..], eol, tail);
    SplitLinesStep(s, lines[0], eol, rest);
  }

  lemma {:induction false} UnbrokenAppend(a: string, b: string)
    ensures Unbroken(a + b) == Unbroken(a) + Unbroken(b)
    decreases |a|
  {
    if a == [] {
      assert a + b == b;
    } else {
      assert (a + b)[0] == a[0] && (a + b)[1..] == a[1..] + b;
      UnbrokenAppend(a[1..], b);
      var head := if IsLineBreak(a[0]) then [] else [a[0]];
      assert head + (Unbroken(a[1..]) + Unbroken(b)) == (head + Unbroken(a[1..])) + Unbroken(b);
    }
  }

  lemma {:induction false} UnbrokenOfBreakFree(s: string)
    requires BreakFree(s)
    ensures Unbroken(s) == s
    decreases |s|
  {
    if s != [] {
      UnbrokenOfBreakFree(s[1..]);
    }
  }

  lemma {:induction false} UnbrokenOfBreaks(t: string)
    requires forall k | 0 <= k < |t| :: IsLineBreak(t[k])
    ensures Unbroken(t) == []
    decreases |t|
  {
    if t != [] {
      UnbrokenOfBreaks(t[1..]);
    }
  }

  /** Removing the breaks of a line, its terminator and the rest. */
  lemma UnbrokenLine(s: string, j: nat, next: nat)
    requires j <= next <= |s|
    requires BreakFree(s[..j])
    requires forall k | j <= k < next :: IsLineBreak(s[k])
    ensures Unbroken(s) == s[..j] + Unbroken(s[next..])
  {
    var line, eol, rest := s[..j], s[j..next], s[next..];
    CutThree(s, j, next);
    UnbrokenOfBreakFree(line);
    UnbrokenOfBreaks(eol);
    calc {
      Unbroken(s);
      Unbroken((line + eol) + rest);
      { UnbrokenAppend(line + eol, rest); }
      Unbroken(line + eol) + Unbroken(rest);
      { UnbrokenAppend(line, eol); }
      (line + []) + Unbroken(rest);
      { assert line + [] == line; }
      line + Unbroken(rest);
    }
  }

  lemma CutThree(s: string, j: nat, next: nat)
    requires j <= next <= |s|
    ensures s == s[..j] + s[j..next] + s[next..]
  {
  }

  lemma ConcatCons(line: string, lines: seq<string>)
    ensures Concat([line] + lines) == line + Concat(lines)
  {
    assert ([line] + lines)[1..] == lines;
  }

  /** `str.splitlines()` keeps every character that is not a break, in order, and adds none. */
  lemma {:induction false} SplitLinesKeepsText(s: string)
    ensures Concat(SplitLines(s)) == Unbroken(s)
    decreases |s|
  {
    if s != [] {
      var j := LineEnd(s, 0);
      var next := NextStart(s, j);
      ConcatCons(s[..j], SplitLines(s[next..]));
      UnbrokenLine(s, j, next);
      SplitLinesKeepsText(s[next..]);
    }
  }

  // ---------------------------------------------------------------------------
  // match(r".*\/v(\d{4}\.\d{2}\.\d{2})-.*", line)

  /** `\d`, for the ASCII digits. */
  predicate IsDigit(c: char) {
    '0' <= c <= '9'
  }

  /** `/vDDDD.DD.DD-` occurs at `i` (13 characters). */
  predicate TagAt(line: string, i: nat) {
    && i + 13 <= |line|
    && line[i] == '/' && line[i + 1] == 'v'
    && IsDigit(line[i + 2]) && IsDigit(line[i + 3]) && IsDigit(line[i + 4]) && IsDigit(line[i + 5])
    && line[i + 6] == '.'
    && IsDigit(line[i + 7]) && IsDigit(line[i + 8])
    && line[i + 9] == '.'
    && IsDigit(line[i + 10]) && IsDigit(line[i + 11])
    && line[i + 12] == '-'
  }

  /**
   * The regular expression can match with its group starting at `i + 2`: the
   * tag occurs at `i` and the leading `.*`, which does not cross a newline,
   * can reach it.
   */
  predicate MatchesAt(line: string, i: nat) {
    TagAt(line, i) && '\n' !in line[..i]
  }

  /** The largest `i < n` at which the expression matches: the greedy `.*` backs off from the right. */
  function LastMatch(line: string, n: nat): (r: Option<nat>)
    ensures r.Some? ==> r.value < n && MatchesAt(line, r.value)
    ensures r.Some? ==> forall j | r.value < j < n :: !MatchesAt(line, j)
    ensures r.None? ==> forall j | 0 <= j < n :: !MatchesAt(line, j)
  {
    if n == 0 then None
    else if MatchesAt(line, n - 1) then Some(n - 1)
    else LastMatch(line, n - 1)
  }

  /** `.replace(".", "-")`. */
  function DotsToDashes(s: string): (r: string)
    ensures |r| == |s|
    ensures forall k | 0 <= k < |s| :: r[k] == (if s[k] == '.' then '-' else s[k])
  {
    seq(|s|, k requires 0 <= k < |s| => if s[k] == '.' then '-' else s[k])
  }

  /** The release date a line names, as `YYYY-MM-DD`, or `None` when the expression does not match. */
  function DateOf(line: string): Option<string> {
    match LastMatch(line, |line|)
    case None => None
    case Some(i) => Some(DotsToDashes(line[i + 2..i + 12]))
  }

  /**
   * The date comes from the rightmost `/vDDDD.DD.DD-` that no newline precedes,
   * with its dots turned into dashes; there is none exactly when no such
   * occurrence exists.
   */
  lemma DateOfRightmostTag(line: string)
    ensures DateOf(line).None? <==> forall i | 0 <= i < |line| :: !MatchesAt(line, i)
    ensures DateOf(line).Some? ==> exists i | 0 <= i < |line| ::
      && MatchesAt(line, i)
      && (forall j | i < j < |line| :: !MatchesAt(line, j))
      && DateOf(line).value == DotsToDashes(line[i + 2..i + 12])
    ensures DateOf(line).Some? ==> var d := DateOf(line).value;
      && |d| == 10 && d[4] == '-' && d[7] == '-'
      && forall k | 0 <= k < 10 && k != 4 && k != 7 :: IsDigit(d[k])
  {
    if DateOf(line).Some? {
      var i := LastMatch(line, |line|).value;
      assert MatchesAt(line, i);
    }
  }

  // ---------------------------------------------------------------------------
  // line.split(",") and its inverse

  /** The index of the first `,` in `s` at or after `i`, or `|s|`. */
  function CommaAt(s: string, i: nat): (j: nat)
    requires i <= |s|
    ensures i <= j <= |s|
    ensures forall k | i <= k < j :: s[k] != ','
    ensures j < |s| ==> s[j] == ','
    decreases |s| - i
  {
    if i == |s| || s[i] == ',' then i else CommaAt(s, i + 1)
  }

  /** `s.split(",")`: never empty, and no piece holds a comma. */
  function Split(s: string): (pieces: seq<string>)
    ensures |pieces| >= 1
    ensures forall p, k | p in pieces && 0 <= k < |p| :: p[k] != ','
    decreases |s|
  {
    var j := CommaAt(s, 0);
    if j == |s| then [s] else [s[..j]] + Split(s[j + 1..])
  }

  /** `",".join(pieces)`. */
  function JoinCommas(pieces: seq<string>): string
    requires |pieces| >= 1
  {
    if |pieces| == 1 then pieces[0] else pieces[0] + "," + JoinCommas(pieces[1..])
  }

  /** Joining the stored pieces with `,` gives back the whole line. */
  lemma {:induction false} JoinSplit(s: string)
    ensures JoinCommas(Split(s)) == s
    decreases |s|
  {
    var j := CommaAt(s, 0);
    if j < |s| {
      JoinSplit(s[j + 1..]);
      assert s == s[..j] + "," + s[j + 1..];
    }
  }

  // ---------------------------------------------------------------------------
  // The dictionary

  type SourceFiles = map<string, seq<string>>

  /** The loop over the lines of one repository, applied to `acc`: later lines overwrite earlier ones. */
  function AddLines(acc: SourceFiles, lines: seq<string>): Result<SourceFiles, SourceError>
    decreases |lines|
  {
    if lines == [] then Ok(acc)
    else
      match AddLines(acc, lines[..|lines| - 1])
      case Err(e) => Err(e)
      case Ok(m) =>
        var line := lines[|lines| - 1];
        match DateOf(line)
        case None => Err(NoDateInLine(line))
        case Some(date) => Ok(m[date := Split(line)])
  }

  /** The loop over `repos`, in order. */
  function Collect(fetch: string -> Option<string>, repos: seq<string>): Result<SourceFiles, SourceError>
    decreases |repos|
  {
    if repos == [] then Ok(map[])
    else
      match Collect(fetch, repos[..|repos| - 1])
      case Err(e) => Err(e)
      case Ok(m) =>
        var repo := repos[|repos| - 1];
        match fetch(repo)
        case None => Err(FetchFailed(repo))
        case Some(raw) =>
          if raw == "" then Err(EmptyReleaseList(repo))
          else AddLines(m, SplitLines(raw))
  }

  /** `get_source_files()`. */
  method GetSourceFiles(fetch: string -> Option<string>) returns (r: Result<SourceFiles, SourceError>)
    ensures r == Collect(fetch, SourceRepositories)
  {
    var sourceFiles: SourceFiles := map[];
    for ri := 0 to |SourceRepositories|
      invariant Collect(fetch, SourceRepositories[..ri]) == Ok(sourceFiles)
    {
      var repo := SourceRepositories[ri];
      assert SourceRepositories[..ri + 1][..ri] == SourceRepositories[..ri];
      var preferredRaw := fetch(repo);
      if preferredRaw.None? {
        CollectErrorSticks(fetch, SourceRepositories, ri + 1);
        return Err(FetchFailed(repo));
      }
      if preferredRaw.value == "" {
        CollectErrorSticks(fetch, SourceRepositories, ri + 1);
        return Err(EmptyReleaseList(repo));
      }
      var added := AddReleaseLines(sourceFiles, SplitLines(preferredRaw.value));
      if added.Err? {
        CollectErrorSticks(fetch, SourceRepositories, ri + 1);
        return added;
      }
      sourceFiles := added.value;
    }
    assert SourceRepositories[..|SourceRepositories|] == SourceRepositories;
    return Ok(sourceFiles);
  }

  /** The inner loop of `get_source_files()`: one repository's release lines, in order. */
  method AddReleaseLines(acc: SourceFiles, lines: seq<string>) returns (r: Result<SourceFiles, SourceError>)
    ensures r == AddLines(acc, lines)
  {
    var sourceFiles := acc;
    for li := 0 to |lines|
      invariant AddLines(acc, lines[..li]) == Ok(sourceFiles)
    {
      var line := lines[li];
      assert lines[..li + 1][..li] == lines[..li];
      var date := DateOf(line);
      if date.None? {
        AddLinesErrorSticks(acc, lines, li + 1);
        assert lines[..|lines|] == lines;
        return Err(NoDateInLine(line));
      }
      sourceFiles := sourceFiles[date.value := Split(line)];
    }
    assert lines[..|lines|] == lines;
    return Ok(sourceFiles);
  }

  lemma {:induction false} AddLinesErrorSticks(acc: SourceFiles, lines: seq<string>, n: nat)
    requires n <= |lines|
    requires AddLines(acc, lines[..n]).Err?
    ensures AddLines(acc, lines) == AddLines(acc, lines[..n])
    decreases |lines| - n
  {
    if n < |lines| {
      assert lines[..n + 1][..n] == lines[..n];
      AddLinesErrorSticks(acc, lines, n + 1);
    } else {
      assert lines[..n] == lines;
    }
  }

  lemma {:induction false} CollectErrorSticks(fetch: string -> Option<string>, repos: seq<string>, n: nat)
    requires n <= |repos|
    requires Collect(fetch, repos[..n]).Err?
    ensures Collect(fetch, repos) == Collect(fetch, repos[..n])
    decreases |repos| - n
  {
    if n < |repos| {
      assert repos[..n + 1][..n] == repos[..n];
      CollectErrorSticks(fetch, repos, n + 1);
    } else {
      assert repos[..n] == repos;
    }
  }

  /** The last of `lines` that names `date`. */
  function LastWith(lines: seq<string>, date: string): Option<string>
    decreases |lines|
  {
    if lines == [] then None
    else if DateOf(lines[|lines| - 1]) == Some(date) then Some(lines[|lines| - 1])
    else LastWith(lines[..|lines| - 1], date)
  }

  /** `m.get(key)`. */
  function Lookup(m: SourceFiles, key: string): Option<seq<string>> {
    if key in m then Some(m[key]) else None
  }

  /** The lines of every repository, repositories in list order and lines in file order. */
  function AllLines(fetch: string -> Option<string>, repos: seq<string>): seq<string>
    decreases |repos|
  {
    if repos == [] then []
    else
      var raw := fetch(repos[|repos| - 1]);
      AllLines(fetch, repos[..|repos| - 1]) + (if raw.Some? then SplitLines(raw.value) else [])
  }

  /** Every release list was read and was not empty. */
  predicate AllFetched(fetch: string -> Option<string>, repos: seq<string>) {
    forall repo | repo in repos :: fetch(repo).Some? && fetch(repo).value != ""
  }

  lemma {:induction false} LastWithAppend(a: seq<string>, b: seq<string>, date: string)
    ensures LastWith(a + b, date) == if LastWith(b, date).Some? then LastWith(b, date) else LastWith(a, date)
    decreases |b|
  {
    if b == [] {
      assert a + b == a;
    } else {
      assert (a + b)[..|a + b| - 1] == a + b[..|b| - 1];
      LastWithAppend(a, b[..|b| - 1], date);
    }
  }

  /**
   * One repository's lines: the result fails exactly when some line names no
   * date; otherwise a date maps to the split of the last line naming it, and a
   * date no line names keeps its earlier entry.
   */
  lemma {:induction false} AddLinesLastWins(acc: SourceFiles, lines: seq<string>)
    ensures AddLines(acc, lines).Ok? <==> forall l | l in lines :: DateOf(l).Some?
    ensures AddLines(acc, lines).Ok? ==> forall date ::
      Lookup(AddLines(acc, lines).value, date) ==
        match LastWith(lines, date)
        case Some(line) => Some(Split(line))
        case None => Lookup(acc, date)
    decreases |lines|
  {
    if lines != [] {
      var init, last := lines[..|lines| - 1], lines[|lines| - 1];
      assert lines == init + [last];
      AddLinesLastWins(acc, init);
      assert forall l | l in lines :: l in init || l == last;
    }
  }

  lemma AllLinesStep(fetch: string -> Option<string>, repos: seq<string>)
    requires repos != []
    ensures var init, repo := repos[..|repos| - 1], repos[|repos| - 1];
      && (AllFetched(fetch, repos) <==> AllFetched(fetch, init) && fetch(repo).Some? && fetch(repo).value != "")
      && AllLines(fetch, repos) == AllLines(fetch, init) + (if fetch(repo).Some? then SplitLines(fetch(repo).value) else [])
  {
    var init, repo := repos[..|repos| - 1], repos[|repos| - 1];
    assert forall r | r in repos :: r in init || r == repo;
  }

  /** `get_source_files()` fails exactly when a release list is missing or empty or one of its lines names no date. */
  lemma {:induction false} CollectFails(fetch: string -> Option<string>, repos: seq<string>)
    ensures Collect(fetch, repos).Ok? <==>
      AllFetched(fetch, repos) && forall l | l in AllLines(fetch, repos) :: DateOf(l).Some?
    decreases |repos|
  {
    if repos != [] {
      var init, repo := repos[..|repos| - 1], repos[|repos| - 1];
      CollectFails(fetch, init);
      AllLinesStep(fetch, repos);
      var prior := AllLines(fetch, init);
      if Collect(fetch, init).Ok? && fetch(repo).Some? && fetch(repo).value != "" {
        var lines := SplitLines(fetch(repo).value);
        AddLinesLastWins(Collect(fetch, init).value, lines);
        assert forall l | l in prior + lines :: l in prior || l in lines;
      }
    }
  }

  /**
   * `get_source_files()`, when it succeeds: repositories read in list order
   * and lines in file order, every date maps to the comma-split of the last
   * line naming it, and no other key is present.
   */
  lemma {:induction false} CollectLastWins(fetch: string -> Option<string>, repos: seq<string>)
    requires Collect(fetch, repos).Ok?
    ensures forall date ::
      Lookup(Collect(fetch, repos).value, date) ==
        match LastWith(AllLines(fetch, repos), date)
        case Some(line) => Some(Split(line))
        case None => None
    decreases |repos|
  {
    if repos != [] {
      var init, repo := repos[..|repos| - 1], repos[|repos| - 1];
      CollectLastWins(fetch, init);
      AllLinesStep(fetch, repos);
      var m := Collect(fetch, init).value;
      var lines := SplitLines(fetch(repo).value);
      AddLinesLastWins(m, lines);
      forall date ensures Lookup(Collect(fetch, repos).value, date) ==
          match LastWith(AllLines(fetch, repos), date)
          case Some(line) => Some(Split(line))
          case None => None
      {
        LastWithAppend(AllLines(fetch, init), lines, date);
      }
    }
  }
}
