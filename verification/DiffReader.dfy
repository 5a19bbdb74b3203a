/** The reader of unified diffs: a line-by-line state machine that collects, per path and side, the
    runs of changed lines. */
module DiffReader {
  import opened Values
  import opened Runs
  import opened RepositoryPath
  import opened ReviewRanges
  import GitPath

  // ---------------------------------------------------------------- hunk headers

  predicate IsDigit(c: char) { '0' <= c <= '9' }

  /** How many digits `s` starts with. */
  function Digits(s: string): (k: nat)
    ensures k <= |s|
    ensures forall i :: 0 <= i < k ==> IsDigit(s[i])
    ensures k < |s| ==> !IsDigit(s[k])
  {
    if s == "" || !IsDigit(s[0]) then 0 else 1 + Digits(s[1..])
  }

  function Number(s: string): nat
    requires forall i :: 0 <= i < |s| ==> IsDigit(s[i])
  {
    if s == "" then 0
    else
      assert IsDigit(s[|s| - 1]);
      10 * Number(s[..|s| - 1]) + (s[|s| - 1] as int - '0' as int)
  }

  /** The rest after an optional `,count`. */
  function SkipCount(s: string): string {
    if s != "" && s[0] == ',' && Digits(s[1..]) > 0 then s[1..][Digits(s[1..])..] else s
  }

  /** A start line and what follows it and its optional count. */
  function Start(s: string): Option<(nat, string)> {
    var k := Digits(s);
    if k == 0 then None else Some((Number(s[..k]), SkipCount(s[k..])))
  }

  /** The start lines of both sides when `line` begins with a hunk header. */
  function MatchHunk(line: string): Option<(nat, nat)> {
    if !("@@ -" <= line) then None
    else
      match Start(line[4..])
      case None => None
      case Some((oldStart, rest)) =>
        if !(" +" <= rest) then None
        else
          match Start(rest[2..])
          case None => None
          case Some((newStart, tail)) => if " @@" <= tail then Some((oldStart, newStart)) else None
  }

  // ---------------------------------------------------------------- the state machine

  datatype Scan = Outside | Header | OldPath | Ready | InHunk

  /** One changed line of a known file. */
  datatype Event = Event(path: string, side: Side, line: nat)

  /** What the reader knows after some lines; `events` are the changed lines it has recorded. */
  datatype Reader = Reader(
    scan: Scan,
    oldPath: Option<string>,
    newPath: Option<string>,
    oldLine: nat,
    newLine: nat,
    files: nat,
    additions: nat,
    deletions: nat,
    events: seq<Event>)

  const START := Reader(Outside, None, None, 0, 0, 0, 0, 0, [])

  predicate StartsWith(line: string, mark: string): (b: bool)
    ensures b ==> |mark| <= |line|
  {
    mark <= line
  }

  const FILE_MARK := "diff --git "

  /** `DiffPath` of a file line: no path for /dev/null, foreign prefixes and unsafe paths, and an
      error where the quoted form raises. */
  datatype PathResult = Resolved(path: Option<string>) | Raised

  function DiffPath(value: string, prefix: string): PathResult {
    match GitPath.DecodePath(value)
    case BadByte => Raised
    case Malformed => Resolved(None)
    case Text(path) =>
      if path == "/dev/null" || !(prefix <= path) then Resolved(None) else Resolved(Normalize(path[|prefix|..]))
  }

  function Recorded(events: seq<Event>, path: Option<string>, side: Side, line: nat): seq<Event> {
    if path.Some? && line >= 1 then events + [Event(path.value, side, line)] else events
  }

  /** One line; `None` when the reader raises. */
  function Step(r: Reader, line: string): Option<Reader> {
    if StartsWith(line, FILE_MARK) then
      Some(r.(files := r.files + 1, oldPath := None, newPath := None, scan := Header))
    else if r.scan == Header && StartsWith(line, "--- ") then
      match DiffPath(line[4..], "a/")
      case Raised => None
      case Resolved(path) => Some(r.(oldPath := path, scan := OldPath))
    else if r.scan == OldPath && StartsWith(line, "+++ ") then
      match DiffPath(line[4..], "b/")
      case Raised => None
      case Resolved(path) => Some(r.(newPath := path, scan := Ready))
    else if MatchHunk(line).Some? && (r.scan == Ready || r.scan == InHunk) then
      var (oldStart, newStart) := MatchHunk(line).value;
      Some(r.(oldLine := oldStart, newLine := newStart, scan := InHunk))
    else if r.scan != InHunk || line == "" then Some(r)
    else if line[0] == '-' then
      Some(r.(events := Recorded(r.events, r.oldPath, Left, r.oldLine), oldLine := r.oldLine + 1, deletions := r.deletions + 1))
    else if line[0] == '+' then
      Some(r.(events := Recorded(r.events, r.newPath, Right, r.newLine), newLine := r.newLine + 1, additions := r.additions + 1))
    else if line[0] == ' ' then Some(r.(oldLine := r.oldLine + 1, newLine := r.newLine + 1))
    else Some(r)
  }

  function ReadFrom(r: Reader, lines: seq<string>): Option<Reader>
    decreases |lines|
  {
    if lines == [] then Some(r)
    else
      match Step(r, lines[0])
      case None => None
      case Some(next) => ReadFrom(next, lines[1..])
  }

  lemma ReadNothing(r: Reader, lines: seq<string>)
    ensures lines == [] ==> ReadFrom(r, lines) == Some(r)
  {
  }

  lemma ReadOne(r: Reader, line: string)
    ensures ReadFrom(r, [line]) == Step(r, line)
  {
    hide Step;
    assert [line][1..] == [];
    if Step(r, line).Some? {
      ReadNothing(Step(r, line).value, [line][1..]);
    }
  }

  lemma ReadNext(r: Reader, lines: seq<string>, n: nat)
    requires n < |lines|
    ensures ReadFrom(r, lines[n..]) ==
            match Step(r, lines[n]) case None => None case Some(next) => ReadFrom(next, lines[n + 1..])
  {
    hide Step;
    assert lines[n..][0] == lines[n] && lines[n..][1..] == lines[n + 1..];
  }

  lemma {:induction false} ReadFromAppend(r: Reader, a: seq<string>, b: seq<string>)
    ensures ReadFrom(r, a + b) == match ReadFrom(r, a) case None => None case Some(mid) => ReadFrom(mid, b)
    decreases |a|
  {
    hide Step;
    if a == [] {
      assert a + b == b;
    } else {
      assert (a + b)[0] == a[0] && (a + b)[1..] == a[1..] + b;
      if Step(r, a[0]).Some? {
        ReadFromAppend(Step(r, a[0]).value, a[1..], b);
      }
    }
  }

  // ---------------------------------------------------------------- from changed lines to ranges

  type Ranges = map<(string, Side), seq<Run>>

  /** How the reader files one changed line under its path and side. */
  function FileLine(ranges: Ranges, e: Event): Ranges {
    var key := (e.path, e.side);
    ranges[key := Extend(if key in ranges then ranges[key] else [], e.line)]
  }

  function RangesOf(events: seq<Event>): Ranges
    decreases |events|
  {
    if events == [] then map[] else FileLine(RangesOf(events[..|events| - 1]), events[|events| - 1])
  }

  /** The changed lines of one path and side, in the order they were met. */
  function LinesOf(events: seq<Event>, path: string, side: Side): seq<int>
    decreases |events|
  {
    if events == [] then []
    else
      var e := events[|events| - 1];
      LinesOf(events[..|events| - 1], path, side) + if e.path == path && e.side == side then [e.line] else []
  }

  /** The ranges of one path and side depend on its own lines alone, and a key exists exactly when
      it has lines. */
  lemma {:induction false} RangesOfKey(events: seq<Event>, path: string, side: Side)
    ensures var ranges, lines := RangesOf(events), LinesOf(events, path, side);
            && ((path, side) in ranges <==> lines != [])
            && ((path, side) in ranges ==> ranges[(path, side)] == ExtendAll([], lines))
    decreases |events|
  {
    if events != [] {
      var front, e := events[..|events| - 1], events[|events| - 1];
      RangesOfKey(front, path, side);
      if e.path == path && e.side == side {
        var lines := LinesOf(events, path, side);
        assert lines[..|lines| - 1] == LinesOf(front, path, side);
        assert lines[|lines| - 1] == e.line;
        assert ExtendAll([], []) == [];
        assert ExtendAll([], lines) == Extend(ExtendAll([], LinesOf(front, path, side)), e.line);
      } else {
        assert LinesOf(events, path, side) == LinesOf(front, path, side);
        assert (e.path, e.side) != (path, side);
      }
    }
  }

  function ToRanges(r: Reader): ChangedRanges {
    ChangedRanges(RangesOf(r.events), None, r.files, r.additions, r.deletions)
  }

  lemma NothingRead(lines: seq<string>)
    ensures RangesOf([]) == map[] && lines[0..] == lines
  {
  }

  lemma ReadEverything(r: Reader, lines: seq<string>)
    ensures ReadFrom(r, lines[|lines|..]) == Some(r)
    ensures ToRanges(r) == ChangedRanges(RangesOf(r.events), None, r.files, r.additions, r.deletions)
  {
    hide RangesOf;
  }

  /** The loop of the reader: running variables, one line at a time. */
  method ParseChangedRanges(lines: seq<string>) returns (result: Option<ChangedRanges>)
    ensures result == match ReadFrom(START, lines) case None => None case Some(r) => Some(ToRanges(r))
  {
    NothingRead(lines);
    hide ReadFrom, RangesOf, DiffPath, MatchHunk, Record, Recorded, StartsWith, FILE_MARK, ToRanges;
    var ranges: Ranges := map[];
    var files, additions, deletions, oldLine, newLine := 0, 0, 0, 0, 0;
    var oldPath: Option<string>, newPath: Option<string> := None, None;
    var state := Outside;
    ghost var events: seq<Event> := [];
    for n := 0 to |lines|
      invariant ranges == RangesOf(events)
      invariant ReadFrom(START, lines) ==
                ReadFrom(Reader(state, oldPath, newPath, oldLine, newLine, files, additions, deletions, events), lines[n..])
    {
      var line := lines[n];
      ghost var before := Reader(state, oldPath, newPath, oldLine, newLine, files, additions, deletions, events);
      ReadNext(before, lines, n);
      if StartsWith(line, FILE_MARK) {
        files, oldPath, newPath, state := files + 1, None, None, Header;
        continue;
      }
      if state == Header && StartsWith(line, "--- ") {
        var path := DiffPath(line[4..], "a/");
        if path == Raised {
          return None;
        }
        oldPath, state := path.path, OldPath;
        continue;
      }
      if state == OldPath && StartsWith(line, "+++ ") {
        var path := DiffPath(line[4..], "b/");
        if path == Raised {
          return None;
        }
        newPath, state := path.path, Ready;
        continue;
      }
      var hunk := MatchHunk(line);
      if hunk.Some? && (state == Ready || state == InHunk) {
        oldLine, newLine, state := hunk.value.0, hunk.value.1, InHunk;
        continue;
      }
      if state != InHunk || line == "" {
        continue;
      }
      if line[0] == '-' {
        ranges := Record(ranges, oldPath, Left, oldLine);
        events := EventRecorded(events, oldPath, Left, oldLine);
        oldLine, deletions := oldLine + 1, deletions + 1;
      } else if line[0] == '+' {
        ranges := Record(ranges, newPath, Right, newLine);
        events := EventRecorded(events, newPath, Right, newLine);
        newLine, additions := newLine + 1, additions + 1;
      } else if line[0] == ' ' {
        oldLine, newLine := oldLine + 1, newLine + 1;
      }
    }
    ReadEverything(Reader(state, oldPath, newPath, oldLine, newLine, files, additions, deletions, events), lines);
    return Some(ChangedRanges(ranges, None, files, additions, deletions));
  }

  function Record(ranges: Ranges, path: Option<string>, side: Side, line: nat): Ranges {
    if path.None? || line < 1 then ranges else FileLine(ranges, Event(path.value, side, line))
  }

  ghost function EventRecorded(events: seq<Event>, path: Option<string>, side: Side, line: nat): (out: seq<Event>)
    ensures out == Recorded(events, path, side, line)
    ensures RangesOf(out) == Record(RangesOf(events), path, side, line)
  {
    if path.Some? && line >= 1 then
      assert (events + [Event(path.value, side, line)])[..|events|] == events;
      events + [Event(path.value, side, line)]
    else events
  }

  // ---------------------------------------------------------------- every input

  /** Whatever lines arrive, the recorded line numbers are positive and the ranges lie in order and
      apart, so the publishing rule is exact on them. */
  lemma RangesAreWellFormed(lines: seq<string>)
    requires ReadFrom(START, lines).Some?
    ensures WellFormed(ToRanges(ReadFrom(START, lines).value))
  {
    ReadKeepsPositive(START, lines);
    FiledRangesAreWellFormed(ReadFrom(START, lines).value.events);
  }

  lemma FiledRangesAreWellFormed(events: seq<Event>)
    requires Positive(events)
    ensures forall key :: key in RangesOf(events) ==> Gapped(RangesOf(events)[key])
  {
    forall key | key in RangesOf(events)
      ensures Gapped(RangesOf(events)[key])
    {
      RangesOfKey(events, key.0, key.1);
      LinesArePositive(events, key.0, key.1);
      AlwaysGapped(LinesOf(events, key.0, key.1));
    }
  }

  ghost predicate Positive(events: seq<Event>) {
    forall i :: 0 <= i < |events| ==> events[i].line >= 1
  }

  lemma {:induction false} ReadKeepsPositive(r: Reader, lines: seq<string>)
    requires Positive(r.events) && ReadFrom(r, lines).Some?
    ensures Positive(ReadFrom(r, lines).value.events)
    decreases |lines|
  {
    if lines != [] {
      ReadKeepsPositive(Step(r, lines[0]).value, lines[1..]);
    }
  }

  lemma {:induction false} LinesArePositive(events: seq<Event>, path: string, side: Side)
    requires Positive(events)
    ensures forall i :: 0 <= i < |LinesOf(events, path, side)| ==> LinesOf(events, path, side)[i] >= 1
    decreases |events|
  {
    if events != [] {
      LinesArePositive(events[..|events| - 1], path, side);
    }
  }

  function HeaderLines(lines: seq<string>): nat {
    if lines == [] then 0 else HeaderLines(lines[..|lines| - 1]) + if "diff --git " <= lines[|lines| - 1] then 1 else 0
  }

  /** Whatever lines arrive, each file header counts one file. */
  lemma {:induction false} FilesAreCounted(r: Reader, lines: seq<string>)
    requires ReadFrom(r, lines).Some?
    ensures ReadFrom(r, lines).value.files == r.files + HeaderLines(lines)
    decreases |lines|
  {
    if lines != [] {
      var front, last := lines[..|lines| - 1], lines[|lines| - 1];
      assert lines == front + [last];
      ReadFromAppend(r, front, [last]);
      hide ReadFrom, MatchHunk, DiffPath;
      FilesAreCounted(r, front);
      ReadOne(ReadFrom(r, front).value, last);
    }
  }

  /** Whatever lines arrive, nothing is counted as changed unless a file header, a line with the old path
      and one with the new path have come before, in this order: lines without one of the three change
      neither counter and record nothing. */
  lemma {:induction false} NothingWithoutPaths(r: Reader, lines: seq<string>)
    requires r.scan != Ready && r.scan != InHunk && ReadFrom(r, lines).Some?
    requires || (forall i :: 0 <= i < |lines| ==> !("+++ " <= lines[i]))
             || (r.scan != OldPath && forall i :: 0 <= i < |lines| ==> !("--- " <= lines[i]))
             || (r.scan == Outside && forall i :: 0 <= i < |lines| ==> !("diff --git " <= lines[i]))
    ensures var v := ReadFrom(r, lines).value;
            v.additions == r.additions && v.deletions == r.deletions && v.events == r.events
            && v.scan != Ready && v.scan != InHunk
    decreases |lines|
  {
    hide MatchHunk, DiffPath;
    if lines != [] {
      assert forall i :: 0 <= i < |lines[1..]| ==> lines[1..][i] == lines[i + 1];
      NothingWithoutPaths(Step(r, lines[0]).value, lines[1..]);
    }
  }
}
