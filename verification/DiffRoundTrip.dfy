/** Structured diffs, the text Git prints for them, and what the reader makes of that text. */
module DiffRoundTrip {
  import opened Values
  import opened Runs
  import opened RepositoryPath
  import opened ReviewRanges
  import opened DiffReader
  import opened GitPath

  /** Texts are arbitrary: a deleted line may well read `-- a/x` and an added one `++ b/x`. */
  datatype BodyLine = Context(text: string) | Deleted(text: string) | Added(text: string) | Remark(text: string)

  datatype Hunk = Hunk(oldStart: nat, newStart: nat, heading: string, body: seq<BodyLine>)

  /** No path stands for /dev/null. */
  datatype Patch = Patch(oldPath: Option<string>, newPath: Option<string>, hunks: seq<Hunk>)

  /** One file; renames, mode changes and binary files may come without a patch. */
  datatype Section = Section(title: string, extended: seq<string>, patch: Option<Patch>)

  // ---------------------------------------------------------------- what a diff says

  predicate IsChange(l: BodyLine, side: Side) {
    (side == Left && l.Deleted?) || (side == Right && l.Added?)
  }

  predicate OnSide(l: BodyLine, side: Side) { l.Context? || IsChange(l, side) }

  /** How many lines of one side a hunk body holds, and how many of them are changes. */
  function Height(body: seq<BodyLine>, side: Side): nat {
    if body == [] then 0 else Height(body[..|body| - 1], side) + if OnSide(body[|body| - 1], side) then 1 else 0
  }

  function Changes(body: seq<BodyLine>, side: Side): nat {
    if body == [] then 0 else Changes(body[..|body| - 1], side) + if IsChange(body[|body| - 1], side) then 1 else 0
  }

  function HunkStart(h: Hunk, side: Side): nat { if side == Left then h.oldStart else h.newStart }

  function SidePath(p: Patch, side: Side): Option<string> {
    var path := if side == Left then p.oldPath else p.newPath;
    if path.None? then None else Normalize(path.value)
  }

  /** Line `n` of one side is the `k`th line of the hunk and a change. */
  ghost predicate ChangedBy(h: Hunk, side: Side, n: int, k: nat) {
    k < |h.body| && IsChange(h.body[k], side) && n == HunkStart(h, side) + Height(h.body[..k], side)
  }

  ghost predicate ChangedInHunk(h: Hunk, side: Side, n: int) {
    exists k: nat :: ChangedBy(h, side, n, k)
  }

  ghost predicate ChangedInHunks(hunks: seq<Hunk>, side: Side, n: int) {
    exists i :: 0 <= i < |hunks| && ChangedInHunk(hunks[i], side, n)
  }

  predicate Concerns(s: Section, path: string, side: Side) {
    s.patch.Some? && SidePath(s.patch.value, side) == Some(path)
  }

  ghost predicate ChangedIn(s: Section, path: string, side: Side, n: int) {
    Concerns(s, path, side) && ChangedInHunks(s.patch.value.hunks, side, n)
  }

  /** The diff changes line `n` of `path` on this side. */
  ghost predicate Changed(diff: seq<Section>, path: string, side: Side, n: int) {
    exists i :: 0 <= i < |diff| && ChangedIn(diff[i], path, side, n)
  }

  function HunkChanges(hunks: seq<Hunk>, side: Side): nat {
    if hunks == [] then 0 else Changes(hunks[0].body, side) + HunkChanges(hunks[1..], side)
  }

  function SectionChanges(s: Section, side: Side): nat {
    if s.patch.None? then 0 else HunkChanges(s.patch.value.hunks, side)
  }

  function TotalChanges(diff: seq<Section>, side: Side): nat {
    if diff == [] then 0 else SectionChanges(diff[0], side) + TotalChanges(diff[1..], side)
  }

  // ---------------------------------------------------------------- printing

  function PrintLine(l: BodyLine): string {
    match l
    case Context(text) => " " + text
    case Deleted(text) => "-" + text
    case Added(text) => "+" + text
    case Remark(text) => "\\" + text
  }

  function DigitOf(n: nat): char
    requires n < 10
  {
    ('0' as int + n) as char
  }

  function Decimal(n: nat): (s: string)
    ensures s != "" && forall i :: 0 <= i < |s| ==> IsDigit(s[i])
  {
    if n < 10 then [DigitOf(n)] else Decimal(n / 10) + [DigitOf(n % 10)]
  }

  /** A count of one is left out. */
  function PrintSpan(start: nat, count: nat): string {
    Decimal(start) + if count == 1 then "" else "," + Decimal(count)
  }

  function PrintHunkLine(h: Hunk): string {
    "@@ -" + PrintSpan(h.oldStart, Height(h.body, Left)) + " +" + PrintSpan(h.newStart, Height(h.body, Right)) + " @@" + h.heading
  }

  function PrintBody(body: seq<BodyLine>): (lines: seq<string>)
    ensures |lines| == |body|
  {
    seq(|body|, i requires 0 <= i < |body| => PrintLine(body[i]))
  }

  function PrintHunks(hunks: seq<Hunk>): seq<string> {
    if hunks == [] then [] else [PrintHunkLine(hunks[0])] + PrintBody(hunks[0].body) + PrintHunks(hunks[1..])
  }

  function PrintSide(path: Option<string>, prefix: string): string {
    if path.None? then "/dev/null" else PrintPath(prefix + path.value)
  }

  function PrintPatch(p: Patch): seq<string> {
    ["--- " + PrintSide(p.oldPath, "a/"), "+++ " + PrintSide(p.newPath, "b/")] + PrintHunks(p.hunks)
  }

  function PrintSection(s: Section): seq<string> {
    [FILE_MARK + s.title] + s.extended + if s.patch.None? then [] else PrintPatch(s.patch.value)
  }

  function Print(diff: seq<Section>): seq<string> {
    if diff == [] then [] else PrintSection(diff[0]) + Print(diff[1..])
  }

  // ---------------------------------------------------------------- what the reader is to record

  function Next(path: Option<string>, side: Side, n: nat): seq<Event> { Recorded([], path, side, n) }

  /** What body line `l` changes when the lines `front` stand before it. */
  function LineEvents(p: Patch, h: Hunk, front: seq<BodyLine>, l: BodyLine): seq<Event> {
    if l.Deleted? then Next(SidePath(p, Left), Left, h.oldStart + Height(front, Left))
    else if l.Added? then Next(SidePath(p, Right), Right, h.newStart + Height(front, Right))
    else []
  }

  /** The changed lines of a hunk body in the order they are printed. */
  function BodyEvents(p: Patch, h: Hunk, body: seq<BodyLine>): seq<Event> {
    if body == [] then []
    else
      BodyEvents(p, h, body[..|body| - 1]) + LineEvents(p, h, body[..|body| - 1], body[|body| - 1])
  }

  function HunkEvents(p: Patch, hunks: seq<Hunk>): seq<Event> {
    if hunks == [] then [] else BodyEvents(p, hunks[0], hunks[0].body) + HunkEvents(p, hunks[1..])
  }

  function SectionEvents(s: Section): seq<Event> {
    if s.patch.None? then [] else HunkEvents(s.patch.value, s.patch.value.hunks)
  }

  function Events(diff: seq<Section>): seq<Event> {
    if diff == [] then [] else SectionEvents(diff[0]) + Events(diff[1..])
  }

  // ---------------------------------------------------------------- hunk headers

  lemma {:induction false} NumberOfDecimal(n: nat)
    ensures Number(Decimal(n)) == n
  {
    var s := Decimal(n);
    if n < 10 {
      assert s[..0] == "";
    } else {
      NumberOfDecimal(n / 10);
      assert s[..|s| - 1] == Decimal(n / 10);
    }
  }

  lemma {:induction false} DigitsStop(s: string, rest: string)
    requires forall i :: 0 <= i < |s| ==> IsDigit(s[i])
    requires rest != "" ==> !IsDigit(rest[0])
    ensures Digits(s + rest) == |s| && (s + rest)[..|s|] == s && (s + rest)[|s|..] == rest
  {
    if s == "" {
      assert s + rest == rest;
    } else {
      assert (s + rest)[1..] == s[1..] + rest;
      DigitsStop(s[1..], rest);
    }
  }

  lemma StartOfSpan(start: nat, count: nat, rest: string)
    requires rest != "" && rest[0] == ' '
    ensures Start(PrintSpan(start, count) + rest) == Some((start, rest))
  {
    var tail := if count == 1 then "" else "," + Decimal(count);
    assert PrintSpan(start, count) + rest == Decimal(start) + (tail + rest);
    DigitsStop(Decimal(start), tail + rest);
    NumberOfDecimal(start);
    if count == 1 {
      assert tail + rest == rest;
    } else {
      assert (tail + rest)[1..] == Decimal(count) + rest;
      DigitsStop(Decimal(count), rest);
    }
  }

  lemma HunkLineIsRead(h: Hunk)
    ensures MatchHunk(PrintHunkLine(h)) == Some((h.oldStart, h.newStart))
    ensures !StartsWith(PrintHunkLine(h), FILE_MARK)
  {
    var line := PrintHunkLine(h);
    var tail := " @@" + h.heading;
    var right := PrintSpan(h.newStart, Height(h.body, Right)) + tail;
    var left := PrintSpan(h.oldStart, Height(h.body, Left)) + (" +" + right);
    hide Start, PrintSpan;
    assert line == "@@ -" + left;
    assert line[0] == '@';
    assert line[4..] == left;
    StartOfSpan(h.oldStart, Height(h.body, Left), " +" + right);
    assert (" +" + right)[2..] == right;
    StartOfSpan(h.newStart, Height(h.body, Right), tail);
  }

  // ---------------------------------------------------------------- reading what was printed

  /** The reader is inside a patch of these paths. */
  ghost predicate Within(r: Reader, p: Patch) {
    (r.scan == Ready || r.scan == InHunk) && r.oldPath == SidePath(p, Left) && r.newPath == SidePath(p, Right)
  }

  /** What reading adds to the counters and the record, wherever the reader was. */
  ghost predicate Adds(r: Reader, out: Reader, files: nat, deletions: nat, additions: nat, events: seq<Event>) {
    && out.files == r.files + files
    && out.deletions == r.deletions + deletions
    && out.additions == r.additions + additions
    && out.events == r.events + events
  }

  lemma StartsOtherwise(line: string, mark: string)
    requires line != "" && mark != "" && line[0] != mark[0]
    ensures !StartsWith(line, mark)
  {
  }

  lemma OnlyHunkLinesMatch(line: string)
    requires line != "" && line[0] != '@'
    ensures MatchHunk(line).None?
  {
    hide Start;
  }

  function Mark(l: BodyLine): char {
    match l case Context(_) => ' ' case Deleted(_) => '-' case Added(_) => '+' case Remark(_) => '\\'
  }

  lemma PrintedLineIsBody(l: BodyLine)
    ensures var line := PrintLine(l);
            && !StartsWith(line, FILE_MARK)
            && MatchHunk(line).None?
            && line != ""
            && line[0] == Mark(l)
  {
    hide StartsWith, MatchHunk;
    StartsOtherwise(PrintLine(l), FILE_MARK);
    OnlyHunkLinesMatch(PrintLine(l));
  }

  /** One more body line: the counters of the line itself and nothing else. */
  lemma BodyStep(r: Reader, p: Patch, h: Hunk, front: seq<BodyLine>, l: BodyLine)
    requires r.scan == InHunk && Within(r, p)
    requires r.oldLine == h.oldStart + Height(front, Left) && r.newLine == h.newStart + Height(front, Right)
    ensures Step(r, PrintLine(l)) == Some(r.(
              oldLine := r.oldLine + (if OnSide(l, Left) then 1 else 0),
              newLine := r.newLine + (if OnSide(l, Right) then 1 else 0),
              deletions := r.deletions + (if IsChange(l, Left) then 1 else 0),
              additions := r.additions + (if IsChange(l, Right) then 1 else 0),
              events := r.events + LineEvents(p, h, front, l)))
  {
    hide MatchHunk, StartsWith, PrintLine, Height, SidePath;
    PrintedLineIsBody(l);
    assert r.events + [] == r.events;
    RecordedAdds(r.events, r.oldPath, Left, r.oldLine);
    RecordedAdds(r.events, r.newPath, Right, r.newLine);
  }

  lemma RecordedAdds(events: seq<Event>, path: Option<string>, side: Side, n: nat)
    ensures Recorded(events, path, side, n) == events + Next(path, side, n)
  {
  }

  /** Reading adds up. */
  lemma AddsUp(r: Reader, mid: Reader, out: Reader, f: nat, d: nat, a: nat, e: seq<Event>, f': nat, d': nat, a': nat, e': seq<Event>)
    requires Adds(r, mid, f, d, a, e) && Adds(mid, out, f', d', a', e')
    ensures Adds(r, out, f + f', d + d', a + a', e + e')
  {
  }

  /** The reader stands after `body` in hunk `h`. */
  ghost predicate After(r: Reader, p: Patch, h: Hunk, body: seq<BodyLine>) {
    && r.scan == InHunk && Within(r, p)
    && r.oldLine == h.oldStart + Height(body, Left)
    && r.newLine == h.newStart + Height(body, Right)
  }

  lemma LineIsRead(r: Reader, p: Patch, h: Hunk, body: seq<BodyLine>)
    requires body != [] && After(r, p, h, body[..|body| - 1])
    ensures var front, l := body[..|body| - 1], body[|body| - 1];
            var out := Step(r, PrintLine(l));
            && ReadFrom(r, [PrintLine(l)]) == out
            && out.Some?
            && After(out.value, p, h, body)
            && Adds(r, out.value, 0, if IsChange(l, Left) then 1 else 0, if IsChange(l, Right) then 1 else 0, LineEvents(p, h, front, l))
  {
    hide Step, PrintLine, ReadFrom, SidePath, LineEvents, IsChange;
    var front, l := body[..|body| - 1], body[|body| - 1];
    BodyStep(r, p, h, front, l);
    ReadOne(r, PrintLine(l));
  }

  /** The last line of a body is read after the others. */
  lemma BodySplits(r: Reader, body: seq<BodyLine>)
    requires body != [] && ReadFrom(r, PrintBody(body[..|body| - 1])).Some?
    ensures ReadFrom(r, PrintBody(body)) ==
            ReadFrom(ReadFrom(r, PrintBody(body[..|body| - 1])).value, [PrintLine(body[|body| - 1])])
  {
    var front, l := body[..|body| - 1], body[|body| - 1];
    assert PrintBody(body) == PrintBody(front) + [PrintLine(l)];
    hide ReadFrom, PrintLine;
    ReadFromAppend(r, PrintBody(front), [PrintLine(l)]);
  }

  lemma {:induction false} BodyIsRead(r: Reader, p: Patch, h: Hunk, body: seq<BodyLine>)
    requires After(r, p, h, [])
    ensures var out := ReadFrom(r, PrintBody(body));
            && out.Some?
            && After(out.value, p, h, body)
            && Adds(r, out.value, 0, Changes(body, Left), Changes(body, Right), BodyEvents(p, h, body))
    decreases |body|
  {
    if body == [] {
      ReadNothing(r, PrintBody(body));
    } else {
      var front, l := body[..|body| - 1], body[|body| - 1];
      BodyIsRead(r, p, h, front);
      var mid := ReadFrom(r, PrintBody(front)).value;
      LineIsRead(mid, p, h, body);
      BodySplits(r, body);
      hide Step, PrintBody, PrintLine, ReadFrom, LineEvents, IsChange, OnSide, After, Adds, Height;
      AddsUp(r, mid, Step(mid, PrintLine(l)).value,
        0, Changes(front, Left), Changes(front, Right), BodyEvents(p, h, front),
        0, if IsChange(l, Left) then 1 else 0, if IsChange(l, Right) then 1 else 0, LineEvents(p, h, front, l));
    }
  }

  lemma HunkIsRead(r: Reader, p: Patch, h: Hunk)
    requires Within(r, p)
    ensures var out := ReadFrom(r, [PrintHunkLine(h)] + PrintBody(h.body));
            && out.Some?
            && Within(out.value, p)
            && Adds(r, out.value, 0, Changes(h.body, Left), Changes(h.body, Right), BodyEvents(p, h, h.body))
  {
    var inside := r.(oldLine := h.oldStart, newLine := h.newStart, scan := InHunk);
    HunkOpens(r, h);
    assert After(inside, p, h, []);
    hide Step, PrintHunkLine, PrintBody, ReadFrom, Changes, BodyEvents;
    ReadOne(r, PrintHunkLine(h));
    ReadFromAppend(r, [PrintHunkLine(h)], PrintBody(h.body));
    BodyIsRead(inside, p, h, h.body);
  }

  lemma {:induction false} HunksAreRead(r: Reader, p: Patch, hunks: seq<Hunk>)
    requires Within(r, p)
    ensures var out := ReadFrom(r, PrintHunks(hunks));
            && out.Some?
            && Within(out.value, p)
            && Adds(r, out.value, 0, HunkChanges(hunks, Left), HunkChanges(hunks, Right), HunkEvents(p, hunks))
    decreases |hunks|
  {
    hide Step, PrintHunkLine, PrintBody, ReadFrom, Changes, BodyEvents, Within;
    if hunks == [] {
      ReadNothing(r, []);
    } else {
      var h := hunks[0];
      var lines := [PrintHunkLine(h)] + PrintBody(h.body);
      HunkIsRead(r, p, h);
      ReadFromAppend(r, lines, PrintHunks(hunks[1..]));
      HunksAreRead(ReadFrom(r, lines).value, p, hunks[1..]);
      AddsUp(r, ReadFrom(r, lines).value, ReadFrom(r, PrintHunks(hunks)).value,
        0, Changes(h.body, Left), Changes(h.body, Right), BodyEvents(p, h, h.body),
        0, HunkChanges(hunks[1..], Left), HunkChanges(hunks[1..], Right), HunkEvents(p, hunks[1..]));
    }
  }

  lemma HunkOpens(r: Reader, h: Hunk)
    requires r.scan == Ready || r.scan == InHunk
    ensures Step(r, PrintHunkLine(h)) == Some(r.(oldLine := h.oldStart, newLine := h.newStart, scan := InHunk))
  {
    hide MatchHunk, PrintHunkLine, StartsWith;
    HunkLineIsRead(h);
  }

  /** Both file lines are read back, /dev/null as no path. */
  lemma SideIsRead(path: Option<string>, prefix: string)
    requires prefix == "a/" || prefix == "b/"
    ensures DiffPath(PrintSide(path, prefix), prefix) ==
            Resolved(if path.None? then None else Normalize(path.value))
  {
    hide PrintPath, DecodePath;
    if path.Some? {
      PathRoundTrip(prefix + path.value);
      assert (prefix + path.value)[|prefix|..] == path.value;
      assert (prefix + path.value)[0] == prefix[0] != '/';
    } else {
      DevNullIsPlain();
    }
  }

  lemma DevNullIsPlain()
    ensures DecodePath("/dev/null") == Text("/dev/null")
  {
  }

  lemma PathsAreRead(r: Reader, p: Patch)
    requires r.scan == Header
    ensures var lines := ["--- " + PrintSide(p.oldPath, "a/"), "+++ " + PrintSide(p.newPath, "b/")];
            ReadFrom(r, lines) == Some(r.(oldPath := SidePath(p, Left), newPath := SidePath(p, Right), scan := Ready))
  {
    hide Step, ReadFrom, PrintSide, SidePath;
    var minus, plus := "--- " + PrintSide(p.oldPath, "a/"), "+++ " + PrintSide(p.newPath, "b/");
    var mid := r.(oldPath := SidePath(p, Left), scan := OldPath);
    OldPathIsRead(r, p);
    NewPathIsRead(mid, p);
    ReadOne(r, minus);
    ReadOne(mid, plus);
    assert [minus, plus] == [minus] + [plus];
    ReadFromAppend(r, [minus], [plus]);
  }

  lemma OldPathIsRead(r: Reader, p: Patch)
    requires r.scan == Header
    ensures Step(r, "--- " + PrintSide(p.oldPath, "a/")) == Some(r.(oldPath := SidePath(p, Left), scan := OldPath))
  {
    hide DiffPath, PrintSide, MatchHunk;
    var line := "--- " + PrintSide(p.oldPath, "a/");
    SideIsRead(p.oldPath, "a/");
    assert line[0] == '-' && !StartsWith(line, FILE_MARK);
    assert line[4..] == PrintSide(p.oldPath, "a/") && StartsWith(line, "--- ");
  }

  lemma NewPathIsRead(r: Reader, p: Patch)
    requires r.scan == OldPath
    ensures Step(r, "+++ " + PrintSide(p.newPath, "b/")) == Some(r.(newPath := SidePath(p, Right), scan := Ready))
  {
    hide DiffPath, PrintSide, MatchHunk;
    var line := "+++ " + PrintSide(p.newPath, "b/");
    SideIsRead(p.newPath, "b/");
    assert line[0] == '+' && !StartsWith(line, FILE_MARK);
    assert line[4..] == PrintSide(p.newPath, "b/") && StartsWith(line, "+++ ");
  }

  /** Extended header lines are neither file marks nor old-path lines. */
  predicate Quiet(lines: seq<string>) {
    forall i :: 0 <= i < |lines| ==> !StartsWith(lines[i], FILE_MARK) && !StartsWith(lines[i], "--- ")
  }

  lemma {:induction false} ExtendedIsSkipped(r: Reader, lines: seq<string>)
    requires r.scan == Header && Quiet(lines)
    ensures ReadFrom(r, lines) == Some(r)
    decreases |lines|
  {
    hide StartsWith, MatchHunk, DiffPath;
    if lines != [] {
      assert Step(r, lines[0]) == Some(r);
      ExtendedIsSkipped(r, lines[1..]);
    }
  }

  lemma SectionIsRead(r: Reader, s: Section)
    requires Quiet(s.extended)
    ensures var out := ReadFrom(r, PrintSection(s));
            out.Some? && Adds(r, out.value, 1, SectionChanges(s, Left), SectionChanges(s, Right), SectionEvents(s))
  {
    var header := r.(files := r.files + 1, oldPath := None, newPath := None, scan := Header);
    assert StartsWith(FILE_MARK + s.title, FILE_MARK);
    assert Step(r, FILE_MARK + s.title) == Some(header);
    hide Step, ReadFrom, PrintPath, PrintHunks, MatchHunk, StartsWith;
    ReadOne(r, FILE_MARK + s.title);
    ReadFromAppend(r, [FILE_MARK + s.title], s.extended);
    ExtendedIsSkipped(header, s.extended);
    var head := [FILE_MARK + s.title] + s.extended;
    if s.patch.None? {
      assert PrintSection(s) == head;
    } else {
      var p := s.patch.value;
      var paths := ["--- " + PrintSide(p.oldPath, "a/"), "+++ " + PrintSide(p.newPath, "b/")];
      var ready := header.(oldPath := SidePath(p, Left), newPath := SidePath(p, Right), scan := Ready);
      assert PrintSection(s) == head + (paths + PrintHunks(p.hunks));
      ReadFromAppend(r, head, paths + PrintHunks(p.hunks));
      PathsAreRead(header, p);
      ReadFromAppend(header, paths, PrintHunks(p.hunks));
      HunksAreRead(ready, p, p.hunks);
    }
  }

  ghost predicate Printable(diff: seq<Section>) {
    forall i :: 0 <= i < |diff| ==> Quiet(diff[i].extended)
  }

  /** The reader takes every printed diff, and its counters and record are those of the diff. */
  lemma {:induction false} DiffIsRead(r: Reader, diff: seq<Section>)
    requires Printable(diff)
    ensures var out := ReadFrom(r, Print(diff));
            out.Some? && Adds(r, out.value, |diff|, TotalChanges(diff, Left), TotalChanges(diff, Right), Events(diff))
    decreases |diff|
  {
    hide ReadFrom, PrintSection, SectionEvents, SectionChanges;
    if diff == [] {
      ReadNothing(r, []);
    } else {
      SectionIsRead(r, diff[0]);
      ReadFromAppend(r, PrintSection(diff[0]), Print(diff[1..]));
      DiffIsRead(ReadFrom(r, PrintSection(diff[0])).value, diff[1..]);
    }
  }
}
