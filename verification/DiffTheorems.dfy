/** Reading a printed diff: the ranges, the totals, and what may be published on them. */
module DiffTheorems {
  import opened Values
  import opened Runs
  import opened RepositoryPath
  import opened ReviewRanges
  import opened DiffReader
  import opened DiffRoundTrip
  import opened DiffMeaning

  // ---------------------------------------------------------------- summed run lengths

  ghost function Pick(ranges: Ranges): (string, Side)
    requires ranges != map[]
    ensures Pick(ranges) in ranges
  {
    assert ranges.Keys != {};
    var key :| key in ranges;
    key
  }

  function LengthOn(key: (string, Side), runs: seq<Run>, side: Side): int {
    if key.1 == side then Length(runs) else 0
  }

  /** The lengths of all runs of one side, added up over the paths. */
  ghost function TotalLength(ranges: Ranges, side: Side): int
    decreases |ranges|
  {
    if ranges == map[] then 0
    else
      var key := Pick(ranges);
      LengthOn(key, ranges[key], side) + TotalLength(ranges - {key}, side)
  }

  lemma {:induction false} AnyKeyFirst(ranges: Ranges, key: (string, Side), side: Side)
    requires key in ranges
    ensures TotalLength(ranges, side) == LengthOn(key, ranges[key], side) + TotalLength(ranges - {key}, side)
    decreases |ranges|
  {
    hide LengthOn;
    var other := Pick(ranges);
    if other != key {
      AnyKeyFirst(ranges - {other}, key, side);
      AnyKeyFirst(ranges - {key}, other, side);
      assert ranges - {other} - {key} == ranges - {key} - {other};
    }
  }

  /** How many changed lines of one side were recorded. */
  function Tally(events: seq<Event>, side: Side): nat
    decreases |events|
  {
    if events == [] then 0
    else Tally(events[..|events| - 1], side) + if events[|events| - 1].side == side then 1 else 0
  }

  lemma {:induction false} TallyAppend(a: seq<Event>, b: seq<Event>, side: Side)
    ensures Tally(a + b, side) == Tally(a, side) + Tally(b, side)
    decreases |b|
  {
    if b == [] {
      assert a + b == a;
    } else {
      assert (a + b)[..|a + b| - 1] == a + b[..|b| - 1];
      TallyAppend(a, b[..|b| - 1], side);
    }
  }

  ghost predicate AllIncrease(events: seq<Event>) {
    forall path, side :: Increasing(LinesOf(events, path, side))
  }

  /** Filing one more line under its key makes the total of its side one larger. */
  lemma FileLineAddsOne(events: seq<Event>, side: Side)
    requires events != [] && Positive(events) && AllIncrease(events)
    ensures var front, e := events[..|events| - 1], events[|events| - 1];
            TotalLength(RangesOf(events), side) == TotalLength(RangesOf(front), side) + if e.side == side then 1 else 0
  {
    var front, e := events[..|events| - 1], events[|events| - 1];
    var key := (e.path, e.side);
    var before, after := RangesOf(front), RangesOf(events);
    assert after[key := []] == before[key := []];
    assert after - {key} == before - {key};
    AnyKeyFirst(after, key, side);
    if key in before {
      AnyKeyFirst(before, key, side);
    } else {
      assert before - {key} == before;
    }
    assert events == front + [e];
    KeyLengths(front, e);
  }

  lemma KeyLengths(front: seq<Event>, e: Event)
    requires Positive(front + [e]) && AllIncrease(front + [e])
    ensures var key, ranges := (e.path, e.side), RangesOf(front);
            Length(Extend(if key in ranges then ranges[key] else [], e.line)) == 1 + if key in ranges then Length(ranges[key]) else 0
  {
    var events := front + [e];
    assert events[..|events| - 1] == front;
    var lines, all := LinesOf(front, e.path, e.side), LinesOf(events, e.path, e.side);
    assert Increasing(all) && all == lines + [e.line];
    assert Increasing(lines) by {
      assert forall i :: 0 <= i < |lines| ==> all[i] == lines[i];
    }
    LinesArePositive(front, e.path, e.side);
    IncreasingGivesMaximalRuns(lines);
    RangesOfKey(front, e.path, e.side);
    if lines != [] {
      assert all[|lines| - 1] < all[|lines|];
    }
    ExtendCovers(ExtendAll([], lines), e.line);
  }

  lemma {:induction false} TotalIsTally(events: seq<Event>, side: Side)
    requires Positive(events) && AllIncrease(events)
    ensures TotalLength(RangesOf(events), side) == Tally(events, side)
    decreases |events|
  {
    if events != [] {
      var front := events[..|events| - 1];
      forall path, on ensures Increasing(LinesOf(front, path, on)) {
        var lines, all := LinesOf(front, path, on), LinesOf(events, path, on);
        assert Increasing(all);
        assert forall i :: 0 <= i < |lines| ==> all[i] == lines[i];
      }
      FileLineAddsOne(events, side);
      TotalIsTally(front, side);
    }
  }

  // ---------------------------------------------------------------- what a diff has recorded

  /** Changes of a section whose path on this side can be recorded. */
  function Recordable(s: Section, side: Side): bool {
    s.patch.Some? && SidePath(s.patch.value, side).Some?
  }

  function RecordableChanges(diff: seq<Section>, side: Side): nat {
    if diff == [] then 0
    else (if Recordable(diff[0], side) then SectionChanges(diff[0], side) else 0) + RecordableChanges(diff[1..], side)
  }

  lemma TallyOfLine(p: Patch, h: Hunk, front: seq<BodyLine>, l: BodyLine, side: Side)
    requires Numbered(side) && (IsChange(l, side) ==> HunkStart(h, side) >= 1)
    ensures Tally(LineEvents(p, h, front, l), side) == if SidePath(p, side).Some? && IsChange(l, side) then 1 else 0
  {
    hide SidePath, Height;
    var events := LineEvents(p, h, front, l);
    if events != [] {
      assert events[..|events| - 1] == [];
    }
  }

  lemma {:induction false} TallyOfBody(p: Patch, h: Hunk, m: nat, side: Side)
    requires m <= |h.body| && Numbered(side) && SoundHunk(h)
    ensures Tally(BodyEvents(p, h, h.body[..m]), side) == if SidePath(p, side).Some? then Changes(h.body[..m], side) else 0
    decreases m
  {
    if m > 0 {
      var front, l := h.body[..m - 1], h.body[m - 1];
      assert h.body[..m][..m - 1] == front;
      HeightGrows(h.body, m, side);
      assert IsChange(l, side) ==> Height(h.body[..m], side) > 0;
      TallyOfBody(p, h, m - 1, side);
      TallyOfLine(p, h, front, l, side);
      TallyAppend(BodyEvents(p, h, front), LineEvents(p, h, front, l), side);
    } else {
      assert h.body[..0] == [];
    }
  }

  lemma {:induction false} TallyOfHunks(p: Patch, hunks: seq<Hunk>, side: Side)
    requires Numbered(side) && SoundHunks(hunks)
    ensures Tally(HunkEvents(p, hunks), side) == if SidePath(p, side).Some? then HunkChanges(hunks, side) else 0
    decreases |hunks|
  {
    if hunks != [] {
      var h := hunks[0];
      assert h.body[..|h.body|] == h.body;
      assert SoundHunk(h);
      TallyOfBody(p, h, |h.body|, side);
      TallyOfHunks(p, hunks[1..], side);
      TallyAppend(BodyEvents(p, h, h.body), HunkEvents(p, hunks[1..]), side);
    }
  }

  lemma {:induction false} TallyOfDiff(diff: seq<Section>, side: Side)
    requires Numbered(side) && Sound(diff)
    ensures Tally(Events(diff), side) == RecordableChanges(diff, side)
    decreases |diff|
  {
    if diff != [] {
      var s := diff[0];
      if s.patch.Some? {
        TallyOfHunks(s.patch.value, s.patch.value.hunks, side);
      }
      TallyOfDiff(diff[1..], side);
      TallyAppend(SectionEvents(s), Events(diff[1..]), side);
    }
  }

  /** Every change of this side is in a section whose path can be recorded. */
  ghost predicate AllRecordable(diff: seq<Section>, side: Side) {
    forall i :: 0 <= i < |diff| && SectionChanges(diff[i], side) > 0 ==> Recordable(diff[i], side)
  }

  lemma {:induction false} NothingUnrecorded(diff: seq<Section>, side: Side)
    ensures RecordableChanges(diff, side) <= TotalChanges(diff, side)
    ensures RecordableChanges(diff, side) == TotalChanges(diff, side) <==> AllRecordable(diff, side)
    decreases |diff|
  {
    if diff != [] {
      hide SectionChanges, Recordable;
      NothingUnrecorded(diff[1..], side);
      assert AllRecordable(diff, side) <==>
        AllRecordable(diff[1..], side) && (SectionChanges(diff[0], side) > 0 ==> Recordable(diff[0], side)) by {
        assert forall i :: 1 <= i < |diff| ==> diff[i] == diff[1..][i - 1];
      }
    }
  }

  lemma NoOtherSide(diff: seq<Section>, path: string, side: Side)
    requires !Numbered(side)
    ensures DiffLines(diff, path, side) == []
  {
    OnlyNumbered(diff);
    NoLinesOf(Events(diff), path, side);
  }

  ghost predicate AllNumbered(events: seq<Event>) {
    forall i :: 0 <= i < |events| ==> Numbered(events[i].side)
  }

  lemma {:induction false} NoLinesOf(events: seq<Event>, path: string, side: Side)
    requires AllNumbered(events) && !Numbered(side)
    ensures LinesOf(events, path, side) == []
    decreases |events|
  {
    if events != [] {
      NoLinesOf(events[..|events| - 1], path, side);
    }
  }

  lemma {:induction false} BodyIsNumbered(p: Patch, h: Hunk, body: seq<BodyLine>)
    ensures AllNumbered(BodyEvents(p, h, body))
    decreases |body|
  {
    if body != [] {
      BodyIsNumbered(p, h, body[..|body| - 1]);
    }
  }

  lemma {:induction false} HunksAreNumbered(p: Patch, hunks: seq<Hunk>)
    ensures AllNumbered(HunkEvents(p, hunks))
    decreases |hunks|
  {
    if hunks != [] {
      BodyIsNumbered(p, hunks[0], hunks[0].body);
      HunksAreNumbered(p, hunks[1..]);
    }
  }

  lemma {:induction false} OnlyNumbered(diff: seq<Section>)
    ensures AllNumbered(Events(diff))
    decreases |diff|
  {
    if diff != [] {
      if diff[0].patch.Some? {
        HunksAreNumbered(diff[0].patch.value, diff[0].patch.value.hunks);
      }
      OnlyNumbered(diff[1..]);
    }
  }

  // ---------------------------------------------------------------- the main results

  /** What the reader makes of the printed diff. */
  function ReadBack(diff: seq<Section>): Option<ChangedRanges> {
    match ReadFrom(START, Print(diff))
    case None => None
    case Some(r) => Some(ToRanges(r))
  }

  lemma ReaderAfterDiff(r: Reader, diff: seq<Section>)
    requires Printable(diff) && r.files == 0 && r.additions == 0 && r.deletions == 0 && r.events == []
    ensures var out := ReadFrom(r, Print(diff));
            && out.Some?
            && Positive(out.value.events)
            && out.value.events == Events(diff)
            && ToRanges(out.value) == ChangedRanges(RangesOf(Events(diff)), None, |diff|, TotalChanges(diff, Right), TotalChanges(diff, Left))
  {
    hide ReadFrom, RangesOf, Events, Print, TotalChanges, Printable;
    DiffIsRead(r, diff);
    ReadKeepsPositive(r, Print(diff));
    assert ([] + Events(diff)) == Events(diff);
  }

  /** Every printed diff is read; files, deletions and additions are counted exactly, and the runs
      of each path and side are built from its own changed lines. */
  lemma PrintedDiffIsRead(diff: seq<Section>)
    requires Printable(diff)
    ensures ReadBack(diff).Some?
    ensures var c := ReadBack(diff).value;
            && WellFormed(c)
            && c.ranges == RangesOf(Events(diff)) && Positive(Events(diff))
            && c.files == |diff|
            && c.deletions == TotalChanges(diff, Left)
            && c.additions == TotalChanges(diff, Right)
            && forall path, side :: Intervals(c, path, side) == ExtendAll([], DiffLines(diff, path, side))
  {
    ReaderAfterDiff(START, diff);
    var c := ReadBack(diff).value;
    hide ReadFrom, Print, ReadBack, RangesOf, Events, Positive, TotalChanges;
    FiledRangesAreWellFormed(Events(diff));
    forall path, side
      ensures Intervals(c, path, side) == ExtendAll([], DiffLines(diff, path, side))
    {
      RangesOfKey(Events(diff), path, side);
    }
  }

  ghost predicate ReadsExactly(diff: seq<Section>, path: string, side: Side)
    requires ReadBack(diff).Some?
  {
    var runs := Intervals(ReadBack(diff).value, path, side);
    Gapped(runs) && forall n :: Covers(runs, n) <==> Changed(diff, path, side, n)
  }

  /** On sound hunks the runs of a path and side are the maximal runs of its changed lines exactly
      when no changed line falls back behind a later one met before it. */
  lemma RangesAreExactWhenOrdered(diff: seq<Section>, path: string, side: Side)
    requires Printable(diff) && Sound(diff) && Numbered(side)
    ensures ReadBack(diff).Some?
    ensures ReadsExactly(diff, path, side) <==> NothingFallsBack(DiffLines(diff, path, side))
  {
    PrintedDiffIsRead(diff);
    DiffLinesAreChanges(diff, path, side);
    LinesArePositive(Events(diff), path, side);
    ExactWhenNothingFallsBack(DiffLines(diff, path, side));
    hide ExtendAll, NothingFallsBack, Covers, Changed;
  }

  /** The round trip: from a diff with its hunks in order the reader recovers, for every path and
      side, exactly the maximal runs of the lines the diff changes; and the run lengths of a side
      add up to its counter exactly when no change is in a file whose path cannot be recorded. */
  lemma DiffRoundTrips(diff: seq<Section>)
    requires Printable(diff) && Sound(diff) && Ordered(diff)
    ensures ReadBack(diff).Some?
    ensures forall path, side :: Numbered(side) ==> ReadsExactly(diff, path, side)
    ensures TotalLength(ReadBack(diff).value.ranges, Left) == ReadBack(diff).value.deletions <==> AllRecordable(diff, Left)
    ensures TotalLength(ReadBack(diff).value.ranges, Right) == ReadBack(diff).value.additions <==> AllRecordable(diff, Right)
  {
    PrintedDiffIsRead(diff);
    hide ReadBack, DiffLines, Changed;
    forall path, side | Numbered(side) ensures ReadsExactly(diff, path, side) {
      OrderedDiffsIncrease(diff, path, side);
      IncreasingNeverFallsBack(DiffLines(diff, path, side));
      RangesAreExactWhenOrdered(diff, path, side);
    }
    RunLengthsAddUp(diff, Left);
    RunLengthsAddUp(diff, Right);
  }

  lemma IncreasingNeverFallsBack(lines: seq<int>)
    requires Increasing(lines)
    ensures NothingFallsBack(lines)
  {
  }

  lemma RunLengthsAddUp(diff: seq<Section>, side: Side)
    requires Printable(diff) && Sound(diff) && Ordered(diff) && Numbered(side)
    ensures TotalLength(RangesOf(Events(diff)), side) == TotalChanges(diff, side) <==> AllRecordable(diff, side)
  {
    PrintedDiffIsRead(diff);
    forall path, on ensures Increasing(LinesOf(Events(diff), path, on)) {
      if Numbered(on) {
        OrderedDiffsIncrease(diff, path, on);
      } else {
        NoOtherSide(diff, path, on);
      }
    }
    TotalIsTally(Events(diff), side);
    TallyOfDiff(diff, side);
    NothingUnrecorded(diff, side);
  }

  // ---------------------------------------------------------------- from the diff to published findings

  /** The clip rule on runs that are exactly the changed lines. */
  lemma ClipOnChanges(c: ChangedRanges, path: string, side: Side, start: int, end: int)
    requires WellFormed(c) && Normalize(path).Some? && Numbered(side) && 1 <= start <= end
    ensures var runs := Intervals(c, Normalize(path).value, side);
            && (start == end ==> (Clip(c, path, side, start, end).Some? <==> Covers(runs, start)))
            && (Clip(c, path, side, start, end).Some? ==>
                  var o := Clip(c, path, side, start, end).value;
                  && start <= o.first <= o.last <= end && o.first - start + end - o.last <= 1
                  && forall n :: start <= n <= end ==> (o.first <= n <= o.last <==> Covers(runs, n)))
  {
    ClipIsExact(c, path, side, start, end);
    IntervalsAreGapped(c, Normalize(path).value, side);
    hide Normalize, Gapped, Covers, Overlaps, Intervals, UnchangedIn, TouchesOnly, Contains;
    if start == end {
      OneLineSpans(Intervals(c, Normalize(path).value, side), start);
    }
  }

  /** A finding on a single line may be published exactly when the diff changes that line; a longer
      one is cut down to lines the diff changes, leaving out at most one. */
  lemma PublishedLinesAreChanged(diff: seq<Section>, path: string, side: Side, start: int, end: int)
    requires Printable(diff) && Sound(diff) && Ordered(diff)
    requires Normalize(path).Some? && Numbered(side) && 1 <= start <= end
    ensures ReadBack(diff).Some?
    ensures var c, file := ReadBack(diff).value, Normalize(path).value;
            && (start == end ==> (Clip(c, path, side, start, end).Some? <==> Changed(diff, file, side, start)))
            && (Clip(c, path, side, start, end).Some? ==>
                  var o := Clip(c, path, side, start, end).value;
                  && start <= o.first <= o.last <= end && o.first - start + end - o.last <= 1
                  && forall n :: start <= n <= end ==> (o.first <= n <= o.last <==> Changed(diff, file, side, n)))
  {
    hide *;
    DiffRoundTrips(diff);
    PrintedDiffIsRead(diff);
    ExactlyCovered(diff, Normalize(path).value, side);
    ClipOnChanges(ReadBack(diff).value, path, side, start, end);
  }

  lemma ExactlyCovered(diff: seq<Section>, path: string, side: Side)
    requires ReadBack(diff).Some? && ReadsExactly(diff, path, side)
    ensures forall n :: Covers(Intervals(ReadBack(diff).value, path, side), n) <==> Changed(diff, path, side, n)
  {
    hide ReadBack, Changed, Covers, Intervals;
  }

  lemma OneLineSpans(runs: seq<Run>, n: int)
    requires Gapped(runs)
    ensures Covers(runs, n) <==> exists k :: TouchesOnly(runs, n, n, k)
    ensures |UnchangedIn(runs, n, n)| <= 1
  {
    if Covers(runs, n) {
      var k :| 0 <= k < |runs| && runs[k].first <= n <= runs[k].last;
      assert TouchesOnly(runs, n, n, k);
    }
    if k :| TouchesOnly(runs, n, n, k) {
      assert Touches(runs[k], n, n);
      assert runs[k].first <= n <= runs[k].last;
    }
    assert UnchangedIn(runs, n, n) <= {n};
    if UnchangedIn(runs, n, n) != {} {
      assert UnchangedIn(runs, n, n) == {n};
    }
  }
}
