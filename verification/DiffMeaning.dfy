/** The ranges read from a printed diff are the maximal runs of the lines the diff changes. */
module DiffMeaning {
  import opened Values
  import opened Runs
  import opened RepositoryPath
  import opened ReviewRanges
  import opened DiffReader
  import opened DiffRoundTrip

  predicate Numbered(side: Side) { side == Left || side == Right }

  /** A hunk that shows lines of a side starts at line 1 of it or later. */
  ghost predicate SoundHunk(h: Hunk) {
    forall side :: Height(h.body, side) > 0 ==> HunkStart(h, side) >= 1
  }

  ghost predicate SoundHunks(hunks: seq<Hunk>) {
    forall i :: 0 <= i < |hunks| ==> SoundHunk(hunks[i])
  }

  ghost predicate Sound(diff: seq<Section>) {
    forall i :: 0 <= i < |diff| && diff[i].patch.Some? ==> SoundHunks(diff[i].patch.value.hunks)
  }

  function HunkEnd(h: Hunk, side: Side): nat { HunkStart(h, side) + Height(h.body, side) }

  /** Hunks that show lines of a side follow one another there. */
  ghost predicate OrderedHunks(hunks: seq<Hunk>, side: Side) {
    forall i, j :: 0 <= i < j < |hunks| && Height(hunks[i].body, side) > 0 && Height(hunks[j].body, side) > 0 ==>
      HunkEnd(hunks[i], side) <= HunkStart(hunks[j], side)
  }

  /** Hunks are in order, and no two sections change one side of the same path. */
  ghost predicate Ordered(diff: seq<Section>) {
    && (forall i, side :: 0 <= i < |diff| && diff[i].patch.Some? ==> OrderedHunks(diff[i].patch.value.hunks, side))
    && (forall i, j, path, side ::
          0 <= i < |diff| && 0 <= j < |diff| && Concerns(diff[i], path, side) && Concerns(diff[j], path, side) ==> i == j)
  }

  // ---------------------------------------------------------------- the lines of a hunk

  lemma {:induction false} LinesOfAppend(a: seq<Event>, b: seq<Event>, path: string, side: Side)
    ensures LinesOf(a + b, path, side) == LinesOf(a, path, side) + LinesOf(b, path, side)
    decreases |b|
  {
    if b == [] {
      assert a + b == a;
    } else {
      assert (a + b)[..|a + b| - 1] == a + b[..|b| - 1];
      LinesOfAppend(a, b[..|b| - 1], path, side);
    }
  }

  function BodyLines(p: Patch, h: Hunk, body: seq<BodyLine>, path: string, side: Side): seq<int> {
    LinesOf(BodyEvents(p, h, body), path, side)
  }

  lemma LinesOfLine(p: Patch, h: Hunk, front: seq<BodyLine>, l: BodyLine, path: string, side: Side)
    requires Numbered(side)
    ensures LinesOf(LineEvents(p, h, front, l), path, side) ==
            if SidePath(p, side) == Some(path) && IsChange(l, side) && HunkStart(h, side) + Height(front, side) >= 1
            then [HunkStart(h, side) + Height(front, side)] else []
  {
    hide SidePath, Height;
    var events := LineEvents(p, h, front, l);
    if events != [] {
      assert events[..|events| - 1] == [];
    }
  }

  lemma BodyLinesStep(p: Patch, h: Hunk, body: seq<BodyLine>, path: string, side: Side)
    requires body != [] && Numbered(side)
    ensures var front, l := body[..|body| - 1], body[|body| - 1];
            var n := HunkStart(h, side) + Height(front, side);
            BodyLines(p, h, body, path, side) ==
            BodyLines(p, h, front, path, side) +
            if SidePath(p, side) == Some(path) && IsChange(l, side) && n >= 1 then [n] else []
  {
    var front, l := body[..|body| - 1], body[|body| - 1];
    LinesOfLine(p, h, front, l, path, side);
    LinesOfAppend(BodyEvents(p, h, front), LineEvents(p, h, front, l), path, side);
  }

  lemma {:induction false} ForeignBody(p: Patch, h: Hunk, body: seq<BodyLine>, path: string, side: Side)
    requires Numbered(side) && SidePath(p, side) != Some(path)
    ensures BodyLines(p, h, body, path, side) == []
    decreases |body|
  {
    if body != [] {
      BodyLinesStep(p, h, body, path, side);
      ForeignBody(p, h, body[..|body| - 1], path, side);
    }
  }

  ghost predicate Between(lines: seq<int>, low: int, high: int) {
    forall i :: 0 <= i < |lines| ==> low <= lines[i] < high
  }

  ghost predicate ChangedBefore(h: Hunk, side: Side, n: int, m: nat) {
    exists k: nat :: k < m && ChangedBy(h, side, n, k)
  }

  lemma ChangedBeforeStep(h: Hunk, side: Side, x: int, m: nat)
    requires m < |h.body|
    ensures ChangedBefore(h, side, x, m + 1) <==>
            ChangedBefore(h, side, x, m) || (IsChange(h.body[m], side) && x == HunkStart(h, side) + Height(h.body[..m], side))
  {
    assert ChangedBy(h, side, x, m) <==> IsChange(h.body[m], side) && x == HunkStart(h, side) + Height(h.body[..m], side);
    hide ChangedBy;
  }

  lemma CountsStep(body: seq<BodyLine>, m: nat, side: Side)
    requires m < |body|
    ensures Height(body[..m + 1], side) == Height(body[..m], side) + if OnSide(body[m], side) then 1 else 0
    ensures Changes(body[..m + 1], side) == Changes(body[..m], side) + if IsChange(body[m], side) then 1 else 0
  {
    assert body[..m + 1][..m] == body[..m];
  }

  /** One more body line adds at most its own line number. */
  lemma OwnBodyStep(p: Patch, h: Hunk, m: nat, path: string, side: Side)
    requires m < |h.body| && Numbered(side) && SidePath(p, side) == Some(path) && SoundHunk(h)
    ensures var n := HunkStart(h, side) + Height(h.body[..m], side);
            var here := IsChange(h.body[m], side);
            && BodyLines(p, h, h.body[..m + 1], path, side) == BodyLines(p, h, h.body[..m], path, side) + (if here then [n] else [])
            && Height(h.body[..m], side) + (if here then 1 else 0) <= Height(h.body[..m + 1], side)
            && Changes(h.body[..m + 1], side) == Changes(h.body[..m], side) + (if here then 1 else 0)
            && (forall x :: ChangedBefore(h, side, x, m + 1) <==> ChangedBefore(h, side, x, m) || (here && x == n))
  {
    hide ChangedBefore, ChangedBy, BodyLines, SidePath, Height, Changes;
    var body := h.body[..m + 1];
    assert body[..m] == h.body[..m] && body[m] == h.body[m];
    BodyLinesStep(p, h, body, path, side);
    HeightGrows(h.body, m + 1, side);
    CountsStep(h.body, m, side);
    forall x
      ensures ChangedBefore(h, side, x, m + 1) <==>
              ChangedBefore(h, side, x, m) || (IsChange(h.body[m], side) && x == HunkStart(h, side) + Height(h.body[..m], side))
    {
      ChangedBeforeStep(h, side, x, m);
    }
  }

  lemma NoBody(p: Patch, h: Hunk, path: string, side: Side)
    ensures BodyLines(p, h, h.body[..0], path, side) == [] && Changes(h.body[..0], side) == 0
    ensures forall x :: !ChangedBefore(h, side, x, 0)
  {
    assert h.body[..0] == [];
  }

  lemma {:induction false} OwnBody(p: Patch, h: Hunk, m: nat, path: string, side: Side)
    requires m <= |h.body| && Numbered(side) && SidePath(p, side) == Some(path) && SoundHunk(h)
    ensures var lines := BodyLines(p, h, h.body[..m], path, side);
            && Increasing(lines)
            && Between(lines, HunkStart(h, side), HunkStart(h, side) + Height(h.body[..m], side))
            && |lines| == Changes(h.body[..m], side)
            && (forall n :: n in lines <==> ChangedBefore(h, side, n, m))
    decreases m
  {
    hide ChangedBefore, BodyLines, SidePath, SoundHunk, Height, Changes, IsChange;
    if m > 0 {
      OwnBody(p, h, m - 1, path, side);
      OwnBodyStep(p, h, m - 1, path, side);
      var front, lines := BodyLines(p, h, h.body[..m - 1], path, side), BodyLines(p, h, h.body[..m], path, side);
      forall n ensures n in lines <==> ChangedBefore(h, side, n, m) {
        assert n in lines <==> n in front || (IsChange(h.body[m - 1], side) && n == HunkStart(h, side) + Height(h.body[..m - 1], side));
        assert ChangedBefore(h, side, n, m - 1 + 1) == ChangedBefore(h, side, n, m);
      }
    } else {
      NoBody(p, h, path, side);
    }
  }

  lemma {:induction false} HeightGrows(body: seq<BodyLine>, m: nat, side: Side)
    requires m <= |body|
    ensures Height(body[..m], side) <= Height(body, side)
    decreases |body|
  {
    if m < |body| {
      assert body[..|body| - 1][..m] == body[..m];
      HeightGrows(body[..|body| - 1], m, side);
    } else {
      assert body[..m] == body;
    }
  }

  lemma HunkLinesAreChanges(p: Patch, h: Hunk, path: string, side: Side)
    requires Numbered(side) && SoundHunk(h)
    ensures var lines := BodyLines(p, h, h.body, path, side);
            var own := SidePath(p, side) == Some(path);
            && Increasing(lines)
            && Between(lines, HunkStart(h, side), HunkEnd(h, side))
            && (lines != [] ==> Height(h.body, side) > 0)
            && |lines| == (if own then Changes(h.body, side) else 0)
            && (forall n :: n in lines <==> own && ChangedInHunk(h, side, n))
  {
    assert h.body[..|h.body|] == h.body;
    if SidePath(p, side) == Some(path) {
      OwnBody(p, h, |h.body|, path, side);
      var lines := BodyLines(p, h, h.body, path, side);
      if lines != [] {
        assert lines[0] < HunkStart(h, side) + Height(h.body, side);
      }
    } else {
      ForeignBody(p, h, h.body, path, side);
    }
  }

  // ---------------------------------------------------------------- the lines of a section

  function HunksLines(p: Patch, hunks: seq<Hunk>, path: string, side: Side): seq<int> {
    LinesOf(HunkEvents(p, hunks), path, side)
  }

  lemma {:induction false} HunksLinesAreChanges(p: Patch, hunks: seq<Hunk>, path: string, side: Side)
    requires Numbered(side) && SoundHunks(hunks)
    ensures var lines := HunksLines(p, hunks, path, side);
            var own := SidePath(p, side) == Some(path);
            && |lines| == (if own then HunkChanges(hunks, side) else 0)
            && (forall n :: n in lines <==> own && ChangedInHunks(hunks, side, n))
    decreases |hunks|
  {
    if hunks != [] {
      var h, rest := hunks[0], hunks[1..];
      assert SoundHunk(h);
      HunkLinesAreChanges(p, h, path, side);
      HunksLinesAreChanges(p, rest, path, side);
      HunksLinesStep(p, hunks, path, side);
      hide Changes, HunksLines, BodyLines, ChangedInHunk, SidePath;
      forall n
        ensures ChangedInHunks(hunks, side, n) <==> ChangedInHunk(h, side, n) || ChangedInHunks(rest, side, n)
      {
        ChangedSplits(hunks, side, n);
      }
    } else {
      assert HunkEvents(p, hunks) == [];
    }
  }

  lemma HunksLinesStep(p: Patch, hunks: seq<Hunk>, path: string, side: Side)
    requires hunks != []
    ensures HunksLines(p, hunks, path, side) ==
            BodyLines(p, hunks[0], hunks[0].body, path, side) + HunksLines(p, hunks[1..], path, side)
  {
    LinesOfAppend(BodyEvents(p, hunks[0], hunks[0].body), HunkEvents(p, hunks[1..]), path, side);
  }

  lemma ChangedSplits(hunks: seq<Hunk>, side: Side, n: int)
    requires hunks != []
    ensures ChangedInHunks(hunks, side, n) <==> ChangedInHunk(hunks[0], side, n) || ChangedInHunks(hunks[1..], side, n)
  {
    hide ChangedInHunk;
    if ChangedInHunks(hunks[1..], side, n) {
      var i :| 0 <= i < |hunks[1..]| && ChangedInHunk(hunks[1..][i], side, n);
      assert ChangedInHunk(hunks[i + 1], side, n);
    }
    if ChangedInHunks(hunks, side, n) && !ChangedInHunk(hunks[0], side, n) {
      var i :| 0 <= i < |hunks| && ChangedInHunk(hunks[i], side, n);
      assert ChangedInHunk(hunks[1..][i - 1], side, n);
    }
  }

  lemma {:induction false} HunksLinesIncrease(p: Patch, hunks: seq<Hunk>, path: string, side: Side, low: int)
    requires Numbered(side) && SoundHunks(hunks) && OrderedHunks(hunks, side)
    requires forall i :: 0 <= i < |hunks| && Height(hunks[i].body, side) > 0 ==> low <= HunkStart(hunks[i], side)
    ensures var lines := HunksLines(p, hunks, path, side);
            Increasing(lines) && forall i :: 0 <= i < |lines| ==> low <= lines[i]
    decreases |hunks|
  {
    if hunks != [] {
      var h, rest := hunks[0], hunks[1..];
      assert SoundHunk(h);
      HunkLinesAreChanges(p, h, path, side);
      HunksLinesStep(p, hunks, path, side);
      hide HunksLines, BodyLines, SoundHunk, Height, ChangedInHunk;
      HunksLinesIncrease(p, rest, path, side, if Height(h.body, side) > 0 then HunkEnd(h, side) else low);
    } else {
      assert HunkEvents(p, hunks) == [];
    }
  }

  // ---------------------------------------------------------------- the lines of a diff

  function DiffLines(diff: seq<Section>, path: string, side: Side): seq<int> {
    LinesOf(Events(diff), path, side)
  }

  function SectionLines(s: Section, path: string, side: Side): seq<int> {
    LinesOf(SectionEvents(s), path, side)
  }

  lemma DiffLinesStep(diff: seq<Section>, path: string, side: Side)
    requires diff != []
    ensures DiffLines(diff, path, side) == SectionLines(diff[0], path, side) + DiffLines(diff[1..], path, side)
  {
    LinesOfAppend(SectionEvents(diff[0]), Events(diff[1..]), path, side);
  }

  lemma SectionLinesAreChanges(s: Section, path: string, side: Side)
    requires Numbered(side) && (s.patch.Some? ==> SoundHunks(s.patch.value.hunks))
    ensures var lines := SectionLines(s, path, side);
            && |lines| == (if Concerns(s, path, side) then SectionChanges(s, side) else 0)
            && (forall n :: n in lines <==> ChangedIn(s, path, side, n))
  {
    if s.patch.Some? {
      HunksLinesAreChanges(s.patch.value, s.patch.value.hunks, path, side);
    }
  }

  lemma {:induction false} DiffLinesAreChanges(diff: seq<Section>, path: string, side: Side)
    requires Numbered(side) && Sound(diff)
    ensures forall n :: n in DiffLines(diff, path, side) <==> Changed(diff, path, side, n)
    decreases |diff|
  {
    if diff != [] {
      SectionLinesAreChanges(diff[0], path, side);
      DiffLinesAreChanges(diff[1..], path, side);
      DiffLinesStep(diff, path, side);
      hide DiffLines, SectionLines;
      forall n ensures n in DiffLines(diff, path, side) <==> Changed(diff, path, side, n) {
        DiffChangedSplits(diff, path, side, n);
      }
    }
  }

  lemma DiffChangedSplits(diff: seq<Section>, path: string, side: Side, n: int)
    requires diff != []
    ensures Changed(diff, path, side, n) <==> ChangedIn(diff[0], path, side, n) || Changed(diff[1..], path, side, n)
  {
    hide ChangedIn;
    if Changed(diff[1..], path, side, n) {
      var i :| 0 <= i < |diff[1..]| && ChangedIn(diff[1..][i], path, side, n);
      assert ChangedIn(diff[i + 1], path, side, n);
    }
    if Changed(diff, path, side, n) && !ChangedIn(diff[0], path, side, n) {
      var i :| 0 <= i < |diff| && ChangedIn(diff[i], path, side, n);
      assert ChangedIn(diff[1..][i - 1], path, side, n);
    }
  }

  lemma {:induction false} UnconcernedDiff(diff: seq<Section>, path: string, side: Side)
    requires Numbered(side) && Sound(diff) && forall i :: 0 <= i < |diff| ==> !Concerns(diff[i], path, side)
    ensures DiffLines(diff, path, side) == []
    decreases |diff|
  {
    if diff != [] {
      SectionLinesAreChanges(diff[0], path, side);
      DiffLinesStep(diff, path, side);
      UnconcernedDiff(diff[1..], path, side);
    }
  }

  lemma {:induction false} OrderedDiffsIncrease(diff: seq<Section>, path: string, side: Side)
    requires Numbered(side) && Sound(diff) && Ordered(diff)
    ensures Increasing(DiffLines(diff, path, side))
    decreases |diff|
  {
    if diff != [] {
      var s := diff[0];
      SectionLinesAreChanges(s, path, side);
      DiffLinesStep(diff, path, side);
      if Concerns(s, path, side) {
        UnconcernedDiff(diff[1..], path, side);
        assert OrderedHunks(s.patch.value.hunks, side);
        HunksLinesIncrease(s.patch.value, s.patch.value.hunks, path, side, 0);
      } else {
        OrderedDiffsIncrease(diff[1..], path, side);
      }
    }
  }
}
