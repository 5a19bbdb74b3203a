/** Changed ranges of a pull request and the rule that decides which findings may be published. */
module ReviewRanges {
  import opened Values
  import opened Runs
  import opened RepositoryPath

  /** Callers pass sides as text; anything but LEFT and RIGHT is refused. */
  datatype Side = Left | Right | OtherSide(text: string)

  datatype ChangedRanges = ChangedRanges(
    ranges: map<(string, Side), seq<Run>>,
    comparison: Option<Commit>,
    files: nat,
    additions: nat,
    deletions: nat)

  function Intervals(c: ChangedRanges, path: string, side: Side): seq<Run> {
    if (path, side) in c.ranges then c.ranges[(path, side)] else []
  }

  predicate Touches(r: Run, start: int, end: int) {
    Max(start, r.first) <= Min(end, r.last)
  }

  /** Overlaps of the span with the runs, each kept once, in order of first appearance. */
  function Overlaps(runs: seq<Run>, start: int, end: int): seq<Run>
    decreases |runs|
  {
    if runs == [] then []
    else
      var before := Overlaps(runs[..|runs| - 1], start, end);
      var r := runs[|runs| - 1];
      var overlap := Run(Max(start, r.first), Min(end, r.last));
      if Touches(r, start, end) && overlap !in before then before + [overlap] else before
  }

  predicate BadSpan(path: string, side: Side, start: int, end: int) {
    Normalize(path).None? || side.OtherSide? || start < 1 || end < start
  }

  function Clip(c: ChangedRanges, path: string, side: Side, start: int, end: int): Option<Run> {
    if BadSpan(path, side, start, end) then None
    else
      var overlaps := Overlaps(Intervals(c, Normalize(path).value, side), start, end);
      if |overlaps| != 1 then None
      else
        var o := overlaps[0];
        if o.first - start + end - o.last <= 1 then Some(o) else None
  }

  predicate Contains(c: ChangedRanges, path: string, side: Side, start: int, end: int) {
    Clip(c, path, side, start, end) == Some(Run(start, end))
  }

  datatype Reason = BadLocation | NothingChangedThere | NotOnChangedLines | SpansSeveralRuns | TooMuchContext

  function RejectionReason(c: ChangedRanges, path: string, side: Side, start: int, end: int): Option<Reason> {
    if Clip(c, path, side, start, end).Some? then None
    else if BadSpan(path, side, start, end) then Some(BadLocation)
    else
      var runs := Intervals(c, Normalize(path).value, side);
      var overlaps := Overlaps(runs, start, end);
      if runs == [] then Some(NothingChangedThere)
      else if overlaps == [] then Some(NotOnChangedLines)
      else if |overlaps| > 1 then Some(SpansSeveralRuns)
      else Some(TooMuchContext)
  }

  // ---------------------------------------------------------------- what clipping means

  ghost function UnchangedIn(runs: seq<Run>, start: int, end: int): set<int> {
    set n | start <= n <= end && !Covers(runs, n)
  }

  ghost predicate TouchesOnly(runs: seq<Run>, start: int, end: int, k: int) {
    0 <= k < |runs| && forall i :: 0 <= i < |runs| ==> (Touches(runs[i], start, end) <==> i == k)
  }

  /** The publishing rule in words: a sound location whose span touches exactly one run of changed
      lines and holds at most one unchanged line. */
  ghost predicate Publishable(c: ChangedRanges, path: string, side: Side, start: int, end: int) {
    && Normalize(path).Some? && (side == Left || side == Right) && 1 <= start <= end
    && var runs := Intervals(c, Normalize(path).value, side);
       && (exists k :: TouchesOnly(runs, start, end, k))
       && |UnchangedIn(runs, start, end)| <= 1
  }

  /** A run is touched when it and the span have a line in common. */
  lemma TouchesExactly(r: Run, start: int, end: int)
    requires r.first <= r.last
    ensures Touches(r, start, end) <==> exists n :: start <= n <= end && Covers([r], n)
  {
    if Touches(r, start, end) {
      assert [r][0] == r && Covers([r], Max(start, r.first));
    }
  }

  function Overlap(r: Run, start: int, end: int): Run {
    Run(Max(start, r.first), Min(end, r.last))
  }

  lemma {:induction false} OverlapsLieBelow(runs: seq<Run>, start: int, end: int)
    requires Gapped(runs)
    ensures forall o :: o in Overlaps(runs, start, end) ==> runs != [] && o.first <= o.last <= runs[|runs| - 1].last
    decreases |runs|
  {
    if runs != [] {
      OverlapsLieBelow(runs[..|runs| - 1], start, end);
    }
  }

  /** On runs that lie apart no two overlaps are equal, so none is merged away. */
  lemma OverlapsStep(runs: seq<Run>, start: int, end: int)
    requires Gapped(runs) && runs != []
    ensures var r, before := runs[|runs| - 1], Overlaps(runs[..|runs| - 1], start, end);
            Overlaps(runs, start, end) == if Touches(r, start, end) then before + [Overlap(r, start, end)] else before
  {
    OverlapsLieBelow(runs[..|runs| - 1], start, end);
  }

  lemma {:induction false} UntouchedHaveNoOverlaps(runs: seq<Run>, start: int, end: int)
    requires Gapped(runs)
    ensures Overlaps(runs, start, end) == [] <==> forall i :: 0 <= i < |runs| ==> !Touches(runs[i], start, end)
    decreases |runs|
  {
    if runs != [] {
      OverlapsStep(runs, start, end);
      UntouchedHaveNoOverlaps(runs[..|runs| - 1], start, end);
    }
  }

  lemma {:induction false} OneTouchedGivesOneOverlap(runs: seq<Run>, start: int, end: int, k: int)
    requires Gapped(runs) && TouchesOnly(runs, start, end, k)
    ensures Overlaps(runs, start, end) == [Overlap(runs[k], start, end)]
    decreases |runs|
  {
    OverlapsStep(runs, start, end);
    if k == |runs| - 1 {
      UntouchedHaveNoOverlaps(runs[..k], start, end);
    } else {
      assert Touches(runs[|runs| - 1], start, end) <==> false;
      OneTouchedGivesOneOverlap(runs[..|runs| - 1], start, end, k);
    }
  }

  lemma {:induction false} TwoTouchedGiveTwoOverlaps(runs: seq<Run>, start: int, end: int, i: int, j: int)
    requires Gapped(runs) && 0 <= i < j < |runs| && Touches(runs[i], start, end) && Touches(runs[j], start, end)
    ensures |Overlaps(runs, start, end)| >= 2
    decreases |runs|
  {
    OverlapsStep(runs, start, end);
    if j == |runs| - 1 {
      UntouchedHaveNoOverlaps(runs[..j], start, end);
      assert runs[..j][i] == runs[i];
    } else {
      TwoTouchedGiveTwoOverlaps(runs[..|runs| - 1], start, end, i, j);
    }
  }

  /** So there is one overlap exactly when one run is touched. */
  lemma OneOverlapMeansOneTouched(runs: seq<Run>, start: int, end: int)
    requires Gapped(runs)
    ensures |Overlaps(runs, start, end)| == 1 <==> exists k :: TouchesOnly(runs, start, end, k)
  {
    if k :| TouchesOnly(runs, start, end, k) {
      OneTouchedGivesOneOverlap(runs, start, end, k);
    } else {
      UntouchedHaveNoOverlaps(runs, start, end);
      if i :| 0 <= i < |runs| && Touches(runs[i], start, end) {
        assert !TouchesOnly(runs, start, end, i);
        var j :| 0 <= j < |runs| && j != i && Touches(runs[j], start, end);
        TwoTouchedGiveTwoOverlaps(runs, start, end, Min(i, j), Max(i, j));
      }
    }
  }

  function Range(lo: int, hi: int): (s: set<int>)
    requires lo <= hi
    ensures forall n :: n in s <==> lo <= n < hi
    ensures |s| == hi - lo
    decreases hi - lo
  {
    if lo == hi then {} else Range(lo, hi - 1) + {hi - 1}
  }

  lemma CoveredInSpan(runs: seq<Run>, start: int, end: int, k: int, n: int)
    requires TouchesOnly(runs, start, end, k) && start <= n <= end
    ensures Covers(runs, n) <==> Overlap(runs[k], start, end).first <= n <= Overlap(runs[k], start, end).last
  {
    if Overlap(runs[k], start, end).first <= n <= Overlap(runs[k], start, end).last {
      assert runs[k].first <= n <= runs[k].last;
    }
    if Covers(runs, n) {
      var i :| 0 <= i < |runs| && runs[i].first <= n <= runs[i].last;
      assert Touches(runs[i], start, end);
    }
  }

  /** The lines of a span outside its only touched run are its unchanged lines; the arithmetic of
      the clip counts them. */
  lemma ContextIsUnchanged(runs: seq<Run>, start: int, end: int, k: int)
    requires start <= end && TouchesOnly(runs, start, end, k)
    ensures var o := Overlap(runs[k], start, end);
            |UnchangedIn(runs, start, end)| == o.first - start + end - o.last
  {
    var o := Overlap(runs[k], start, end);
    assert Touches(runs[k], start, end);
    var below, above := Range(start, o.first), Range(o.last + 1, end + 1);
    forall n ensures n in UnchangedIn(runs, start, end) <==> n in below + above {
      if start <= n <= end {
        CoveredInSpan(runs, start, end, k, n);
      }
    }
    assert UnchangedIn(runs, start, end) == below + above;
    assert below !! above;
  }

  ghost predicate WellFormed(c: ChangedRanges) {
    forall key :: key in c.ranges ==> Gapped(c.ranges[key])
  }

  lemma IntervalsAreGapped(c: ChangedRanges, path: string, side: Side)
    requires WellFormed(c)
    ensures Gapped(Intervals(c, path, side))
  {
  }

  /** Clipping succeeds exactly on the publishable spans; it returns changed lines of the span only,
      all of them, and clips to itself. */
  lemma ClipIsExact(c: ChangedRanges, path: string, side: Side, start: int, end: int)
    requires WellFormed(c)
    ensures Clip(c, path, side, start, end).Some? <==> Publishable(c, path, side, start, end)
    ensures Clip(c, path, side, start, end).Some? ==>
              var o := Clip(c, path, side, start, end).value;
              var runs := Intervals(c, Normalize(path).value, side);
              && start <= o.first <= o.last <= end
              && (forall n :: start <= n <= end ==> (Covers(runs, n) <==> o.first <= n <= o.last))
              && Contains(c, path, side, o.first, o.last)
  {
    if !BadSpan(path, side, start, end) {
      var runs := Intervals(c, Normalize(path).value, side);
      IntervalsAreGapped(c, Normalize(path).value, side);
      OneOverlapMeansOneTouched(runs, start, end);
      if k :| TouchesOnly(runs, start, end, k) {
        OneTouchedGivesOneOverlap(runs, start, end, k);
        ContextIsUnchanged(runs, start, end, k);
        ClippedStaysClipped(runs, start, end, k);
      }
    }
  }

  lemma ClippedStaysClipped(runs: seq<Run>, start: int, end: int, k: int)
    requires Gapped(runs) && start <= end && TouchesOnly(runs, start, end, k)
    ensures var o := Overlap(runs[k], start, end);
            && Overlaps(runs, o.first, o.last) == [o]
            && (forall n :: start <= n <= end ==> (Covers(runs, n) <==> o.first <= n <= o.last))
  {
    var o := Overlap(runs[k], start, end);
    assert TouchesOnly(runs, o.first, o.last, k);
    OneTouchedGivesOneOverlap(runs, o.first, o.last, k);
    forall n | start <= n <= end
      ensures Covers(runs, n) <==> o.first <= n <= o.last
    {
      CoveredInSpan(runs, start, end, k, n);
    }
  }

  /** A rejection names what is wrong with the span. */
  lemma ReasonIsRight(c: ChangedRanges, path: string, side: Side, start: int, end: int)
    requires WellFormed(c)
    ensures var reason := RejectionReason(c, path, side, start, end);
            && (reason == None <==> Publishable(c, path, side, start, end))
            && (reason == Some(BadLocation) <==>
                  Normalize(path).None? || (side != Left && side != Right) || start < 1 || end < start)
            && (Normalize(path).Some? && (side == Left || side == Right) && 1 <= start <= end ==>
                  var runs := Intervals(c, Normalize(path).value, side);
                  && (reason == Some(NothingChangedThere) <==> runs == [])
                  && (reason == Some(NotOnChangedLines) <==>
                        runs != [] && forall n :: start <= n <= end ==> !Covers(runs, n))
                  && (reason == Some(TooMuchContext) <==>
                        (exists k :: TouchesOnly(runs, start, end, k)) && |UnchangedIn(runs, start, end)| > 1))
  {
    ClipIsExact(c, path, side, start, end);
    if !BadSpan(path, side, start, end) {
      var runs := Intervals(c, Normalize(path).value, side);
      IntervalsAreGapped(c, Normalize(path).value, side);
      OneOverlapMeansOneTouched(runs, start, end);
      UntouchedHaveNoOverlaps(runs, start, end);
      TouchingIsCovering(runs, start, end);
    }
  }

  lemma TouchingIsCovering(runs: seq<Run>, start: int, end: int)
    requires Gapped(runs) && start <= end
    ensures (forall i :: 0 <= i < |runs| ==> !Touches(runs[i], start, end)) <==>
            (forall n :: start <= n <= end ==> !Covers(runs, n))
  {
    if i :| 0 <= i < |runs| && Touches(runs[i], start, end) {
      var n := Max(start, runs[i].first);
      assert runs[i].first <= n <= runs[i].last;
      assert Covers(runs, n);
    }
    if n :| start <= n <= end && Covers(runs, n) {
      var i :| 0 <= i < |runs| && runs[i].first <= n <= runs[i].last;
      assert Touches(runs[i], start, end);
    }
  }
}
