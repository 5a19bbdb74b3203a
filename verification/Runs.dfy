/** Runs of consecutive line numbers, as the diff reader accumulates them. */
module Runs {
  datatype Run = Run(first: int, last: int)

  /** One more changed line: it widens the last run or opens a new one. */
  function Extend(runs: seq<Run>, n: int): seq<Run> {
    if runs != [] && n <= runs[|runs| - 1].last + 1 then
      var r := runs[|runs| - 1];
      runs[..|runs| - 1] + [Run(r.first, if n > r.last then n else r.last)]
    else runs + [Run(n, n)]
  }

  function ExtendAll(runs: seq<Run>, lines: seq<int>): seq<Run>
    decreases |lines|
  {
    if lines == [] then runs else Extend(ExtendAll(runs, lines[..|lines| - 1]), lines[|lines| - 1])
  }

  /** Runs in order with at least one untouched line between neighbours. */
  ghost predicate Gapped(runs: seq<Run>) {
    && (forall i :: 0 <= i < |runs| ==> 1 <= runs[i].first <= runs[i].last)
    && (forall i, j :: 0 <= i < j < |runs| ==> runs[i].last + 1 < runs[j].first)
  }

  ghost predicate Covers(runs: seq<Run>, n: int) {
    exists i :: 0 <= i < |runs| && runs[i].first <= n <= runs[i].last
  }

  function Length(runs: seq<Run>): int
    decreases |runs|
  {
    if runs == [] then 0
    else Length(runs[..|runs| - 1]) + runs[|runs| - 1].last - runs[|runs| - 1].first + 1
  }

  ghost predicate Increasing(lines: seq<int>) {
    forall i, j :: 0 <= i < j < |lines| ==> lines[i] < lines[j]
  }

  /** The runs are the maximal runs of the given lines: apart from each other, and covering exactly them. */
  ghost predicate MaximalRuns(runs: seq<Run>, lines: seq<int>) {
    Gapped(runs) && (forall n :: Covers(runs, n) <==> n in lines)
  }

  lemma ExtendKeepsGaps(runs: seq<Run>, n: int)
    requires Gapped(runs) && n >= 1
    ensures Gapped(Extend(runs, n))
  {
  }

  /** Whatever lines arrive, in any order and with repeats, the runs stay in order and apart. */
  lemma {:induction false} AlwaysGapped(lines: seq<int>)
    requires forall i :: 0 <= i < |lines| ==> lines[i] >= 1
    ensures Gapped(ExtendAll([], lines))
    decreases |lines|
  {
    if lines != [] {
      AlwaysGapped(lines[..|lines| - 1]);
      ExtendKeepsGaps(ExtendAll([], lines[..|lines| - 1]), lines[|lines| - 1]);
    }
  }

  /** A line beyond everything seen so far adds itself to what is covered, and nothing else. */
  lemma ExtendCovers(runs: seq<Run>, n: int)
    requires Gapped(runs) && (runs != [] ==> runs[|runs| - 1].last < n)
    ensures forall m :: Covers(Extend(runs, n), m) <==> Covers(runs, m) || m == n
    ensures Length(Extend(runs, n)) == Length(runs) + 1
    ensures Extend(runs, n) != [] && Extend(runs, n)[|Extend(runs, n)| - 1].last == n
  {
    var out := Extend(runs, n);
    var k := |runs| - 1;
    if runs != [] && n <= runs[k].last + 1 {
      assert out[..|out| - 1] == runs[..k];
      forall m ensures Covers(out, m) <==> Covers(runs, m) || m == n {
        if Covers(runs, m) {
          var i :| 0 <= i < |runs| && runs[i].first <= m <= runs[i].last;
          assert out[i].first <= m <= out[i].last;
        }
        if m == n {
          assert out[k].first <= m <= out[k].last;
        }
        if Covers(out, m) {
          var i :| 0 <= i < |out| && out[i].first <= m <= out[i].last;
          assert i < k ==> out[i] == runs[i];
          assert m == n || runs[i].first <= m <= runs[i].last;
        }
      }
    } else {
      assert out[..|out| - 1] == runs;
      forall m ensures Covers(out, m) <==> Covers(runs, m) || m == n {
        if Covers(runs, m) {
          var i :| 0 <= i < |runs| && runs[i].first <= m <= runs[i].last;
          assert out[i] == runs[i];
        }
        if m == n {
          assert out[|runs|].first <= m <= out[|runs|].last;
        }
      }
    }
  }

  /** Increasing lines give exactly their maximal runs, and the run lengths add up to their number. */
  lemma {:induction false} IncreasingGivesMaximalRuns(lines: seq<int>)
    requires Increasing(lines) && (forall i :: 0 <= i < |lines| ==> lines[i] >= 1)
    ensures MaximalRuns(ExtendAll([], lines), lines)
    ensures Length(ExtendAll([], lines)) == |lines|
    ensures ExtendAll([], lines) == [] <==> lines == []
    ensures lines != [] ==> ExtendAll([], lines)[|ExtendAll([], lines)| - 1].last == lines[|lines| - 1]
    decreases |lines|
  {
    if lines != [] {
      var front, n := lines[..|lines| - 1], lines[|lines| - 1];
      IncreasingGivesMaximalRuns(front);
      var runs := ExtendAll([], front);
      ExtendKeepsGaps(runs, n);
      ExtendCovers(runs, n);
      forall m ensures Covers(Extend(runs, n), m) <==> m in lines {
        InLast(lines, m);
      }
    }
  }

  lemma InLast(lines: seq<int>, m: int)
    requires lines != []
    ensures m in lines <==> m in lines[..|lines| - 1] || m == lines[|lines| - 1]
  {
    assert lines == lines[..|lines| - 1] + [lines[|lines| - 1]];
  }

  /** There is only one way to cut a set of lines into maximal runs. */
  lemma {:induction false} MaximalRunsAreUnique(a: seq<Run>, b: seq<Run>)
    requires Gapped(a) && Gapped(b)
    requires forall n :: Covers(a, n) <==> Covers(b, n)
    ensures a == b
    decreases |a|
  {
    assert a != [] ==> Covers(a, a[0].first);
    assert b != [] ==> Covers(b, b[0].first);
    assert a == [] <==> b == [];
    if a != [] {
      FirstRunsAgree(a, b);
      FirstRunsAgree(b, a);
      assert a[0] == b[0];
      forall n ensures Covers(a[1..], n) <==> Covers(b[1..], n) {
        DropFirst(a, n);
        DropFirst(b, n);
      }
      MaximalRunsAreUnique(a[1..], b[1..]);
      assert a == [a[0]] + a[1..] && b == [b[0]] + b[1..];
    }
  }

  lemma DropFirst(runs: seq<Run>, n: int)
    requires Gapped(runs) && runs != []
    ensures Gapped(runs[1..])
    ensures Covers(runs[1..], n) <==> Covers(runs, n) && n > runs[0].last
  {
    if Covers(runs[1..], n) {
      var i :| 0 <= i < |runs[1..]| && runs[1..][i].first <= n <= runs[1..][i].last;
      assert runs[i + 1].first <= n <= runs[i + 1].last;
    }
    if Covers(runs, n) && n > runs[0].last {
      var i :| 0 <= i < |runs| && runs[i].first <= n <= runs[i].last;
      assert runs[1..][i - 1] == runs[i];
    }
  }

  /** Covered lines just below or above a run's ends would have to belong to it. */
  lemma FirstRunsAgree(a: seq<Run>, b: seq<Run>)
    requires Gapped(a) && Gapped(b) && a != [] && b != []
    requires forall n :: Covers(a, n) <==> Covers(b, n)
    ensures a[0].first >= b[0].first
    ensures a[0].first == b[0].first ==> a[0].last <= b[0].last
  {
    var n := b[0].last + 1;
    assert Covers(a, a[0].first);
    assert a[0].first <= n <= a[0].last ==> Covers(a, n);
    GapAfterFirst(b);
  }

  lemma GapAfterFirst(runs: seq<Run>)
    requires Gapped(runs) && runs != []
    ensures !Covers(runs, runs[0].last + 1)
  {
  }

  // ---------------------------------------------------------------- any order

  /** A line that is larger than every line before it. */
  ghost predicate Peak(lines: seq<int>, n: int) {
    exists k :: 0 <= k < |lines| && lines[k] == n && forall j :: 0 <= j < k ==> lines[j] < n
  }

  /** The runs end at the largest line. */
  ghost predicate EndsAtLargest(runs: seq<Run>, lines: seq<int>) {
    && (runs == [] <==> lines == [])
    && (runs != [] ==> runs[|runs| - 1].last in lines)
    && (forall n :: n in lines ==> runs != [] && n <= runs[|runs| - 1].last)
  }

  lemma {:induction false} AlwaysEndsAtLargest(lines: seq<int>)
    requires forall i :: 0 <= i < |lines| ==> lines[i] >= 1
    ensures EndsAtLargest(ExtendAll([], lines), lines)
    decreases |lines|
  {
    if lines != [] {
      AlwaysEndsAtLargest(lines[..|lines| - 1]);
      forall n ensures n in lines <==> n in lines[..|lines| - 1] || n == lines[|lines| - 1] {
        InLast(lines, n);
      }
    }
  }

  ghost predicate Tops(n: int, lines: seq<int>) {
    forall i :: 0 <= i < |lines| ==> lines[i] < n
  }

  lemma SmallerLinesAreMerged(runs: seq<Run>, lines: seq<int>, n: int)
    requires EndsAtLargest(runs, lines)
    ensures runs != [] && n <= runs[|runs| - 1].last <==> !Tops(n, lines)
    ensures !Tops(n, lines) ==> Extend(runs, n) == runs
  {
    if !Tops(n, lines) {
      var i :| 0 <= i < |lines| && lines[i] >= n;
      assert lines[i] in lines;
    }
  }

  /** In whatever order lines arrive, exactly the peaks are kept: a line that comes after a larger
      one is merged into the run of the larger one and lost. */
  lemma {:induction false} ExactlyPeaksAreCovered(lines: seq<int>, m: int)
    requires forall i :: 0 <= i < |lines| ==> lines[i] >= 1
    ensures Covers(ExtendAll([], lines), m) <==> Peak(lines, m)
    decreases |lines|
  {
    if lines != [] {
      hide Covers, Peak, Tops, EndsAtLargest, Extend, Gapped;
      var front, n := lines[..|lines| - 1], lines[|lines| - 1];
      ExactlyPeaksAreCovered(front, m);
      AlwaysGapped(front);
      AlwaysEndsAtLargest(front);
      PeakStep(lines, m);
      SmallerLinesAreMerged(ExtendAll([], front), front, n);
      if Tops(n, front) {
        ExtendCovers(ExtendAll([], front), n);
      }
    } else {
      assert ExtendAll([], lines) == [];
    }
  }

  lemma PeakStep(lines: seq<int>, m: int)
    requires lines != []
    ensures var front, n := lines[..|lines| - 1], lines[|lines| - 1];
            Peak(lines, m) <==> Peak(front, m) || (m == n && Tops(n, front))
  {
    var front := lines[..|lines| - 1];
    if Peak(lines, m) {
      var k :| 0 <= k < |lines| && lines[k] == m && forall j :: 0 <= j < k ==> lines[j] < m;
      if k < |front| {
        assert front[k] == m;
      }
    }
    if Peak(front, m) {
      var k :| 0 <= k < |front| && front[k] == m && forall j :: 0 <= j < k ==> front[j] < m;
      assert lines[k] == m;
    }
  }

  /** So nothing is lost exactly when every line that does not exceed all lines before it repeats
      one of them. */
  ghost predicate NothingFallsBack(lines: seq<int>) {
    forall k :: 0 <= k < |lines| ==> lines[k] in lines[..k] || forall j :: 0 <= j < k ==> lines[j] < lines[k]
  }

  lemma ExactWhenNothingFallsBack(lines: seq<int>)
    requires forall i :: 0 <= i < |lines| ==> lines[i] >= 1
    ensures MaximalRuns(ExtendAll([], lines), lines) <==> NothingFallsBack(lines)
  {
    AlwaysGapped(lines);
    forall n ensures Covers(ExtendAll([], lines), n) <==> Peak(lines, n) {
      ExactlyPeaksAreCovered(lines, n);
    }
    if NothingFallsBack(lines) {
      forall n ensures Peak(lines, n) <==> n in lines {
        if n in lines {
          FirstOccurrence(lines, n);
        }
      }
    }
    if MaximalRuns(ExtendAll([], lines), lines) {
      forall k | 0 <= k < |lines|
        ensures lines[k] in lines[..k] || forall j :: 0 <= j < k ==> lines[j] < lines[k]
      {
        assert Peak(lines, lines[k]);
        var i :| 0 <= i < |lines| && lines[i] == lines[k] && forall j :: 0 <= j < i ==> lines[j] < lines[k];
        if i < k {
          assert lines[..k][i] == lines[k];
        }
      }
    }
  }

  lemma {:induction false} FirstOccurrence(lines: seq<int>, n: int)
    requires NothingFallsBack(lines) && n in lines
    ensures Peak(lines, n)
    decreases |lines|
  {
    var front := lines[..|lines| - 1];
    PeakStep(lines, n);
    InLast(lines, n);
    if n in front {
      forall k | 0 <= k < |front|
        ensures front[k] in front[..k] || forall j :: 0 <= j < k ==> front[j] < front[k]
      {
        assert lines[..k] == front[..k];
      }
      FirstOccurrence(front, n);
    }
  }
}
