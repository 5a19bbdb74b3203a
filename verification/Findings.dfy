/** Splitting a reviewer's findings into those that can be published in place and those that cannot. */
module Findings {
  import opened Values
  import opened Runs
  import opened RepositoryPath
  import opened ReviewRanges

  /** A finding; its text plays no part in locating it. */
  datatype Finding = Finding(path: string, side: Side, first: int, last: int, text: nat)

  function ClipOf(c: ChangedRanges, f: Finding): Option<Run> {
    Clip(c, f.path, f.side, f.first, f.last)
  }

  function ReasonOf(c: ChangedRanges, f: Finding): Option<Reason> {
    RejectionReason(c, f.path, f.side, f.first, f.last)
  }

  function Clipped(f: Finding, r: Run): Finding {
    f.(first := r.first, last := r.last)
  }

  /** The findings that can be located, as they came. */
  function Kept(c: ChangedRanges, findings: seq<Finding>): seq<Finding>
    decreases |findings|
  {
    if findings == [] then []
    else
      var f := findings[|findings| - 1];
      Kept(c, findings[..|findings| - 1]) + if ClipOf(c, f).Some? then [f] else []
  }

  function Published(c: ChangedRanges, findings: seq<Finding>): seq<Finding>
    decreases |findings|
  {
    if findings == [] then []
    else
      var f := findings[|findings| - 1];
      Published(c, findings[..|findings| - 1]) + if ClipOf(c, f).Some? then [Clipped(f, ClipOf(c, f).value)] else []
  }

  function Pending(c: ChangedRanges, findings: seq<Finding>): seq<(Finding, Reason)>
    decreases |findings|
  {
    if findings == [] then []
    else
      var f := findings[|findings| - 1];
      Pending(c, findings[..|findings| - 1]) + if ReasonOf(c, f).Some? then [(f, ReasonOf(c, f).value)] else []
  }

  function Firsts(pending: seq<(Finding, Reason)>): seq<Finding>
    decreases |pending|
  {
    if pending == [] then [] else Firsts(pending[..|pending| - 1]) + [pending[|pending| - 1].0]
  }

  method ValidateFindings(findings: seq<Finding>, c: ChangedRanges) returns (published: seq<Finding>, changed: bool)
    ensures published == Published(c, findings)
    ensures changed <==> published != findings
  {
    published, changed := [], false;
    for n := 0 to |findings|
      invariant published == Published(c, findings[..n]) && |published| <= n
      invariant changed <==> published != findings[..n]
    {
      var f := findings[n];
      assert findings[..n + 1][..n] == findings[..n];
      assert findings[..n + 1] == findings[..n] + [f];
      var clipped := Clip(c, f.path, f.side, f.first, f.last);
      if clipped.None? {
        changed := true;
        continue;
      }
      var located := f;
      if clipped.value != Run(f.first, f.last) {
        located := f.(first := clipped.value.first, last := clipped.value.last);
        changed := true;
      }
      if published + [located] == findings[..n] + [f] {
        assert (published + [located])[..n] == published && (findings[..n] + [f])[..n] == findings[..n];
        assert (published + [located])[n] == located;
      }
      published := published + [located];
    }
    assert findings[..|findings|] == findings;
  }

  method UnlocatedFindings(findings: seq<Finding>, c: ChangedRanges) returns (pending: seq<(Finding, Reason)>)
    ensures pending == Pending(c, findings)
  {
    pending := [];
    for n := 0 to |findings|
      invariant pending == Pending(c, findings[..n])
    {
      var f := findings[n];
      assert findings[..n + 1][..n] == findings[..n];
      var reason := RejectionReason(c, f.path, f.side, f.first, f.last);
      if reason.Some? {
        pending := pending + [(f, reason.value)];
      }
    }
    assert findings[..|findings|] == findings;
  }

  lemma ReasonExactlyWhenNotClipped(c: ChangedRanges, f: Finding)
    ensures ReasonOf(c, f).None? <==> ClipOf(c, f).Some?
  {
  }

  lemma FirstsAppend(pending: seq<(Finding, Reason)>, p: (Finding, Reason))
    ensures Firsts(pending + [p]) == Firsts(pending) + [p.0]
  {
    assert (pending + [p])[..|pending|] == pending;
  }

  /** No finding is lost and none is repeated: those kept for publication and those pending are
      together exactly the findings given. */
  lemma {:induction false} NothingLost(c: ChangedRanges, findings: seq<Finding>)
    ensures multiset(Kept(c, findings)) + multiset(Firsts(Pending(c, findings))) == multiset(findings)
    decreases |findings|
  {
    hide ClipOf, ReasonOf, Firsts;
    if findings == [] {
      assert Firsts([]) == [] by {
        NoFirsts();
      }
    } else {
      var front, f := findings[..|findings| - 1], findings[|findings| - 1];
      NothingLost(c, front);
      assert findings == front + [f];
      ReasonExactlyWhenNotClipped(c, f);
      if ReasonOf(c, f).Some? {
        FirstsAppend(Pending(c, front), (f, ReasonOf(c, f).value));
        assert Kept(c, findings) == Kept(c, front);
      } else {
        assert Pending(c, findings) == Pending(c, front);
      }
    }
  }

  lemma NoFirsts()
    ensures Firsts([]) == []
  {
  }

  /** Nothing is changed on the way but the line range, and each pending finding carries its reason. */
  lemma {:induction false} NothingElseChanges(c: ChangedRanges, findings: seq<Finding>)
    ensures |Published(c, findings)| == |Kept(c, findings)|
    ensures forall i :: 0 <= i < |Kept(c, findings)| ==>
              ClipOf(c, Kept(c, findings)[i]).Some? &&
              Published(c, findings)[i] == Clipped(Kept(c, findings)[i], ClipOf(c, Kept(c, findings)[i]).value)
    ensures forall p :: p in Pending(c, findings) ==> ReasonOf(c, p.0) == Some(p.1)
    decreases |findings|
  {
    hide ClipOf, ReasonOf;
    if findings != [] {
      NothingElseChanges(c, findings[..|findings| - 1]);
    }
  }

  /** Both parts keep the order in which the findings came: taking the findings one by one from the front
      splits them alike. */
  lemma {:induction false} OrderIsKept(c: ChangedRanges, a: seq<Finding>, b: seq<Finding>)
    ensures Kept(c, a + b) == Kept(c, a) + Kept(c, b)
    ensures Published(c, a + b) == Published(c, a) + Published(c, b)
    ensures Pending(c, a + b) == Pending(c, a) + Pending(c, b)
    decreases |b|
  {
    hide ClipOf, ReasonOf, Clipped;
    if b == [] {
      assert a + b == a;
    } else {
      var front := b[..|b| - 1];
      assert (a + b)[..|a + b| - 1] == a + front;
      OrderIsKept(c, a, front);
    }
  }

  lemma ClippedFinding(c: ChangedRanges, f: Finding)
    requires WellFormed(c) && ClipOf(c, f).Some?
    ensures var g := Clipped(f, ClipOf(c, f).value);
            && ClipOf(c, g).Some? && Clipped(g, ClipOf(c, g).value) == g && ReasonOf(c, g) == None
            && OnChangedLines(c, g)
  {
    ClipIsExact(c, f.path, f.side, f.first, f.last);
    assert ClipOf(c, Clipped(f, ClipOf(c, f).value)) == ClipOf(c, f);
  }

  ghost predicate OnChangedLines(c: ChangedRanges, f: Finding) {
    Normalize(f.path).Some? &&
    forall n :: f.first <= n <= f.last ==> Covers(Intervals(c, Normalize(f.path).value, f.side), n)
  }

  /** What is published stays publishable: validating it again changes nothing and leaves nothing
      pending, and every line it names was changed. */
  lemma {:induction false} PublishedIsStable(c: ChangedRanges, findings: seq<Finding>)
    requires WellFormed(c)
    ensures Published(c, Published(c, findings)) == Published(c, findings)
    ensures Pending(c, Published(c, findings)) == []
    ensures forall f :: f in Published(c, findings) ==> OnChangedLines(c, f)
    decreases |findings|
  {
    hide ClipOf, ReasonOf, Clipped, OnChangedLines, WellFormed;
    if findings != [] {
      var front, f := findings[..|findings| - 1], findings[|findings| - 1];
      PublishedIsStable(c, front);
      if ClipOf(c, f).Some? {
        ClippedFinding(c, f);
        var g := Clipped(f, ClipOf(c, f).value);
        AppendOne(c, Published(c, front), g);
        assert Published(c, findings) == Published(c, front) + [g];
      } else {
        assert Published(c, findings) == Published(c, front);
      }
    }
  }

  lemma AppendOne(c: ChangedRanges, findings: seq<Finding>, g: Finding)
    ensures ClipOf(c, g).Some? ==>
              Published(c, findings + [g]) == Published(c, findings) + [Clipped(g, ClipOf(c, g).value)]
    ensures ReasonOf(c, g).None? ==> Pending(c, findings + [g]) == Pending(c, findings)
  {
    assert (findings + [g])[..|findings|] == findings;
  }
}
