/** Paged issue listing with an early stop, newest first. */
module ListIssues {
  import opened Values
  import opened Paging

  datatype Issue = Issue(id: nat, number: nat, updated: Option<int>, content: string)

  predicate Newer(x: Issue, since: Option<int>) {
    since.None? || x.updated.None? || x.updated.value >= since.value
  }

  /** The simple form: every issue of the whole list that is not older than the cursor. */
  function Filter(listing: seq<Issue>, since: Option<int>): (kept: seq<Issue>)
    ensures |kept| <= |listing|
    decreases |listing|
  {
    if listing == [] then []
    else
      var x := listing[|listing| - 1];
      Filter(listing[..|listing| - 1], since) + if Newer(x, since) then [x] else []
  }

  lemma {:induction false} FilterAppend(a: seq<Issue>, b: seq<Issue>, since: Option<int>)
    ensures Filter(a + b, since) == Filter(a, since) + Filter(b, since)
    decreases |b|
  {
    if b == [] {
      assert a + b == a;
    } else {
      assert (a + b)[..|a + b| - 1] == a + b[..|b| - 1];
      FilterAppend(a, b[..|b| - 1], since);
    }
  }

  lemma {:induction false} FilterKeepsAll(a: seq<Issue>, since: Option<int>)
    ensures |Filter(a, since)| == |a| <==> forall i :: 0 <= i < |a| ==> Newer(a[i], since)
    ensures |Filter(a, since)| == |a| ==> Filter(a, since) == a
    decreases |a|
  {
    if a != [] {
      FilterKeepsAll(a[..|a| - 1], since);
    }
  }

  lemma {:induction false} FilterDropsAll(a: seq<Issue>, since: Option<int>)
    requires forall i :: 0 <= i < |a| ==> !Newer(a[i], since)
    ensures Filter(a, since) == []
    decreases |a|
  {
    if a != [] {
      FilterDropsAll(a[..|a| - 1], since);
    }
  }

  lemma {:induction false} FilterHas(a: seq<Issue>, since: Option<int>, x: Issue)
    ensures x in Filter(a, since) <==> x in a && (since == None || x.updated == None || x.updated.value >= since.value)
    decreases |a|
  {
    if a != [] {
      FilterHas(a[..|a| - 1], since, x);
      assert a == a[..|a| - 1] + [a[|a| - 1]];
    }
  }

  predicate Distinct(listing: seq<Issue>) {
    forall i, j :: 0 <= i < j < |listing| ==> listing[i].id != listing[j].id
  }

  /** Dated and newest first, as the server is asked to sort. */
  ghost predicate NewestFirst(listing: seq<Issue>) {
    && (forall i :: 0 <= i < |listing| ==> listing[i].updated.Some?)
    && (forall i, j :: 0 <= i < j < |listing| ==> listing[i].updated.value >= listing[j].updated.value)
  }

  function IdsOf(listing: seq<Issue>): (ids: set<nat>)
    ensures forall id :: id in ids <==> exists i :: 0 <= i < |listing| && listing[i].id == id
  {
    set i | 0 <= i < |listing| :: listing[i].id
  }

  lemma IdsAppend(a: seq<Issue>, b: seq<Issue>)
    ensures IdsOf(a + b) == IdsOf(a) + IdsOf(b)
  {
    assert forall i :: 0 <= i < |a| ==> (a + b)[i] == a[i];
    assert forall i :: 0 <= i < |b| ==> (a + b)[|a| + i] == b[i];
  }

  lemma DistinctSplits(a: seq<Issue>, b: seq<Issue>)
    ensures Distinct(a + b) <==> Distinct(a) && Distinct(b) && IdsOf(a) !! IdsOf(b)
  {
    var ab := a + b;
    if Distinct(ab) {
      assert forall i :: 0 <= i < |a| ==> ab[i] == a[i];
      assert forall i :: 0 <= i < |b| ==> ab[|a| + i] == b[i];
      forall id | id in IdsOf(a) ensures id !in IdsOf(b) {
        var i :| 0 <= i < |a| && a[i].id == id;
        assert ab[i].id == id;
        forall j | 0 <= j < |b| ensures b[j].id != id {
          assert ab[|a| + j].id != ab[i].id;
        }
      }
    } else {
      var i, j :| 0 <= i < j < |ab| && ab[i].id == ab[j].id;
      if i < |a| <= j {
        assert a[i].id in IdsOf(a) && b[j - |a|].id in IdsOf(b);
      } else if i >= |a| {
        assert b[i - |a|].id == b[j - |a|].id;
      }
    }
  }

  /** Fewer ids than issues means a repetition on the page. */
  lemma {:induction false} DistinctCounts(page: seq<Issue>)
    ensures |IdsOf(page)| <= |page|
    ensures |IdsOf(page)| == |page| <==> Distinct(page)
    decreases |page|
  {
    if page == [] {
      assert IdsOf(page) == {};
    } else {
      var front, last := page[..|page| - 1], [page[|page| - 1]];
      DistinctCounts(front);
      assert page == front + last;
      IdsAppend(front, last);
      DistinctSplits(front, last);
      assert IdsOf(last) == {last[0].id} by {
        assert forall id :: id in IdsOf(last) <==> id == last[0].id;
      }
      hide IdsOf, Distinct;
      assert Distinct(last) by { OneIsDistinct(last[0]); }
    }
  }

  lemma OneIsDistinct(x: Issue)
    ensures Distinct([x])
  {
  }

  /** Part of a list up to and including page `p`. */
  function UpTo(listing: seq<Issue>, p: nat): seq<Issue> {
    if From(p) <= |listing| then listing[..From(p)] else listing
  }

  lemma UpToStep(listing: seq<Issue>, p: nat)
    ensures UpTo(listing, p + 1) == UpTo(listing, p) + Page(listing, p)
  {
  }

  // ---------------------------------------------------------------- the walk

  /** How far a listing has come: the next page, the issues kept and the ids seen. */
  datatype Walk = Walk(page: nat, issues: seq<Issue>, seen: set<nat>)

  const START := Walk(0, [], {})

  datatype Turn = Repeated | Last(issues: seq<Issue>) | More(walk: Walk)

  /** One page: refused if an id repeats, and the last if it is short or, with a cursor, shows an
      older issue. */
  function ReadPage(payload: seq<Issue>, since: Option<int>, k: Walk): Turn {
    var ids, newer := IdsOf(payload), Filter(payload, since);
    if |ids| != |payload| || !(ids !! k.seen) then Repeated
    else if (since.Some? && |newer| != |payload|) || |payload| < PAGE then Last(k.issues + newer)
    else More(Walk(k.page + 1, k.issues + newer, k.seen + ids))
  }

  /** A whole listing; `lists(p)` is the server's list when page `p` is requested. A pagination error
      is `None`. */
  function WalkOn(lists: nat -> seq<Issue>, since: Option<int>, k: Walk): Option<seq<Issue>>
    decreases MAX_PAGES - k.page
  {
    if k.page >= MAX_PAGES then None
    else
      match ReadPage(Page(lists(k.page), k.page), since, k)
      case Repeated => None
      case Last(issues) => Some(issues)
      case More(next) => WalkOn(lists, since, next)
  }

  lemma WalkStep(lists: nat -> seq<Issue>, since: Option<int>, k: Walk)
    requires k.page < MAX_PAGES
    ensures var turn := ReadPage(Page(lists(k.page), k.page), since, k);
            && (turn.Repeated? ==> WalkOn(lists, since, k) == None)
            && (turn.Last? ==> WalkOn(lists, since, k) == Some(turn.issues))
            && (turn.More? ==> WalkOn(lists, since, k) == WalkOn(lists, since, turn.walk) && turn.walk.page == k.page + 1)
  {
  }

  lemma WalkTooLong(lists: nat -> seq<Issue>, since: Option<int>, k: Walk)
    requires k.page >= MAX_PAGES
    ensures WalkOn(lists, since, k) == None
  {
  }

  /** The listing as the loop it is, over a list that may change between requests. */
  method ListAll(lists: nat -> seq<Issue>, since: Option<int>) returns (result: Option<seq<Issue>>)
    ensures result == WalkOn(lists, since, START)
  {
    var issues: seq<Issue>, seen: set<nat>, page := [], {}, 0;
    hide Filter, IdsOf, Page, WalkOn;
    while true
      invariant page <= MAX_PAGES
      invariant WalkOn(lists, since, START) == WalkOn(lists, since, Walk(page, issues, seen))
      decreases MAX_PAGES - page
    {
      if page >= MAX_PAGES {
        WalkTooLong(lists, since, Walk(page, issues, seen));
        return None;
      }
      WalkStep(lists, since, Walk(page, issues, seen));
      var payload := Page(lists(page), page);
      var ids := IdsOf(payload);
      if |ids| != |payload| || !(ids !! seen) {
        return None;
      }
      seen := seen + ids;
      if since.Some? {
        var newer := Filter(payload, since);
        issues := issues + newer;
        if |newer| != |payload| {
          return Some(issues);
        }
      } else {
        WithoutCursor(payload);
        issues := issues + payload;
      }
      if |payload| < PAGE {
        return Some(issues);
      }
      page := page + 1;
    }
  }

  // ---------------------------------------------------------------- a list that stays as it is

  /** What the walk has established before it asks for its next page. */
  ghost predicate Walked(listing: seq<Issue>, since: Option<int>, k: Walk) {
    && From(k.page) <= |listing|
    && Distinct(UpTo(listing, k.page))
    && k.seen == IdsOf(UpTo(listing, k.page))
    && k.issues == UpTo(listing, k.page) == Filter(UpTo(listing, k.page), since)
  }

  /** The checks on a page find a repetition exactly when there is one so far. */
  lemma PageChecksAreExact(listing: seq<Issue>, since: Option<int>, k: Walk)
    requires Walked(listing, since, k)
    ensures var payload := Page(listing, k.page);
            var ids := IdsOf(payload);
            var repeats := |ids| != |payload| || !(ids !! k.seen);
            && (repeats <==> !Distinct(UpTo(listing, k.page + 1)))
            && k.issues + Filter(payload, since) == Filter(UpTo(listing, k.page + 1), since)
            && (!repeats && |Filter(payload, since)| == |payload| == PAGE ==>
                  Walked(listing, since, Walk(k.page + 1, k.issues + Filter(payload, since), k.seen + ids)))
  {
    var payload := Page(listing, k.page);
    UpToStep(listing, k.page);
    DistinctCounts(payload);
    DistinctSplits(UpTo(listing, k.page), payload);
    FilterAppend(UpTo(listing, k.page), payload, since);
    FilterKeepsAll(payload, since);
    hide Distinct, Filter, Page;
    IdsAppend(UpTo(listing, k.page), payload);
  }

  /** Stopping on a page with an older issue loses nothing of a newest-first list. */
  lemma NothingNewerBehind(listing: seq<Issue>, since: Option<int>, n: nat)
    requires NewestFirst(listing) && n <= |listing| && |Filter(listing[..n], since)| != n
    ensures Filter(listing, since) == Filter(listing[..n], since)
  {
    FilterKeepsAll(listing[..n], since);
    var i :| 0 <= i < n && !Newer(listing[..n][i], since);
    assert listing == listing[..n] + listing[n..];
    assert forall j :: 0 <= j < |listing[n..]| ==> listing[n..][j] == listing[n + j] && listing[i].updated.value >= listing[n + j].updated.value;
    FilterDropsAll(listing[n..], since);
    FilterAppend(listing[..n], listing[n..], since);
  }

  lemma FilterOfPrefix(listing: seq<Issue>, since: Option<int>, n: nat)
    requires n <= |listing|
    ensures |Filter(listing[..n], since)| <= |Filter(listing, since)|
  {
    assert listing == listing[..n] + listing[n..];
    FilterAppend(listing[..n], listing[n..], since);
  }

  /** Without a cursor a full page without repetitions is taken whole. */
  lemma FullPageIsTaken(payload: seq<Issue>, k: Walk)
    requires |payload| == PAGE && Distinct(payload) && IdsOf(payload) !! k.seen
    ensures ReadPage(payload, None, k) == More(Walk(k.page + 1, k.issues + payload, k.seen + IdsOf(payload)))
  {
    DistinctCounts(payload);
    WithoutCursor(payload);
    hide Filter, IdsOf, Distinct;
  }

  lemma WithoutCursor(listing: seq<Issue>)
    ensures Filter(listing, None) == listing
  {
    FilterKeepsAll(listing, None);
  }

  lemma RepeatsStay(listing: seq<Issue>, p: nat)
    ensures !Distinct(UpTo(listing, p)) ==> !Distinct(listing)
  {
    var part := UpTo(listing, p);
    if i, j :| 0 <= i < j < |part| && part[i].id == part[j].id {
      assert listing[i].id == listing[j].id;
    }
  }

  /** What each outcome of a listing says of a list that stays as it is. */
  ghost predicate Settles(listing: seq<Issue>, since: Option<int>, result: Option<seq<Issue>>) {
    && (result.Some? ==> exists p :: result.value == Filter(UpTo(listing, p), since) && Distinct(UpTo(listing, p)))
    && (since.None? ==> result == if Distinct(listing) && |listing| < CAPACITY then Some(listing) else None)
    && (Distinct(listing) && NewestFirst(listing) ==>
          result == if |Filter(listing, since)| < CAPACITY then Some(Filter(listing, since)) else None)
  }

  /** A full walk saw more than fits. */
  lemma FullWalk(listing: seq<Issue>, since: Option<int>, k: Walk)
    requires Walked(listing, since, k) && k.page >= MAX_PAGES
    ensures Settles(listing, since, None)
  {
    FilterOfPrefix(listing, since, From(k.page));
  }

  lemma RepetitionEnds(listing: seq<Issue>, since: Option<int>, p: nat)
    requires !Distinct(UpTo(listing, p))
    ensures Settles(listing, since, None)
  {
    RepeatsStay(listing, p);
  }

  lemma EarlyStop(listing: seq<Issue>, since: Option<int>, page: nat)
    requires page < MAX_PAGES && since.Some? && Distinct(UpTo(listing, page + 1))
    requires |Filter(UpTo(listing, page + 1), since)| != |UpTo(listing, page + 1)|
    ensures Settles(listing, since, Some(Filter(UpTo(listing, page + 1), since)))
  {
    var part := UpTo(listing, page + 1);
    assert part == listing[..|part|];
    if NewestFirst(listing) {
      NothingNewerBehind(listing, since, |part|);
    }
  }

  /** The walk ends on page `page` with everything seen. */
  lemma ShortPage(listing: seq<Issue>, since: Option<int>, page: nat)
    requires page < MAX_PAGES && |Page(listing, page)| < PAGE && Distinct(UpTo(listing, page + 1))
    ensures Settles(listing, since, Some(Filter(UpTo(listing, page + 1), since)))
  {
    assert UpTo(listing, page + 1) == listing;
    WithoutCursor(listing);
  }

  lemma LastPageSettles(listing: seq<Issue>, since: Option<int>, page: nat)
    requires page < MAX_PAGES && Distinct(UpTo(listing, page + 1))
    requires |Page(listing, page)| < PAGE ||
             (since.Some? && |Filter(UpTo(listing, page + 1), since)| != |UpTo(listing, page + 1)|)
    ensures Settles(listing, since, Some(Filter(UpTo(listing, page + 1), since)))
  {
    hide Settles, Distinct, Filter, Page, UpTo;
    if |Page(listing, page)| < PAGE {
      ShortPage(listing, since, page);
    } else {
      EarlyStop(listing, since, page);
    }
  }

  /** A list that stays as it is, whenever it is asked for. */
  function Still(listing: seq<Issue>): nat -> seq<Issue> { _ => listing }

  lemma {:induction false} WalkSettles(listing: seq<Issue>, since: Option<int>, k: Walk)
    requires Walked(listing, since, k)
    ensures Settles(listing, since, WalkOn(Still(listing), since, k))
    decreases MAX_PAGES - k.page
  {
    var lists := Still(listing);
    if k.page >= MAX_PAGES {
      WalkTooLong(lists, since, k);
      FullWalk(listing, since, k);
    } else {
      WalkStep(lists, since, k);
      PageOutcome(listing, since, k);
      hide Settles, Walked, Distinct, Filter, Page, UpTo, ReadPage, WalkOn;
      match ReadPage(Page(listing, k.page), since, k)
      case Repeated => RepetitionEnds(listing, since, k.page + 1);
      case Last(_) => LastPageSettles(listing, since, k.page);
      case More(next) => WalkSettles(listing, since, next);
    }
  }

  lemma PageOutcome(listing: seq<Issue>, since: Option<int>, k: Walk)
    requires Walked(listing, since, k)
    ensures var turn, seen := ReadPage(Page(listing, k.page), since, k), UpTo(listing, k.page + 1);
            && (turn.Repeated? ==> !Distinct(seen))
            && (turn.Last? ==>
                  && Distinct(seen) && turn.issues == Filter(seen, since)
                  && (|Page(listing, k.page)| < PAGE || (since.Some? && |Filter(seen, since)| != |seen|)))
            && (turn.More? ==> Walked(listing, since, turn.walk) && turn.walk.page == k.page + 1)
  {
    PageChecksAreExact(listing, since, k);
    ReadPageCases(Page(listing, k.page), since, k);
    if |Filter(Page(listing, k.page), since)| != |Page(listing, k.page)| {
      OlderIssueSeen(listing, since, k);
    }
    hide Walked, Distinct, Filter, Page, UpTo, IdsOf, ReadPage;
  }

  lemma ReadPageCases(payload: seq<Issue>, since: Option<int>, k: Walk)
    requires |payload| <= PAGE
    ensures var turn, ids, newer := ReadPage(payload, since, k), IdsOf(payload), Filter(payload, since);
            && (turn.Repeated? <==> |ids| != |payload| || !(ids !! k.seen))
            && (turn.Last? ==> turn.issues == k.issues + newer && (|payload| < PAGE || (since.Some? && |newer| != |payload|)))
            && (turn.More? ==> |newer| == |payload| == PAGE && turn.walk == Walk(k.page + 1, k.issues + newer, k.seen + ids))
  {
    if since.None? {
      WithoutCursor(payload);
    }
    hide Filter, IdsOf;
  }

  lemma OlderIssueSeen(listing: seq<Issue>, since: Option<int>, k: Walk)
    requires Walked(listing, since, k) && |Filter(Page(listing, k.page), since)| != |Page(listing, k.page)|
    ensures |Filter(UpTo(listing, k.page + 1), since)| != |UpTo(listing, k.page + 1)|
  {
    UpToStep(listing, k.page);
    FilterAppend(UpTo(listing, k.page), Page(listing, k.page), since);
  }

  /** On a list that stays as it is the walk ends; whatever the list, the answer is the filter of a
      part of it; without a cursor it is the whole list, exactly when ids are distinct and the list
      fits the page limit; with one, on a newest-first list of distinct ids, it is the filter of the
      whole list, exactly when that fits. */
  lemma ListingIsExact(listing: seq<Issue>, since: Option<int>)
    ensures Settles(listing, since, WalkOn(Still(listing), since, START))
  {
    assert UpTo(listing, 0) == [];
    assert IdsOf([]) == {};
    WalkSettles(listing, since, START);
  }
}
