/** Lists that a server hands out in pages of a hundred, read one request at a time. */
module Paging {
  const PAGE := 100
  const MAX_PAGES := 1000
  /** As many entries as a walk can see. */
  const CAPACITY := From(MAX_PAGES)

  /** Where page `p` starts, pages counted from 0. */
  function From(p: nat): nat { p * 100 }

  /** Page `p`, counted from 0, as the server cuts the list. */
  function Page<T>(list: seq<T>, p: nat): (page: seq<T>)
    ensures |page| <= PAGE
    ensures |page| == PAGE ==> From(p + 1) <= |list|
    ensures |page| < PAGE ==> |list| < From(p + 1)
  {
    var start := From(p);
    if start >= |list| then []
    else list[start..if start + PAGE <= |list| then start + PAGE else |list|]
  }

  lemma PageEntries<T>(list: seq<T>, p: nat)
    ensures Page(list, p) == [] || From(p) + |Page(list, p)| <= |list|
    ensures forall k :: 0 <= k < |Page(list, p)| ==> Page(list, p)[k] == list[From(p) + k]
  {
    var start := From(p);
    if start < |list| {
      assert Page(list, p) == list[start..start + |Page(list, p)|];
    }
  }

  lemma PageHas<T>(list: seq<T>, p: nat, i: nat)
    requires From(p) <= i < |list| && i < From(p + 1)
    ensures i - From(p) < |Page(list, p)| && Page(list, p)[i - From(p)] == list[i]
  {
  }

  /** An entry at position `i` is read by the request for page `p`. */
  predicate OnPage(i: nat, p: nat) { From(p) <= i < From(p + 1) }

  /** `at(p)` is the position of an entry when page `p` is requested. It comes forward between two
      requests, from behind the page just read to before the next one. */
  predicate Crosses(at: nat -> nat, p: nat) {
    at(p) >= From(p + 1) && at(p + 1) < From(p + 1)
  }

  /** An entry that no request reads, although it is before the end of the last page, came forward
      over a page boundary between two requests. */
  lemma {:induction false} UnreadMeansCrossed(at: nat -> nat, last: nat) returns (p: nat)
    requires forall q: nat :: q <= last ==> !OnPage(at(q), q)
    requires at(last) < From(last + 1)
    ensures p < last && Crosses(at, p)
    decreases last
  {
    assert !OnPage(at(last), last);
    assert last > 0;
    assert !OnPage(at(last - 1), last - 1);
    if at(last - 1) < From(last) {
      p := UnreadMeansCrossed(at, last - 1);
    } else {
      p := last - 1;
    }
  }

  lemma {:induction false} NeverRises(at: nat -> nat, p: nat, q: nat)
    requires p <= q && forall r: nat :: at(r + 1) <= at(r)
    ensures at(q) <= at(p)
    decreases q
  {
    if p < q {
      NeverRises(at, p, q - 1);
      assert at(q - 1 + 1) <= at(q - 1);
    }
  }

  /** And if nothing moves it back again, coming forward like that is enough to be read by none. */
  lemma CrossedMeansUnread(at: nat -> nat, p: nat, q: nat)
    requires Crosses(at, p) && forall r: nat :: at(r + 1) <= at(r)
    ensures !OnPage(at(q), q)
  {
    if q <= p {
      NeverRises(at, q, p);
    } else {
      NeverRises(at, p + 1, q);
    }
  }
}
