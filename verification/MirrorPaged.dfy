/** The mirror with its listing read page by page while the remote goes on changing. */
module MirrorPaged {
  import opened Values
  import opened Paging
  import L = ListIssues
  import M = Mirror

  /** The server keeps the issues in two orders: latest update first, which an incremental sync asks
      for, and its own. `walk` is a listing under way. */
  datatype World = World(mirror: M.World, byUpdate: seq<L.Issue>, byDefault: seq<L.Issue>, walk: Option<L.Walk>)

  /** `Request` asks for one page. A new issue enters the default order at `at`; an edit does not move
      it there. Edits are dated with the clock that dates the syncs. */
  datatype Action =
    | Edit(number: nat, content: string, at: nat)
    | Delete(number: nat)
    | Start(full: bool)
    | Request(answered: bool)
    | Elsewhere(a: M.Action)

  // ---------------------------------------------------------------- the server's lists

  /** Where an issue stands. */
  function IndexOf(list: seq<L.Issue>, number: nat): (i: Option<nat>)
    ensures i.Some? ==> i.value < |list| && list[i.value].number == number
    ensures i.None? ==> forall k :: 0 <= k < |list| ==> list[k].number != number
    decreases |list|
  {
    if list == [] then None
    else if list[|list| - 1].number == number then Some(|list| - 1)
    else IndexOf(list[..|list| - 1], number)
  }

  function Without(list: seq<L.Issue>, number: nat): seq<L.Issue> {
    match IndexOf(list, number)
    case None => list
    case Some(i) => list[..i] + list[i + 1..]
  }

  function Placed(list: seq<L.Issue>, x: L.Issue, at: nat): seq<L.Issue> {
    match IndexOf(list, x.number)
    case Some(i) => list[i := x]
    case None => if at <= |list| then list[..at] + [x] + list[at..] else list + [x]
  }

  function Since(m: M.World): Option<int> {
    if m.pending.Some? && m.pending.value.Asking? && !m.pending.value.full then m.cursor else None
  }

  /** The list a listing under way is cut from. */
  function Listing(w: World): seq<L.Issue> {
    if Since(w.mirror).Some? then w.byUpdate else w.byDefault
  }

  // ---------------------------------------------------------------- steps

  ghost function Act(w: World, a: Action): World {
    var m := w.mirror;
    match a
    case Edit(n, content, at) =>
      var x := L.Issue(n, n, Some(m.now), content);
      World(M.Act(m, M.Edit(n, M.Record(m.now, content))), [x] + Without(w.byUpdate, n), Placed(w.byDefault, x, at), w.walk)
    case Delete(n) => World(M.Act(m, M.Delete(n)), Without(w.byUpdate, n), Without(w.byDefault, n), w.walk)
    case Start(full) => if m.status == M.Running then w else w.(mirror := M.Act(m, M.Start(full)), walk := Some(L.START))
    case Request(answered) =>
      if w.walk.None? then w
      else if !answered || w.walk.value.page >= MAX_PAGES then w.(mirror := M.Act(m, M.Fail({})), walk := None)
      else
        (match L.ReadPage(Page(Listing(w), w.walk.value.page), Since(m), w.walk.value)
         case Repeated => w.(mirror := M.Act(m, M.Fail({})), walk := None)
         case Last(issues) => w.(mirror := m.(pending := Some(M.Listed(M.Sources(issues)))), walk := None)
         case More(next) => w.(walk := Some(next)))
    case Elsewhere(b) =>
      if b.Edit? || b.Delete? || b.Start? || b.List? then w
      else w.(mirror := M.Act(m, b), walk := if b.Fail? || b.Crash? then None else w.walk)
  }

  ghost function Run(w: World, actions: seq<Action>): World
    decreases |actions|
  {
    if actions == [] then w else Run(Act(w, actions[0]), actions[1..])
  }

  // ---------------------------------------------------------------- what a listing under way has got

  predicate Numbered(list: seq<L.Issue>) {
    && (forall i :: 0 <= i < |list| ==> list[i].id == list[i].number)
    && (forall i, j :: 0 <= i < j < |list| ==> list[i].number != list[j].number)
  }

  /** The local row says what the entry says. */
  predicate InPlace(x: L.Issue, local: map<nat, M.Record>) {
    x.updated.Some? && x.number in local && local[x.number] == M.Record(x.updated.value, x.content)
  }

  /** An issue the sync has to bring: unchanged since the sync started, and not in place already. */
  predicate Missing(x: L.Issue, started: int, local: map<nat, M.Record>) {
    x.updated.Some? && x.updated.value < started && !InPlace(x, local)
  }

  /** Whatever is missing has been got or stands on a page still to come. */
  ghost predicate Covered(list: seq<L.Issue>, k: L.Walk, started: int, local: map<nat, M.Record>) {
    forall i :: 0 <= i < |list| && Missing(list[i], started, local) ==> list[i] in k.issues || i >= From(k.page)
  }

  predicate RightIssue(m: M.World, x: L.Issue) {
    x.id == x.number && x.updated.Some? && (x.number in m.remote && m.remote[x.number].updated < m.started ==> M.Shows(x, m.remote))
  }

  ghost predicate GotRight(m: M.World, got: seq<L.Issue>) {
    forall x :: x in got ==> RightIssue(m, x)
  }

  ghost predicate ListsAreRight(w: World) {
    && M.Lists(w.byUpdate, w.mirror.remote) && Numbered(w.byUpdate) && L.NewestFirst(w.byUpdate)
    && M.Lists(w.byDefault, w.mirror.remote) && Numbered(w.byDefault)
    && (forall n :: n in w.mirror.remote ==> w.mirror.remote[n].updated <= w.mirror.now)
  }

  ghost predicate Sound(w: World) {
    && M.Inv(w.mirror)
    && ListsAreRight(w)
    && (w.walk.Some? <==> w.mirror.pending.Some? && w.mirror.pending.value.Asking?)
    && (w.walk.Some? ==> GotRight(w.mirror, w.walk.value.issues))
  }

  ghost predicate CoveredIn(w: World) {
    w.walk.Some? ==> Covered(Listing(w), w.walk.value, w.mirror.started, w.mirror.local)
  }

  ghost predicate Inv(w: World) { Sound(w) && CoveredIn(w) }

  // ---------------------------------------------------------------- deletions

  /** A deletion ahead of the next page pulls the issue that stands first on it onto a page already
      read; it hides that issue if it is missing and has not been got. */
  predicate HidesNext(list: seq<L.Issue>, k: L.Walk, started: int, local: map<nat, M.Record>, number: nat) {
    var next := From(k.page);
    && IndexOf(list, number).Some? && IndexOf(list, number).value < next < |list|
    && Missing(list[next], started, local) && list[next] !in k.issues
  }

  predicate Hides(w: World, a: Action) {
    a.Delete? && w.walk.Some? && HidesNext(Listing(w), w.walk.value, w.mirror.started, w.mirror.local, a.number)
  }

  /** What everyone else owes the mirror: no deletion hides an issue from a listing under way, and no
      issue fetched before the latest sync is stored. */
  predicate Steady(w: World, a: Action) {
    !Hides(w, a) && (a.Elsewhere? ==> M.Prompt(w.mirror, a.a))
  }

  /** `left` is `list` without the entry at `d`. */
  ghost predicate Gap(list: seq<L.Issue>, left: seq<L.Issue>, d: nat) {
    && d < |list| && |left| == |list| - 1
    && (forall i :: 0 <= i < d ==> left[i] == list[i])
    && (forall i :: d <= i < |left| ==> left[i] == list[i + 1])
  }

  lemma WithoutEntries(list: seq<L.Issue>, number: nat)
    ensures IndexOf(list, number).None? ==> Without(list, number) == list
    ensures IndexOf(list, number).Some? ==> Gap(list, Without(list, number), IndexOf(list, number).value)
  {
    hide IndexOf;
    if IndexOf(list, number).Some? {
      CutOut(list, IndexOf(list, number).value);
    }
  }

  lemma CutOut(list: seq<L.Issue>, d: nat)
    requires d < |list|
    ensures Gap(list, list[..d] + list[d + 1..], d)
  {
  }

  /** A deletion leaves something missing behind exactly when it hides the first issue of the next page. */
  lemma DeletionHidesExactly(list: seq<L.Issue>, k: L.Walk, started: int, local: map<nat, M.Record>, number: nat)
    requires Covered(list, k, started, local)
    ensures Covered(Without(list, number), k, started, local) <==> !HidesNext(list, k, started, local, number)
  {
    WithoutEntries(list, number);
    hide Without, Missing;
    var left, d, next := Without(list, number), IndexOf(list, number), From(k.page);
    if d.Some? {
      if d.value < next < |list| {
        assert left[next - 1] == list[next];
      }
      forall i | 0 <= i < |left| && Missing(left[i], started, local) && i != next - 1
        ensures left[i] in k.issues || i >= next
      {
        assert left[i] == list[if i < d.value then i else i + 1];
      }
      if !HidesNext(list, k, started, local, number) {
        forall i | 0 <= i < |left| && Missing(left[i], started, local) ensures left[i] in k.issues || i >= next {
          if i == next - 1 && i < d.value {
            assert left[i] == list[i];
          }
        }
      }
    }
  }

  // ---------------------------------------------------------------- the server's lists stay right

  lemma WithoutHas(list: seq<L.Issue>, number: nat, n: nat)
    requires M.HasNumber(list, n) && n != number
    ensures M.HasNumber(Without(list, number), n)
  {
    WithoutEntries(list, number);
    hide Without;
    var left, d := Without(list, number), IndexOf(list, number);
    var i :| 0 <= i < |list| && list[i].number == n;
    if d.Some? {
      var j := if i < d.value then i else i - 1;
      assert left[j] == list[i];
    }
  }

  lemma WithoutIsNumbered(list: seq<L.Issue>, number: nat)
    requires Numbered(list)
    ensures Numbered(Without(list, number)) && forall i :: 0 <= i < |Without(list, number)| ==> Without(list, number)[i].number != number
    ensures L.NewestFirst(list) ==> L.NewestFirst(Without(list, number))
  {
    WithoutEntries(list, number);
    hide Without;
  }

  lemma WithoutShows(list: seq<L.Issue>, remote: map<nat, M.Record>, number: nat, i: nat)
    requires M.Lists(list, remote) && Numbered(list) && i < |Without(list, number)|
    ensures M.Shows(Without(list, number)[i], remote - {number})
  {
    WithoutIsNumbered(list, number);
    WithoutEntries(list, number);
    hide Without, M.HasNumber, Numbered;
    var d := IndexOf(list, number);
    var j := if d.Some? && i >= d.value then i + 1 else i;
    assert Without(list, number)[i] == list[j];
    assert M.Shows(list[j], remote);
  }

  lemma WithoutIsListed(list: seq<L.Issue>, remote: map<nat, M.Record>, number: nat)
    requires M.Lists(list, remote) && Numbered(list)
    ensures M.Lists(Without(list, number), remote - {number})
  {
    hide Without, Numbered, M.HasNumber, M.Shows;
    forall n | n in remote - {number} ensures M.HasNumber(Without(list, number), n) {
      WithoutHas(list, number, n);
    }
    forall i | 0 <= i < |Without(list, number)| ensures M.Shows(Without(list, number)[i], remote - {number}) {
      WithoutShows(list, remote, number, i);
    }
  }

  lemma NewestHas(list: seq<L.Issue>, x: L.Issue, n: nat)
    requires n == x.number || M.HasNumber(list, n)
    ensures M.HasNumber([x] + list, n)
  {
    if n == x.number {
      assert ([x] + list)[0].number == n;
    } else {
      var i :| 0 <= i < |list| && list[i].number == n;
      assert ([x] + list)[i + 1].number == n;
    }
  }

  lemma NewestIsListed(list: seq<L.Issue>, remote: map<nat, M.Record>, x: L.Issue)
    requires M.Lists(list, remote) && Numbered(list) && x.id == x.number && x.updated.Some?
    ensures var next := [x] + Without(list, x.number);
            M.Lists(next, remote[x.number := M.Record(x.updated.value, x.content)]) && Numbered(next)
  {
    WithoutIsListed(list, remote, x.number);
    WithoutIsNumbered(list, x.number);
    var left := Without(list, x.number);
    var after := remote[x.number := M.Record(x.updated.value, x.content)];
    hide Without, M.HasNumber;
    forall n | n in after ensures M.HasNumber([x] + left, n) {
      assert n != x.number ==> n in remote - {x.number};
      NewestHas(left, x, n);
    }
  }

  lemma NewestIsFirst(list: seq<L.Issue>, remote: map<nat, M.Record>, x: L.Issue)
    requires M.Lists(list, remote) && Numbered(list) && L.NewestFirst(list) && x.updated.Some?
    requires forall n :: n in remote ==> remote[n].updated <= x.updated.value
    ensures L.NewestFirst([x] + Without(list, x.number))
  {
    WithoutIsNumbered(list, x.number);
    WithoutIsListed(list, remote, x.number);
    hide Without, M.HasNumber;
  }

  /** `next` is `list` with `x` put in at `k`. */
  ghost predicate Inserted(list: seq<L.Issue>, next: seq<L.Issue>, x: L.Issue, k: nat) {
    && k <= |list| && |next| == |list| + 1 && next[k] == x
    && (forall i :: 0 <= i < k ==> next[i] == list[i])
    && (forall i :: k < i < |next| ==> next[i] == list[i - 1])
  }

  function Spot(list: seq<L.Issue>, at: nat): nat { if at <= |list| then at else |list| }

  lemma PlacedEntries(list: seq<L.Issue>, x: L.Issue, at: nat)
    ensures var next, d := Placed(list, x, at), IndexOf(list, x.number);
            && (d.Some? ==> next == list[d.value := x])
            && (d.None? ==> Inserted(list, next, x, Spot(list, at)))
  {
  }

  lemma PlacedHas(list: seq<L.Issue>, x: L.Issue, at: nat, n: nat)
    requires n == x.number || M.HasNumber(list, n)
    ensures M.HasNumber(Placed(list, x, at), n)
  {
    PlacedEntries(list, x, at);
    hide Placed;
    var next, d, k := Placed(list, x, at), IndexOf(list, x.number), Spot(list, at);
    if n == x.number {
      var i := if d.Some? then d.value else k;
      assert next[i] == x;
    } else {
      var i :| 0 <= i < |list| && list[i].number == n;
      var j := if d.Some? || i < k then i else i + 1;
      assert next[j] == list[i];
    }
  }

  lemma PlacedIsNumbered(list: seq<L.Issue>, x: L.Issue, at: nat)
    requires Numbered(list) && x.id == x.number
    ensures Numbered(Placed(list, x, at))
  {
    PlacedEntries(list, x, at);
    hide Placed;
  }

  lemma PlacedIsListed(list: seq<L.Issue>, remote: map<nat, M.Record>, x: L.Issue, at: nat)
    requires M.Lists(list, remote) && Numbered(list) && x.updated.Some?
    ensures M.Lists(Placed(list, x, at), remote[x.number := M.Record(x.updated.value, x.content)])
  {
    PlacedEntries(list, x, at);
    var after := remote[x.number := M.Record(x.updated.value, x.content)];
    forall n | n in after ensures M.HasNumber(Placed(list, x, at), n) {
      PlacedHas(list, x, at, n);
    }
    hide Placed, M.HasNumber;
  }

  /** Everything on the new list is the new entry or stood no further back before. */
  ghost predicate NothingComesForward(list: seq<L.Issue>, next: seq<L.Issue>, x: L.Issue) {
    forall j :: 0 <= j < |next| ==> NotForward(list, next[j], j, x)
  }

  predicate NotForward(list: seq<L.Issue>, y: L.Issue, j: nat, x: L.Issue) {
    y == x || (j < |list| && y == list[j]) || (0 < j <= |list| && y == list[j - 1])
  }

  lemma EditMovesBack(list: seq<L.Issue>, x: L.Issue, at: nat)
    ensures NothingComesForward(list, [x] + Without(list, x.number), x)
    ensures NothingComesForward(list, Placed(list, x, at), x)
  {
    WithoutEntries(list, x.number);
    PlacedEntries(list, x, at);
    hide Without, Placed;
  }

  lemma StillCovered(list: seq<L.Issue>, next: seq<L.Issue>, x: L.Issue, k: L.Walk, started: int, local: map<nat, M.Record>)
    requires Covered(list, k, started, local) && NothingComesForward(list, next, x)
    requires x.updated.Some? && x.updated.value >= started
    ensures Covered(next, k, started, local)
  {
    forall j | 0 <= j < |next| && Missing(next[j], started, local)
      ensures next[j] in k.issues || j >= From(k.page)
    {
      assert NotForward(list, next[j], j, x) && next[j] != x;
      if j < |list| && next[j] == list[j] {
        assert Missing(list[j], started, local);
      } else {
        assert next[j] == list[j - 1];
        assert Missing(list[j - 1], started, local);
      }
    }
  }

  // ---------------------------------------------------------------- every step keeps it

  lemma EditKeepsLists(w: World, n: nat, content: string, at: nat)
    requires ListsAreRight(w)
    ensures ListsAreRight(Act(w, Edit(n, content, at)))
  {
    var m, x := w.mirror, L.Issue(n, n, Some(w.mirror.now), content);
    NewestIsListed(w.byUpdate, m.remote, x);
    NewestIsFirst(w.byUpdate, m.remote, x);
    PlacedIsListed(w.byDefault, m.remote, x, at);
    PlacedIsNumbered(w.byDefault, x, at);
    hide Without, Placed, M.Lists, Numbered, L.NewestFirst;
  }

  lemma EditKeepsWalk(w: World, n: nat, content: string, at: nat)
    requires Inv(w) && w.walk.Some?
    ensures var v := Act(w, Edit(n, content, at));
            CoveredIn(v) && GotRight(v.mirror, v.walk.value.issues)
  {
    var m, x := w.mirror, L.Issue(n, n, Some(w.mirror.now), content);
    var v := Act(w, Edit(n, content, at));
    EditMovesBack(Listing(w), x, at);
    assert NothingComesForward(Listing(w), Listing(v), x);
    assert m.started <= m.now;
    hide M.Inv, ListsAreRight, Without, Placed, NothingComesForward, Covered;
    StillCovered(Listing(w), Listing(v), x, w.walk.value, m.started, m.local);
  }

  lemma EditKeepsInv(w: World, n: nat, content: string, at: nat)
    requires Inv(w)
    ensures Inv(Act(w, Edit(n, content, at)))
  {
    M.ActKeepsInv(w.mirror, M.Edit(n, M.Record(w.mirror.now, content)));
    EditKeepsLists(w, n, content, at);
    if w.walk.Some? {
      EditKeepsWalk(w, n, content, at);
    }
    hide M.Inv, ListsAreRight, Without, Placed, Covered, GotRight;
  }

  lemma DeleteKeepsLists(w: World, n: nat)
    requires ListsAreRight(w)
    ensures ListsAreRight(Act(w, Delete(n)))
  {
    WithoutIsListed(w.byUpdate, w.mirror.remote, n);
    WithoutIsListed(w.byDefault, w.mirror.remote, n);
    WithoutIsNumbered(w.byUpdate, n);
    WithoutIsNumbered(w.byDefault, n);
    hide M.Lists, Without, L.NewestFirst, Numbered;
  }

  /** A deletion keeps everything but, when it hides an issue, the listing under way. */
  lemma DeleteKeepsInv(w: World, n: nat)
    requires Inv(w)
    ensures Sound(Act(w, Delete(n)))
    ensures CoveredIn(Act(w, Delete(n))) <==> !Hides(w, Delete(n))
  {
    M.ActKeepsInv(w.mirror, M.Delete(n));
    DeleteKeepsLists(w, n);
    hide M.Inv, ListsAreRight, Without, Covered, HidesNext;
    if w.walk.Some? {
      DeletionHidesExactly(Listing(w), w.walk.value, w.mirror.started, w.mirror.local, n);
    }
  }

  lemma StartKeepsInv(w: World, full: bool)
    requires Inv(w)
    ensures Inv(Act(w, Start(full)))
  {
    M.ActKeepsInv(w.mirror, M.Start(full));
    hide M.Inv, M.Lists, L.NewestFirst, Numbered;
  }

  /** Outside the listing nothing it depends on changes while it is under way. */
  lemma ElsewhereKeepsWalk(w: World, a: M.Action)
    requires Inv(w) && !(a.Edit? || a.Delete? || a.Start? || a.List?)
    ensures var v := Act(w, Elsewhere(a));
            && v.mirror.remote == w.mirror.remote && v.mirror.now >= w.mirror.now
            && (v.walk.Some? <==> v.mirror.pending.Some? && v.mirror.pending.value.Asking?)
            && (v.walk.Some? ==> v.walk == w.walk && v.mirror.started == w.mirror.started && Since(v.mirror) == Since(w.mirror))
  {
    hide ListsAreRight;
  }

  /** An issue added by URL meanwhile puts no missing entry's row out of place. */
  lemma ElsewhereAddsNothingMissing(w: World, a: M.Action, i: nat)
    requires Inv(w) && M.Prompt(w.mirror, a) && !(a.Edit? || a.Delete? || a.Start? || a.List?)
    requires Act(w, Elsewhere(a)).walk.Some? && w.walk.Some? && i < |Listing(w)|
    ensures var x, m, m' := Listing(w)[i], w.mirror, Act(w, Elsewhere(a)).mirror;
            Missing(x, m.started, m'.local) ==> Missing(x, m.started, m.local)
  {
    assert M.Lists(Listing(w), w.mirror.remote) && M.Shows(Listing(w)[i], w.mirror.remote);
    hide M.Lists, L.NewestFirst, Numbered, Covered, GotRight, M.Mirrors, M.WillMirror;
  }

  lemma ElsewhereKeepsInv(w: World, a: M.Action)
    requires Inv(w) && M.Prompt(w.mirror, a)
    ensures Inv(Act(w, Elsewhere(a)))
  {
    if !(a.Edit? || a.Delete? || a.Start? || a.List?) {
      M.ActKeepsInv(w.mirror, a);
      ElsewhereKeepsWalk(w, a);
      var v := Act(w, Elsewhere(a));
      if v.walk.Some? {
        forall i | 0 <= i < |Listing(w)|
          ensures Missing(Listing(w)[i], w.mirror.started, v.mirror.local) ==> Missing(Listing(w)[i], w.mirror.started, w.mirror.local)
        {
          ElsewhereAddsNothingMissing(w, a, i);
        }
      }
      hide M.Inv, M.Act, M.Lists, L.NewestFirst, Numbered, Missing;
    }
  }

  lemma NewIsRight(list: seq<L.Issue>, m: M.World, p: nat, since: Option<int>, x: L.Issue)
    requires M.Lists(list, m.remote) && Numbered(list) && x in L.Filter(Page(list, p), since)
    ensures RightIssue(m, x)
  {
    var page := Page(list, p);
    L.FilterHas(page, since, x);
    PageEntries(list, p);
    var j :| 0 <= j < |page| && page[j] == x;
    hide Page, L.Filter, M.HasNumber;
    assert x == list[From(p) + j];
    assert M.Shows(list[From(p) + j], m.remote);
  }

  /** What is missing was asked for: anything dated before the cursor is in place. */
  lemma MissingIsAskedFor(w: World, i: nat)
    requires Sound(w) && w.walk.Some? && i < |Listing(w)| && Missing(Listing(w)[i], w.mirror.started, w.mirror.local)
    ensures L.Newer(Listing(w)[i], Since(w.mirror))
  {
    assert M.Lists(Listing(w), w.mirror.remote) && M.Shows(Listing(w)[i], w.mirror.remote);
    hide M.Lists, L.NewestFirst, Numbered, GotRight, M.WillMirror, M.FetchedRight;
  }

  /** The listing after one more page. */
  function Got(w: World): seq<L.Issue>
    requires w.walk.Some?
  {
    w.walk.value.issues + L.Filter(Page(Listing(w), w.walk.value.page), Since(w.mirror))
  }

  lemma PageIsRight(w: World)
    requires Sound(w) && w.walk.Some?
    ensures GotRight(w.mirror, Got(w))
  {
    var list, k, since := Listing(w), w.walk.value, Since(w.mirror);
    hide M.Inv, M.Lists, L.NewestFirst, Numbered, L.Filter, Page, RightIssue;
    forall x | x in L.Filter(Page(list, k.page), since) ensures RightIssue(w.mirror, x) {
      NewIsRight(list, w.mirror, k.page, since, x);
    }
  }

  lemma OnThisPage(list: seq<L.Issue>, p: nat, since: Option<int>, i: nat)
    requires From(p) <= i < |list| && i < From(p + 1) && L.Newer(list[i], since)
    ensures list[i] in L.Filter(Page(list, p), since)
  {
    PageHas(list, p, i);
    assert Page(list, p)[i - From(p)] == list[i];
    L.FilterHas(Page(list, p), since, list[i]);
  }

  /** A page brings whatever is missing on it, and nothing that was passed by before. */
  lemma PageIsGot(w: World)
    requires Sound(w) && w.walk.Some?
    ensures Covered(Listing(w), L.Walk(w.walk.value.page + 1, Got(w), {}), w.mirror.started, w.mirror.local) <==> CoveredIn(w)
  {
    var list, k, since := Listing(w), w.walk.value, Since(w.mirror);
    assert Numbered(list);
    hide M.Inv, ListsAreRight, GotRight, Sound, L.Filter, Page, Missing;
    forall i | 0 <= i < |list| && Missing(list[i], w.mirror.started, w.mirror.local) && i < From(k.page + 1)
      ensures i >= From(k.page) ==> list[i] in Got(w)
      ensures i < From(k.page) ==> (list[i] in Got(w) <==> list[i] in k.issues)
    {
      if i >= From(k.page) {
        MissingIsAskedFor(w, i);
        OnThisPage(list, k.page, since, i);
      } else {
        NotOnLaterPage(list, k.page, since, i);
      }
    }
  }

  /** In a newest-first list nothing asked for stands behind a page that shows an older issue. */
  lemma NothingBehindOlder(list: seq<L.Issue>, p: nat, since: Option<int>, i: nat)
    requires L.NewestFirst(list) && |L.Filter(Page(list, p), since)| != |Page(list, p)|
    requires i < |list| && L.Newer(list[i], since)
    ensures i < From(p + 1)
  {
    var page := Page(list, p);
    L.FilterKeepsAll(page, since);
    PageEntries(list, p);
    var j :| 0 <= j < |page| && !L.Newer(page[j], since);
    hide Page, L.Filter;
    var older := From(p) + j;
    assert page[j] == list[older];
    forall h | older < h < |list| ensures !L.Newer(list[h], since) {
      assert list[older].updated.value >= list[h].updated.value;
    }
  }

  /** On the last page nothing missing stands behind it. */
  lemma NothingBehindLast(w: World, i: nat)
    requires Sound(w) && w.walk.Some? && i < |Listing(w)| && Missing(Listing(w)[i], w.mirror.started, w.mirror.local)
    requires var page := Page(Listing(w), w.walk.value.page);
             |page| < PAGE || (Since(w.mirror).Some? && |L.Filter(page, Since(w.mirror))| != |page|)
    ensures i < From(w.walk.value.page + 1)
  {
    MissingIsAskedFor(w, i);
    hide Page, L.Filter, L.NewestFirst, M.Inv, M.Lists, Numbered, GotRight, Missing;
    if |Page(Listing(w), w.walk.value.page)| == PAGE {
      NothingBehindOlder(Listing(w), w.walk.value.page, Since(w.mirror), i);
    }
  }

  // ---------------------------------------------------------------- when a sync leaves the mirror right

  /** The listing ends with these issues at its next request. */
  ghost predicate EndsWith(w: World, issues: seq<L.Issue>) {
    && w.walk.Some? && w.walk.value.page < MAX_PAGES
    && L.ReadPage(Page(Listing(w), w.walk.value.page), Since(w.mirror), w.walk.value) == L.Last(issues)
  }

  lemma EndIsGot(w: World, issues: seq<L.Issue>)
    requires EndsWith(w, issues)
    ensures issues == Got(w)
    ensures var page := Page(Listing(w), w.walk.value.page);
            |page| < PAGE || (Since(w.mirror).Some? && |L.Filter(page, Since(w.mirror))| != |page|)
  {
    L.ReadPageCases(Page(Listing(w), w.walk.value.page), Since(w.mirror), w.walk.value);
  }

  /** Every issue of the list dated before the sync's start is among those brought, or in place. */
  ghost predicate Complete(w: World, issues: seq<L.Issue>) {
    forall i :: 0 <= i < |Listing(w)| && Listing(w)[i].updated.Some? && Listing(w)[i].updated.value < w.mirror.started ==>
      Listing(w)[i] in issues || InPlace(Listing(w)[i], w.mirror.local)
  }

  /** What is brought has its row in the sources, and nothing else has. */
  lemma BroughtExactly(w: World, issues: seq<L.Issue>, i: nat)
    requires Sound(w) && w.walk.Some? && GotRight(w.mirror, issues)
    requires i < |Listing(w)| && Listing(w)[i].updated.Some? && Listing(w)[i].updated.value < w.mirror.started
    ensures Listing(w)[i].number in M.Sources(issues) <==> Listing(w)[i] in issues
    ensures Listing(w)[i] in issues ==> M.Sources(issues)[Listing(w)[i].number] == w.mirror.remote[Listing(w)[i].number]
  {
    var m, x := w.mirror, Listing(w)[i];
    assert M.Lists(Listing(w), m.remote) && M.Shows(x, m.remote) && Numbered(Listing(w)) && x.id == x.number;
    GotSources(m, issues);
    SourcesComeFrom(issues, x.number);
    hide M.Inv, ListsAreRight, M.Lists, Numbered, M.Sources;
    if y :| y in issues && y.number == x.number {
      assert RightIssue(m, y);
      assert y == x;
    }
  }

  /** What the last page of a listing leaves the sync with. */
  function TakenOver(w: World, issues: seq<L.Issue>): World {
    w.(mirror := w.mirror.(pending := Some(M.Listed(M.Sources(issues)))), walk := None)
  }

  lemma SourcesMirrorExactly(w: World, issues: seq<L.Issue>)
    requires Sound(w) && w.walk.Some? && GotRight(w.mirror, issues)
    ensures M.WillMirror(TakenOver(w, issues).mirror) <==> Complete(w, issues)
    ensures M.Mirrors(M.Act(TakenOver(w, issues).mirror, M.Finish)) <==> Complete(w, issues)
  {
    var m, list, sources := w.mirror, Listing(w), M.Sources(issues);
    GotSources(m, issues);
    assert M.Lists(list, m.remote);
    forall i | 0 <= i < |list| && list[i].updated.value < m.started
      ensures list[i].number in sources <==> list[i] in issues
      ensures M.Shows(list[i], m.remote)
    {
      assert M.Shows(list[i], m.remote);
      BroughtExactly(w, issues, i);
    }
    hide M.Inv, ListsAreRight, Numbered, M.Sources, GotRight, Listing, Since;
    BothComplete(m, list, issues, sources);
  }

  lemma BothComplete(m: M.World, list: seq<L.Issue>, issues: seq<L.Issue>, sources: map<nat, M.Record>)
    requires m.status == M.Running && M.Lists(list, m.remote)
    requires forall n :: n in sources && n in m.remote && m.remote[n].updated < m.started ==> sources[n] == m.remote[n]
    requires forall i :: 0 <= i < |list| && list[i].updated.value < m.started ==> (list[i].number in sources <==> list[i] in issues)
    ensures var taken := m.(pending := Some(M.Listed(sources)));
            var complete := forall i :: 0 <= i < |list| && list[i].updated.Some? && list[i].updated.value < m.started ==>
                              list[i] in issues || InPlace(list[i], m.local);
            && (M.WillMirror(taken) <==> complete)
            && (M.Mirrors(M.Act(taken, M.Finish)) <==> complete)
  {
    forall i | 0 <= i < |list| ensures M.Shows(list[i], m.remote) {
    }
    forall n | n in m.remote ensures M.HasNumber(list, n) {
    }
  }

  /** The sync that ends with this listing leaves the mirror right exactly when every issue of the list
      dated before its start is among those brought or was in place already. */
  lemma SyncMirrorsExactly(w: World, issues: seq<L.Issue>)
    requires Sound(w) && EndsWith(w, issues)
    ensures M.Mirrors(Act(Act(w, Request(true)), Elsewhere(M.Finish)).mirror) <==> Complete(w, issues)
  {
    EndIsGot(w, issues);
    PageIsRight(w);
    SourcesMirrorExactly(w, issues);
    EndIsTakenOver(w, issues);
    hide *;
    FinishIs(TakenOver(w, issues));
  }

  lemma EndIsTakenOver(w: World, issues: seq<L.Issue>)
    requires EndsWith(w, issues)
    ensures Act(w, Request(true)) == TakenOver(w, issues)
  {
    hide L.ReadPage, Page, M.Sources, Listing, Since;
  }

  lemma FinishIs(w: World)
    ensures Act(w, Elsewhere(M.Finish)).mirror == M.Act(w.mirror, M.Finish)
  {
    hide M.Act;
  }

  predicate AskedUnchanged(w: World, x: L.Issue) {
    x.updated.Some? && x.updated.value < w.mirror.started && L.Newer(x, Since(w.mirror))
  }

  /** It is a listing to rely on, without looking at what is in place, exactly when it brought every
      issue of the list that was asked for and has not changed since the start. */
  lemma LastIsHonestExactly(w: World, issues: seq<L.Issue>)
    requires Sound(w) && EndsWith(w, issues)
    ensures M.Honest(w.mirror, w.mirror.pending.value.full, M.Sources(issues)) <==>
            forall i :: 0 <= i < |Listing(w)| && AskedUnchanged(w, Listing(w)[i]) ==> Listing(w)[i] in issues
  {
    var m, list, sources := w.mirror, Listing(w), M.Sources(issues);
    EndIsGot(w, issues);
    PageIsRight(w);
    GotSources(m, issues);
    assert M.Lists(list, m.remote);
    forall i | 0 <= i < |list|
      ensures M.Shows(list[i], m.remote)
      ensures list[i].updated.value < m.started ==> (list[i].number in sources <==> list[i] in issues)
      ensures M.Asked(m, m.pending.value.full, list[i].number) <==> L.Newer(list[i], Since(m))
    {
      assert M.Shows(list[i], m.remote);
      if list[i].updated.value < m.started {
        BroughtExactly(w, issues, i);
      }
    }
    hide *;
    HonestWhenBrought(w, issues, sources);
  }

  lemma HonestWhenBrought(w: World, issues: seq<L.Issue>, sources: map<nat, M.Record>)
    requires M.Lists(Listing(w), w.mirror.remote) && w.mirror.pending.Some? && w.mirror.pending.value.Asking?
    requires forall n :: n in sources && n in w.mirror.remote && w.mirror.remote[n].updated < w.mirror.started ==>
               sources[n] == w.mirror.remote[n]
    requires forall i :: 0 <= i < |Listing(w)| ==>
               && M.Shows(Listing(w)[i], w.mirror.remote)
               && (Listing(w)[i].updated.value < w.mirror.started ==>
                     (Listing(w)[i].number in sources <==> Listing(w)[i] in issues))
               && (M.Asked(w.mirror, w.mirror.pending.value.full, Listing(w)[i].number) <==> L.Newer(Listing(w)[i], Since(w.mirror)))
    ensures M.Honest(w.mirror, w.mirror.pending.value.full, sources) <==>
            forall i :: 0 <= i < |Listing(w)| && AskedUnchanged(w, Listing(w)[i]) ==> Listing(w)[i] in issues
  {
    hide Listing, Since, L.Newer;
    forall n | n in w.mirror.remote ensures M.HasNumber(Listing(w), n) {
    }
  }

  /** The sync's own condition comes to this: nothing missing was left behind before its last page. */
  lemma CompleteExactly(w: World, issues: seq<L.Issue>)
    requires Sound(w) && EndsWith(w, issues)
    ensures Complete(w, issues) <==> CoveredIn(w)
  {
    EndIsGot(w, issues);
    PageIsGot(w);
    var list, k := Listing(w), w.walk.value;
    hide M.Inv, ListsAreRight, GotRight, Sound, Got, Page, L.Filter, L.ReadPage, EndsWith;
    forall i | 0 <= i < |list| && Missing(list[i], w.mirror.started, w.mirror.local) ensures i < From(k.page + 1) {
      NothingBehindLast(w, i);
    }
    assert Covered(list, L.Walk(k.page + 1, issues, {}), w.mirror.started, w.mirror.local) <==> CoveredIn(w);
  }

  lemma NotOnLaterPage(list: seq<L.Issue>, p: nat, since: Option<int>, i: nat)
    requires Numbered(list) && i < |list| && i < From(p)
    ensures list[i] !in L.Filter(Page(list, p), since)
  {
    var page := Page(list, p);
    L.FilterHas(page, since, list[i]);
    forall j | 0 <= j < |page| ensures page[j] != list[i] {
      assert list[From(p) + j] == page[j];
    }
  }

  lemma {:induction false} SourcesComeFrom(issues: seq<L.Issue>, n: nat)
    ensures n in M.Sources(issues) ==> exists x :: x in issues && x.number == n
    decreases |issues|
  {
    if issues != [] {
      SourcesComeFrom(issues[..|issues| - 1], n);
      assert issues[|issues| - 1] in issues && forall y :: y in issues[..|issues| - 1] ==> y in issues;
    }
  }

  lemma {:induction false} GotSources(m: M.World, issues: seq<L.Issue>)
    requires GotRight(m, issues)
    ensures forall n :: n in M.Sources(issues) && n in m.remote && m.remote[n].updated < m.started ==>
              M.Sources(issues)[n] == m.remote[n]
    ensures forall x :: x in issues ==> x.number in M.Sources(issues)
    decreases |issues|
  {
    if issues != [] {
      var front, x := issues[..|issues| - 1], issues[|issues| - 1];
      assert x in issues && forall y :: y in front ==> y in issues;
      GotSources(m, front);
      assert forall y :: y in issues ==> y in front || y == x by {
        assert issues == front + [x];
      }
    }
  }

  lemma RequestFails(w: World)
    requires Inv(w) && w.walk.Some?
    ensures Inv(w.(mirror := M.Act(w.mirror, M.Fail({})), walk := None))
  {
    M.ActKeepsInv(w.mirror, M.Fail({}));
    hide M.Inv, M.Lists, L.NewestFirst, Numbered;
  }

  /** A listing without gaps will mirror the remote once it is stored. */
  lemma RequestEnds(w: World, issues: seq<L.Issue>)
    requires Inv(w) && EndsWith(w, issues)
    ensures Inv(TakenOver(w, issues))
  {
    EndIsGot(w, issues);
    PageIsRight(w);
    CompleteExactly(w, issues);
    SourcesMirrorExactly(w, issues);
    assert GotRight(w.mirror, issues) && Complete(w, issues);
    hide *;
    TakenOverIsSound(w, issues);
  }

  lemma TakenOverIsSound(w: World, issues: seq<L.Issue>)
    requires Inv(w) && w.walk.Some? && GotRight(w.mirror, issues) && M.WillMirror(TakenOver(w, issues).mirror)
    ensures Inv(TakenOver(w, issues))
  {
    assert M.Mirrors(TakenOver(w, issues).mirror) && M.FetchedRight(TakenOver(w, issues).mirror);
    hide M.WillMirror, M.Lists, L.NewestFirst, Numbered, M.Sources, GotRight, Covered, M.Mirrors, M.FetchedRight;
  }

  /** Page by page nothing that was left behind is caught up with, and nothing more is left behind. */
  lemma RequestGoesOn(w: World, next: L.Walk)
    requires Sound(w) && w.walk.Some?
    requires L.ReadPage(Page(Listing(w), w.walk.value.page), Since(w.mirror), w.walk.value) == L.More(next)
    ensures Sound(w.(walk := Some(next)))
    ensures CoveredIn(w.(walk := Some(next))) <==> CoveredIn(w)
  {
    L.ReadPageCases(Page(Listing(w), w.walk.value.page), Since(w.mirror), w.walk.value);
    PageIsGot(w);
    PageIsRight(w);
    GotIs(w);
    hide *;
    TakenOn(w, next, Got(w));
  }

  lemma GotIs(w: World)
    requires w.walk.Some?
    ensures Got(w) == w.walk.value.issues + L.Filter(Page(Listing(w), w.walk.value.page), Since(w.mirror))
  {
  }

  lemma TakenOn(w: World, next: L.Walk, got: seq<L.Issue>)
    requires Sound(w) && w.walk.Some? && next.issues == got && GotRight(w.mirror, got)
    ensures Sound(w.(walk := Some(next)))
    ensures CoveredIn(w.(walk := Some(next))) <==> Covered(Listing(w), L.Walk(next.page, got, {}), w.mirror.started, w.mirror.local)
  {
    SeenDoesNotMatter(Listing(w), L.Walk(next.page, got, {}), next, w.mirror.started, w.mirror.local);
    hide M.Inv, ListsAreRight, GotRight, Covered;
  }

  lemma SeenDoesNotMatter(list: seq<L.Issue>, k: L.Walk, k': L.Walk, started: int, local: map<nat, M.Record>)
    requires k.page == k'.page && k.issues == k'.issues
    ensures Covered(list, k, started, local) <==> Covered(list, k', started, local)
  {
  }

  lemma RequestKeepsInv(w: World, answered: bool)
    requires Inv(w)
    ensures Inv(Act(w, Request(answered)))
  {
    hide Sound, CoveredIn, L.ReadPage, Page, Listing, Since, M.Act, M.Sources;
    if w.walk.Some? {
      RequestFails(w);
      var turn := L.ReadPage(Page(Listing(w), w.walk.value.page), Since(w.mirror), w.walk.value);
      if answered && w.walk.value.page < MAX_PAGES {
        match turn
        case Repeated =>
        case Last(issues) => RequestEnds(w, issues);
        case More(next) => RequestGoesOn(w, next);
      }
    }
  }

  lemma ActKeepsInv(w: World, a: Action)
    requires Inv(w) && Steady(w, a)
    ensures Inv(Act(w, a))
  {
    hide Act, Sound, CoveredIn, Hides;
    match a
    case Edit(n, content, at) => EditKeepsInv(w, n, content, at);
    case Delete(n) => DeleteKeepsInv(w, n);
    case Start(full) => StartKeepsInv(w, full);
    case Request(answered) => RequestKeepsInv(w, answered);
    case Elsewhere(b) => ElsewhereKeepsInv(w, b);
  }

  ghost predicate AllSteady(w: World, actions: seq<Action>)
    decreases |actions|
  {
    actions == [] || (Steady(w, actions[0]) && AllSteady(Act(w, actions[0]), actions[1..]))
  }

  lemma {:induction false} RunKeepsInv(w: World, actions: seq<Action>)
    requires Inv(w) && AllSteady(w, actions)
    ensures Inv(Run(w, actions))
    decreases |actions|
  {
    hide Act, Inv, Steady;
    if actions != [] {
      ActKeepsInv(w, actions[0]);
      RunKeepsInv(Act(w, actions[0]), actions[1..]);
    }
  }

  /** A repository before its first sync. */
  ghost predicate Fresh(w: World) {
    && w.mirror == M.Empty(w.mirror.now, w.mirror.remote)
    && w.walk == None
    && ListsAreRight(w)
  }

  /** With page requests, edits, additions and deletions in any order, the mirror holds on every run in
      which no deletion hides an issue from the listing under way. */
  lemma MirrorHolds(w: World, actions: seq<Action>)
    requires Fresh(w) && AllSteady(w, actions)
    ensures M.Mirrors(Run(w, actions).mirror)
  {
    assert Inv(w);
    RunKeepsInv(w, actions);
  }

  // ---------------------------------------------------------------- a deletion and what comes of it

  /** The rest of a sync that nothing disturbs: page requests and the end. */
  function Rest(requests: nat): seq<Action> {
    if requests == 0 then [Elsewhere(M.Finish)] else [Request(true)] + Rest(requests - 1)
  }

  lemma RunFirst(w: World, a: Action, rest: seq<Action>)
    ensures Run(w, [a] + rest) == Run(Act(w, a), rest)
  {
    hide Act;
    assert ([a] + rest)[1..] == rest;
  }

  lemma FinishOnly(w: World)
    ensures Run(w, [Elsewhere(M.Finish)]) == Act(w, Elsewhere(M.Finish))
  {
    hide Act;
    assert [Elsewhere(M.Finish)] == [Elsewhere(M.Finish)] + [];
    RunFirst(w, Elsewhere(M.Finish), []);
  }

  /** Without a listing under way requests do nothing. */
  lemma {:induction false} NothingToRequest(w: World, requests: nat)
    requires w.walk.None?
    ensures Run(w, Rest(requests)) == Act(w, Elsewhere(M.Finish))
  {
    if requests == 0 {
      FinishOnly(w);
    } else {
      RunFirst(w, Request(true), Rest(requests - 1));
      NothingToRequest(w, requests - 1);
    }
  }

  lemma FailedStays(w: World)
    requires w.walk.Some? && Sound(w)
    ensures Act(w.(mirror := M.Act(w.mirror, M.Fail({})), walk := None), Elsewhere(M.Finish)).mirror.status != M.Succeeded
  {
    hide ListsAreRight, GotRight;
  }

  lemma UnfinishedStays(w: World)
    requires w.walk.Some? && Sound(w)
    ensures Act(w, Elsewhere(M.Finish)).mirror.status != M.Succeeded
  {
    hide ListsAreRight, GotRight;
  }

  /** An undisturbed rest that succeeds leaves the mirror right exactly when nothing missing has been
      left behind so far. */
  lemma {:induction false} RestMirrorsExactly(w: World, requests: nat)
    requires Sound(w) && w.walk.Some?
    requires Run(w, Rest(requests)).mirror.status == M.Succeeded
    ensures M.Mirrors(Run(w, Rest(requests)).mirror) <==> CoveredIn(w)
    decreases requests
  {
    hide Sound, CoveredIn, L.ReadPage, Page, M.Act, M.Mirrors, M.Sources, Listing, Since;
    FinishOnly(w);
    UnfinishedStays(w);
    if requests > 0 {
      RunFirst(w, Request(true), Rest(requests - 1));
      FailedStays(w);
      NextRequest(w, requests - 1);
      if Act(w, Request(true)).walk.Some? {
        RestMirrorsExactly(Act(w, Request(true)), requests - 1);
      }
    }
  }

  /** The three ways a request can go. */
  lemma NextRequest(w: World, requests: nat)
    requires Sound(w) && w.walk.Some?
    ensures var v := Act(w, Request(true));
            && (v.walk.Some? ==> Sound(v) && (CoveredIn(v) <==> CoveredIn(w)))
            && (v.walk.None? ==>
                  Run(v, Rest(requests)).mirror.status != M.Succeeded
                  || (M.Mirrors(Run(v, Rest(requests)).mirror) <==> CoveredIn(w)))
  {
    hide Sound, CoveredIn, L.ReadPage, Page, M.Act, M.Mirrors, M.Sources, Listing, Since, Run, Rest;
    var v := Act(w, Request(true));
    var turn := L.ReadPage(Page(Listing(w), w.walk.value.page), Since(w.mirror), w.walk.value);
    if v.walk.None? {
      NothingToRequest(v, requests);
    }
    FailedStays(w);
    if w.walk.value.page < MAX_PAGES {
      match turn
      case Repeated =>
      case Last(issues) =>
        assert EndsWith(w, issues);
        SyncMirrorsExactly(w, issues);
        CompleteExactly(w, issues);
      case More(next) => RequestGoesOn(w, next);
    }
  }

  /** A deletion during a listing of a mirror that is right breaks the mirror, if the rest of the sync is
      undisturbed and succeeds, exactly when it hides an issue. */
  lemma DeletionBreaksExactly(w: World, n: nat, requests: nat)
    requires Inv(w) && w.walk.Some?
    requires Run(w, [Delete(n)] + Rest(requests)).mirror.status == M.Succeeded
    ensures M.Mirrors(Run(w, [Delete(n)] + Rest(requests)).mirror) <==> !Hides(w, Delete(n))
  {
    DeleteKeepsInv(w, n);
    RunFirst(w, Delete(n), Rest(requests));
    DeleteKeepsWalk(w, n);
    hide Inv, Act, Sound, CoveredIn, Hides, Rest, Run;
    RestMirrorsExactly(Act(w, Delete(n)), requests);
  }

  lemma DeleteKeepsWalk(w: World, n: nat)
    ensures Act(w, Delete(n)).walk == w.walk
  {
  }

  /** Deletions wait for the end of a listing. */
  ghost predicate NothingDeletedMeanwhile(w: World, actions: seq<Action>)
    decreases |actions|
  {
    actions == []
    || (&& (actions[0].Delete? ==> w.walk.None?)
        && (actions[0].Elsewhere? ==> M.Prompt(w.mirror, actions[0].a))
        && NothingDeletedMeanwhile(Act(w, actions[0]), actions[1..]))
  }

  lemma {:induction false} WithoutDeletionsSteady(w: World, actions: seq<Action>)
    requires NothingDeletedMeanwhile(w, actions)
    ensures AllSteady(w, actions)
    decreases |actions|
  {
    hide Act;
    if actions != [] {
      WithoutDeletionsSteady(Act(w, actions[0]), actions[1..]);
    }
  }

  /** So it holds however edits and additions fall between page requests, if nothing is deleted there. */
  lemma MirrorHoldsWithoutDeletions(w: World, actions: seq<Action>)
    requires Fresh(w) && NothingDeletedMeanwhile(w, actions)
    ensures M.Mirrors(Run(w, actions).mirror)
  {
    WithoutDeletionsSteady(w, actions);
    MirrorHolds(w, actions);
  }

  // ---------------------------------------------------------------- the deletion that loses an issue

  lemma PageIsDistinct(list: seq<L.Issue>)
    requires Numbered(list)
    ensures L.Distinct(Page(list, 0))
  {
    PageEntries(list, 0);
  }

  /** The walk after the first page. */
  function Second(list: seq<L.Issue>): L.Walk { L.Walk(1, Page(list, 0), L.IdsOf(Page(list, 0))) }

  lemma NothingYet(page: seq<L.Issue>, ids: set<nat>)
    ensures L.START.issues + page == page && L.START.seen + ids == ids && L.START.page + 1 == 1
  {
    assert [] + page == page && {} + ids == ids;
  }

  lemma FirstPageIsTaken(list: seq<L.Issue>)
    requires Numbered(list) && |list| >= PAGE
    ensures L.ReadPage(Page(list, 0), None, L.START) == L.More(Second(list))
  {
    var page := Page(list, 0);
    PageIsDistinct(list);
    L.FullPageIsTaken(page, L.START);
    hide *;
    NothingYet(page, L.IdsOf(page));
  }

  lemma EmptyPageEnds(list: seq<L.Issue>, k: L.Walk)
    requires |list| == PAGE && k.page == 1
    ensures L.ReadPage(Page(list, 1), None, k) == L.Last(k.issues)
  {
    assert Page(list, 1) == [];
    L.DistinctCounts([]);
    L.WithoutCursor([]);
    assert |L.IdsOf([])| == 0;
    assert k.issues + [] == k.issues;
  }

  /** The last of a page and one issues is lost: a full sync reads the first page, the first issue is
      deleted, the second page comes back empty, and the sync succeeds without the last issue. */
  lemma DeletionLosesAnIssue(w: World)
    requires Fresh(w) && |w.byDefault| == PAGE + 1
    requires forall n :: n in w.mirror.remote ==> w.mirror.remote[n].updated < w.mirror.now
    ensures var first, last := w.byDefault[0].number, w.byDefault[PAGE].number;
            var v := Run(w, [Start(true), Request(true), Delete(first), Request(true), Elsewhere(M.Finish)]).mirror;
            v.status == M.Succeeded && last in v.remote && last !in v.local && !M.Mirrors(v)
  {
    var list := w.byDefault;
    var first, last := list[0].number, list[PAGE].number;
    var w2 := Act(Act(w, Start(true)), Request(true));
    var w4 := Act(Act(w2, Delete(first)), Request(true));
    RunFive(w, Start(true), Request(true), Delete(first), Request(true), Elsewhere(M.Finish));
    FirstPageIsRead(w);
    SecondPageIsRead(w2);
    LastIsNeverGot(list);
    LastIsThere(w);
    hide *;
    FinishWithout(w4, M.Sources(Page(list, 0)), last);
  }

  lemma LastIsNeverGot(list: seq<L.Issue>)
    requires Numbered(list) && |list| == PAGE + 1
    ensures list[PAGE].number !in M.Sources(Page(list, 0))
  {
    PageLacksLast(list);
    SourcesComeFrom(Page(list, 0), list[PAGE].number);
  }

  lemma LastIsThere(w: World)
    requires Fresh(w) && |w.byDefault| == PAGE + 1
    ensures w.byDefault[PAGE].number in w.mirror.remote && w.byDefault[PAGE].number != w.byDefault[0].number
  {
    assert M.Lists(w.byDefault, w.mirror.remote) && M.Shows(w.byDefault[PAGE], w.mirror.remote);
  }

  lemma FinishWithout(w: World, sources: map<nat, M.Record>, n: nat)
    requires w.mirror.pending == Some(M.Listed(sources)) && n !in sources && n !in w.mirror.local
    requires n in w.mirror.remote && w.mirror.remote[n].updated < w.mirror.started
    ensures var v := Act(w, Elsewhere(M.Finish)).mirror;
            v.status == M.Succeeded && n in v.remote && n !in v.local && !M.Mirrors(v)
  {
  }

  lemma StartIs(w: World)
    requires Fresh(w)
    ensures var v := Act(w, Start(true));
            && v.byDefault == w.byDefault && v.walk == Some(L.START)
            && v.mirror.pending == Some(M.Asking(true)) && v.mirror.started == w.mirror.now
            && v.mirror.local == map[] && v.mirror.remote == w.mirror.remote
  {
    hide ListsAreRight;
  }

  lemma RequestIs(w: World, next: L.Walk)
    requires w.walk.Some? && w.walk.value.page < MAX_PAGES && w.mirror.pending == Some(M.Asking(true))
    requires L.ReadPage(Page(w.byDefault, w.walk.value.page), None, w.walk.value) == L.More(next)
    ensures Act(w, Request(true)) == w.(walk := Some(next))
  {
    hide L.ReadPage, Page;
  }

  lemma FirstPageIsRead(w: World)
    requires Fresh(w) && |w.byDefault| == PAGE + 1
    ensures var v := Act(Act(w, Start(true)), Request(true));
            && v.byDefault == w.byDefault
            && v.walk == Some(Second(w.byDefault))
            && v.mirror.pending == Some(M.Asking(true)) && v.mirror.started == w.mirror.now
            && v.mirror.local == map[] && v.mirror.remote == w.mirror.remote
  {
    FirstPageIsTaken(w.byDefault);
    StartIs(w);
    hide Act, Second, L.ReadPage, Page, ListsAreRight;
    RequestIs(Act(w, Start(true)), Second(w.byDefault));
  }

  lemma SecondPageIsRead(w: World)
    requires |w.byDefault| == PAGE + 1 && Numbered(w.byDefault)
    requires w.walk.Some? && w.walk.value.page == 1 && w.mirror.pending == Some(M.Asking(true))
    ensures var first := w.byDefault[0].number;
            var v := Act(Act(w, Delete(first)), Request(true)).mirror;
            && v.pending == Some(M.Listed(M.Sources(w.walk.value.issues))) && v.started == w.mirror.started
            && v.local == w.mirror.local && v.remote == w.mirror.remote - {first}
  {
    var first := w.byDefault[0].number;
    WithoutFirst(w.byDefault);
    EmptyPageEnds(Without(w.byDefault, first), w.walk.value);
    hide L.ReadPage, Page, Without, M.Sources, Numbered;
  }

  lemma WithoutFirst(list: seq<L.Issue>)
    requires Numbered(list) && list != []
    ensures |Without(list, list[0].number)| == |list| - 1
  {
    WithoutEntries(list, list[0].number);
  }

  lemma PageLacksLast(list: seq<L.Issue>)
    requires Numbered(list) && |list| == PAGE + 1
    ensures forall x :: x in Page(list, 0) ==> x.number != list[PAGE].number
  {
    PageEntries(list, 0);
  }

  lemma RunFive(w: World, a: Action, b: Action, c: Action, d: Action, e: Action)
    ensures Run(w, [a, b, c, d, e]) == Act(Act(Act(Act(Act(w, a), b), c), d), e)
  {
    hide Act;
    assert [a, b, c, d, e] == [a] + ([b] + ([c] + ([d] + ([e] + []))));
    RunFirst(w, a, [b] + ([c] + ([d] + ([e] + []))));
    RunFirst(Act(w, a), b, [c] + ([d] + ([e] + [])));
    RunFirst(Act(Act(w, a), b), c, [d] + ([e] + []));
    RunFirst(Act(Act(Act(w, a), b), c), d, [e] + []);
    RunFirst(Act(Act(Act(Act(w, a), b), c), d), e, []);
  }
}
