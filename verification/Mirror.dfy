/** The local mirror of a repository's issues: full and incremental syncs with a cursor, additions by
    URL, and a remote that is edited meanwhile. */
module Mirror {
  import opened Values
  import ListIssues

  /** An issue's text and its update time, as the provider reports them. */
  datatype Record = Record(updated: int, content: string)

  datatype Status = Resting | Running | Failed | Succeeded

  /** What a running sync has got from the provider, once it has. */
  datatype Pending = Asking(full: bool) | Listed(sources: map<nat, Record>)

  /** An issue fetched for an addition by URL; `current` until a sync starts. */
  datatype Fetched = Fetched(number: nat, value: Record, current: bool)

  datatype World = World(
    now: int,
    remote: map<nat, Record>,
    local: map<nat, Record>,
    status: Status,
    cursor: Option<int>,
    started: int,
    pending: Option<Pending>,
    fetched: map<nat, Fetched>)

  datatype Action =
    | Tick(seconds: nat)
    | Edit(number: nat, value: Record)
    | Delete(number: nat)
    | Start(full: bool)
    | List(sources: map<nat, Record>)
    | Finish
    | Fail(stored: set<nat>)
    | Crash
    | Restart
    | Fetch(request: nat, number: nat)
    | Store(request: nat)

  /** Every remote issue last updated before the cursor has a local row equal to it. */
  ghost predicate Mirrors(w: World) {
    w.cursor.Some? ==>
      forall n :: n in w.remote && w.remote[n].updated < w.cursor.value ==> n in w.local && w.local[n] == w.remote[n]
  }

  // ---------------------------------------------------------------- steps

  /** Issues the provider is asked for. */
  predicate Asked(w: World, full: bool, n: nat) {
    n in w.remote && (full || w.cursor.None? || w.remote[n].updated >= w.cursor.value)
  }

  /** What a listing may rely on: the issues that have not changed since the sync started are in it,
      if they were asked for, and as they are; whatever changed meanwhile may appear in any form. */
  ghost predicate Honest(w: World, full: bool, sources: map<nat, Record>) {
    && (forall n :: Asked(w, full, n) && w.remote[n].updated < w.started ==> n in sources && sources[n] == w.remote[n])
    && (forall n :: n in sources && n in w.remote && w.remote[n].updated < w.started ==> sources[n] == w.remote[n])
  }

  /** Sources are stored in one transaction with the end of the sync; a failure keeps those stored
      so far, a crash none. */
  function Stored(local: map<nat, Record>, sources: map<nat, Record>, some: set<nat>): map<nat, Record> {
    local + map n | n in sources && n in some :: sources[n]
  }

  function Stale(fetched: map<nat, Fetched>): map<nat, Fetched> {
    map r | r in fetched :: fetched[r].(current := false)
  }

  ghost function Act(w: World, a: Action): World {
    match a
    case Tick(seconds) => w.(now := w.now + seconds)
    case Edit(n, value) => if value.updated <= w.now then w.(remote := w.remote[n := value]) else w
    case Delete(n) => w.(remote := w.remote - {n})
    case Start(full) =>
      if w.status == Running then w
      else w.(status := Running, started := w.now, pending := Some(Asking(full)), fetched := Stale(w.fetched))
    case List(sources) =>
      if w.pending.Some? && w.pending.value.Asking? && Honest(w, w.pending.value.full, sources)
      then w.(pending := Some(Listed(sources))) else w
    case Finish =>
      if w.pending.Some? && w.pending.value.Listed?
      then w.(local := w.local + w.pending.value.sources, status := Succeeded, cursor := Some(w.started), pending := None)
      else w
    case Fail(some) =>
      if w.pending.None? then w
      else w.(local := if w.pending.value.Listed? then Stored(w.local, w.pending.value.sources, some) else w.local,
              status := Failed, pending := None)
    case Crash => w.(pending := None)
    case Restart => if w.status == Running && w.pending.None? then w.(status := Failed) else w
    case Fetch(r, n) => if n in w.remote then w.(fetched := w.fetched[r := Fetched(n, w.remote[n], true)]) else w
    case Store(r) =>
      if r in w.fetched
      then w.(local := w.local[w.fetched[r].number := w.fetched[r].value], fetched := w.fetched - {r}) else w
  }

  /** The time before which the mirror counts on nothing changing: the start of a running sync, or else
      the cursor. */
  function Barrier(w: World): Option<int> {
    if w.status == Running then Some(w.started) else w.cursor
  }

  /** What the mirror needs of everyone else: no edit is dated before the barrier it comes after, and
      no fetched issue is stored after a later sync has started. With one shared clock that dates
      edits to the instant, the first always holds. */
  predicate Prompt(w: World, a: Action) {
    match a
    case Edit(_, value) => Barrier(w).Some? ==> value.updated >= Barrier(w).value
    case Store(r) => r in w.fetched ==> w.fetched[r].current
    case _ => true
  }

  ghost predicate AllPrompt(w: World, actions: seq<Action>)
    decreases |actions|
  {
    actions == [] || (Prompt(w, actions[0]) && AllPrompt(Act(w, actions[0]), actions[1..]))
  }

  ghost function Run(w: World, actions: seq<Action>): World
    decreases |actions|
  {
    if actions == [] then w else Run(Act(w, actions[0]), actions[1..])
  }

  // ---------------------------------------------------------------- the invariant

  /** Below the barrier, a value is what the remote has. */
  ghost predicate Right(w: World, n: nat, value: Record) {
    n in w.remote && Barrier(w).Some? && w.remote[n].updated < Barrier(w).value ==> value == w.remote[n]
  }

  /** What a running sync is about to store will close the gap up to its own start. */
  ghost predicate WillMirror(w: World) {
    w.pending.Some? && w.pending.value.Listed? ==>
      var sources := w.pending.value.sources;
      && (forall n :: n in sources ==> Right(w, n, sources[n]))
      && (forall n :: n in w.remote && w.remote[n].updated < w.started ==>
            n in sources || (n in w.local && w.local[n] == w.remote[n]))
  }

  ghost predicate FetchedRight(w: World) {
    forall r :: r in w.fetched && w.fetched[r].current ==> Right(w, w.fetched[r].number, w.fetched[r].value)
  }

  ghost predicate Inv(w: World) {
    && w.started <= w.now
    && (w.cursor.Some? ==> w.cursor.value <= w.started)
    && (w.pending.Some? ==> w.status == Running)
    && Mirrors(w)
    && WillMirror(w)
    && FetchedRight(w)
  }

  lemma ActKeepsInv(w: World, a: Action)
    requires Inv(w) && Prompt(w, a)
    ensures Inv(Act(w, a))
  {
  }

  lemma {:induction false} RunKeepsInv(w: World, actions: seq<Action>)
    requires Inv(w) && AllPrompt(w, actions)
    ensures Inv(Run(w, actions))
    decreases |actions|
  {
    if actions != [] {
      ActKeepsInv(w, actions[0]);
      hide Act, Inv, Prompt;
      RunKeepsInv(Act(w, actions[0]), actions[1..]);
    }
  }

  /** After any mix of full, incremental, failed and crashed syncs, additions by URL, edits and
      deletions, every remote issue last updated before the cursor is mirrored. */
  lemma MirrorHolds(now: int, remote: map<nat, Record>, actions: seq<Action>)
    requires AllPrompt(Empty(now, remote), actions)
    ensures Mirrors(Run(Empty(now, remote), actions))
  {
    RunKeepsInv(Empty(now, remote), actions);
  }

  function Empty(now: int, remote: map<nat, Record>): World {
    World(now, remote, map[], Resting, None, now, None, map[])
  }

  // ---------------------------------------------------------------- one shared clock

  /** Edits are dated with the clock that dates the syncs. */
  predicate SharedClock(w: World, a: Action) {
    a.Edit? ==> a.value.updated == w.now
  }

  lemma SharedClockIsPrompt(w: World, a: Action)
    requires Inv(w) && SharedClock(w, a) && !a.Store?
    ensures Prompt(w, a)
  {
  }

  ghost predicate AllShared(w: World, actions: seq<Action>)
    decreases |actions|
  {
    actions == []
    || (SharedClock(w, actions[0]) && (actions[0].Store? ==> Prompt(w, actions[0])) && AllShared(Act(w, actions[0]), actions[1..]))
  }

  lemma {:induction false} SharedClockIsAlwaysPrompt(w: World, actions: seq<Action>)
    requires Inv(w) && AllShared(w, actions)
    ensures AllPrompt(w, actions)
    decreases |actions|
  {
    hide Act, Inv, Prompt, SharedClock;
    if actions != [] {
      if !actions[0].Store? {
        SharedClockIsPrompt(w, actions[0]);
      }
      ActKeepsInv(w, actions[0]);
      SharedClockIsAlwaysPrompt(Act(w, actions[0]), actions[1..]);
    }
  }

  /** With one clock for edits and syncs, the mirror holds on every run that stores no issue fetched
      before the latest sync. */
  lemma SharedClockMirrors(now: int, remote: map<nat, Record>, actions: seq<Action>)
    requires AllShared(Empty(now, remote), actions)
    ensures Mirrors(Run(Empty(now, remote), actions))
  {
    SharedClockIsAlwaysPrompt(Empty(now, remote), actions);
    MirrorHolds(now, remote, actions);
  }

  // ---------------------------------------------------------------- where it fails, exactly

  /** An edit breaks the mirror at once exactly when it is dated before the cursor and the local row
      does not already say the same. */
  lemma EditBreaksExactly(w: World, n: nat, value: Record)
    requires Inv(w) && value.updated <= w.now
    ensures Mirrors(Act(w, Edit(n, value))) <==>
            w.cursor.None? || value.updated >= w.cursor.value || (n in w.local && w.local[n] == value)
  {
    var v := Act(w, Edit(n, value));
    assert n in v.remote && v.remote[n] == value;
  }

  /** An edit that comes after a sync has got its listing breaks the mirror at the end of that sync
      exactly when it is dated before the sync's start and the sync, or failing that the local row,
      does not already say the same. */
  lemma EditAfterListingBreaksExactly(w: World, n: nat, value: Record)
    requires Inv(w) && w.pending.Some? && w.pending.value.Listed? && value.updated <= w.now
    ensures var sources := w.pending.value.sources;
            Mirrors(Act(Act(w, Edit(n, value)), Finish)) <==>
            value.updated >= w.started
            || (if n in sources then sources[n] == value else n in w.local && w.local[n] == value)
  {
    var v := Act(Act(w, Edit(n, value)), Finish);
    assert n in v.remote && v.remote[n] == value && v.cursor == Some(w.started);
  }

  /** Before the listing, exactly when it is dated before the start, and neither asked for nor listed
      nor known: an incremental sync does not ask for what is dated before its cursor. */
  lemma EditBeforeListingBreaksExactly(w: World, n: nat, value: Record, sources: map<nat, Record>)
    requires Inv(w) && w.pending.Some? && w.pending.value.Asking? && value.updated <= w.now
    requires Honest(Act(w, Edit(n, value)), w.pending.value.full, sources)
    ensures var edited := Act(w, Edit(n, value));
            Mirrors(Act(Act(edited, List(sources)), Finish)) <==>
            value.updated >= w.started || Asked(edited, w.pending.value.full, n) || n in sources
            || (n in w.local && w.local[n] == value)
  {
    var edited := Act(w, Edit(n, value));
    var v := Act(Act(edited, List(sources)), Finish);
    assert n in v.remote && v.remote[n] == value && v.cursor == Some(w.started);
    assert forall m :: m in w.remote && m != n ==> m in edited.remote && edited.remote[m] == w.remote[m];
  }

  /** So a provider that dates in whole seconds loses an edit made during a sync: here one made after
      the listing, in the second before the start. */
  lemma EditDuringSyncIsLost(was: Record, now: Record)
    requires was.updated < now.updated < 10 && was != now
    ensures var w := Run(Empty(10, map[1 := was]), [Start(true), List(map[1 := was]), Edit(1, now), Finish]);
            w.cursor == Some(10) && w.remote == map[1 := now] && w.local == map[1 := was] && !Mirrors(w)
  {
    var w0 := Empty(10, map[1 := was]);
    var w2 := w0.(status := Running, started := 10, pending := Some(Listed(map[1 := was])));
    var w4 := w2.(remote := map[1 := now], local := map[1 := was], status := Succeeded, cursor := Some(10), pending := None);
    assert Stale(map[]) == map[];
    assert Act(Act(w0, Start(true)), List(map[1 := was])) == w2;
    assert Act(w2, Edit(1, now)) == w2.(remote := map[1 := now]);
    assert Act(Act(w2, Edit(1, now)), Finish) == w4;
    LostEdit(w4, 1);
    hide Act, Mirrors, Honest;
    RunTwo(w0, Start(true), List(map[1 := was]), [Edit(1, now), Finish]);
    RunTwo(w2, Edit(1, now), Finish, []);
    assert [Start(true), List(map[1 := was])] + [Edit(1, now), Finish] == [Start(true), List(map[1 := was]), Edit(1, now), Finish];
    assert [Edit(1, now), Finish] + [] == [Edit(1, now), Finish];
    assert Run(w4, []) == w4;
  }

  /** Storing a fetched issue breaks a mirror exactly when the remote issue was last updated before
      the cursor and is no longer what was fetched. */
  lemma StoreBreaksExactly(w: World, r: nat)
    requires Inv(w) && r in w.fetched
    ensures var f := w.fetched[r];
            Mirrors(Act(w, Store(r))) <==>
            !(w.cursor.Some? && f.number in w.remote && w.remote[f.number].updated < w.cursor.value
              && w.remote[f.number] != f.value)
  {
    var v, f := Act(w, Store(r)), w.fetched[r];
    assert v.local[f.number] == f.value;
  }

  /** A sync can start and finish between the fetch of an issue and its storing; an edit the sync
      had copied is then overwritten with the older text. */
  lemma LateStoreLosesAnEdit(was: Record, now: Record)
    requires was.updated == 0 && now.updated == 5 && was != now
    ensures var w := Run(Empty(0, map[1 := was]),
                         [Fetch(0, 1), Tick(5), Edit(1, now), Tick(5), Start(true), List(map[1 := now]), Finish, Store(0)]);
            w == Overwritten(was, now) && !Mirrors(w)
  {
    var w0 := Empty(0, map[1 := was]);
    FetchedThenEdited(was, now);
    SyncedThenOverwritten(was, now);
    LostEdit(Overwritten(was, now), 1);
    hide Act, Mirrors, Overwritten, Edited, Empty;
    RunTwo(w0, Fetch(0, 1), Tick(5), [Edit(1, now), Tick(5), Start(true), List(map[1 := now]), Finish, Store(0)]);
    RunTwo(Act(Act(w0, Fetch(0, 1)), Tick(5)), Edit(1, now), Tick(5), [Start(true), List(map[1 := now]), Finish, Store(0)]);
    RunTwo(Edited(was, now), Start(true), List(map[1 := now]), [Finish, Store(0)]);
    RunTwo(Act(Act(Edited(was, now), Start(true)), List(map[1 := now])), Finish, Store(0), []);
  }

  function Edited(was: Record, now: Record): World {
    World(10, map[1 := now], map[], Resting, None, 0, None, map[0 := Fetched(1, was, true)])
  }

  function Overwritten(was: Record, now: Record): World {
    World(10, map[1 := now], map[1 := was], Succeeded, Some(10), 10, None, map[])
  }

  lemma FetchedThenEdited(was: Record, now: Record)
    requires now.updated == 5
    ensures Act(Act(Act(Act(Empty(0, map[1 := was]), Fetch(0, 1)), Tick(5)), Edit(1, now)), Tick(5)) == Edited(was, now)
  {
  }

  lemma SyncedThenOverwritten(was: Record, now: Record)
    requires now.updated == 5
    ensures Act(Act(Act(Act(Edited(was, now), Start(true)), List(map[1 := now])), Finish), Store(0)) == Overwritten(was, now)
  {
    var w5 := Edited(was, now).(status := Running, started := 10, pending := Some(Asking(true)), fetched := map[0 := Fetched(1, was, false)]);
    var w7 := w5.(local := map[1 := now], status := Succeeded, cursor := Some(10), pending := None);
    assert Act(Edited(was, now), Start(true)) == w5;
    assert Act(w5, List(map[1 := now])) == w5.(pending := Some(Listed(map[1 := now])));
    assert Act(Act(w5, List(map[1 := now])), Finish) == w7;
    assert Act(w7, Store(0)) == Overwritten(was, now);
  }

  lemma LostEdit(w: World, n: nat)
    requires w.cursor.Some? && n in w.remote && w.remote[n].updated < w.cursor.value && n in w.local && w.local[n] != w.remote[n]
    ensures !Mirrors(w)
  {
  }

  lemma RunTwo(w: World, a: Action, b: Action, rest: seq<Action>)
    ensures Run(w, [a, b] + rest) == Run(Act(Act(w, a), b), rest)
  {
    hide Act;
    assert ([a, b] + rest)[1..] == [b] + rest && ([b] + rest)[1..] == rest;
    assert Run(w, [a, b] + rest) == Run(Act(w, a), [b] + rest);
  }

  // ---------------------------------------------------------------- what a sync achieves

  /** What the listing of a provider becomes: issue by issue, later entries over earlier ones; every
      issue is dated here. */
  function Sources(issues: seq<ListIssues.Issue>): (sources: map<nat, Record>)
    decreases |issues|
  {
    if issues == [] then map[]
    else
      var x := issues[|issues| - 1];
      var before := Sources(issues[..|issues| - 1]);
      if x.updated.Some? then before[x.number := Record(x.updated.value, x.content)] else before
  }

  /** The entry shows its issue as the remote has it. */
  predicate Shows(x: ListIssues.Issue, remote: map<nat, Record>) {
    x.updated.Some? && x.number in remote && remote[x.number] == Record(x.updated.value, x.content)
  }

  predicate HasNumber(listing: seq<ListIssues.Issue>, n: nat) {
    exists i :: 0 <= i < |listing| && listing[i].number == n
  }

  ghost predicate Lists(listing: seq<ListIssues.Issue>, remote: map<nat, Record>) {
    && (forall i :: 0 <= i < |listing| ==> Shows(listing[i], remote))
    && (forall n :: n in remote ==> HasNumber(listing, n))
  }

  lemma {:induction false} SourcesAreListed(issues: seq<ListIssues.Issue>, remote: map<nat, Record>)
    requires forall x :: x in issues ==> Shows(x, remote)
    ensures forall n :: n in Sources(issues) ==> n in remote && Sources(issues)[n] == remote[n]
    ensures forall x :: x in issues ==> x.number in Sources(issues)
    decreases |issues|
  {
    if issues != [] {
      var front, x := issues[..|issues| - 1], issues[|issues| - 1];
      assert x in issues && forall y :: y in front ==> y in issues;
      SourcesAreListed(front, remote);
      assert forall y :: y in issues ==> y in front || y == x by {
        assert issues == front + [x];
      }
    }
  }

  /** The filtered listing of an unchanged remote is what a sync may rely on: the provider's early
      stop feeds the mirror everything the sync asked for. */
  lemma FilteredListingIsHonest(w: World, full: bool, listing: seq<ListIssues.Issue>)
    requires Lists(listing, w.remote)
    ensures var issues := ListIssues.Filter(listing, if full then None else w.cursor);
            Honest(w, full, Sources(issues))
  {
    var since := if full then None else w.cursor;
    var issues := ListIssues.Filter(listing, since);
    forall x | x in issues
      ensures Shows(x, w.remote)
    {
      ListIssues.FilterHas(listing, since, x);
    }
    SourcesAreListed(issues, w.remote);
    forall n | Asked(w, full, n)
      ensures n in Sources(issues)
    {
      assert HasNumber(listing, n);
      var i :| 0 <= i < |listing| && listing[i].number == n;
      ListIssues.FilterHas(listing, since, listing[i]);
    }
  }

  /** A full sync that nothing disturbs copies the remote: everything dated before its start. */
  lemma FullSyncCopies(w: World, sources: map<nat, Record>)
    requires w.status != Running && Honest(Act(w, Start(true)), true, sources)
    ensures var v := Run(w, [Start(true), List(sources), Finish]);
            && v.status == Succeeded && v.cursor == Some(w.now) && v.remote == w.remote
            && forall n :: n in v.remote && v.remote[n].updated < w.now ==> n in v.local && v.local[n] == v.remote[n]
  {
    var w1 := Act(w, Start(true));
    var w2 := Act(w1, List(sources));
    RunTwo(w, Start(true), List(sources), [Finish]);
    assert [Finish][1..] == [];
    assert Run(w2, [Finish]) == Run(Act(w2, Finish), []);
  }

  // ---------------------------------------------------------------- the sync in place

  class IssueMirror {
    var local: map<nat, Record>
    var status: Status
    var cursor: Option<int>
    var started: int

    constructor (local: map<nat, Record>)
      ensures this.local == local && status == Resting && cursor == None
    {
      this.local := local;
      status := Resting;
      cursor := None;
      started := 0;
    }

    /** `answer` is what the provider lists, or its failure; storing may break off after some of it. */
    method SyncRepository(answer: Option<seq<ListIssues.Issue>>, breaksAfter: Option<nat>, now: int) returns (count: Option<nat>)
      requires answer.Some? ==> forall i :: 0 <= i < |answer.value| ==> answer.value[i].updated.Some?
      modifies this
      ensures old(status) == Running ==>
                count == Some(0) && local == old(local) && status == Running && cursor == old(cursor) && started == old(started)
      ensures old(status) != Running ==> started == now
      ensures old(status) != Running && answer.None? ==>
                count == None && local == old(local) && status == Failed && cursor == old(cursor)
      ensures old(status) != Running && answer.Some? && (breaksAfter.Some? && breaksAfter.value < |answer.value|) ==>
                count == None && local == old(local) + Sources(answer.value[..breaksAfter.value])
                && status == Failed && cursor == old(cursor)
      ensures old(status) != Running && answer.Some? && (breaksAfter.Some? ==> breaksAfter.value >= |answer.value|) ==>
                count == Some(|answer.value|) && local == old(local) + Sources(answer.value)
                && status == Succeeded && cursor == Some(now)
    {
      if status == Running {
        return Some(0);
      }
      status := Running;
      started := now;
      if answer.None? {
        status := Failed;
        return None;
      }
      var sources := answer.value;
      ghost var before := local;
      assert sources[..0] == [];
      for i := 0 to |sources|
        invariant local == before + Sources(sources[..i])
        invariant breaksAfter.Some? ==> i <= breaksAfter.value
        invariant status == Running && started == now && cursor == old(cursor)
      {
        if breaksAfter == Some(i) {
          status := Failed;
          return None;
        }
        assert sources[..i + 1][..i] == sources[..i];
        local := local[sources[i].number := Record(sources[i].updated.value, sources[i].content)];
      }
      assert sources[..|sources|] == sources;
      status := Succeeded;
      cursor := Some(started);
      return Some(|sources|);
    }
  }
}
