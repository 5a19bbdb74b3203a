/** The scheduler's own loops over the task table: recovery of lost claims, the claiming pass with
    its reserved counters, and the cancellation of a deactivated user's tasks. */
module Scheduler {
  import opened Values
  import opened TaskTable
  import opened TaskService

  // ---------------------------------------------------------------- working through a set of rows

  ghost predicate NoRepeats(s: seq<nat>) {
    forall i, j :: 0 <= i < j < |s| ==> s[i] != s[j]
  }

  /** `order` visits every element of `s` exactly once. */
  ghost predicate Enumerates(order: seq<nat>, s: set<nat>) {
    NoRepeats(order) && (forall x :: x in order <==> x in s)
  }

  lemma EnumeratesMore(order: seq<nat>, s: set<nat>, t: nat)
    requires Enumerates(order, s) && t !in s
    ensures Enumerates(order + [t], s + {t})
  {
  }

  function DueTasks(db: Db, now: int): set<nat> {
    set t | t in db.tasks && Due(db.tasks[t], now)
  }

  function RecoverMany(db: Db, order: seq<nat>, now: int): Db
    decreases |order|
  {
    if order == [] then db
    else RecoverDb(RecoverMany(db, order[..|order| - 1], now), order[|order| - 1], now)
  }

  /** Recovery touches exactly the due rows, each as it was found, in whatever order it meets them. */
  lemma {:induction false} RecoveredRows(db: Db, order: seq<nat>, now: int)
    requires NoRepeats(order) && forall t :: t in order ==> t in DueTasks(db, now)
    ensures var db' := RecoverMany(db, order, now);
            && db'.tasks.Keys == db.tasks.Keys
            && (forall t :: t in db.tasks ==>
                  db'.tasks[t] == if t in order then Recovered(db.tasks[t], now) else db.tasks[t])
            && |db'.log| == |db.log| + |order|
            && db'.issues == db.issues
    decreases |order|
  {
    if order != [] {
      var front, last := order[..|order| - 1], order[|order| - 1];
      assert order == front + [last];
      RecoveredRows(db, front, now);
      assert last in order && last !in front;
    }
  }

  /** One more due row in the order is one more recovered row in the table. */
  lemma RecoverNext(db: Db, order: seq<nat>, left: set<nat>, t: nat, now: int)
    requires left <= DueTasks(db, now) && t in left && Enumerates(order, DueTasks(db, now) - left)
    ensures var db' := RecoverMany(db, order, now);
            && t in db'.tasks && db'.tasks[t] == db.tasks[t]
            && RecoverMany(db, order + [t], now) == Moved(db', t, Recovered(db.tasks[t], now))
    ensures Enumerates(order + [t], DueTasks(db, now) - (left - {t}))
  {
    RecoveredRows(db, order, now);
    assert (order + [t])[..|order|] == order;
    EnumeratesMore(order, DueTasks(db, now) - left, t);
    assert DueTasks(db, now) - left + {t} == DueTasks(db, now) - (left - {t});
  }

  /** No recovered row needs recovering again. */
  lemma RecoveredIsNotDue(r: Row, now: int)
    ensures !Due(Recovered(r, now), now)
  {
  }

  function CancelMany(db: Db, order: seq<nat>, now: int): Db
    decreases |order|
  {
    if order == [] then db
    else CancelDb(CancelMany(db, order[..|order| - 1], now), order[|order| - 1], now)
  }

  function Switched(db: Db, user: nat, active: bool): Db
    requires user in db.users
  {
    db.(users := db.users[user := db.users[user].(active := active)])
  }

  function TasksToCancel(db: Db, user: nat): set<nat> {
    set t | t in db.tasks && db.tasks[t].owner == user && Cancellable(db.tasks[t])
  }

  lemma {:induction false} CancelledRows(db: Db, order: seq<nat>, now: int)
    requires NoRepeats(order) && forall t :: t in order ==> t in db.tasks && Cancellable(db.tasks[t])
    ensures var db' := CancelMany(db, order, now);
            && db'.tasks.Keys == db.tasks.Keys
            && (forall t :: t in db.tasks ==>
                  db'.tasks[t] == if t in order then CancelRow(db.tasks[t], now) else db.tasks[t])
            && db'.users == db.users
    decreases |order|
  {
    if order != [] {
      var front, last := order[..|order| - 1], order[|order| - 1];
      assert order == front + [last];
      CancelledRows(db, front, now);
      assert last in order && last !in front;
    }
  }

  /** The log gets one record for each cancelled task, in the order they were cancelled. */
  lemma {:induction false} CancelledLog(db: Db, order: seq<nat>, now: int)
    requires NoRepeats(order) && forall t :: t in order ==> t in db.tasks && Cancellable(db.tasks[t])
    ensures var log := CancelMany(db, order, now).log;
            && |log| == |db.log| + |order| && db.log <= log
            && forall i :: 0 <= i < |order| ==>
                 log[|db.log| + i] == Transition(order[i], db.tasks[order[i]].status, CancelRow(db.tasks[order[i]], now).status)
    decreases |order|
  {
    if order != [] {
      var front, last := order[..|order| - 1], order[|order| - 1];
      assert order == front + [last];
      CancelledLog(db, front, now);
      CancelledRows(db, front, now);
      assert last in order && last !in front;
    }
  }

  ghost predicate AreRunning(db: Db, some: set<nat>, running: set<nat>) {
    forall t :: t in running <==> t in some && t in db.tasks && Running(db.tasks[t].status)
  }

  lemma NothingCancelled(db: Db, all: set<nat>, now: int)
    ensures CancelMany(db, [], now) == db && Enumerates([], all - all) && AreRunning(db, all - all, {})
  {
  }

  lemma OneMoreRunning(db: Db, all: set<nat>, left: set<nat>, running: set<nat>, t: nat)
    requires left <= all && t in left && t in db.tasks && AreRunning(db, all - left, running)
    ensures AreRunning(db, all - (left - {t}), if Running(db.tasks[t].status) then running + {t} else running)
  {
  }

  lemma AllCancelled(db: Db, all: set<nat>, order: seq<nat>, running: set<nat>, now: int)
    requires Enumerates(order, all - {}) && AreRunning(db, all - {}, running)
    requires forall t :: t in all ==> t in db.tasks && Cancellable(db.tasks[t])
    ensures running == set t | t in all && Running(db.tasks[t].status)
    ensures var db' := CancelMany(db, order, now);
            && db'.tasks.Keys == db.tasks.Keys && db'.users == db.users
            && forall t :: t in db.tasks ==> db'.tasks[t] == if t in all then CancelRow(db.tasks[t], now) else db.tasks[t]
  {
    CancelledRows(db, order, now);
  }

  lemma CancelNext(db: Db, all: set<nat>, order: seq<nat>, left: set<nat>, t: nat, now: int)
    requires left <= all && t in left && Enumerates(order, all - left)
    requires forall u :: u in all ==> u in db.tasks && Cancellable(db.tasks[u])
    ensures var db' := CancelMany(db, order, now);
            && t in db'.tasks && db'.tasks[t] == db.tasks[t]
            && CancelMany(db, order + [t], now) == Moved(db', t, CancelRow(db.tasks[t], now))
    ensures Enumerates(order + [t], all - (left - {t}))
  {
    CancelledRows(db, order, now);
    assert (order + [t])[..|order|] == order;
    EnumeratesMore(order, all - left, t);
    assert all - left + {t} == all - (left - {t});
  }

  // ---------------------------------------------------------------- the claiming pass, simply

  /** The simple form of a tick: offer every waiting task to the guarded claim, in queue order. */
  function Admit(db: Db, queue: seq<nat>, busy: set<nat>, draw: nat -> Token, now: int, limits: Limits): (db': Db)
    ensures db'.tasks.Keys == db.tasks.Keys
    decreases |queue|
  {
    if queue == [] then db
    else
      var t := queue[0];
      Admit(if t in busy then db else ClaimDb(db, t, draw(t), now, limits), queue[1..], busy, draw, now, limits)
  }

  lemma AdmitStep(db: Db, queue: seq<nat>, n: nat, busy: set<nat>, draw: nat -> Token, now: int, limits: Limits)
    requires n < |queue|
    ensures var t := queue[n];
            Admit(db, queue[n..], busy, draw, now, limits) ==
            Admit(if t in busy || !Claimable(db, t, limits) then db else ClaimDb(db, t, draw(t), now, limits),
                  queue[n + 1..], busy, draw, now, limits)
  {
    assert queue[n..][1..] == queue[n + 1..];
  }

  lemma AdmitNothing(db: Db, busy: set<nat>, draw: nat -> Token, now: int, limits: Limits)
    ensures Admit(db, [], busy, draw, now, limits) == db
  {
  }

  predicate Eligible(db: Db, t: nat) {
    && t in db.tasks && db.tasks[t].status == Queued
    && db.tasks[t].owner in db.users && db.users[db.tasks[t].owner].active
  }

  /** Queue order: higher priority first, then older, then smaller id. */
  predicate Before(tasks: map<nat, Row>, t: nat, u: nat) {
    t in tasks && u in tasks &&
    var a, b := tasks[t], tasks[u];
    a.priority > b.priority
    || (a.priority == b.priority && (a.createdAt < b.createdAt || (a.createdAt == b.createdAt && t < u)))
  }

  lemma BeforeIsTotal(tasks: map<nat, Row>, t: nat, u: nat)
    requires t in tasks && u in tasks && t != u
    ensures Before(tasks, t, u) <==> !Before(tasks, u, t)
    ensures forall v :: Before(tasks, u, t) && Before(tasks, t, v) ==> Before(tasks, u, v)
  {
  }

  ghost predicate IsQueue(db: Db, queue: seq<nat>) {
    && (forall t :: t in queue <==> Eligible(db, t))
    && (forall i, j :: 0 <= i < j < |queue| ==> Before(db.tasks, queue[i], queue[j]))
  }

  /** What the claiming pass does to each row, and that rooms only fill up. */
  lemma {:induction false} AdmittedRows(db: Db, queue: seq<nat>, busy: set<nat>, draw: nat -> Token, now: int, limits: Limits)
    ensures var db' := Admit(db, queue, busy, draw, now, limits);
            && db'.tasks.Keys == db.tasks.Keys
            && (forall t :: t in db.tasks ==>
                  db'.tasks[t] == db.tasks[t] ||
                  (t in queue && t !in busy && db.tasks[t].status == Queued
                   && db'.tasks[t] == Claimed(db.tasks[t], draw(t), now, limits.lease)))
            && RunningTasks(db) <= RunningTasks(db')
            && (forall u: nat :: RunningOf(db, u) <= RunningOf(db', u))
    decreases |queue|
  {
    if queue != [] {
      var t := queue[0];
      AdmittedRows(if t in busy then db else ClaimDb(db, t, draw(t), now, limits), queue[1..], busy, draw, now, limits);
    }
  }

  lemma SubsetSize(a: set<nat>, b: set<nat>)
    requires a <= b
    ensures |a| <= |b|
  {
    assert b == a + (b - a);
  }

  lemma RoomShrinks(db: Db, db': Db, u: nat, limits: Limits)
    requires RunningTasks(db) <= RunningTasks(db') && RunningOf(db, u) <= RunningOf(db', u)
    requires !HasRoom(db, u, limits)
    ensures !HasRoom(db', u, limits)
  {
    SubsetSize(RunningTasks(db), RunningTasks(db'));
    SubsetSize(RunningOf(db, u), RunningOf(db', u));
  }

  /** Greedy: a waiting task the pass leaves queued has no room, globally or for its owner. */
  lemma {:induction false} AdmitIsGreedy(db: Db, queue: seq<nat>, busy: set<nat>, draw: nat -> Token, now: int,
                                         limits: Limits, t: nat)
    requires t in queue && t !in busy && t in db.tasks && db.tasks[t].status == Queued
    requires Admit(db, queue, busy, draw, now, limits).tasks[t].status == Queued
    ensures !HasRoom(Admit(db, queue, busy, draw, now, limits), db.tasks[t].owner, limits)
    decreases |queue|
  {
    var head := queue[0];
    var next := if head in busy then db else ClaimDb(db, head, draw(head), now, limits);
    AdmittedRows(next, queue[1..], busy, draw, now, limits);
    if head == t {
      assert next.tasks[t].status == Queued;
      assert !Claimable(db, t, limits) && next == db;
      RoomShrinks(db, Admit(next, queue[1..], busy, draw, now, limits), db.tasks[t].owner, limits);
    } else {
      AdmitIsGreedy(next, queue[1..], busy, draw, now, limits, t);
    }
  }

  /** Ordered: once a task of a user is left for lack of room, no later one of that user starts. */
  lemma {:induction false} AdmitIsOrdered(db: Db, queue: seq<nat>, busy: set<nat>, draw: nat -> Token, now: int,
                                          limits: Limits, i: nat, j: nat)
    requires NoRepeats(queue) && i < j < |queue|
    requires queue[i] in db.tasks && queue[j] in db.tasks
    requires db.tasks[queue[i]].status == Queued && db.tasks[queue[j]].status == Queued
    requires db.tasks[queue[i]].owner == db.tasks[queue[j]].owner && queue[i] !in busy
    requires Admit(db, queue, busy, draw, now, limits).tasks[queue[i]].status == Queued
    ensures Admit(db, queue, busy, draw, now, limits).tasks[queue[j]].status == Queued
    decreases |queue|
  {
    var head, rest := queue[0], queue[1..];
    var next := if head in busy then db else ClaimDb(db, head, draw(head), now, limits);
    RestRepeatsNothing(queue);
    hide NoRepeats, HasRoom;
    if i > 0 {
      assert rest[i - 1] == queue[i] && rest[j - 1] == queue[j];
      AdmitIsOrdered(next, rest, busy, draw, now, limits, i - 1, j - 1);
    } else {
      RefusedClosesRoom(db, queue, busy, draw, now, limits);
      hide Admit, ClaimDb;
      NothingStartsWithoutRoom(db, rest, busy, draw, now, limits, db.tasks[head].owner, queue[j]);
    }
  }

  /** A waiting head that the pass leaves queued was refused for want of room. */
  lemma RefusedClosesRoom(db: Db, queue: seq<nat>, busy: set<nat>, draw: nat -> Token, now: int, limits: Limits)
    requires queue != [] && queue[0] in db.tasks && queue[0] !in busy && db.tasks[queue[0]].status == Queued
    requires Admit(db, queue, busy, draw, now, limits).tasks[queue[0]].status == Queued
    ensures !HasRoom(db, db.tasks[queue[0]].owner, limits)
    ensures Admit(db, queue, busy, draw, now, limits) == Admit(db, queue[1..], busy, draw, now, limits)
  {
    hide HasRoom;
    AdmittedRows(ClaimDb(db, queue[0], draw(queue[0]), now, limits), queue[1..], busy, draw, now, limits);
  }

  lemma RestRepeatsNothing(queue: seq<nat>)
    requires NoRepeats(queue) && queue != []
    ensures NoRepeats(queue[1..]) && forall i :: 0 < i < |queue| ==> queue[i] != queue[0]
  {
  }

  lemma {:induction false} NothingStartsWithoutRoom(db: Db, queue: seq<nat>, busy: set<nat>, draw: nat -> Token, now: int,
                                                    limits: Limits, user: nat, t: nat)
    requires !HasRoom(db, user, limits) && t in db.tasks && db.tasks[t].owner == user
    ensures t in Admit(db, queue, busy, draw, now, limits).tasks
    ensures Admit(db, queue, busy, draw, now, limits).tasks[t] == db.tasks[t]
    decreases |queue|
  {
    if queue != [] {
      var head := queue[0];
      var next := if head in busy then db else ClaimDb(db, head, draw(head), now, limits);
      AdmittedRows(db, [head], busy, draw, now, limits);
      assert Admit(db, [head], busy, draw, now, limits) == next;
      RoomShrinks(db, next, user, limits);
      NothingStartsWithoutRoom(next, queue[1..], busy, draw, now, limits, user, t);
    }
  }

  /** Of two waiting tasks of one user, the one with the higher priority goes first, of the same priority
      the older, of the same age the one with the smaller id: if the pass leaves the first queued though no
      worker is busy with it, it leaves the second queued. */
  lemma TickHonoursPriority(db: Db, queue: seq<nat>, busy: set<nat>, draw: nat -> Token, now: int, limits: Limits,
                            t: nat, u: nat)
    requires IsQueue(db, queue) && NoRepeats(queue)
    requires t in db.tasks && db.tasks[t].status == Queued && t !in busy
    requires u in db.tasks && db.tasks[u].status == Queued
    requires db.tasks[t].owner == db.tasks[u].owner && db.tasks[t].owner in db.users && db.users[db.tasks[t].owner].active
    requires || db.tasks[t].priority > db.tasks[u].priority
             || (db.tasks[t].priority == db.tasks[u].priority && db.tasks[t].createdAt < db.tasks[u].createdAt)
             || (db.tasks[t].priority == db.tasks[u].priority && db.tasks[t].createdAt == db.tasks[u].createdAt && t < u)
    ensures var after := Admit(db, queue, busy, draw, now, limits).tasks;
            t in after && u in after && (after[t].status == Queued ==> after[u].status == Queued)
  {
    hide Admit, HasRoom, ClaimDb;
    assert Eligible(db, t) && Eligible(db, u);
    var i: nat :| i < |queue| && queue[i] == t;
    var j: nat :| j < |queue| && queue[j] == u;
    AdmittedRows(db, queue, busy, draw, now, limits);
    if Admit(db, queue, busy, draw, now, limits).tasks[t].status == Queued {
      assert i < j;
      AdmitIsOrdered(db, queue, busy, draw, now, limits, i, j);
    }
  }

  /** A pass starts only waiting tasks of active users that no worker is busy with, each for one lease from
      now and under the token drawn for it; every other row stays as it is. */
  lemma TickStartsOnlyWaiting(db: Db, queue: seq<nat>, busy: set<nat>, draw: nat -> Token, now: int, limits: Limits, t: nat)
    requires IsQueue(db, queue) && t in db.tasks
    ensures var r, after := db.tasks[t], Admit(db, queue, busy, draw, now, limits).tasks;
            && t in after
            && (after[t] != r ==>
                  && r.status == Queued && t !in busy && r.owner in db.users && db.users[r.owner].active
                  && after[t].status == Preparing && after[t].claim == Some(draw(t))
                  && after[t].expires == Some(now + limits.lease) && after[t].finishedAt == None
                  && after[t].startedAt == (if r.startedAt == None then Some(now) else r.startedAt)
                  && after[t].code == r.code)
  {
    AdmittedRows(db, queue, busy, draw, now, limits);
    assert t in queue ==> Eligible(db, t);
  }

  /** A pass leaves no room unused: if a waiting task of an active user is left queued though no worker is
      busy with it, the running tasks fill the global limit or those of its owner fill the user's. */
  lemma TickFillsRoom(db: Db, queue: seq<nat>, busy: set<nat>, draw: nat -> Token, now: int, limits: Limits, t: nat)
    requires IsQueue(db, queue)
    requires t in db.tasks && db.tasks[t].status == Queued && t !in busy
    requires db.tasks[t].owner in db.users && db.users[db.tasks[t].owner].active
    ensures var after := Admit(db, queue, busy, draw, now, limits).tasks;
            var running := set u | u in after
              && after[u].status in {Preparing, DeveloperWorking, Reviewing, DeveloperRevising, Sealing, Publishing};
            && t in after
            && (after[t].status == Queued ==>
                  |running| >= limits.global || |set u | u in running && after[u].owner == db.tasks[t].owner| >= limits.perUser)
  {
    var after := Admit(db, queue, busy, draw, now, limits);
    assert Eligible(db, t);
    if after.tasks[t].status == Queued {
      AdmitIsGreedy(db, queue, busy, draw, now, limits, t);
      var running := set u | u in after.tasks
        && after.tasks[u].status in {Preparing, DeveloperWorking, Reviewing, DeveloperRevising, Sealing, Publishing};
      assert RunningTasks(after) == running;
      assert RunningOf(after, db.tasks[t].owner) == set u | u in running && after.tasks[u].owner == db.tasks[t].owner;
    }
  }

  // ---------------------------------------------------------------- the loops themselves

  /** A claim adds exactly its task to the running ones. */
  lemma ClaimFillsRoom(db: Db, t: nat, k: Token, now: int, limits: Limits)
    requires Claimable(db, t, limits)
    ensures |RunningTasks(ClaimDb(db, t, k, now, limits))| == |RunningTasks(db)| + 1
  {
    assert t !in RunningTasks(db) && RunningTasks(ClaimDb(db, t, k, now, limits)) == RunningTasks(db) + {t};
  }

  lemma ClaimFillsRoomOf(db: Db, t: nat, k: Token, now: int, limits: Limits, u: nat)
    requires Claimable(db, t, limits)
    ensures |RunningOf(ClaimDb(db, t, k, now, limits), u)| == |RunningOf(db, u)| + (if u == db.tasks[t].owner then 1 else 0)
  {
    var db' := ClaimDb(db, t, k, now, limits);
    assert t !in RunningOf(db, u);
    if u == db.tasks[t].owner {
      assert RunningOf(db', u) == RunningOf(db, u) + {t};
    } else {
      assert RunningOf(db', u) == RunningOf(db, u);
    }
  }

  /** A table with only these rows. */
  function OnlyTasks(tasks: map<nat, Row>): Db {
    Db(tasks, map[], map[], map[], [])
  }

  /** The counters of a tick describe the table: what its query saw plus what it has claimed since. */
  ghost predicate Tallied(db: Db, seen: map<nat, Row>, global: nat, reservedGlobal: nat, reserved: map<nat, nat>) {
    && |RunningTasks(db)| == global + reservedGlobal
    && (forall u: nat :: |RunningOf(db, u)| == |RunningOf(OnlyTasks(seen), u)| + ReservedOf(reserved, u))
  }

  function ReservedOf(reserved: map<nat, nat>, user: nat): nat {
    if user in reserved then reserved[user] else 0
  }

  lemma TalliedStart(db: Db)
    ensures Tallied(db, db.tasks, |RunningTasks(db)|, 0, map[])
  {
    forall u: nat ensures |RunningOf(db, u)| == |RunningOf(OnlyTasks(db.tasks), u)| {
      assert RunningOf(db, u) == RunningOf(OnlyTasks(db.tasks), u);
    }
  }

  /** So the check against the counters is the check the guarded claim makes against the table. */
  lemma TalliedRoom(db: Db, seen: map<nat, Row>, global: nat, reservedGlobal: nat, reserved: map<nat, nat>,
                    user: nat, limits: Limits)
    requires Tallied(db, seen, global, reservedGlobal, reserved)
    ensures CanStart(global + reservedGlobal, |RunningOf(OnlyTasks(seen), user)| + ReservedOf(reserved, user), limits)
        <==> HasRoom(db, user, limits)
  {
  }

  lemma TalliedClaim(db: Db, seen: map<nat, Row>, global: nat, reservedGlobal: nat, reserved: map<nat, nat>,
                     t: nat, k: Token, now: int, limits: Limits)
    requires Tallied(db, seen, global, reservedGlobal, reserved) && Claimable(db, t, limits)
    ensures var user := db.tasks[t].owner;
            Tallied(ClaimDb(db, t, k, now, limits), seen, global, reservedGlobal + 1,
                    reserved[user := ReservedOf(reserved, user) + 1])
  {
    ClaimFillsRoom(db, t, k, now, limits);
    forall u: nat {
      ClaimFillsRoomOf(db, t, k, now, limits, u);
    }
  }

  /** The rows from position `n` on are still as the query saw them, and waiting. */
  ghost predicate Pending(queue: seq<nat>, n: nat, tasks: map<nat, Row>, seen: map<nat, Row>, busy: set<nat>, held: set<nat>) {
    forall m :: n <= m < |queue| ==>
      && queue[m] in tasks && queue[m] in seen && tasks[queue[m]] == seen[queue[m]]
      && seen[queue[m]].status == Queued
      && (queue[m] in busy <==> queue[m] in held)
  }

  lemma PendingStart(db: Db, queue: seq<nat>, busy: set<nat>)
    requires forall t :: t in queue ==> Eligible(db, t)
    ensures Pending(queue, 0, db.tasks, db.tasks, busy, busy)
  {
    assert forall m :: 0 <= m < |queue| ==> queue[m] in queue;
  }

  /** Busy are the workers held before and those of the first `n` rows that are waiting no more. */
  ghost predicate Started(queue: seq<nat>, n: nat, tasks: map<nat, Row>, busy: set<nat>, held: set<nat>) {
    n <= |queue| && forall t :: t in busy <==> t in held || (t in queue[..n] && t in tasks && tasks[t].status != Queued)
  }

  lemma StartedNothing(queue: seq<nat>, tasks: map<nat, Row>, busy: set<nat>)
    ensures Started(queue, 0, tasks, busy, busy)
  {
  }

  lemma StartedSkip(queue: seq<nat>, n: nat, tasks: map<nat, Row>, busy: set<nat>, held: set<nat>)
    requires Started(queue, n, tasks, busy, held) && n < |queue|
    requires queue[n] in tasks && tasks[queue[n]].status == Queued
    ensures Started(queue, n + 1, tasks, busy, held)
  {
    assert queue[..n + 1] == queue[..n] + [queue[n]];
  }

  lemma StartedStep(queue: seq<nat>, n: nat, tasks: map<nat, Row>, tasks': map<nat, Row>, busy: set<nat>, held: set<nat>)
    requires Started(queue, n, tasks, busy, held) && n < |queue| && NoRepeats(queue)
    requires queue[n] in tasks' && tasks'[queue[n]].status != Queued
    requires tasks'.Keys == tasks.Keys && forall u :: u in tasks && u != queue[n] ==> tasks'[u] == tasks[u]
    ensures Started(queue, n + 1, tasks', busy + {queue[n]}, held)
  {
    assert queue[..n + 1] == queue[..n] + [queue[n]];
    assert queue[n] !in queue[..n];
  }

  lemma PendingHead(queue: seq<nat>, n: nat, tasks: map<nat, Row>, seen: map<nat, Row>, busy: set<nat>, held: set<nat>)
    requires Pending(queue, n, tasks, seen, busy, held) && n < |queue|
    ensures var t := queue[n];
            t in tasks && t in seen && tasks[t] == seen[t] && seen[t].status == Queued && (t in busy <==> t in held)
  {
  }

  lemma PendingSkip(queue: seq<nat>, n: nat, tasks: map<nat, Row>, seen: map<nat, Row>, busy: set<nat>, held: set<nat>)
    requires Pending(queue, n, tasks, seen, busy, held)
    ensures Pending(queue, n + 1, tasks, seen, busy, held)
  {
  }

  lemma PendingStep(queue: seq<nat>, n: nat, tasks: map<nat, Row>, tasks': map<nat, Row>, seen: map<nat, Row>,
                    busy: set<nat>, held: set<nat>)
    requires Pending(queue, n + 1, tasks, seen, busy, held) && n < |queue| && NoRepeats(queue)
    requires forall u :: u in tasks && u != queue[n] ==> u in tasks' && tasks'[u] == tasks[u]
    ensures Pending(queue, n + 1, tasks', seen, busy + {queue[n]}, held)
  {
  }

  predicate CanStart(globalRunning: nat, userRunning: nat, limits: Limits) {
    globalRunning < limits.global && userRunning < limits.perUser
  }

  datatype ToggleAnswer = NoSuchUser | OwnAccount | Toggled

  class TaskScheduler {
    const store: TaskStore
    const limits: Limits
    var busy: set<nat>

    constructor (store: TaskStore, limits: Limits)
      ensures this.store == store && this.limits == limits && busy == {}
    {
      this.store, this.limits, busy := store, limits, {};
    }

    /** One recovery pass: exactly the due rows are recovered, each once, and nothing that needs
        recovery is left. */
    method RecoverExpired(now: int) returns (recovered: nat)
      modifies store
      ensures exists order :: && Enumerates(order, DueTasks(old(store.View()), now))
                              && store.View() == RecoverMany(old(store.View()), order, now)
                              && recovered == |order|
      ensures DueTasks(store.View(), now) == {}
      ensures forall t :: t in store.tasks ==>
                && store.tasks[t].status != Cancelling
                && (store.tasks[t].status in {Preparing, DeveloperWorking, Reviewing, DeveloperRevising, Sealing, Publishing} ==>
                      store.tasks[t].expires.Some? && store.tasks[t].expires.value > now)
      ensures forall t :: t in old(store.tasks) && !Due(old(store.tasks)[t], now) ==>
                t in store.tasks && store.tasks[t] == old(store.tasks)[t]
    {
      ghost var before := store.View();
      ghost var order: seq<nat> := [];
      var due := set t | t in store.tasks && Due(store.tasks[t], now);
      recovered := 0;
      while due != {}
        invariant due <= DueTasks(before, now)
        invariant Enumerates(order, DueTasks(before, now) - due)
        invariant store.View() == RecoverMany(before, order, now)
        invariant recovered == |order|
        decreases due
      {
        var t :| t in due;
        RecoverNext(before, order, due, t, now);
        var r := store.tasks[t];
        var reconcile := r.status == Publishing && r.workspace.Some? && r.branch.Some? && r.commit.Some?;
        var target := if r.status == Cancelling then Cancelled
                      else if reconcile then Queued else Status.ManualIntervention;
        var code := if target == Cancelled then r.code
                    else if reconcile then Some(PublishExisting) else Some(ManagerRestarted);
        var finished := if reconcile then None else Some(now);
        var changed := store.CasTaskStatus(t, {r.status}, target,
          (row: Row) => row.(claim := None, expires := None, code := code, finishedAt := finished), r.claim);
        if changed != Changed {
          assert false;
        }
        recovered := recovered + 1;
        order := order + [t];
        due := due - {t};
      }
      RecoveredRows(before, order, now);
      assert DueTasks(before, now) - {} == DueTasks(before, now);
      forall t | t in store.tasks ensures !Due(store.tasks[t], now) {
        RecoveredIsNotDue(before.tasks[t], now);
      }
      assert forall t :: t in store.tasks ==> !Due(store.tasks[t], now);
    }

    /** The rows a tick considers, in the order of its query: the waiting tasks of active users, higher
        priority first, then older, then smaller id. */
    method WaitingTasks() returns (queue: seq<nat>)
      ensures IsQueue(store.View(), queue) && NoRepeats(queue)
      ensures forall t :: t in queue <==>
                && t in store.tasks && store.tasks[t].status == Queued
                && store.tasks[t].owner in store.users && store.users[store.tasks[t].owner].active
      ensures forall i, j :: 0 <= i < j < |queue| ==>
                var a, b := store.tasks[queue[i]], store.tasks[queue[j]];
                && a.priority >= b.priority
                && (a.priority == b.priority ==> a.createdAt <= b.createdAt)
                && (a.priority == b.priority && a.createdAt == b.createdAt ==> queue[i] < queue[j])
    {
      var left := set t | t in store.tasks && store.tasks[t].status == Queued
                        && store.tasks[t].owner in store.users && store.users[store.tasks[t].owner].active;
      queue := [];
      while left != {}
        invariant forall t :: t in left ==> Eligible(store.View(), t) && t !in queue
        invariant forall t :: Eligible(store.View(), t) ==> t in left || t in queue
        invariant forall t :: t in queue ==> Eligible(store.View(), t)
        invariant forall i, j :: 0 <= i < j < |queue| ==> Before(store.tasks, queue[i], queue[j])
        decreases left
      {
        var t :| t in left;
        var at := 0;
        while at < |queue| && Before(store.tasks, queue[at], t)
          invariant at <= |queue|
          invariant forall i :: 0 <= i < at ==> Before(store.tasks, queue[i], t)
        {
          at := at + 1;
        }
        forall i | at <= i < |queue| ensures Before(store.tasks, t, queue[i]) {
          assert queue[at] in queue;
          BeforeIsTotal(store.tasks, queue[at], t);
        }
        queue := queue[..at] + [t] + queue[at..];
        left := left - {t};
      }
    }

    method CountRunning() returns (global: nat)
      ensures global == |RunningTasks(store.View())|
    {
      global := |set t | t in store.tasks && Running(store.tasks[t].status)|;
      assert RunningTasks(store.View()) == set t | t in store.tasks && Running(store.tasks[t].status);
    }

    method CountRunningOf(snapshot: map<nat, Row>, user: nat) returns (count: nat)
      ensures count == |RunningOf(OnlyTasks(snapshot), user)|
    {
      count := |set t | t in snapshot && Running(snapshot[t].status) && snapshot[t].owner == user|;
      assert RunningOf(OnlyTasks(snapshot), user)
          == set t | t in snapshot && Running(snapshot[t].status) && snapshot[t].owner == user;
    }

    /** One tick. `done` are the workers that have ended, `draw` the token drawn for each claim. The
        counters reserved while looping decide exactly as the guarded claims do, so an undisturbed
        tick admits what `Admit` admits. Busy afterwards are the workers that have not ended and those of
        the tasks it started. */
    method Tick(done: set<nat>, canClaim: bool, draw: nat -> Token, now: int)
      modifies this, store
      ensures exists order ::
                && Enumerates(order, DueTasks(old(store.View()), now))
                && var ready := RecoverMany(old(store.View()), order, now);
                   if !canClaim then store.View() == ready && busy == old(busy) - done
                   else exists queue ::
                          && IsQueue(ready, queue) && NoRepeats(queue)
                          && store.View() == Admit(ready, queue, old(busy) - done, draw, now, limits)
                          && forall t :: t in busy <==>
                               (t in old(busy) && t !in done) || (t in queue && t in store.tasks && store.tasks[t].status != Queued)
    {
      busy := busy - done;
      var _ := RecoverExpired(now);
      if canClaim {
        var queue := WaitingTasks();
        ClaimInOrder(queue, draw, now);
        assert queue[..|queue|] == queue;
      }
    }

    /** The claiming loop of a tick, over the rows its query returned. */
    method ClaimInOrder(queue: seq<nat>, draw: nat -> Token, now: int)
      requires NoRepeats(queue) && forall t :: t in queue ==> Eligible(store.View(), t)
      modifies this, store
      ensures store.View() == Admit(old(store.View()), queue, old(busy), draw, now, limits)
      ensures Started(queue, |queue|, store.tasks, busy, old(busy))
    {
      ghost var ready, held := store.View(), busy;
      var global := CountRunning();
      var snapshot := store.tasks;
      var reservedGlobal := 0;
      var reserved: map<nat, nat> := map[];
      StartedNothing(queue, store.tasks, busy);
      hide RunningTasks, RunningOf, Admit, ClaimDb, Tallied, Pending, NoRepeats, Started;
      TalliedStart(ready);
      PendingStart(ready, queue, busy);
      assert queue[0..] == queue;
      for n := 0 to |queue|
        invariant Admit(ready, queue, held, draw, now, limits) == Admit(store.View(), queue[n..], held, draw, now, limits)
        invariant Pending(queue, n, store.tasks, snapshot, busy, held)
        invariant Started(queue, n, store.tasks, busy, held)
        invariant Tallied(store.View(), snapshot, global, reservedGlobal, reserved)
      {
        reservedGlobal, reserved :=
          OfferOne(queue, n, snapshot, global, reservedGlobal, reserved, draw, now, held);
      }
      assert queue[|queue|..] == [];
      AdmitNothing(store.View(), held, draw, now, limits);
    }

    /** One turn of the loop: skip the row, or claim it and count the claim. */
    method OfferOne(queue: seq<nat>, n: nat, snapshot: map<nat, Row>, global: nat, reservedGlobal: nat,
                    reserved: map<nat, nat>, draw: nat -> Token, now: int, ghost held: set<nat>)
        returns (reservedGlobal': nat, reserved': map<nat, nat>)
      requires n < |queue| && NoRepeats(queue)
      requires Pending(queue, n, store.tasks, snapshot, busy, held)
      requires Tallied(store.View(), snapshot, global, reservedGlobal, reserved)
      requires Started(queue, n, store.tasks, busy, held)
      modifies this, store
      ensures Pending(queue, n + 1, store.tasks, snapshot, busy, held)
      ensures Started(queue, n + 1, store.tasks, busy, held)
      ensures Tallied(store.View(), snapshot, global, reservedGlobal', reserved')
      ensures Admit(store.View(), queue[n + 1..], held, draw, now, limits)
           == Admit(old(store.View()), queue[n..], held, draw, now, limits)
    {
      hide RunningTasks, RunningOf, Admit, ClaimDb, Tallied, Pending, NoRepeats, Started;
      reservedGlobal', reserved' := reservedGlobal, reserved;
      PendingHead(queue, n, store.tasks, snapshot, busy, held);
      PendingSkip(queue, n, store.tasks, snapshot, busy, held);
      StartedSkip(queue, n, store.tasks, busy, held);
      var t := queue[n];
      var user := snapshot[t].owner;
      var userRunning := CountRunningOf(snapshot, user);
      var reservedUser := ReservedOf(reserved, user);
      TalliedRoom(store.View(), snapshot, global, reservedGlobal, reserved, user, limits);
      AdmitStep(store.View(), queue, n, held, draw, now, limits);
      if t in busy || !CanStart(global + reservedGlobal, userRunning + reservedUser, limits) {
        return;
      }
      TalliedClaim(store.View(), snapshot, global, reservedGlobal, reserved, t, draw(t), now, limits);
      ghost var prior := store.tasks;
      var token := ClaimOne(t, draw(t), now);
      if token.None? {
        return;
      }
      PendingStep(queue, n, prior, store.tasks, snapshot, busy, held);
      StartedStep(queue, n, prior, store.tasks, busy, held);
      busy := busy + {t};
      reservedGlobal', reserved' := reservedGlobal + 1, reserved[user := reservedUser + 1];
    }

    method ClaimOne(t: nat, k: Token, now: int) returns (token: Option<Token>)
      modifies store
      ensures token.Some? == Claimable(old(store.View()), t, limits)
      ensures store.View() == ClaimDb(old(store.View()), t, k, now, limits)
      ensures token.None? ==> store.View() == old(store.View())
      ensures token.Some? ==> t in store.tasks && store.tasks[t].status == Preparing
      ensures store.tasks.Keys == old(store.tasks).Keys
      ensures forall u :: u in old(store.tasks) && u != t ==> u in store.tasks && store.tasks[u] == old(store.tasks)[u]
    {
      token := store.ClaimQueuedTask(t, k, now, limits);
    }

    /** An administrator switches somebody else's account on or off. Switching it off cancels everything
        that user has waiting or running, each with its own record in the log and in some order, and
        nothing else changes; the result names the tasks whose workers are signalled. */
    method ToggleUserActive(user: nat, actor: nat, now: int) returns (answer: ToggleAnswer, signal: set<nat>)
      modifies store
      ensures answer == if user !in old(store.users) then NoSuchUser else if user == actor then OwnAccount else Toggled
      ensures answer != Toggled ==> store.View() == old(store.View()) && signal == {}
      ensures answer == Toggled ==>
                var active := !old(store.users)[user].active;
                var cancelled := if active then {} else TasksToCancel(old(store.View()), user);
                && (exists order :: Enumerates(order, cancelled)
                                    && store.View() == CancelMany(Switched(old(store.View()), user, active), order, now))
                && store.tasks.Keys == old(store.tasks).Keys
                && (forall t :: t in old(store.tasks) ==>
                      store.tasks[t] == if t in cancelled then CancelRow(old(store.tasks)[t], now) else old(store.tasks)[t])
                && signal == set t | t in cancelled && Running(old(store.tasks)[t].status)
      ensures answer == Toggled && old(store.users)[user].active ==>
                forall t :: t in store.tasks ==>
                  var was, stop := old(store.tasks)[t], old(store.tasks)[t].owner == user;
                  store.tasks[t] ==
                    if stop && was.status == Queued then was.(status := Cancelled, finishedAt := Some(now))
                    else if stop && was.status in {Preparing, DeveloperWorking, Reviewing, DeveloperRevising, Sealing, Publishing}
                    then was.(status := Cancelling)
                    else was
    {
      signal := {};
      if user !in store.users {
        return NoSuchUser, signal;
      }
      if user == actor {
        return OwnAccount, signal;
      }
      ghost var before := store.View();
      var active := !store.users[user].active;
      store.users := store.users[user := store.users[user].(active := active)];
      ghost var switched := store.View();
      assert switched == Switched(before, user, active);
      assert TasksToCancel(switched, user) == TasksToCancel(before, user);
      if active {
        NothingCancelled(switched, {}, now);
        assert Enumerates([], {}) && store.View() == CancelMany(switched, [], now);
      } else {
        signal := CancelTasksOf(user, now);
      }
      return Toggled, signal;
    }

    method CancelOne(t: nat, now: int) returns (running: bool)
      requires t in store.tasks && Cancellable(store.tasks[t])
      modifies store
      ensures store.View() == Moved(old(store.View()), t, CancelRow(old(store.tasks)[t], now))
      ensures running <==> Running(old(store.tasks)[t].status)
    {
      if store.tasks[t].status == Queued {
        var _ := store.CasTaskStatus(t, {Queued}, Cancelled, (r: Row) => r.(finishedAt := Some(now)), None);
        return false;
      }
      var changed := store.CasTaskStatus(t, {store.tasks[t].status}, Cancelling, (r: Row) => r, None);
      return changed == Changed;
    }

    method CancelTasksOf(user: nat, now: int) returns (signal: set<nat>)
      modifies store
      ensures exists order :: Enumerates(order, TasksToCancel(old(store.View()), user))
                              && store.View() == CancelMany(old(store.View()), order, now)
      ensures store.users == old(store.users) && store.tasks.Keys == old(store.tasks).Keys
      ensures forall t :: t in old(store.tasks) ==>
                store.tasks[t] == if t in TasksToCancel(old(store.View()), user)
                                  then CancelRow(old(store.tasks)[t], now) else old(store.tasks)[t]
      ensures signal == set t | t in TasksToCancel(old(store.View()), user) && Running(old(store.tasks)[t].status)
    {
      ghost var before := store.View();
      var left := set t | t in store.tasks && store.tasks[t].owner == user && Cancellable(store.tasks[t]);
      ghost var order: seq<nat>, all := [], left;
      assert all == TasksToCancel(before, user);
      NothingCancelled(before, all, now);
      signal := {};
      hide CancelMany, Moved, CancelRow, Enumerates, AreRunning;
      while left != {}
        invariant left <= all
        invariant Enumerates(order, all - left)
        invariant store.View() == CancelMany(before, order, now)
        invariant AreRunning(before, all - left, signal)
        decreases left
      {
        var t :| t in left;
        CancelNext(before, all, order, left, t, now);
        OneMoreRunning(before, all, left, signal, t);
        var running := CancelOne(t, now);
        if running {
          signal := signal + {t};
        }
        order := order + [t];
        left := left - {t};
      }
      assert all - {} == all;
      AllCancelled(before, all, order, signal, now);
    }
  }
}
