/** The promises of the task lifecycle, for every run of an installation. */
module LifecycleTheorems {
  import opened Values
  import opened TaskTable
  import opened Lifecycle
  import opened LifecycleSafety
  import opened Scheduler

  // ---------------------------------------------------------------- fencing

  /** A worker step touches at most the worker's own row, and that only while the row carries the
      worker's token; otherwise the whole database stays as it is. */
  lemma StaleWorkerChangesNothing(cfg: Config, w: World, k: Token, s: WorkerStep)
    requires k in w.workers ==> !Holds(w.db, w.workers[k].task, k)
    ensures WorkStep(cfg, w, k, s).db == w.db
  {
    if k in w.workers && StageOf(w.workers[k].pc).Some? && s.EnterStage? {
      assert StageOutcome(w.db, w.workers[k].task, StageOf(w.workers[k].pc).value, k) != Advanced;
    }
  }

  lemma ActIsWork(cfg: Config, w: World, k: Token, s: WorkerStep)
    ensures Act(cfg, w, Work(k, s)) == WorkStep(cfg, w, k, s)
  {
    hide WorkStep;
  }

  /** The row a worker's step leaves when the worker holds it. */
  function Worked(cfg: Config, now: int, r: Row, p: Worker, s: WorkerStep): Row {
    match s
    case Start =>
      if p.pc.Starting? && (Running(r.status) || r.status == Cancelling) && r.expires.Some? && r.expires.value > now
      then r.(expires := Some(now + cfg.limits.lease)) else r
    case RecordPrepared(workspace, base, branch) =>
      if p.pc.PrepareRecording? && r.status == Preparing then Prepared(r, workspace, base, branch) else r
    case EnterStage(_) =>
      if StageOf(p.pc).Some? && StageExpected(r.status, StageOf(p.pc).value) then r.(status := StageOf(p.pc).value) else r
    case RecordSeal(tree) =>
      if p.pc.SealRecording? && r.status == Sealing then r.(reviewedTree := Some(tree)) else r
    case RecordCommit(commit) =>
      if p.pc.CommitRecording? && p.tree == Some(cfg.treeOf(commit)) && r.status == Sealing
      then r.(commit := Some(commit)) else r
    case Begin(key) =>
      if p.pc.PublishStarting? && (r.status == Preparing || r.status == Sealing) then Begun(r, key) else r
    case RecordPublished(url, number, state) =>
      if p.pc.AwaitRecording? && (r.status == Publishing || r.status == Cancelling)
      then Published(r, url, number, state, now) else r
    case Handle =>
      if !p.pc.Handling? then r
      else if r.status == Cancelling then (if p.pc.handler.OnReportInvalid? then r else Ended(r, Cancelled, now))
      else if p.pc.handler.OnCancelled? || (Terminal(r.status) && !p.pc.handler.OnInterrupt?) then r
      else if p.pc.handler.OnFailure? then Ended(r, Failed, now).(code := Some(Classified(p.pc.handler.kind)))
      else Ended(r, ManualIntervention, now).(code := Some(if p.pc.handler.OnInterrupt? then WorkerInterrupted else ReportInvalid))
    case _ => r
  }

  lemma HandlingShape(cfg: Config, w: World, k: Token)
    requires k in w.workers && Holds(w.db, w.workers[k].task, k) && w.workers[k].pc.Handling?
    ensures var t := w.workers[k].task;
            WorkStep(cfg, w, k, Handle).db.tasks == w.db.tasks[t := Worked(cfg, w.now, w.db.tasks[t], w.workers[k], Handle)]
  {
    match w.workers[k].pc.handler
    case OnFailure(_) =>
    case OnReportInvalid =>
    case OnCancelled =>
    case OnInterrupt =>
  }

  lemma WorkShape(cfg: Config, w: World, k: Token, s: WorkerStep)
    requires k in w.workers && Holds(w.db, w.workers[k].task, k)
    ensures var t := w.workers[k].task;
            WorkStep(cfg, w, k, s).db.tasks == w.db.tasks[t := Worked(cfg, w.now, w.db.tasks[t], w.workers[k], s)]
  {
    var t := w.workers[k].task;
    assert w.db.tasks[t := w.db.tasks[t]] == w.db.tasks;
    if s.Handle? && w.workers[k].pc.Handling? {
      HandlingShape(cfg, w, k);
    } else {
      match s
      case _ =>
    }
  }

  lemma WorkerTouchesOwnRow(cfg: Config, w: World, k: Token, s: WorkerStep)
    requires k in w.workers && Holds(w.db, w.workers[k].task, k)
    ensures var t, w' := w.workers[k].task, WorkStep(cfg, w, k, s);
            && t in w'.db.tasks
            && w'.db.tasks == w.db.tasks[t := w'.db.tasks[t]]
            && (w'.db.tasks[t].claim == None || w'.db.tasks[t].claim == Some(k))
  {
    hide WorkStep;
    WorkShape(cfg, w, k, s);
  }

  /** Rows whose claim is gone, or belongs to someone else. */
  predicate Lost(w: World, t: nat, k: Token) {
    k in w.issued && t in w.db.tasks && w.db.tasks[t].claim != Some(k)
  }

  lemma LostStaysLost(cfg: Config, w: World, a: Action, t: nat, k: Token)
    requires Lost(w, t, k)
    ensures Lost(Act(cfg, w, a), t, k)
  {
    if a.Work? {
      hide WorkStep;
      if a.token in w.workers && Holds(w.db, w.workers[a.token].task, a.token) {
        WorkerTouchesOwnRow(cfg, w, a.token, a.step);
      } else {
        StaleWorkerChangesNothing(cfg, w, a.token, a.step);
      }
    }
  }

  /** Once a token is superseded on a row it never comes back, whatever anyone does. */
  lemma {:induction false} SupersededForever(cfg: Config, w: World, actions: seq<Action>, t: nat, k: Token)
    requires Lost(w, t, k)
    ensures Lost(Run(cfg, w, actions), t, k)
    decreases |actions|
  {
    if actions != [] {
      LostStaysLost(cfg, w, actions[0], t, k);
      SupersededForever(cfg, Act(cfg, w, actions[0]), actions[1..], t, k);
    }
  }

  /** The task a worker serves never changes. */
  lemma {:induction false} WorkerKeepsTask(cfg: Config, w: World, actions: seq<Action>, k: Token)
    requires k in w.workers && k in w.issued
    ensures k in Run(cfg, w, actions).workers && Run(cfg, w, actions).workers[k].task == w.workers[k].task
    decreases |actions|
  {
    if actions != [] {
      var w' := Act(cfg, w, actions[0]);
      assert k in w'.workers && k in w'.issued && w'.workers[k].task == w.workers[k].task;
      WorkerKeepsTask(cfg, w', actions[1..], k);
    }
  }

  /** A worker that lost its claim can never again change the database, at any later point. */
  lemma FencedForever(cfg: Config, w: World, actions: seq<Action>, k: Token, s: WorkerStep)
    requires k in w.workers && Lost(w, w.workers[k].task, k)
    ensures var later := Run(cfg, w, actions); WorkStep(cfg, later, k, s).db == later.db
  {
    SupersededForever(cfg, w, actions, w.workers[k].task, k);
    WorkerKeepsTask(cfg, w, actions, k);
    StaleWorkerChangesNothing(cfg, Run(cfg, w, actions), k, s);
  }

  /** The fields only a worker may write. */
  predicate SameWork(r: Row, r': Row) {
    && r'.workspace == r.workspace && r'.branch == r.branch && r'.baseCommit == r.baseCommit
    && r'.reviewedTree == r.reviewedTree && r'.commit == r.commit
    && r'.publicationKey == r.publicationKey && r'.prUrl == r.prUrl && r'.prNumber == r.prNumber
  }

  lemma CommandKeepsWork(cfg: Config, w: World, a: Action, r: Row)
    ensures SameWork(r, Commanded(cfg, w, a, r)) && SameWork(r, r)
  {
  }

  /** Steps that are neither a worker's nor a command on one task change no row but a claimed one. */
  lemma OtherRows(cfg: Config, w: World, a: Action, t: nat)
    requires t in w.db.tasks && !IsCommand(a) && !a.Work?
    ensures t in Act(cfg, w, a).db.tasks
    ensures var r' := Act(cfg, w, a).db.tasks[t];
            r' == w.db.tasks[t] ||
            (a.Claim? && Claimable(w.db, t, cfg.limits) && r' == Claimed(w.db.tasks[t], a.token, w.now, cfg.limits.lease))
    ensures Act(cfg, w, a).now >= w.now
  {
  }

  lemma OthersKeepWork(cfg: Config, w: World, a: Action, t: nat)
    requires t in w.db.tasks && !a.Work?
    ensures t in Act(cfg, w, a).db.tasks && SameWork(w.db.tasks[t], Act(cfg, w, a).db.tasks[t])
  {
    hide Act, Commanded;
    if IsCommand(a) {
      CommandShape(cfg, w, a);
      CommandKeepsWork(cfg, w, a, w.db.tasks[t]);
    } else {
      OtherRows(cfg, w, a, t);
    }
  }

  /** If any step changes the work recorded on a row, it is a step of the worker holding the row. */
  lemma WorkChangesOnlyUnderClaim(cfg: Config, w: World, a: Action, t: nat)
    requires t in w.db.tasks && t in Act(cfg, w, a).db.tasks
    requires !SameWork(w.db.tasks[t], Act(cfg, w, a).db.tasks[t])
    ensures a.Work? && w.db.tasks[t].claim == Some(a.token) && a.token in w.workers && w.workers[a.token].task == t
  {
    hide WorkStep;
    if !a.Work? {
      OthersKeepWork(cfg, w, a, t);
    } else if a.token in w.workers && Holds(w.db, w.workers[a.token].task, a.token) {
      WorkerTouchesOwnRow(cfg, w, a.token, a.step);
    } else {
      StaleWorkerChangesNothing(cfg, w, a.token, a.step);
    }
  }

  // ---------------------------------------------------------------- what a row never loses

  predicate Absorbing(s: Status) {
    s == Completed || s == Closed || s == Dismissed
  }

  /** How a row may differ later: its identity, workspace and publication key are written once, a
      commit is never taken back, a settled row is frozen, and cancelling leads only to cancelled
      (which may then be dismissed). */
  predicate Grows(r: Row, r': Row) {
    && r'.issue == r.issue && r'.owner == r.owner && r'.priority == r.priority && r'.createdAt == r.createdAt
    && (r.publicationKey.Some? ==> r'.publicationKey == r.publicationKey)
    && (r.workspace.Some? ==> r'.workspace == r.workspace && r'.branch == r.branch && r'.baseCommit == r.baseCommit)
    && (r.commit.Some? ==> r'.commit.Some?)
    && (Absorbing(r.status) ==> r' == r)
    && (r.status == Cancelling ==> r'.status == Cancelling || r'.status == Cancelled || r'.status == Dismissed)
    && (r.status == Cancelled ==> r'.status == Cancelled || r'.status == Dismissed)
  }

  lemma CommandGrows(cfg: Config, w: World, a: Action)
    requires IsCommand(a) && Applies(w, a)
    requires RowOk(cfg, a.task, w.db.tasks[a.task], w.sealed)
    ensures Grows(w.db.tasks[a.task], Commanded(cfg, w, a, w.db.tasks[a.task]))
  {
  }

  lemma WorkGrows(cfg: Config, now: int, t: nat, k: Token, r: Row, p: Worker, sealed: set<(nat, Tree)>, s: WorkerStep)
    requires Local(cfg, t, k, r, p, sealed) && r.claim == Some(k)
    ensures Grows(r, Worked(cfg, now, r, p, s))
  {
  }

  lemma GrowsReflexive(r: Row)
    ensures Grows(r, r)
  {
  }

  lemma OtherGrows(cfg: Config, w: World, a: Action, t: nat)
    requires t in w.db.tasks && !IsCommand(a) && !a.Work?
    ensures t in Act(cfg, w, a).db.tasks && Grows(w.db.tasks[t], Act(cfg, w, a).db.tasks[t])
  {
    hide Act, Grows;
    OtherRows(cfg, w, a, t);
    GrowsReflexive(w.db.tasks[t]);
    if Claimable(w.db, t, cfg.limits) {
      ClaimedGrows(w.db.tasks[t], w.now, cfg.limits.lease);
    }
  }

  lemma ClaimedGrows(r: Row, now: int, lease: nat)
    requires r.status == Queued
    ensures forall k :: Grows(r, Claimed(r, k, now, lease))
  {
  }

  lemma ActGrows(cfg: Config, w: World, a: Action, t: nat)
    requires Inv(cfg, w) && t in w.db.tasks
    ensures t in Act(cfg, w, a).db.tasks && Grows(w.db.tasks[t], Act(cfg, w, a).db.tasks[t])
  {
    hide Inv, Local;
    RowOf(cfg, w, t);
    if IsCommand(a) {
      hide Act, Commanded, Grows;
      CommandShape(cfg, w, a);
      if Applies(w, a) && a.task == t {
        CommandGrows(cfg, w, a);
      } else {
        GrowsReflexive(w.db.tasks[t]);
      }
    } else if a.Work? {
      hide WorkStep, Worked, Grows;
      GrowsReflexive(w.db.tasks[t]);
      if a.token in w.workers && Holds(w.db, w.workers[a.token].task, a.token) {
        LocalOf(cfg, w, a.token);
        WorkShape(cfg, w, a.token, a.step);
        var u := w.workers[a.token].task;
        WorkGrows(cfg, w.now, u, a.token, w.db.tasks[u], w.workers[a.token], w.sealed, a.step);
      } else {
        StaleWorkerChangesNothing(cfg, w, a.token, a.step);
      }
    } else {
      OtherGrows(cfg, w, a, t);
    }
  }

  lemma {:induction false} RunGrows(cfg: Config, w: World, actions: seq<Action>, t: nat)
    requires Inv(cfg, w) && t in w.db.tasks
    ensures t in Run(cfg, w, actions).db.tasks && Grows(w.db.tasks[t], Run(cfg, w, actions).db.tasks[t])
    decreases |actions|
  {
    hide Inv;
    if actions != [] {
      ActGrows(cfg, w, actions[0], t);
      ActKeepsInv(cfg, w, actions[0]);
      RunGrows(cfg, Act(cfg, w, actions[0]), actions[1..], t);
    }
  }

  // ---------------------------------------------------------------- one task per issue

  /** On every run an issue is occupied by at most one task, is marked dispatched while it is, and
      the unique index over active tasks holds. */
  lemma OneLiveTaskPerIssue(cfg: Config, now: int, actions: seq<Action>)
    ensures var db := Run(cfg, Initial(now), actions).db;
            && IndexHolds(db)
            && (forall t :: t in db.tasks && Live(db.tasks[t]) ==>
                  db.tasks[t].issue in db.issues && db.issues[db.tasks[t].issue].triage == Dispatched)
            && (forall t, u :: t in db.tasks && u in db.tasks && Live(db.tasks[t]) && Live(db.tasks[u]) && t != u ==>
                  db.tasks[t].issue != db.tasks[u].issue)
  {
    Reachable(cfg, now, actions);
  }

  /** The dispatch that finds a waiting issue never finds an active task on it: neither the lookup
      before the insert nor the index can refuse it. */
  lemma WaitingIssueIsFree(cfg: Config, w: World, i: nat)
    requires Inv(cfg, w) && i in w.db.issues && w.db.issues[i].triage != Dispatched
    ensures Vacant(w.db.tasks, i)
    ensures forall t :: !ActiveOn(w.db, t, i)
  {
    assert IssuesOk(w.db);
    forall t | t in w.db.tasks && w.db.tasks[t].issue == i
      ensures !Live(w.db.tasks[t])
    {
    }
  }

  /** Requeueing a failed publication never meets a second active task on the same issue. */
  lemma RequeueKeepsIndex(cfg: Config, w: World, t: nat)
    requires Inv(cfg, w) && t in w.db.tasks && Requeueable(w.db.tasks[t])
    ensures forall u :: u != t ==> !ActiveOn(w.db, u, w.db.tasks[t].issue)
    ensures IndexHolds(QueueExistingDb(w.db, t))
  {
    assert IssuesOk(w.db);
    assert Live(w.db.tasks[t]);
    forall u | u != t
      ensures !ActiveOn(w.db, u, w.db.tasks[t].issue)
    {
      assert u in w.db.tasks && ActiveOn(w.db, u, w.db.tasks[t].issue) ==> Live(w.db.tasks[u]);
    }
  }

  // ---------------------------------------------------------------- claims and publication

  /** A claim token is set exactly while the task runs or is being cancelled. */
  lemma ClaimedExactlyWhileRunning(cfg: Config, now: int, actions: seq<Action>, t: nat)
    requires t in Run(cfg, Initial(now), actions).db.tasks
    ensures var r := Run(cfg, Initial(now), actions).db.tasks[t];
            (r.claim.Some? <==> Running(r.status) || r.status == Cancelling) && (r.expires.Some? <==> r.claim.Some?)
  {
    Reachable(cfg, now, actions);
    RowOf(cfg, Run(cfg, Initial(now), actions), t);
  }

  /** A publishing task has everything its recovery needs, and every recorded commit has a tree that
      was sealed for the same task before. */
  lemma PublishingIsComplete(cfg: Config, now: int, actions: seq<Action>, t: nat)
    requires t in Run(cfg, Initial(now), actions).db.tasks
    ensures var w := Run(cfg, Initial(now), actions);
            var r := w.db.tasks[t];
            && (r.status == Publishing ==> Reconcilable(r) && r.publicationKey.Some?)
            && (r.commit.Some? ==> (t, cfg.treeOf(r.commit.value)) in w.sealed)
  {
    Reachable(cfg, now, actions);
    RowOf(cfg, Run(cfg, Initial(now), actions), t);
  }

  /** So recovering an interrupted publication always requeues it for reconciliation and never
      asks for manual intervention. */
  lemma RecoveryRepublishes(cfg: Config, w: World, t: nat)
    requires Inv(cfg, w) && t in w.db.tasks && w.db.tasks[t].status == Publishing && Due(w.db.tasks[t], w.now)
    ensures var r' := RecoverDb(w.db, t, w.now).tasks[t];
            r'.status == Queued && r'.code == Some(PublishExisting) && r'.claim == None && r'.commit == w.db.tasks[t].commit
  {
    RowOf(cfg, w, t);
  }

  /** A worker that still holds its claim when it loads the row always gets a program it can run:
      the missing-workspace errors and the sealing fallback for a commit-less requeue are dead. */
  lemma LoadedProgramIsRunnable(cfg: Config, w: World, k: Token)
    requires Inv(cfg, w) && k in w.workers && w.workers[k].pc.Loading? && Holds(w.db, w.workers[k].task, k)
    ensures var r := w.db.tasks[w.workers[k].task];
            var pc := Program(r);
            && (pc == PrepareRecording || pc == Addressing || pc == PublishStarting)
            && (pc == PrepareRecording <==> r.workspace == None)
  {
    hide Inv;
    LocalOf(cfg, w, k);
  }

  /** While it holds its claim, a worker's stage is entered or it has been told to stop; the
      "cannot transition" error never fires. */
  lemma StageNeverRefused(cfg: Config, w: World, k: Token)
    requires Inv(cfg, w) && k in w.workers && StageOf(w.workers[k].pc).Some?
    ensures var p := w.workers[k];
            var out := StageOutcome(w.db, p.task, StageOf(p.pc).value, k);
            && out != Refused
            && (out == Advanced <==> Holds(w.db, p.task, k) && w.db.tasks[p.task].status != Cancelling)
  {
    hide Inv;
    LocalOf(cfg, w, k);
  }

  /** Every guarded write of a worker that holds an uncancelled claim succeeds. */
  lemma HolderNeverBlocked(cfg: Config, w: World, k: Token)
    requires Inv(cfg, w) && k in w.workers && Holds(w.db, w.workers[k].task, k)
    requires w.db.tasks[w.workers[k].task].status != Cancelling
    ensures var t, pc := w.workers[k].task, w.workers[k].pc;
            && (pc.PrepareRecording? ==> HoldsIn(w.db, t, k, Preparing))
            && (pc.SealRecording? || pc.CommitRecording? ==> HoldsIn(w.db, t, k, Sealing))
            && (pc.PublishStarting? ==> CanBegin(w.db, t, k))
            && (pc.AwaitRecording? ==> CanAwait(w.db, t, k))
  {
    hide Inv;
    LocalOf(cfg, w, k);
  }

  // ---------------------------------------------------------------- the transition log

  /** The log of every task is a connected path in the lifecycle graph from queued to its status. */
  lemma LogIsPath(cfg: Config, now: int, actions: seq<Action>, t: nat)
    requires t in Run(cfg, Initial(now), actions).db.tasks
    ensures var db := Run(cfg, Initial(now), actions).db; Replay(db.log, t) == Some(db.tasks[t].status)
  {
    Reachable(cfg, now, actions);
  }

  /** Order of the stages inside one claim. */
  function Phase(s: Status): int {
    match s
    case Preparing => 1
    case DeveloperWorking => 2
    case Reviewing => 3
    case DeveloperRevising => 4
    case Sealing => 5
    case Publishing => 6
    case _ => 0
  }

  /** Record `j` continues record `i` of the same task with nothing of that task in between. */
  ghost predicate Follows(log: seq<Transition>, i: nat, j: nat) {
    && i < j < |log| && log[i].task == log[j].task
    && (forall m :: i < m < j ==> log[m].task != log[i].task)
  }

  /** A replayable log, read record by record: each follows the graph, each starts where the one
      before it ended, and from stage to stage the phase strictly advances except that reviewing may
      follow reviewing. */
  lemma {:induction false} ReplayedRecords(log: seq<Transition>, t: nat)
    requires Replay(log, t).Some?
    ensures forall i :: 0 <= i < |log| && log[i].task == t ==> Edge(log[i].from, log[i].to)
    ensures forall i: nat, j: nat :: Follows(log, i, j) && log[i].task == t ==> log[j].from == log[i].to
    ensures forall i: nat :: i < |log| && log[i].task == t && (forall m :: i < m < |log| ==> log[m].task != t) ==>
              Replay(log, t) == Some(log[i].to)
    decreases |log|
  {
    if log != [] {
      var front := log[..|log| - 1];
      ReplayedRecords(front, t);
      forall i: nat, j: nat | Follows(log, i, j) && log[i].task == t
        ensures log[j].from == log[i].to
      {
        if j < |front| {
          assert Follows(front, i, j);
        } else {
          assert front[i] == log[i];
          assert forall m :: i < m < |front| ==> front[m].task != t;
        }
      }
      forall i | 0 <= i < |log| && log[i].task == t
        ensures Edge(log[i].from, log[i].to)
      {
        assert i < |front| ==> front[i] == log[i];
      }
      forall i: nat | i < |log| && log[i].task == t && (forall m :: i < m < |log| ==> log[m].task != t)
        ensures Replay(log, t) == Some(log[i].to)
      {
        if i < |front| {
          assert front[i] == log[i];
          assert forall m :: i < m < |front| ==> front[m].task != t;
        }
      }
    }
  }

  lemma PhasesAdvance(cfg: Config, now: int, actions: seq<Action>, i: nat)
    requires i < |Run(cfg, Initial(now), actions).db.log|
    ensures var e := Run(cfg, Initial(now), actions).db.log[i];
            && Edge(e.from, e.to)
            && (Running(e.from) && Running(e.to) ==> Phase(e.from) < Phase(e.to) || (e.from == e.to == Reviewing))
            && (e.from == Cancelling ==> e.to == Cancelled)
            && !Absorbing(e.from)
  {
    Reachable(cfg, now, actions);
    var log := Run(cfg, Initial(now), actions).db.log;
    ReplayedRecords(log, log[i].task);
  }

  // ---------------------------------------------------------------- quotas and leases

  ghost predicate WithinQuota(cfg: Config, db: Db) {
    |RunningTasks(db)| <= cfg.limits.global && (forall u: nat :: |RunningOf(db, u)| <= cfg.limits.perUser)
  }

  /** No step but a claim lets a task start running. */
  lemma OnlyClaimsStart(cfg: Config, w: World, a: Action, t: nat)
    requires t in Act(cfg, w, a).db.tasks && Running(Act(cfg, w, a).db.tasks[t].status)
    ensures t in w.db.tasks && Act(cfg, w, a).db.tasks[t].owner == w.db.tasks[t].owner
    ensures Running(w.db.tasks[t].status) || (a.Claim? && a.task == t && Claimable(w.db, t, cfg.limits))
  {
    if IsCommand(a) {
      hide Act;
      CommandShape(cfg, w, a);
    } else if a.Work? {
      hide WorkStep;
      if a.token in w.workers && Holds(w.db, w.workers[a.token].task, a.token) {
        var u := w.workers[a.token].task;
        WorkShape(cfg, w, a.token, a.step);
        WorkKeepsRunning(cfg, w.now, w.db.tasks[u], w.workers[a.token], a.step);
      } else {
        StaleWorkerChangesNothing(cfg, w, a.token, a.step);
      }
    }
  }

  lemma WorkKeepsRunning(cfg: Config, now: int, r: Row, p: Worker, s: WorkerStep)
    ensures Worked(cfg, now, r, p, s).owner == r.owner
    ensures Running(Worked(cfg, now, r, p, s).status) ==> Running(r.status)
  {
  }

  lemma ActKeepsQuota(cfg: Config, w: World, a: Action)
    requires WithinQuota(cfg, w.db)
    ensures WithinQuota(cfg, Act(cfg, w, a).db)
  {
    hide Act;
    var db, db' := w.db, Act(cfg, w, a).db;
    forall t | t in RunningTasks(db')
      ensures t in RunningTasks(db) || (a.Claim? && a.task == t && Claimable(db, t, cfg.limits))
      ensures t in db.tasks && db'.tasks[t].owner == db.tasks[t].owner
    {
      OnlyClaimsStart(cfg, w, a, t);
    }
    if a.Claim? && Claimable(db, a.task, cfg.limits) {
      SubsetSize(RunningTasks(db'), RunningTasks(db) + {a.task});
      forall u: nat ensures |RunningOf(db', u)| <= cfg.limits.perUser {
        SubsetSize(RunningOf(db', u), if u == db.tasks[a.task].owner then RunningOf(db, u) + {a.task} else RunningOf(db, u));
      }
    } else {
      SubsetSize(RunningTasks(db'), RunningTasks(db));
      forall u: nat ensures |RunningOf(db', u)| <= cfg.limits.perUser {
        SubsetSize(RunningOf(db', u), RunningOf(db, u));
      }
    }
  }

  /** However claims race with everything else, running tasks stay within both limits. */
  lemma {:induction false} RunKeepsQuota(cfg: Config, w: World, actions: seq<Action>)
    requires WithinQuota(cfg, w.db)
    ensures WithinQuota(cfg, Run(cfg, w, actions).db)
    decreases |actions|
  {
    hide WithinQuota;
    if actions != [] {
      ActKeepsQuota(cfg, w, actions[0]);
      RunKeepsQuota(cfg, Act(cfg, w, actions[0]), actions[1..]);
    }
  }

  lemma QuotaHolds(cfg: Config, now: int, actions: seq<Action>)
    ensures WithinQuota(cfg, Run(cfg, Initial(now), actions).db)
  {
    var db := Initial(now).db;
    assert RunningTasks(db) == {};
    assert forall u: nat :: RunningOf(db, u) == {};
    RunKeepsQuota(cfg, Initial(now), actions);
  }

  /** No lease reaches further than one full period from now. */
  ghost predicate LeasesBounded(cfg: Config, w: World) {
    forall t :: t in w.db.tasks && w.db.tasks[t].expires.Some? ==> w.db.tasks[t].expires.value <= w.now + cfg.limits.lease
  }

  predicate BoundedRow(cfg: Config, now: int, r: Row) {
    r.expires.Some? ==> r.expires.value <= now + cfg.limits.lease
  }

  lemma RowsStayBounded(cfg: Config, w: World, a: Action, r: Row, p: Worker, s: WorkerStep)
    requires BoundedRow(cfg, w.now, r)
    ensures BoundedRow(cfg, w.now, Commanded(cfg, w, a, r))
    ensures BoundedRow(cfg, w.now, Worked(cfg, w.now, r, p, s))
  {
  }

  lemma ActKeepsLeases(cfg: Config, w: World, a: Action, t: nat)
    requires LeasesBounded(cfg, w) && t in Act(cfg, w, a).db.tasks
    ensures BoundedRow(cfg, Act(cfg, w, a).now, Act(cfg, w, a).db.tasks[t])
  {
    if IsCommand(a) {
      hide Act, Commanded;
      CommandShape(cfg, w, a);
      if Applies(w, a) {
        RowsStayBounded(cfg, w, a, w.db.tasks[a.task], Worker(0, Starting, None), Start);
      }
    } else if a.Work? {
      hide WorkStep, Worked;
      assert Act(cfg, w, a).now == w.now by {
        SameClock(cfg, w, a.token, a.step);
      }
      if a.token in w.workers && Holds(w.db, w.workers[a.token].task, a.token) {
        WorkShape(cfg, w, a.token, a.step);
        RowsStayBounded(cfg, w, a, w.db.tasks[w.workers[a.token].task], w.workers[a.token], a.step);
      } else {
        StaleWorkerChangesNothing(cfg, w, a.token, a.step);
      }
    } else if t in w.db.tasks {
      hide Act;
      OtherRows(cfg, w, a, t);
    }
  }

  lemma SameClock(cfg: Config, w: World, k: Token, s: WorkerStep)
    ensures WorkStep(cfg, w, k, s).now == w.now
  {
  }

  lemma {:induction false} RunKeepsLeases(cfg: Config, w: World, actions: seq<Action>)
    requires LeasesBounded(cfg, w)
    ensures LeasesBounded(cfg, Run(cfg, w, actions))
    decreases |actions|
  {
    hide Act;
    if actions != [] {
      forall t | t in Act(cfg, w, actions[0]).db.tasks
        ensures BoundedRow(cfg, Act(cfg, w, actions[0]).now, Act(cfg, w, actions[0]).db.tasks[t])
      {
        ActKeepsLeases(cfg, w, actions[0], t);
      }
      RunKeepsLeases(cfg, Act(cfg, w, actions[0]), actions[1..]);
    }
  }

  /** On every run a renewal that is accepted never moves the expiry back, and recovery leaves a
      running task alone as long as its lease has not expired. */
  lemma LeasesProtect(cfg: Config, now: int, actions: seq<Action>, t: nat, k: Token)
    requires t in Run(cfg, Initial(now), actions).db.tasks
    ensures var w := Run(cfg, Initial(now), actions);
            var r := w.db.tasks[t];
            && (Renewable(w.db, t, k, w.now) ==>
                  RenewDb(w.db, t, k, w.now, cfg.limits.lease).tasks[t].expires.value >= r.expires.value > w.now)
            && (Running(r.status) ==>
                  r.expires.Some? &&
                  if r.expires.value > w.now then RecoverDb(w.db, t, w.now) == w.db
                  else !Running(RecoverDb(w.db, t, w.now).tasks[t].status))
  {
    RunKeepsLeases(cfg, Initial(now), actions);
    ClaimedExactlyWhileRunning(cfg, now, actions, t);
  }
}
