/** What each step of the lifecycle does to a row, field by field, and what whole runs make of it. */
module LifecycleOutcomes {
  import opened Values
  import opened TaskTable
  import opened Lifecycle
  import opened LifecycleSafety
  import opened LifecycleTheorems

  // ---------------------------------------------------------------- verdicts on pull requests

  /** A poll or a feedback sync hands verdict `v` to task `t`, which is under review. */
  predicate Hears(w: World, a: Action, t: nat, v: Verdict) {
    (a == Poll(t, v) || a == SyncFeedback(t, v)) && t in w.db.tasks && w.db.tasks[t].status == AwaitingHumanReview
  }

  /** A merged pull request completes its task, one closed unmerged closes it, and any other answer leaves
      it under review. */
  lemma VerdictDecides(cfg: Config, w: World, a: Action, t: nat, v: Verdict)
    requires Hears(w, a, t, v)
    ensures var r, after := w.db.tasks[t], Act(cfg, w, a).db.tasks;
            && t in after
            && (after[t].status == Completed <==> v == Merged)
            && (after[t].status == Closed <==> v == ClosedUnmerged)
            && (v == Merged ==> after[t] == r.(status := Completed, prState := Some(MergedPr), finishedAt := Some(w.now)))
            && (v == ClosedUnmerged ==> after[t] == r.(status := Closed, prState := Some(ClosedPr), finishedAt := Some(w.now)))
            && (v == Unmerged ==> after[t] == r)
  {
    hide MayAct;
  }

  /** The last verdict that task `t` has heard in the course of a run. */
  function LastHeard(cfg: Config, w: World, actions: seq<Action>, t: nat, so: Option<Verdict>): Option<Verdict>
    decreases |actions|
  {
    if actions == [] then so
    else
      var a := actions[0];
      var heard := if (a.Poll? || a.SyncFeedback?) && Hears(w, a, t, a.verdict) then Some(a.verdict) else so;
      LastHeard(cfg, Act(cfg, w, a), actions[1..], t, heard)
  }

  /** The status of `t` agrees with the last verdict it has heard. */
  ghost predicate Agrees(w: World, t: nat, heard: Option<Verdict>) {
    if t !in w.db.tasks then heard == None
    else
      var r := w.db.tasks[t];
      && (r.status == Completed <==> heard == Some(Merged))
      && (r.status == Closed <==> heard == Some(ClosedUnmerged))
      && (r.status == Completed ==> r.prState == Some(MergedPr))
      && (r.status == Closed ==> r.prState == Some(ClosedPr))
  }

  predicate Judged(s: Status) { s == Completed || s == Closed }

  /** No other step settles a task, or unsettles one. */
  lemma OnlyVerdictsSettle(cfg: Config, w: World, a: Action, t: nat)
    requires Inv(cfg, w) && forall v :: !Hears(w, a, t, v)
    requires t in Act(cfg, w, a).db.tasks
    ensures t in w.db.tasks && Judged(w.db.tasks[t].status) ==> Act(cfg, w, a).db.tasks[t] == w.db.tasks[t]
    ensures Judged(Act(cfg, w, a).db.tasks[t].status) ==> t in w.db.tasks && Judged(w.db.tasks[t].status)
  {
    hide Inv, Act;
    if t in w.db.tasks {
      ActGrows(cfg, w, a, t);
      StandingRowsAreNotJudged(cfg, w, a, t);
    } else {
      NewRowsWait(cfg, w, a, t);
    }
  }

  lemma StandingRowsAreNotJudged(cfg: Config, w: World, a: Action, t: nat)
    requires t in w.db.tasks && t in Act(cfg, w, a).db.tasks && forall v :: !Hears(w, a, t, v)
    ensures Judged(Act(cfg, w, a).db.tasks[t].status) ==> Judged(w.db.tasks[t].status)
  {
    hide Act, Commanded, WorkStep, Worked, Hears;
    if IsCommand(a) {
      CommandShape(cfg, w, a);
      if Applies(w, a) && a.task == t {
        CommandNeverJudges(cfg, w, a);
      }
    } else if a.Work? {
      ActIsWork(cfg, w, a.token, a.step);
      if a.token in w.workers && Holds(w.db, w.workers[a.token].task, a.token) {
        WorkShape(cfg, w, a.token, a.step);
        WorkNeverJudges(cfg, w.now, w.db.tasks[w.workers[a.token].task], w.workers[a.token], a.step);
      } else {
        StaleWorkerChangesNothing(cfg, w, a.token, a.step);
      }
    } else {
      OtherRows(cfg, w, a, t);
    }
  }

  lemma CommandNeverJudges(cfg: Config, w: World, a: Action)
    requires IsCommand(a) && Applies(w, a) && forall v :: !Hears(w, a, a.task, v)
    ensures Judged(Commanded(cfg, w, a, w.db.tasks[a.task]).status) ==> Judged(w.db.tasks[a.task].status)
  {
    if a.Poll? || a.SyncFeedback? {
      assert Hears(w, a, a.task, a.verdict);
    }
  }

  lemma WorkNeverJudges(cfg: Config, now: int, r: Row, p: Worker, s: WorkerStep)
    ensures Judged(Worked(cfg, now, r, p, s).status) ==> Judged(r.status)
  {
  }

  lemma NewRowsWait(cfg: Config, w: World, a: Action, t: nat)
    requires t !in w.db.tasks && t in Act(cfg, w, a).db.tasks
    ensures Act(cfg, w, a).db.tasks[t].status == Queued
  {
    if a.Work? {
      hide WorkStep;
      if a.token in w.workers && Holds(w.db, w.workers[a.token].task, a.token) {
        WorkerTouchesOwnRow(cfg, w, a.token, a.step);
      } else {
        StaleWorkerChangesNothing(cfg, w, a.token, a.step);
      }
    }
  }

  lemma ActAgrees(cfg: Config, w: World, a: Action, t: nat, so: Option<Verdict>)
    requires Inv(cfg, w) && Agrees(w, t, so)
    ensures var heard := if (a.Poll? || a.SyncFeedback?) && Hears(w, a, t, a.verdict) then Some(a.verdict) else so;
            Agrees(Act(cfg, w, a), t, heard)
  {
    hide Inv, Act;
    if (a.Poll? || a.SyncFeedback?) && Hears(w, a, t, a.verdict) {
      VerdictDecides(cfg, w, a, t, a.verdict);
    } else if t in Act(cfg, w, a).db.tasks {
      OnlyVerdictsSettle(cfg, w, a, t);
    } else {
      if t in w.db.tasks {
        ActGrows(cfg, w, a, t);
      }
    }
  }

  lemma {:induction false} RunAgrees(cfg: Config, w: World, actions: seq<Action>, t: nat, so: Option<Verdict>)
    requires Inv(cfg, w) && Agrees(w, t, so)
    ensures Agrees(Run(cfg, w, actions), t, LastHeard(cfg, w, actions, t, so))
    decreases |actions|
  {
    hide Inv, Act, Agrees;
    if actions != [] {
      ActAgrees(cfg, w, actions[0], t, so);
      ActKeepsInv(cfg, w, actions[0]);
      var heard := if (actions[0].Poll? || actions[0].SyncFeedback?) && Hears(w, actions[0], t, actions[0].verdict)
                   then Some(actions[0].verdict) else so;
      RunAgrees(cfg, Act(cfg, w, actions[0]), actions[1..], t, heard);
    }
  }

  /** On every run a task is completed exactly when the last verdict it heard said merged, and closed
      exactly when it said closed unmerged, and its pull-request state says the same. */
  lemma LastVerdictStands(cfg: Config, now: int, actions: seq<Action>, t: nat)
    requires t in Run(cfg, Initial(now), actions).db.tasks
    ensures var r := Run(cfg, Initial(now), actions).db.tasks[t];
            var heard := LastHeard(cfg, Initial(now), actions, t, None);
            && (r.status == Completed <==> heard == Some(Merged))
            && (r.status == Closed <==> heard == Some(ClosedUnmerged))
            && (r.status == Completed ==> r.prState == Some(MergedPr))
            && (r.status == Closed ==> r.prState == Some(ClosedPr))
  {
    RunAgrees(cfg, Initial(now), actions, t, None);
  }

  // ---------------------------------------------------------------- how claims end

  /** Recovery: a task told to stop is cancelled, an expired publication is queued for reconciliation,
      any other expired task goes to a human, and an unexpired one is left alone. */
  lemma RecoveryDecides(cfg: Config, w: World, t: nat)
    requires Inv(cfg, w) && t in w.db.tasks
    ensures var r, after := w.db.tasks[t], Act(cfg, w, Recover(t)).db.tasks;
            && t in after
            && (r.status == Cancelling ==>
                  after[t] == r.(status := Cancelled, claim := None, expires := None, finishedAt := Some(w.now)))
            && (r.status in {Preparing, DeveloperWorking, Reviewing, DeveloperRevising, Sealing, Publishing} ==>
                  && r.expires.Some?
                  && after[t] ==
                     if r.expires.value > w.now then r
                     else if r.status == Publishing
                     then r.(status := Queued, code := Some(PublishExisting), claim := None, expires := None, finishedAt := None)
                     else r.(status := ManualIntervention, code := Some(ManagerRestarted), claim := None, expires := None,
                             finishedAt := Some(w.now)))
  {
    RowOf(cfg, w, t);
  }

  /** The exception handlers of a worker that holds its claim: a task told to stop is cancelled, except
      by an invalid report; otherwise a failure, an invalid report and an interruption each leave
      their own status and code, and a cancellation nothing. */
  lemma HandlersDecide(cfg: Config, w: World, k: Token)
    requires Inv(cfg, w) && k in w.workers && w.workers[k].pc.Handling? && Holds(w.db, w.workers[k].task, k)
    ensures var t := w.workers[k].task;
            var r, h, after := w.db.tasks[t], w.workers[k].pc.handler, Act(cfg, w, Work(k, Handle)).db.tasks;
            && t in after
            && (r.status == Cancelling && !h.OnReportInvalid? ==>
                  after[t] == r.(status := Cancelled, claim := None, expires := None, finishedAt := Some(w.now)))
            && (r.status == Cancelling && h.OnReportInvalid? ==> after[t] == r)
            && (r.status != Cancelling ==>
                  var ended := r.(claim := None, expires := None, finishedAt := Some(w.now));
                  match h
                  case OnFailure(kind) => after[t] == ended.(status := Failed, code := Some(Classified(kind)))
                  case OnReportInvalid => after[t] == ended.(status := ManualIntervention, code := Some(ReportInvalid))
                  case OnInterrupt => after[t] == ended.(status := ManualIntervention, code := Some(WorkerInterrupted))
                  case OnCancelled => after[t] == r)
  {
    hide Inv, Act, WorkStep, Worked;
    LocalOf(cfg, w, k);
    ActIsWork(cfg, w, k, Handle);
    WorkShape(cfg, w, k, Handle);
    HandledRow(cfg, w.now, w.db.tasks[w.workers[k].task], w.workers[k]);
  }

  /** The same about the row of a claimed task. */
  lemma HandledRow(cfg: Config, now: int, r: Row, p: Worker)
    requires p.pc.Handling? && (Running(r.status) || r.status == Cancelling)
    ensures var after := Worked(cfg, now, r, p, Handle);
            var ended := r.(claim := None, expires := None, finishedAt := Some(now));
            match p.pc.handler
            case OnFailure(kind) =>
              after == if r.status == Cancelling then ended.(status := Cancelled)
                       else ended.(status := Failed, code := Some(Classified(kind)))
            case OnReportInvalid =>
              after == if r.status == Cancelling then r else ended.(status := ManualIntervention, code := Some(ReportInvalid))
            case OnInterrupt =>
              after == if r.status == Cancelling then ended.(status := Cancelled)
                       else ended.(status := ManualIntervention, code := Some(WorkerInterrupted))
            case OnCancelled =>
              after == if r.status == Cancelling then ended.(status := Cancelled) else r
  {
  }

  /** An issue that was dispatched is waiting again after a step exactly if that step is the failure of
      the worker holding a task on it that is not being cancelled and has no commit. */
  lemma OnlyUncommittedFailuresReopen(cfg: Config, w: World, a: Action, i: nat)
    requires Inv(cfg, w) && i in w.db.issues && w.db.issues[i].triage == Dispatched
    ensures i in Act(cfg, w, a).db.issues
    ensures Act(cfg, w, a).db.issues[i].triage == Discovered <==> Reopens(w, a, i)
    ensures Act(cfg, w, a).db.issues[i].triage != Ignored
  {
    hide Inv, Act, WorkStep;
    if a.Work? {
      ActIsWork(cfg, w, a.token, a.step);
      if a.step.Handle? {
        if a.token in w.workers {
          LocalOf(cfg, w, a.token);
        }
        FailureReopens(cfg, w, a.token, i);
      } else {
        WorkLeavesIssues(cfg, w, a.token, a.step);
      }
    } else {
      OthersLeaveDispatched(cfg, w, a, i);
    }
  }

  lemma OthersLeaveDispatched(cfg: Config, w: World, a: Action, i: nat)
    requires !a.Work? && i in w.db.issues && w.db.issues[i].triage == Dispatched
    ensures i in Act(cfg, w, a).db.issues && Act(cfg, w, a).db.issues[i].triage == Dispatched
  {
    if IsCommand(a) {
      hide Act;
      CommandShape(cfg, w, a);
    }
  }

  predicate Reopens(w: World, a: Action, i: nat) {
    && a.Work? && a.step.Handle? && a.token in w.workers
    && w.workers[a.token].pc.Handling? && w.workers[a.token].pc.handler.OnFailure?
    && var t := w.workers[a.token].task;
       && t in w.db.tasks && w.db.tasks[t].claim == Some(a.token) && w.db.tasks[t].status != Cancelling
       && w.db.tasks[t].issue == i && w.db.tasks[t].commit == None
  }

  lemma FailureReopens(cfg: Config, w: World, k: Token, i: nat)
    requires i in w.db.issues && w.db.issues[i].triage == Dispatched
    requires k in w.workers ==> w.workers[k].task in w.db.tasks
    requires k in w.workers ==>
               var r := w.db.tasks[w.workers[k].task];
               r.claim.Some? <==> Running(r.status) || r.status == Cancelling
    ensures var after := WorkStep(cfg, w, k, Handle).db.issues;
            && i in after && after[i].triage != Ignored
            && (after[i].triage == Discovered <==> Reopens(w, Work(k, Handle), i))
  {
    if k in w.workers && w.workers[k].pc.Handling? {
      match w.workers[k].pc.handler
      case OnFailure(_) =>
      case OnReportInvalid =>
      case OnCancelled =>
      case OnInterrupt =>
    }
  }

  lemma WorkLeavesIssues(cfg: Config, w: World, k: Token, s: WorkerStep)
    requires !s.Handle?
    ensures WorkStep(cfg, w, k, s).db.issues == w.db.issues
  {
    hide FailDb, ManualDb, MarkCancelledDb, InterruptDb;
  }

  /** A worker told to stop that reaches its next stage ends its task as cancelled. */
  lemma StopIsHonoured(cfg: Config, w: World, k: Token, findings: bool)
    requires k in w.workers && Holds(w.db, w.workers[k].task, k) && StageOf(w.workers[k].pc).Some?
    requires w.db.tasks[w.workers[k].task].status == Cancelling
    ensures var t := w.workers[k].task;
            var after := Act(cfg, Act(cfg, w, Work(k, EnterStage(findings))), Work(k, Handle)).db.tasks;
            t in after && after[t].status == Cancelled && after[t].claim == None
  {
    hide AwaitDb, BeginDb, PreparedDb, SealedDb, CommitDb, FailDb, ManualDb, InterruptDb;
    assert w.db.tasks[w.workers[k].task].claim == Some(k);
  }

  // ---------------------------------------------------------------- what a worker records

  /** Each accepted record writes its own fields as they were handed in, and nothing else. */
  lemma RecordsAreKept(cfg: Config, w: World, k: Token, s: WorkerStep)
    requires Inv(cfg, w) && k in w.workers && Holds(w.db, w.workers[k].task, k)
    requires w.db.tasks[w.workers[k].task].status != Cancelling
    ensures var t, pc := w.workers[k].task, w.workers[k].pc;
            var r, after := w.db.tasks[t], Act(cfg, w, Work(k, s)).db.tasks;
            && t in after
            && (s.RecordPrepared? && pc.PrepareRecording? ==>
                  after[t] == r.(workspace := Some(s.workspace), baseCommit := Some(s.base), branch := Some(s.branch)))
            && (s.RecordSeal? && pc.SealRecording? ==> after[t] == r.(reviewedTree := Some(s.sealedTree)))
            && (s.RecordCommit? && pc.CommitRecording? ==>
                  after[t] == if w.workers[k].tree == Some(cfg.treeOf(s.commit)) then r.(commit := Some(s.commit)) else r)
            && (s.Begin? && pc.PublishStarting? ==>
                  after[t] == r.(status := Publishing,
                                 publicationKey := if r.publicationKey == None then Some(s.key) else r.publicationKey))
            && (s.RecordPublished? && pc.AwaitRecording? ==>
                  after[t] == r.(status := AwaitingHumanReview, prUrl := Some(s.url), prNumber := Some(s.number),
                                 prState := Some(s.state), code := None, claim := None, expires := None,
                                 finishedAt := Some(w.now)))
  {
    hide Inv, Act, WorkStep, Worked;
    HolderNeverBlocked(cfg, w, k);
    ActIsWork(cfg, w, k, s);
    WorkShape(cfg, w, k, s);
    RecordedRow(cfg, w.now, w.db.tasks[w.workers[k].task], w.workers[k], s);
  }

  /** The same about the row of a task in the status its holder's program point goes with. */
  lemma RecordedRow(cfg: Config, now: int, r: Row, p: Worker, s: WorkerStep)
    requires p.pc.PrepareRecording? ==> r.status == Preparing
    requires p.pc.SealRecording? || p.pc.CommitRecording? ==> r.status == Sealing
    requires p.pc.PublishStarting? ==> r.status == Preparing || r.status == Sealing
    requires p.pc.AwaitRecording? ==> r.status == Publishing
    ensures var after := Worked(cfg, now, r, p, s);
            && (s.RecordPrepared? && p.pc.PrepareRecording? ==>
                  after == r.(workspace := Some(s.workspace), baseCommit := Some(s.base), branch := Some(s.branch)))
            && (s.RecordSeal? && p.pc.SealRecording? ==> after == r.(reviewedTree := Some(s.sealedTree)))
            && (s.RecordCommit? && p.pc.CommitRecording? ==>
                  after == if p.tree == Some(cfg.treeOf(s.commit)) then r.(commit := Some(s.commit)) else r)
            && (s.Begin? && p.pc.PublishStarting? ==>
                  after == r.(status := Publishing,
                              publicationKey := if r.publicationKey == None then Some(s.key) else r.publicationKey))
            && (s.RecordPublished? && p.pc.AwaitRecording? ==>
                  after == r.(status := AwaitingHumanReview, prUrl := Some(s.url), prNumber := Some(s.number),
                              prState := Some(s.state), code := None, claim := None, expires := None,
                              finishedAt := Some(now)))
  {
  }

  /** What a worker does not write: a first renewal that is refused, and any record that does not find its
      task as it expects it, ends the worker and leaves the tables alone; a commit whose tree is not the
      sealed one fails; a raise runs its handler; a crash ends the worker where it stands. */
  lemma RefusedStepsEnd(cfg: Config, w: World, k: Token, s: WorkerStep)
    requires k in w.workers && w.workers[k].task in w.db.tasks
    ensures var p, w' := w.workers[k], WorkStep(cfg, w, k, s);
            var r := w.db.tasks[p.task];
            && k in w'.workers
            && (s.Start? && p.pc.Starting? ==>
                  var good := r.claim == Some(k) && r.expires.Some? && w.now < r.expires.value
                              && r.status in {Preparing, DeveloperWorking, Reviewing, DeveloperRevising, Sealing, Publishing, Cancelling};
                  if good then w'.workers[k].pc == Loading && w'.db.tasks == w.db.tasks[p.task := r.(expires := Some(w.now + cfg.limits.lease))]
                  else w'.workers[k].pc == Finished && w'.db == w.db)
            && (|| (s.RecordPrepared? && p.pc.PrepareRecording? && !(r.claim == Some(k) && r.status == Preparing))
                || (s.RecordSeal? && p.pc.SealRecording? && !(r.claim == Some(k) && r.status == Sealing))
                || (s.RecordCommit? && p.pc.CommitRecording? && p.tree == Some(cfg.treeOf(s.commit))
                    && !(r.claim == Some(k) && r.status == Sealing))
                || (s.Begin? && p.pc.PublishStarting? && !(r.claim == Some(k) && r.status in {Preparing, Sealing}))
                || (s.RecordPublished? && p.pc.AwaitRecording? && !(r.claim == Some(k) && r.status in {Publishing, Cancelling})) ==>
                  w'.workers[k].pc == Finished && w'.db == w.db)
            && (s.RecordCommit? && p.pc.CommitRecording? && p.tree != Some(cfg.treeOf(s.commit)) ==>
                  w'.workers[k].pc.Handling? && w'.workers[k].pc.handler.OnFailure? && w'.db == w.db)
            && (s.Raise? && p.pc !in {Starting, Finished} && !p.pc.Handling? ==> w'.workers[k].pc == Handling(s.handler) && w'.db == w.db)
            && (s.Crash? ==> w'.workers[k].pc == Finished && w'.db == w.db)
  {
    hide FailDb, ManualDb, MarkCancelledDb, InterruptDb, StageDb, StageOutcome;
  }

  /** A worker that has ended does nothing more. */
  lemma FinishedForGood(cfg: Config, w: World, k: Token, s: WorkerStep)
    requires k in w.workers && w.workers[k].pc.Finished?
    ensures WorkStep(cfg, w, k, s).db == w.db && k in WorkStep(cfg, w, k, s).workers && WorkStep(cfg, w, k, s).workers[k].pc.Finished?
  {
  }

  /** A new task is queued for its issue, under its creator, with the priority asked for and the time it
      was created, and nothing recorded. */
  lemma DispatchedTask(cfg: Config, w: World, i: nat, u: nat, t: nat, priority: int)
    requires t !in w.db.tasks && t in Act(cfg, w, Dispatch(i, u, t, priority)).db.tasks
    ensures var db := Act(cfg, w, Dispatch(i, u, t, priority)).db;
            var r := db.tasks[t];
            && r.issue == i && r.owner == u && r.priority == priority && r.createdAt == w.now && r.status == Queued
            && r.workspace == None && r.branch == None && r.baseCommit == None && r.reviewedTree == None && r.commit == None
            && r.prUrl == None && r.prNumber == None && r.prState == None && r.code == None && r.claim == None
            && r.expires == None && r.publicationKey == None && r.startedAt == None && r.finishedAt == None
            && u in w.db.users && w.db.users[u].active
            && i in w.db.issues && w.db.issues[i].open && w.db.issues[i].triage == Discovered
            && w.db.issues[i].repository in w.db.enabled && w.db.enabled[w.db.issues[i].repository]
            && db.issues[i].triage == Dispatched
  {
  }

  // ---------------------------------------------------------------- leases last

  /** The row is held under `k` until `end` at least. */
  predicate HeldUntil(w: World, t: nat, k: Token, end: int) {
    t in w.db.tasks && (w.db.tasks[t].claim == Some(k) ==> w.db.tasks[t].expires.Some? && w.db.tasks[t].expires.value >= end)
  }

  lemma CommandHolds(cfg: Config, w: World, a: Action, k: Token, end: int)
    requires IsCommand(a) && Applies(w, a) && HeldUntil(w, a.task, k, end) && end <= w.now + cfg.limits.lease
    ensures var r := Commanded(cfg, w, a, w.db.tasks[a.task]);
            r.claim == Some(k) ==> r.expires.Some? && r.expires.value >= end
  {
  }

  lemma WorkHolds(cfg: Config, now: int, r: Row, p: Worker, s: WorkerStep, k: Token, end: int)
    requires r.claim == Some(k) ==> r.expires.Some? && r.expires.value >= end
    requires end <= now + cfg.limits.lease
    ensures var r' := Worked(cfg, now, r, p, s);
            r'.claim == Some(k) ==> r'.expires.Some? && r'.expires.value >= end
  {
  }

  lemma ActHolds(cfg: Config, w: World, a: Action, t: nat, k: Token, end: int)
    requires Inv(cfg, w) && k in w.issued && HeldUntil(w, t, k, end) && end <= w.now + cfg.limits.lease
    ensures HeldUntil(Act(cfg, w, a), t, k, end) && k in Act(cfg, w, a).issued && end <= Act(cfg, w, a).now + cfg.limits.lease
  {
    hide Inv, Act, WorkStep, HeldUntil;
    if IsCommand(a) {
      CommandKeepsHold(cfg, w, a, t, k, end);
    } else if a.Work? {
      ActIsWork(cfg, w, a.token, a.step);
      WorkKeepsHold(cfg, w, a.token, a.step, t, k, end);
    } else {
      OthersKeepHold(cfg, w, a, t, k, end);
    }
  }

  lemma CommandKeepsHold(cfg: Config, w: World, a: Action, t: nat, k: Token, end: int)
    requires IsCommand(a) && k in w.issued && HeldUntil(w, t, k, end) && end <= w.now + cfg.limits.lease
    ensures HeldUntil(Act(cfg, w, a), t, k, end) && k in Act(cfg, w, a).issued && end <= Act(cfg, w, a).now + cfg.limits.lease
  {
    hide Act, Commanded;
    CommandShape(cfg, w, a);
    if Applies(w, a) && a.task == t {
      CommandHolds(cfg, w, a, k, end);
    }
  }

  lemma WorkKeepsHold(cfg: Config, w: World, l: Token, s: WorkerStep, t: nat, k: Token, end: int)
    requires k in w.issued && HeldUntil(w, t, k, end) && end <= w.now + cfg.limits.lease
    ensures var w' := WorkStep(cfg, w, l, s);
            HeldUntil(w', t, k, end) && k in w'.issued && end <= w'.now + cfg.limits.lease
  {
    hide WorkStep, Worked;
    SameClock(cfg, w, l, s);
    SameIssued(cfg, w, l, s);
    if l in w.workers && Holds(w.db, w.workers[l].task, l) {
      var u := w.workers[l].task;
      WorkShape(cfg, w, l, s);
      if u == t {
        WorkHolds(cfg, w.now, w.db.tasks[t], w.workers[l], s, k, end);
      }
    } else {
      StaleWorkerChangesNothing(cfg, w, l, s);
    }
  }

  lemma OthersKeepHold(cfg: Config, w: World, a: Action, t: nat, k: Token, end: int)
    requires !IsCommand(a) && !a.Work? && k in w.issued && HeldUntil(w, t, k, end) && end <= w.now + cfg.limits.lease
    ensures HeldUntil(Act(cfg, w, a), t, k, end) && k in Act(cfg, w, a).issued && end <= Act(cfg, w, a).now + cfg.limits.lease
  {
    OtherRows(cfg, w, a, t);
  }

  lemma SameIssued(cfg: Config, w: World, k: Token, s: WorkerStep)
    ensures WorkStep(cfg, w, k, s).issued == w.issued
  {
  }

  lemma {:induction false} RunHolds(cfg: Config, w: World, actions: seq<Action>, t: nat, k: Token, end: int)
    requires Inv(cfg, w) && k in w.issued && HeldUntil(w, t, k, end) && end <= w.now + cfg.limits.lease
    ensures HeldUntil(Run(cfg, w, actions), t, k, end)
    decreases |actions|
  {
    hide Inv, Act, HeldUntil;
    if actions != [] {
      ActHolds(cfg, w, actions[0], t, k, end);
      ActKeepsInv(cfg, w, actions[0]);
      RunHolds(cfg, Act(cfg, w, actions[0]), actions[1..], t, k, end);
    }
  }

  /** A claim, and every accepted renewal, is good for a whole lease from its moment: as long as the token
      stands, no recovery takes a running task away before that. */
  lemma WholeLease(cfg: Config, w: World, a: Action, t: nat, k: Token, actions: seq<Action>)
    requires Inv(cfg, w) && t in w.db.tasks
    requires a == Claim(t, k) || a == Renew(t, k)
    requires a.Claim? ==> k !in w.issued && Act(cfg, w, a).db.tasks[t].claim == Some(k)
    requires a.Renew? ==> w.db.tasks[t].claim == Some(k) && Act(cfg, w, a) != w
    ensures var v := Run(cfg, Act(cfg, w, a), actions);
            && t in v.db.tasks
            && (v.db.tasks[t].claim == Some(k) && v.db.tasks[t].status != Cancelling && v.now < w.now + cfg.limits.lease ==>
                  Act(cfg, v, Recover(t)).db.tasks == v.db.tasks)
  {
    hide Inv, Act, RowOk, ClaimOk, HeldUntil;
    var w1, end := Act(cfg, w, a), w.now + cfg.limits.lease;
    ActKeepsInv(cfg, w, a);
    FreshLease(cfg, w, a, t, k);
    assert k in w1.issued && w1.now == w.now;
    RunHolds(cfg, w1, actions, t, k, end);
    NotDueYet(cfg, Run(cfg, w1, actions), t, k, end);
  }

  lemma FreshLease(cfg: Config, w: World, a: Action, t: nat, k: Token)
    requires Inv(cfg, w) && t in w.db.tasks
    requires a == Claim(t, k) || a == Renew(t, k)
    requires a.Claim? ==> k !in w.issued && Act(cfg, w, a).db.tasks[t].claim == Some(k)
    requires a.Renew? ==> w.db.tasks[t].claim == Some(k) && Act(cfg, w, a) != w
    ensures var w1 := Act(cfg, w, a);
            HeldUntil(w1, t, k, w.now + cfg.limits.lease) && k in w1.issued && w1.now == w.now
  {
    RowOf(cfg, w, t);
    hide Inv, RowOk;
  }

  lemma NotDueYet(cfg: Config, v: World, t: nat, k: Token, end: int)
    requires HeldUntil(v, t, k, end)
    ensures t in v.db.tasks
    ensures v.db.tasks[t].claim == Some(k) && v.db.tasks[t].status != Cancelling && v.now < end ==>
              Act(cfg, v, Recover(t)).db.tasks == v.db.tasks
  {
  }
}
