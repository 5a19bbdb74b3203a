/** The transactions of the task tables as the services run them: every method reads and writes the
    tables in place, and is proved to have exactly the effect that `TaskTable` gives it. */
module TaskService {
  import opened Values
  import opened TaskTable

  datatype CasResult = Changed | Unchanged | NoExpectedStatus
  datatype CommandResult = Done | NotFound | Forbidden | Conflict

  class TaskStore {
    var tasks: map<nat, Row>
    var issues: map<nat, IssueRow>
    var users: map<nat, User>
    var enabled: map<nat, bool>
    var log: seq<Transition>

    constructor ()
      ensures View() == Db(map[], map[], map[], map[], [])
    {
      tasks, issues, users, enabled, log := map[], map[], map[], map[], [];
    }

    ghost function View(): Db
      reads this
    {
      Db(tasks, issues, users, enabled, log)
    }

    // -------------------------------------------------------------- the two status writes

    method CasTaskStatus(t: nat, expected: set<Status>, to: Status, updates: Row -> Row, token: Option<Token>)
        returns (result: CasResult)
      modifies this`tasks, this`log
      ensures result == NoExpectedStatus <==> expected == {}
      ensures result == Changed <==>
                t in old(tasks) && old(tasks[t].status) in expected && (token.None? || old(tasks[t].claim) == token)
      ensures View() == if result == Changed
                        then Moved(old(View()), t, updates(old(tasks[t])).(status := to))
                        else old(View())
      ensures result == Changed ==>
                && tasks == old(tasks)[t := updates(old(tasks)[t]).(status := to)]
                && log == old(log) + [Transition(t, old(tasks)[t].status, to)]
      ensures result != Changed ==> tasks == old(tasks) && log == old(log)
    {
      if expected == {} {
        return NoExpectedStatus;
      }
      if t !in tasks || tasks[t].status !in expected {
        return Unchanged;
      }
      if token.Some? && tasks[t].claim != token {
        return Unchanged;
      }
      var from := tasks[t].status;
      tasks := tasks[t := updates(tasks[t]).(status := to)];
      log := log + [Transition(t, from, to)];
      return Changed;
    }

    method ClaimQueuedTask(t: nat, drawn: Token, now: int, limits: Limits) returns (token: Option<Token>)
      modifies this`tasks, this`log
      ensures token == if Claimable(old(View()), t, limits) then Some(drawn) else None
      ensures View() == ClaimDb(old(View()), t, drawn, now, limits)
      ensures token.Some? <==>
                && t in old(tasks) && old(tasks)[t].status == Queued
                && |RunningTasks(old(View()))| < limits.global && |RunningOf(old(View()), old(tasks)[t].owner)| < limits.perUser
      ensures token.Some? ==>
                && token.value == drawn
                && View() == Moved(old(View()), t,
                               old(tasks)[t].(status := Preparing, claim := Some(drawn), expires := Some(now + limits.lease),
                                              startedAt := if old(tasks)[t].startedAt == None then Some(now) else old(tasks)[t].startedAt,
                                              finishedAt := None))
      ensures token.None? ==> View() == old(View())
    {
      var globalRunning := set u | u in tasks && Running(tasks[u].status);
      assert globalRunning == RunningTasks(View());
      if t !in tasks || tasks[t].status != Queued || |globalRunning| >= limits.global {
        return None;
      }
      var userRunning := set u | u in tasks && Running(tasks[u].status) && tasks[u].owner == tasks[t].owner;
      assert userRunning == RunningOf(View(), tasks[t].owner);
      if |userRunning| >= limits.perUser {
        return None;
      }
      var r := tasks[t];
      tasks := tasks[t := r.(status := Preparing, claim := Some(drawn), expires := Some(now + limits.lease),
                             startedAt := if r.startedAt.None? then Some(now) else r.startedAt, finishedAt := None)];
      log := log + [Transition(t, Queued, Preparing)];
      return Some(drawn);
    }

    method Renew(t: nat, k: Token, now: int, lease: nat) returns (renewed: bool)
      modifies this`tasks
      ensures renewed == Renewable(old(View()), t, k, now)
      ensures View() == RenewDb(old(View()), t, k, now, lease)
      ensures renewed <==>
                && t in old(tasks) && old(tasks)[t].claim == Some(k)
                && (old(tasks)[t].status in {Preparing, DeveloperWorking, Reviewing, DeveloperRevising, Sealing, Publishing}
                    || old(tasks)[t].status == Cancelling)
                && old(tasks)[t].expires.Some? && now < old(tasks)[t].expires.value
      ensures tasks == if renewed then old(tasks)[t := old(tasks)[t].(expires := Some(now + lease))] else old(tasks)
    {
      renewed := t in tasks && (Running(tasks[t].status) || tasks[t].status == Cancelling)
                 && tasks[t].claim == Some(k) && tasks[t].expires.Some? && tasks[t].expires.value > now;
      if renewed {
        tasks := tasks[t := tasks[t].(expires := Some(now + lease))];
      }
    }

    // -------------------------------------------------------------- the worker's writes

    method SetStatus(t: nat, to: Status, k: Token) returns (outcome: StageResult)
      modifies this`tasks, this`log
      ensures outcome == StageOutcome(old(View()), t, to, k)
      ensures View() == StageDb(old(View()), t, to, k)
      ensures outcome == Advanced <==>
                && t in old(tasks) && old(tasks)[t].claim == Some(k)
                && var from := old(tasks)[t].status;
                   || (to == Preparing && from == Queued)
                   || (to == DeveloperWorking && from == Preparing)
                   || (to == Reviewing && from in {DeveloperWorking, Reviewing})
                   || (to == DeveloperRevising && from in {Preparing, Reviewing})
                   || (to == Sealing && from in {Preparing, DeveloperWorking, Reviewing, DeveloperRevising})
                   || (to == Publishing && from in {Preparing, Sealing})
      ensures outcome == ClaimLost <==>
                && to in {Preparing, DeveloperWorking, Reviewing, DeveloperRevising, Sealing, Publishing}
                && t in old(tasks) && old(tasks)[t].claim != Some(k)
      ensures outcome == Stopped <==>
                && to in {Preparing, DeveloperWorking, Reviewing, DeveloperRevising, Sealing, Publishing}
                && t in old(tasks) && old(tasks)[t].claim == Some(k)
                && old(tasks)[t].status in {Cancelling, Cancelled, Dismissed}
      ensures outcome == Advanced ==> View() == Moved(old(View()), t, old(tasks)[t].(status := to))
      ensures outcome != Advanced ==> View() == old(View())
    {
      var expected := Expected(to);
      if expected == {} {
        return Refused;
      }
      var result := CasTaskStatus(t, expected, to, (r: Row) => r, Some(k));
      if result == Changed {
        return Advanced;
      }
      if t !in tasks {
        return Refused;
      }
      if tasks[t].claim != Some(k) {
        return ClaimLost;
      }
      return if tasks[t].status in {Cancelling, Cancelled, Dismissed} then Stopped else Refused;
    }

    method SetPrepared(t: nat, k: Token, workspace: Path, base: Commit, branch: Path) returns (written: bool)
      modifies this`tasks
      ensures written == HoldsIn(old(View()), t, k, Preparing)
      ensures View() == PreparedDb(old(View()), t, k, workspace, base, branch)
      ensures written <==> t in old(tasks) && old(tasks)[t].claim == Some(k) && old(tasks)[t].status == Preparing
      ensures tasks == if !written then old(tasks)
                       else old(tasks)[t := old(tasks)[t].(workspace := Some(workspace), baseCommit := Some(base),
                                                           branch := Some(branch))]
    {
      written := t in tasks && tasks[t].status == Preparing && tasks[t].claim == Some(k);
      if written {
        tasks := tasks[t := tasks[t].(workspace := Some(workspace), baseCommit := Some(base), branch := Some(branch))];
      }
    }

    method SetSealed(t: nat, k: Token, tree: Tree) returns (written: bool)
      modifies this`tasks
      ensures written == HoldsIn(old(View()), t, k, Sealing)
      ensures View() == SealedDb(old(View()), t, k, tree)
      ensures written <==> t in old(tasks) && old(tasks)[t].claim == Some(k) && old(tasks)[t].status == Sealing
      ensures tasks == if written then old(tasks)[t := old(tasks)[t].(reviewedTree := Some(tree))] else old(tasks)
    {
      written := t in tasks && tasks[t].status == Sealing && tasks[t].claim == Some(k);
      if written {
        tasks := tasks[t := tasks[t].(reviewedTree := Some(tree))];
      }
    }

    method SetCommit(t: nat, k: Token, commit: Commit) returns (written: bool)
      modifies this`tasks
      ensures written == HoldsIn(old(View()), t, k, Sealing)
      ensures View() == CommitDb(old(View()), t, k, commit)
      ensures written <==> t in old(tasks) && old(tasks)[t].claim == Some(k) && old(tasks)[t].status == Sealing
      ensures tasks == if written then old(tasks)[t := old(tasks)[t].(commit := Some(commit))] else old(tasks)
    {
      written := t in tasks && tasks[t].status == Sealing && tasks[t].claim == Some(k);
      if written {
        tasks := tasks[t := tasks[t].(commit := Some(commit))];
      }
    }

    /** The key a publication already has is used again; only the first attempt draws one. */
    method BeginPublication(t: nat, k: Token, drawn: nat) returns (key: Option<nat>)
      modifies this`tasks, this`log
      ensures key.Some? == CanBegin(old(View()), t, k)
      ensures key.Some? ==> t in tasks && key == tasks[t].publicationKey
      ensures View() == BeginDb(old(View()), t, k, drawn)
      ensures key.Some? <==> t in old(tasks) && old(tasks)[t].claim == Some(k) && old(tasks)[t].status in {Preparing, Sealing}
      ensures key.Some? ==>
                && key == (if old(tasks)[t].publicationKey == None then Some(drawn) else old(tasks)[t].publicationKey)
                && View() == Moved(old(View()), t, old(tasks)[t].(status := Publishing, publicationKey := key))
      ensures key.None? ==> View() == old(View())
    {
      if t !in tasks || tasks[t].claim != Some(k) {
        return None;
      }
      var chosen := if tasks[t].publicationKey.Some? then tasks[t].publicationKey.value else drawn;
      var result := CasTaskStatus(t, {Preparing, Sealing}, Publishing, (r: Row) => r.(publicationKey := Some(chosen)), Some(k));
      return if result == Changed then Some(chosen) else None;
    }

    method AwaitingReview(t: nat, k: Token, url: Path, number: nat, state: PrState, now: int) returns (written: bool)
      modifies this`tasks, this`log
      ensures written == CanAwait(old(View()), t, k)
      ensures View() == AwaitDb(old(View()), t, k, url, number, state, now)
      ensures written <==> t in old(tasks) && old(tasks)[t].claim == Some(k) && old(tasks)[t].status in {Publishing, Cancelling}
      ensures written ==>
                var to := if old(tasks)[t].status == Publishing then AwaitingHumanReview else Cancelled;
                View() == Moved(old(View()), t,
                            old(tasks)[t].(status := to, prUrl := Some(url), prNumber := Some(number), prState := Some(state),
                                           claim := None, expires := None, code := None, finishedAt := Some(now)))
      ensures !written ==> View() == old(View())
    {
      if t !in tasks || tasks[t].claim != Some(k) || tasks[t].status !in {Publishing, Cancelling} {
        return false;
      }
      var status := tasks[t].status;
      var target := if status == Cancelling then Cancelled else AwaitingHumanReview;
      var result := CasTaskStatus(t, {status}, target,
        (r: Row) => r.(prUrl := Some(url), prNumber := Some(number), prState := Some(state), claim := None,
                expires := None, code := None, finishedAt := Some(now)),
        Some(k));
      return result == Changed;
    }

    method Fail(t: nat, k: Token, kind: nat, now: int)
      modifies this`tasks, this`log, this`issues
      ensures View() == FailDb(old(View()), t, k, kind, now)
      ensures !(t in old(tasks) && old(tasks)[t].claim == Some(k)) ==> View() == old(View())
      ensures t in old(tasks) && old(tasks)[t].claim == Some(k) ==>
                var was := old(tasks)[t];
                && (was.status == Cancelling ==>
                      && tasks == old(tasks)[t := was.(status := Cancelled, claim := None, expires := None, finishedAt := Some(now))]
                      && issues == old(issues))
                && (was.status in {Completed, Closed, Dismissed, Failed, Cancelled, Status.ManualIntervention} ==> View() == old(View()))
                && (was.status != Cancelling && was.status !in {Completed, Closed, Dismissed, Failed, Cancelled, Status.ManualIntervention} ==>
                      && tasks == old(tasks)[t := was.(status := Failed, claim := None, expires := None,
                                                       code := Some(Classified(kind)), finishedAt := Some(now))]
                      && (was.commit == None && was.issue in old(issues) ==>
                            issues == old(issues)[was.issue := old(issues)[was.issue].(triage := Discovered)])
                      && (was.commit != None || was.issue !in old(issues) ==> issues == old(issues)))
    {
      if t !in tasks || tasks[t].claim != Some(k) {
        return;
      }
      var task := tasks[t];
      var cancelled := CasTaskStatus(t, {Cancelling}, Cancelled,
        (r: Row) => r.(claim := None, expires := None, finishedAt := Some(now)), Some(k));
      if cancelled == Changed {
        return;
      }
      if Terminal(task.status) || task.status == Cancelling {
        return;
      }
      var failed := CasTaskStatus(t, {task.status}, Failed,
        (r: Row) => r.(claim := None, expires := None, code := Some(Classified(kind)), finishedAt := Some(now)), Some(k));
      if failed == Changed && task.commit.None? && task.issue in issues {
        issues := issues[task.issue := issues[task.issue].(triage := Discovered)];
      }
    }

    method ManualIntervention(t: nat, k: Token, now: int)
      modifies this`tasks, this`log
      ensures View() == ManualDb(old(View()), t, k, now)
      ensures View() ==
              if t in old(tasks) && old(tasks)[t].claim == Some(k) && old(tasks)[t].status != Cancelling
                 && old(tasks)[t].status !in {Completed, Closed, Dismissed, Failed, Cancelled, Status.ManualIntervention}
              then Moved(old(View()), t,
                     old(tasks)[t].(status := Status.ManualIntervention, claim := None, expires := None,
                                    code := Some(ReportInvalid), finishedAt := Some(now)))
              else old(View())
    {
      if t !in tasks || tasks[t].claim != Some(k) || Terminal(tasks[t].status) || tasks[t].status == Cancelling {
        return;
      }
      var _ := CasTaskStatus(t, {tasks[t].status}, Status.ManualIntervention,
        (r: Row) => r.(claim := None, expires := None, code := Some(ReportInvalid), finishedAt := Some(now)), Some(k));
    }

    method MarkCancelled(t: nat, k: Token, now: int)
      modifies this`tasks, this`log
      ensures View() == MarkCancelledDb(old(View()), t, k, now)
      ensures View() ==
              if t in old(tasks) && old(tasks)[t].claim == Some(k) && old(tasks)[t].status == Cancelling
              then Moved(old(View()), t, old(tasks)[t].(status := Cancelled, claim := None, expires := None, finishedAt := Some(now)))
              else old(View())
    {
      var _ := CasTaskStatus(t, {Cancelling}, Cancelled,
        (r: Row) => r.(claim := None, expires := None, finishedAt := Some(now)), Some(k));
    }

    method Interrupt(t: nat, k: Token, now: int)
      modifies this`tasks, this`log
      ensures View() == InterruptDb(old(View()), t, k, now)
      ensures View() ==
              if !(t in old(tasks) && old(tasks)[t].claim == Some(k)) then old(View())
              else if old(tasks)[t].status == Cancelling
              then Moved(old(View()), t, old(tasks)[t].(status := Cancelled, claim := None, expires := None, finishedAt := Some(now)))
              else Moved(old(View()), t,
                     old(tasks)[t].(status := Status.ManualIntervention, claim := None, expires := None,
                                    code := Some(WorkerInterrupted), finishedAt := Some(now)))
    {
      if t !in tasks || tasks[t].claim != Some(k) {
        return;
      }
      var task := tasks[t];
      var target := if task.status == Cancelling then Cancelled else Status.ManualIntervention;
      var code := if target == Cancelled then task.code else Some(WorkerInterrupted);
      var _ := CasTaskStatus(t, {task.status}, target,
        (r: Row) => r.(claim := None, expires := None, code := code, finishedAt := Some(now)), Some(k));
    }

    // -------------------------------------------------------------- commands

    method OwnedTask(t: nat, actor: nat) returns (result: CommandResult)
      ensures result == if t !in tasks then NotFound else if MayAct(View(), t, actor) then Done else Forbidden
      ensures result == Done <==> t in tasks && actor in users && (users[actor].admin || tasks[t].owner == actor)
    {
      if t !in tasks {
        return NotFound;
      }
      if actor !in users || (!users[actor].admin && tasks[t].owner != actor) {
        return Forbidden;
      }
      return Done;
    }

    /** A running task is only told to stop; the flag says its worker should be signalled. */
    method RequestCancel(t: nat, actor: nat, now: int) returns (result: CommandResult, signal: bool)
      modifies this`tasks, this`log
      ensures result == NotFound <==> t !in old(tasks)
      ensures result == Done <==> MayAct(old(View()), t, actor) && Cancellable(old(tasks[t]))
      ensures View() == if result == Done then CancelDb(old(View()), t, now) else old(View())
      ensures signal <==> result == Done && tasks[t].status == Cancelling
      ensures result == Forbidden <==>
                t in old(tasks) && (actor in users ==> !users[actor].admin && old(tasks)[t].owner != actor)
      ensures result == Done <==>
                && t in old(tasks) && actor in users && (users[actor].admin || old(tasks)[t].owner == actor)
                && (old(tasks)[t].status == Queued
                    || old(tasks)[t].status in {Preparing, DeveloperWorking, Reviewing, DeveloperRevising, Sealing, Publishing})
      ensures result == Done ==>
                View() == Moved(old(View()), t,
                            if old(tasks)[t].status == Queued
                            then old(tasks)[t].(status := Cancelled, finishedAt := Some(now))
                            else old(tasks)[t].(status := Cancelling))
      ensures result != Done ==> View() == old(View())
    {
      signal := false;
      result := OwnedTask(t, actor);
      if result != Done {
        return;
      }
      var status := tasks[t].status;
      if status == Queued {
        var _ := CasTaskStatus(t, {status}, Cancelled, (r: Row) => r.(finishedAt := Some(now)), None);
      } else if Running(status) {
        var _ := CasTaskStatus(t, {status}, Cancelling, (r: Row) => r, None);
        signal := true;
      } else {
        result := Conflict;
      }
    }

    method Close(t: nat, actor: nat, now: int) returns (result: CommandResult)
      modifies this`tasks, this`log
      ensures result == NotFound <==> t !in old(tasks)
      ensures result == Done <==> MayAct(old(View()), t, actor) && Closable(old(tasks[t].status))
      ensures View() == if result == Done then CloseDb(old(View()), t, now) else old(View())
      ensures result == Forbidden <==>
                t in old(tasks) && (actor in users ==> !users[actor].admin && old(tasks)[t].owner != actor)
      ensures result == Done <==>
                && t in old(tasks) && actor in users && (users[actor].admin || old(tasks)[t].owner == actor)
                && old(tasks)[t].status in {AwaitingHumanReview, Failed, Status.ManualIntervention, Cancelled}
      ensures result == Done ==> View() == Moved(old(View()), t, old(tasks)[t].(status := Dismissed, finishedAt := Some(now)))
      ensures result != Done ==> View() == old(View())
    {
      result := OwnedTask(t, actor);
      if result != Done {
        return;
      }
      if !Closable(tasks[t].status) {
        return Conflict;
      }
      var _ := CasTaskStatus(t, {tasks[t].status}, Dismissed, (r: Row) => r.(finishedAt := Some(now)), None);
    }

    /** The second transaction of a feedback sync, after the forge has answered. */
    method RecordSync(t: nat, verdict: Verdict, now: int) returns (result: CommandResult)
      modifies this`tasks, this`log
      ensures result == if Awaiting(old(View()), t) then Done else Conflict
      ensures View() == SyncFeedbackDb(old(View()), t, verdict, now)
      ensures result == Done <==> t in old(tasks) && old(tasks)[t].status == AwaitingHumanReview
      ensures result == Done ==>
                var was := old(tasks)[t];
                View() == Moved(old(View()), t,
                            match verdict
                            case Merged => was.(status := Completed, prState := Some(MergedPr), finishedAt := Some(now))
                            case ClosedUnmerged => was.(status := Closed, prState := Some(ClosedPr), finishedAt := Some(now))
                            case Unmerged => was)
      ensures result != Done ==> View() == old(View())
    {
      var to, state, finished := AwaitingHumanReview, None, None;
      if verdict == Merged {
        to, state, finished := Completed, Some(MergedPr), Some(now);
      } else if verdict == ClosedUnmerged {
        to, state, finished := Closed, Some(ClosedPr), Some(now);
      }
      var cas := CasTaskStatus(t, {AwaitingHumanReview}, to,
        (r: Row) => if state.Some? then r.(prState := state, finishedAt := finished) else r, None);
      return if cas == Changed then Done else Conflict;
    }

    /** A merged pull request completes the task, one closed unmerged closes it. */
    method RecordPoll(t: nat, verdict: Verdict, now: int)
      modifies this`tasks, this`log
      ensures View() == PollDb(old(View()), t, verdict, now)
      ensures t in old(tasks) && old(tasks)[t].status == AwaitingHumanReview && verdict == Merged ==>
                View() == Moved(old(View()), t,
                            old(tasks)[t].(status := Completed, prState := Some(MergedPr), finishedAt := Some(now)))
      ensures t in old(tasks) && old(tasks)[t].status == AwaitingHumanReview && verdict == ClosedUnmerged ==>
                View() == Moved(old(View()), t,
                            old(tasks)[t].(status := Closed, prState := Some(ClosedPr), finishedAt := Some(now)))
      ensures t !in old(tasks) || old(tasks)[t].status != AwaitingHumanReview || verdict == Unmerged ==> View() == old(View())
    {
      if verdict != Unmerged {
        var to := if verdict == Merged then Completed else Closed;
        var state := if verdict == Merged then MergedPr else ClosedPr;
        var _ := CasTaskStatus(t, {AwaitingHumanReview}, to,
          (r: Row) => r.(prState := Some(state), finishedAt := Some(now)), None);
      }
    }

    method QueueExistingPublish(t: nat, actor: nat, canPublish: bool, workspaceExists: bool) returns (result: CommandResult)
      modifies this`tasks, this`log
      ensures result == NotFound <==> t !in old(tasks)
      ensures result == Done <==>
                MayAct(old(View()), t, actor) && canPublish && workspaceExists && Requeueable(old(tasks[t]))
      ensures View() == if result == Done then QueueExistingDb(old(View()), t) else old(View())
      ensures result == Forbidden <==>
                t in old(tasks) && (actor in users ==> !users[actor].admin && old(tasks)[t].owner != actor)
      ensures result == Done <==>
                && t in old(tasks) && actor in users && (users[actor].admin || old(tasks)[t].owner == actor)
                && canPublish && workspaceExists
                && old(tasks)[t].status in {Failed, Status.ManualIntervention}
                && old(tasks)[t].commit != None && old(tasks)[t].workspace != None && old(tasks)[t].branch != None
      ensures result == Done ==> View() == Moved(old(View()), t, 
                            old(tasks)[t].(status := Queued, code := Some(PublishExisting), finishedAt := None))
      ensures result != Done ==> View() == old(View())
    {
      result := OwnedTask(t, actor);
      if result != Done {
        return;
      }
      var task := tasks[t];
      if !canPublish || task.status !in {Status.ManualIntervention, Failed} || task.commit.None?
         || task.workspace.None? || task.branch.None? || !workspaceExists
      {
        return Conflict;
      }
      var _ := CasTaskStatus(t, {task.status}, Queued, (r: Row) => r.(code := Some(PublishExisting), finishedAt := None), None);
    }

    /** `trusted` says that every chosen comment is an unprocessed one of a trusted maintainer. */
    method QueueFeedbackRevision(t: nat, actor: nat, chosen: set<nat>, trusted: bool) returns (result: CommandResult)
      modifies this`tasks, this`log
      ensures result == NotFound <==> t !in old(tasks)
      ensures result == Done <==> MayAct(old(View()), t, actor) && Awaiting(old(View()), t) && chosen != {} && trusted
      ensures View() == if result == Done then QueueFeedbackDb(old(View()), t) else old(View())
      ensures result == Forbidden <==>
                t in old(tasks) && (actor in users ==> !users[actor].admin && old(tasks)[t].owner != actor)
      ensures result == Done <==>
                && t in old(tasks) && actor in users && (users[actor].admin || old(tasks)[t].owner == actor)
                && old(tasks)[t].status == AwaitingHumanReview && chosen != {} && trusted
      ensures result == Done ==> View() == Moved(old(View()), t, 
                            old(tasks)[t].(status := Queued, code := Some(FeedbackRevision), finishedAt := None))
      ensures result != Done ==> View() == old(View())
    {
      result := OwnedTask(t, actor);
      if result != Done {
        return;
      }
      if tasks[t].status != AwaitingHumanReview || chosen == {} || !trusted {
        return Conflict;
      }
      var _ := CasTaskStatus(t, {AwaitingHumanReview}, Queued,
        (r: Row) => r.(code := Some(FeedbackRevision), finishedAt := None), None);
    }

    // -------------------------------------------------------------- issues

    method DispatchIssue(i: nat, actor: nat, newId: nat, priority: int, now: int) returns (dispatched: bool)
      requires newId !in tasks
      modifies this`tasks, this`issues
      ensures dispatched == Dispatchable(old(View()), i, actor)
      ensures View() == DispatchDb(old(View()), i, actor, newId, priority, now)
      ensures dispatched <==>
                && actor in users && users[actor].active
                && i in old(issues) && old(issues)[i].open && old(issues)[i].triage == Discovered
                && old(issues)[i].repository in enabled && enabled[old(issues)[i].repository]
                && (forall t :: t in old(tasks) && old(tasks)[t].issue == i ==>
                      old(tasks)[t].status in {Completed, Closed, Dismissed, Failed, Cancelled, Status.ManualIntervention})
      ensures dispatched ==>
                && issues == old(issues)[i := old(issues)[i].(triage := Dispatched)]
                && tasks.Keys == old(tasks).Keys + {newId} && (forall t :: t in old(tasks) ==> tasks[t] == old(tasks)[t])
                && tasks[newId].issue == i && tasks[newId].owner == actor && tasks[newId].status == Queued
                && tasks[newId].priority == priority && tasks[newId].createdAt == now
                && tasks[newId].code == None && tasks[newId].claim == None && tasks[newId].commit == None
                && tasks[newId].publicationKey == None && tasks[newId].prNumber == None
      ensures !dispatched ==> tasks == old(tasks) && issues == old(issues)
    {
      if actor !in users || !users[actor].active || i !in issues {
        return false;
      }
      var issue := issues[i];
      if !issue.open || issue.triage != Discovered {
        return false;
      }
      var existing := set t | t in tasks && tasks[t].issue == i && !Terminal(tasks[t].status);
      if existing != {} {
        var t :| t in existing;
        assert ActiveOn(View(), t, i);
        return false;
      }
      assert forall t :: ActiveOn(View(), t, i) ==> t in existing;
      if issue.repository !in enabled || !enabled[issue.repository] {
        return false;
      }
      issues := issues[i := issue.(triage := Dispatched)];
      tasks := tasks[newId := NewTask(i, actor, priority, now)];
      return true;
    }

    method Ignore(i: nat, actor: nat) returns (result: CommandResult)
      modifies this`issues
      ensures View() == IgnoreDb(old(View()), i, actor)
      ensures result == Done <==> View() != old(View())
      ensures result == NotFound <==> i !in old(issues)
      ensures result == Forbidden <==> i in old(issues) && (actor in users ==> !users[actor].admin)
      ensures result == Done <==>
                && i in old(issues) && actor in users && users[actor].admin
                && old(issues)[i].triage == Discovered && old(issues)[i].open
      ensures issues == if result == Done
                        then old(issues)[i := old(issues)[i].(triage := Ignored, ignoredBy := Some(actor))]
                        else old(issues)
    {
      if i !in issues {
        return NotFound;
      }
      if actor !in users || !users[actor].admin {
        return Forbidden;
      }
      if issues[i].triage != Discovered || !issues[i].open {
        return Conflict;
      }
      ghost var before := View();
      issues := issues[i := issues[i].(triage := Ignored, ignoredBy := Some(actor))];
      assert View().issues[i] != before.issues[i];
      return Done;
    }

    method Restore(i: nat, actor: nat) returns (result: CommandResult)
      modifies this`issues
      ensures View() == RestoreDb(old(View()), i, actor)
      ensures result == Done <==> View() != old(View())
      ensures result == NotFound <==> i !in old(issues)
      ensures result == Forbidden <==> i in old(issues) && (actor in users ==> !users[actor].admin)
      ensures result == Done <==>
                && i in old(issues) && actor in users && users[actor].admin
                && old(issues)[i].triage == Ignored
      ensures issues == if result == Done
                        then old(issues)[i := old(issues)[i].(triage := Discovered, ignoredBy := None)]
                        else old(issues)
    {
      if i !in issues {
        return NotFound;
      }
      if actor !in users || !users[actor].admin {
        return Forbidden;
      }
      if issues[i].triage != Ignored {
        return Conflict;
      }
      ghost var before := View();
      issues := issues[i := issues[i].(triage := Discovered, ignoredBy := None)];
      assert View().issues[i] != before.issues[i];
      return Done;
    }

    method UpsertIssue(i: nat, repository: nat, open: bool)
      modifies this`issues
      ensures View() == UpsertIssueDb(old(View()), i, repository, open)
      ensures i in old(issues) ==> issues == old(issues)[i := old(issues)[i].(open := open)]
      ensures i !in old(issues) ==> issues == old(issues)[i := IssueRow(repository, open, Discovered, None)]
    {
      if i !in issues {
        issues := issues[i := IssueRow(repository, open, Discovered, None)];
      }
      issues := issues[i := issues[i].(open := open)];
    }
  }

  /** The set of statuses the orchestrator accepts before entering a stage. */
  function Expected(to: Status): (s: set<Status>)
    ensures forall from :: from in s <==> StageExpected(from, to)
    ensures s == {} <==> !Running(to)
  {
    match to
    case Preparing => {Queued}
    case DeveloperWorking => {Preparing}
    case Reviewing => {DeveloperWorking, Reviewing}
    case DeveloperRevising => {Preparing, Reviewing}
    case Sealing => {Preparing, DeveloperWorking, Reviewing, DeveloperRevising}
    case Publishing => {Preparing, Sealing}
    case _ => {}
  }
}
