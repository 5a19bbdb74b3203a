/** The worker's program in place: each step runs one transaction of the task store and moves the
    program point, exactly as the interleaved model has it. */
module Orchestrator {
  import opened Values
  import opened TaskTable
  import opened Lifecycle
  import TaskService

  class TaskWorker {
    const store: TaskService.TaskStore
    const task: nat
    const token: Token
    var pc: Pc
    var tree: Option<Tree>
    /** Every tree sealed so far. */
    ghost var sealed: set<(nat, Tree)>

    constructor (store: TaskService.TaskStore, task: nat, token: Token)
      ensures this.store == store && this.task == task && this.token == token
      ensures pc == Starting && tree == None && sealed == {}
    {
      this.store, this.task, this.token := store, task, token;
      pc, tree, sealed := Starting, None, {};
    }

    /** The world as far as this worker sees it. */
    ghost function Seen(now: int): World
      reads this, store
    {
      World(store.View(), map[token := Worker(task, pc, tree)], {token}, sealed, now)
    }

    method Start(cfg: Config, now: int)
      modifies this`pc, store
      ensures Seen(now) == WorkStep(cfg, old(Seen(now)), token, WorkerStep.Start)
    {
      if pc.Starting? {
        var renewed := store.Renew(task, token, now, cfg.limits.lease);
        pc := if renewed then Loading else Finished;
      }
    }

    method Load(cfg: Config, now: int)
      modifies this`pc
      ensures Seen(now) == WorkStep(cfg, old(Seen(now)), token, WorkerStep.Load)
    {
      if pc.Loading? && task in store.tasks {
        pc := Program(store.tasks[task]);
      }
    }

    method RecordPrepared(cfg: Config, workspace: Path, base: Commit, branch: Path, now: int)
      modifies this`pc, store
      ensures Seen(now) == WorkStep(cfg, old(Seen(now)), token, WorkerStep.RecordPrepared(workspace, base, branch))
    {
      if pc.PrepareRecording? {
        var written := store.SetPrepared(task, token, workspace, base, branch);
        pc := if written then Developing else Finished;
      }
    }

    method EnterStage(cfg: Config, findings: bool, now: int)
      modifies this`pc, store
      ensures Seen(now) == WorkStep(cfg, old(Seen(now)), token, WorkerStep.EnterStage(findings))
    {
      hide StageOutcome, StageDb, Running, WorkStep;
      StageStepIs(cfg, Seen(now), token, findings);
      if StageOf(pc).Some? {
        var outcome := store.SetStatus(task, StageOf(pc).value, token);
        match outcome {
          case Advanced => pc := AfterStage(pc, findings);
          case ClaimLost => pc := Finished;
          case Stopped => pc := Handling(OnCancelled);
          case Refused => pc := Handling(OnFailure(0));
        }
      }
    }

    method RecordSeal(cfg: Config, found: Tree, now: int)
      modifies this, store
      ensures Seen(now) == WorkStep(cfg, old(Seen(now)), token, WorkerStep.RecordSeal(found))
    {
      if pc.SealRecording? {
        var written := store.SetSealed(task, token, found);
        if written {
          pc, tree := CommitRecording, Some(found);
          sealed := sealed + {(task, found)};
        } else {
          pc := Finished;
        }
      }
    }

    /** The commit is only recorded if its tree is the one that was sealed. */
    method RecordCommit(cfg: Config, commit: Commit, now: int)
      modifies this`pc, store
      ensures Seen(now) == WorkStep(cfg, old(Seen(now)), token, WorkerStep.RecordCommit(commit))
    {
      if pc.CommitRecording? {
        if tree != Some(cfg.treeOf(commit)) {
          pc := Handling(OnFailure(0));
        } else {
          var written := store.SetCommit(task, token, commit);
          pc := if written then PublishStarting else Finished;
        }
      }
    }

    method Begin(cfg: Config, key: nat, now: int)
      modifies this`pc, store
      ensures Seen(now) == WorkStep(cfg, old(Seen(now)), token, WorkerStep.Begin(key))
    {
      if pc.PublishStarting? {
        var chosen := store.BeginPublication(task, token, key);
        pc := if chosen.Some? then AwaitRecording else Finished;
      }
    }

    method RecordPublished(cfg: Config, url: Path, number: nat, state: PrState, now: int)
      modifies this`pc, store
      ensures Seen(now) == WorkStep(cfg, old(Seen(now)), token, WorkerStep.RecordPublished(url, number, state))
    {
      if pc.AwaitRecording? {
        var written := store.AwaitingReview(task, token, url, number, state, now);
        pc := if written then Notifying else Finished;
      }
    }

    /** The end of the program's exception handlers. */
    method Handle(cfg: Config, now: int)
      modifies this`pc, store
      ensures Seen(now) == WorkStep(cfg, old(Seen(now)), token, WorkerStep.Handle)
    {
      if pc.Handling? {
        hide FailDb, ManualDb, MarkCancelledDb, InterruptDb;
        match pc.handler {
          case OnFailure(kind) => store.Fail(task, token, kind, now);
          case OnReportInvalid => store.ManualIntervention(task, token, now);
          case OnCancelled => store.MarkCancelled(task, token, now);
          case OnInterrupt => store.Interrupt(task, token, now);
        }
        pc := Finished;
      }
    }

    /** Whatever the step, in place it is the step of the model. */
    method Step(cfg: Config, s: WorkerStep, now: int)
      modifies this, store
      ensures Seen(now) == WorkStep(cfg, old(Seen(now)), token, s)
    {
      ghost var before := Seen(now);
      assert before.workers[token := before.workers[token]] == before.workers;
      match s
      case Start => Start(cfg, now);
      case Load => Load(cfg, now);
      case RecordPrepared(workspace, base, branch) => RecordPrepared(cfg, workspace, base, branch, now);
      case EnterStage(findings) => EnterStage(cfg, findings, now);
      case RecordSeal(found) => RecordSeal(cfg, found, now);
      case RecordCommit(commit) => RecordCommit(cfg, commit, now);
      case Begin(key) => Begin(cfg, key, now);
      case RecordPublished(url, number, state) => RecordPublished(cfg, url, number, state, now);
      case Raise(handler) => Raise(cfg, handler, now);
      case Handle => Handle(cfg, now);
      case Crash => Crash(cfg, now);
    }

    method Raise(cfg: Config, handler: Handler, now: int)
      modifies this`pc
      ensures Seen(now) == WorkStep(cfg, old(Seen(now)), token, WorkerStep.Raise(handler))
    {
      if !(pc.Starting? || pc.Handling? || pc.Finished?) {
        pc := Handling(handler);
      }
    }

    method Crash(cfg: Config, now: int)
      modifies this`pc
      ensures Seen(now) == WorkStep(cfg, old(Seen(now)), token, WorkerStep.Crash)
    {
      pc := Finished;
    }
  }

  lemma StageStepIs(cfg: Config, w: World, k: Token, findings: bool)
    requires k in w.workers
    ensures WorkStep(cfg, w, k, EnterStage(findings)) ==
            if StageOf(w.workers[k].pc).Some? then EnterStageStep(w, k, findings) else w
  {
    hide EnterStageStep;
  }

  /** A worker's step does the same among any other workers as it does alone. */
  lemma StepIsLocal(cfg: Config, w: World, k: Token, s: WorkerStep)
    requires k in w.workers
    ensures var alone := WorkStep(cfg, w.(workers := map[k := w.workers[k]]), k, s);
            var among := WorkStep(cfg, w, k, s);
            && k in alone.workers
            && among == alone.(workers := w.workers[k := alone.workers[k]])
  {
    assert w.workers[k := w.workers[k]] == w.workers;
  }
}
