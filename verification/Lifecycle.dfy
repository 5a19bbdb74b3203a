/** The task lifecycle as one interleaved system: the scheduler, the workers it starts, users, the
    recovery pass, the PR poller and issue sync all act on the same tables, one transaction at a
    time, in any order and for any number of steps. */
module Lifecycle {
  import opened Values
  import opened TaskTable

  // ---------------------------------------------------------------- the worker as a program

  /** How a worker's body ends when it raises. */
  datatype Handler = OnFailure(kind: nat) | OnReportInvalid | OnCancelled | OnInterrupt

  /** Program points of one worker; each names the transaction it will run next. */
  datatype Pc =
    | Starting            // renew the claim handed over by the scheduler
    | Loading             // read the row and choose a program
    | PrepareRecording    // clone finished: record workspace, base and branch
    | Developing          // enter developer_working
    | ReviewingA          // enter reviewing for the first reviewer
    | ReviewingB          // enter reviewing for the second reviewer
    | Revising            // enter developer_revising with the findings
    | Addressing          // enter developer_revising with PR feedback
    | SealStarting        // enter sealing
    | SealRecording       // record the sealed tree
    | CommitRecording     // record the commit whose tree was checked against the seal
    | PublishStarting     // begin the publication
    | AwaitRecording      // record the pull request
    | Notifying           // after the claim was given up
    | Handling(handler: Handler)
    | Finished

  datatype Worker = Worker(task: nat, pc: Pc, tree: Option<Tree>)

  /** `sealed` remembers every (task, tree) ever sealed, `issued` every claim token ever drawn. */
  datatype World = World(
    db: Db,
    workers: map<Token, Worker>,
    issued: set<Token>,
    sealed: set<(nat, Tree)>,
    now: int)

  /** Fixed surroundings: the quotas, the lease and Git's commit-to-tree function. */
  datatype Config = Config(limits: Limits, treeOf: Commit -> Tree)

  datatype WorkerStep =
    | Start
    | Load
    | RecordPrepared(workspace: Path, base: Commit, branch: Path)
    | EnterStage(findings: bool)
    | RecordSeal(sealedTree: Tree)
    | RecordCommit(commit: Commit)
    | Begin(key: nat)
    | RecordPublished(url: Path, number: nat, state: PrState)
    | Raise(handler: Handler)
    | Handle
    | Crash

  datatype Action =
    | Elapse(seconds: nat)
    | AddUser(user: nat, admin: bool)
    | SetActive(user: nat, active: bool)
    | SetEnabled(repository: nat, on: bool)
    | UpsertIssue(issue: nat, repository: nat, open: bool)
    | Ignore(issue: nat, actor: nat)
    | Restore(issue: nat, actor: nat)
    | Dispatch(issue: nat, actor: nat, task: nat, priority: int)
    | Claim(task: nat, token: Token)
    | Renew(task: nat, token: Token)
    | Recover(task: nat)
    | Cancel(task: nat)
    | Close(task: nat)
    | SyncFeedback(task: nat, verdict: Verdict)
    | Poll(task: nat, verdict: Verdict)
    | QueueExisting(task: nat)
    | QueueFeedback(task: nat)
    | Work(token: Token, step: WorkerStep)

  function WithDb(w: World, db: Db): World { w.(db := db) }

  function Goto(w: World, k: Token, pc: Pc): World
    requires k in w.workers
  {
    w.(workers := w.workers[k := w.workers[k].(pc := pc)])
  }

  // ---------------------------------------------------------------- worker steps

  /** Which program the loaded row selects, or the failure of its precondition. */
  function Program(r: Row): Pc {
    if r.code == Some(FeedbackRevision) then
      if r.workspace.None? || r.branch.None? || r.prNumber.None? then Handling(OnFailure(0)) else Addressing
    else if r.code == Some(PublishExisting) then
      if r.workspace.None? || r.branch.None? then Handling(OnFailure(0))
      else if r.commit.Some? then PublishStarting
      else SealStarting
    else PrepareRecording
  }

  function StageOf(pc: Pc): Option<Status> {
    match pc
    case Developing => Some(DeveloperWorking)
    case ReviewingA => Some(Reviewing)
    case ReviewingB => Some(Reviewing)
    case Revising => Some(DeveloperRevising)
    case Addressing => Some(DeveloperRevising)
    case SealStarting => Some(Sealing)
    case _ => None
  }

  /** Where the program goes after the stage at `pc`; findings matter only after both reviews. */
  function AfterStage(pc: Pc, findings: bool): Pc {
    match pc
    case Developing => ReviewingA
    case ReviewingA => ReviewingB
    case ReviewingB => if findings then Revising else SealStarting
    case Revising => SealStarting
    case Addressing => SealStarting
    case SealStarting => SealRecording
    case _ => pc
  }

  function EnterStageStep(w: World, k: Token, findings: bool): World
    requires k in w.workers && StageOf(w.workers[k].pc).Some?
  {
    var p := w.workers[k];
    var to := StageOf(p.pc).value;
    match StageOutcome(w.db, p.task, to, k)
    case Advanced => Goto(WithDb(w, StageDb(w.db, p.task, to, k)), k, AfterStage(p.pc, findings))
    case ClaimLost => Goto(w, k, Finished)
    case Stopped => Goto(w, k, Handling(OnCancelled))
    case Refused => Goto(w, k, Handling(OnFailure(0)))
  }

  function HandleStep(w: World, k: Token, h: Handler): World
    requires k in w.workers
  {
    var t := w.workers[k].task;
    var db :=
      match h
      case OnFailure(kind) => FailDb(w.db, t, k, kind, w.now)
      case OnReportInvalid => ManualDb(w.db, t, k, w.now)
      case OnCancelled => MarkCancelledDb(w.db, t, k, w.now)
      case OnInterrupt => InterruptDb(w.db, t, k, w.now);
    Goto(WithDb(w, db), k, Finished)
  }

  /** One step of the worker that holds (or once held) token `k`; a step that does not fit the
      worker's program point does nothing. */
  function WorkStep(cfg: Config, w: World, k: Token, s: WorkerStep): World {
    if k !in w.workers then w
    else
      var p := w.workers[k];
      var t := p.task;
      match s
      case Start =>
        if !p.pc.Starting? then w
        else if Renewable(w.db, t, k, w.now)
        then Goto(WithDb(w, RenewDb(w.db, t, k, w.now, cfg.limits.lease)), k, Loading)
        else Goto(w, k, Finished)
      case Load =>
        if p.pc.Loading? && t in w.db.tasks then Goto(w, k, Program(w.db.tasks[t])) else w
      case RecordPrepared(workspace, base, branch) =>
        if !p.pc.PrepareRecording? then w
        else if HoldsIn(w.db, t, k, Preparing)
        then Goto(WithDb(w, PreparedDb(w.db, t, k, workspace, base, branch)), k, Developing)
        else Goto(w, k, Finished)
      case EnterStage(findings) =>
        if StageOf(p.pc).Some? then EnterStageStep(w, k, findings) else w
      case RecordSeal(tree) =>
        if !p.pc.SealRecording? then w
        else if HoldsIn(w.db, t, k, Sealing)
        then WithDb(w, SealedDb(w.db, t, k, tree)).(
               workers := w.workers[k := p.(pc := CommitRecording, tree := Some(tree))],
               sealed := w.sealed + {(t, tree)})
        else Goto(w, k, Finished)
      case RecordCommit(commit) =>
        if !p.pc.CommitRecording? then w
        else if p.tree != Some(cfg.treeOf(commit)) then Goto(w, k, Handling(OnFailure(0)))
        else if HoldsIn(w.db, t, k, Sealing)
        then Goto(WithDb(w, CommitDb(w.db, t, k, commit)), k, PublishStarting)
        else Goto(w, k, Finished)
      case Begin(key) =>
        if !p.pc.PublishStarting? then w
        else if CanBegin(w.db, t, k) then Goto(WithDb(w, BeginDb(w.db, t, k, key)), k, AwaitRecording)
        else Goto(w, k, Finished)
      case RecordPublished(url, number, state) =>
        if !p.pc.AwaitRecording? then w
        else if CanAwait(w.db, t, k)
        then Goto(WithDb(w, AwaitDb(w.db, t, k, url, number, state, w.now)), k, Notifying)
        else Goto(w, k, Finished)
      case Raise(h) =>
        if p.pc.Starting? || p.pc.Handling? || p.pc.Finished? then w else Goto(w, k, Handling(h))
      case Handle =>
        if p.pc.Handling? then HandleStep(w, k, p.pc.handler) else w
      case Crash =>
        Goto(w, k, Finished)
  }

  // ---------------------------------------------------------------- all steps

  /** The scheduler's claim; tokens are drawn fresh, so a used one is never drawn again. */
  function ClaimStep(cfg: Config, w: World, t: nat, k: Token): World {
    if k in w.issued || !Claimable(w.db, t, cfg.limits) then w
    else WithDb(w, ClaimDb(w.db, t, k, w.now, cfg.limits)).(
           workers := w.workers[k := Worker(t, Starting, None)],
           issued := w.issued + {k})
  }

  function Act(cfg: Config, w: World, a: Action): World {
    match a
    case Elapse(seconds) => w.(now := w.now + seconds)
    case AddUser(u, admin) =>
      if u in w.db.users then w else WithDb(w, w.db.(users := w.db.users[u := User(true, admin)]))
    case SetActive(u, active) =>
      if u in w.db.users then WithDb(w, w.db.(users := w.db.users[u := w.db.users[u].(active := active)])) else w
    case SetEnabled(r, on) => WithDb(w, w.db.(enabled := w.db.enabled[r := on]))
    case UpsertIssue(i, r, open) => WithDb(w, UpsertIssueDb(w.db, i, r, open))
    case Ignore(i, actor) => WithDb(w, IgnoreDb(w.db, i, actor))
    case Restore(i, actor) => WithDb(w, RestoreDb(w.db, i, actor))
    case Dispatch(i, u, t, priority) => WithDb(w, DispatchDb(w.db, i, u, t, priority, w.now))
    case Claim(t, k) => ClaimStep(cfg, w, t, k)
    case Renew(t, k) => WithDb(w, RenewDb(w.db, t, k, w.now, cfg.limits.lease))
    case Recover(t) => WithDb(w, RecoverDb(w.db, t, w.now))
    case Cancel(t) => WithDb(w, CancelDb(w.db, t, w.now))
    case Close(t) => WithDb(w, CloseDb(w.db, t, w.now))
    case SyncFeedback(t, v) => WithDb(w, SyncFeedbackDb(w.db, t, v, w.now))
    case Poll(t, v) => WithDb(w, PollDb(w.db, t, v, w.now))
    case QueueExisting(t) => WithDb(w, QueueExistingDb(w.db, t))
    case QueueFeedback(t) => WithDb(w, QueueFeedbackDb(w.db, t))
    case Work(k, s) => WorkStep(cfg, w, k, s)
  }

  function Run(cfg: Config, w: World, actions: seq<Action>): World
    decreases |actions|
  {
    if actions == [] then w else Run(cfg, Act(cfg, w, actions[0]), actions[1..])
  }

  /** An empty installation. */
  function Initial(now: int): World {
    World(Db(map[], map[], map[], map[], []), map[], {}, {}, now)
  }

  // ---------------------------------------------------------------- the documented lifecycle graph

  predicate Aborts(to: Status) {
    to == Cancelling || to == Failed || to == ManualIntervention
  }

  predicate Edge(from: Status, to: Status) {
    match from
    case Queued => to == Preparing || to == Cancelled
    case Preparing => to == DeveloperWorking || to == DeveloperRevising || to == Publishing || Aborts(to)
    case DeveloperWorking => to == Reviewing || Aborts(to)
    case Reviewing => to == Reviewing || to == DeveloperRevising || to == Sealing || Aborts(to)
    case DeveloperRevising => to == Sealing || Aborts(to)
    case Sealing => to == Publishing || Aborts(to)
    case Publishing => to == AwaitingHumanReview || to == Queued || Aborts(to)
    case Cancelling => to == Cancelled
    case AwaitingHumanReview =>
      to == AwaitingHumanReview || to == Completed || to == Closed || to == Dismissed || to == Queued
    case Failed => to == Queued || to == Dismissed
    case ManualIntervention => to == Queued || to == Dismissed
    case Cancelled => to == Dismissed
    case Completed => false
    case Closed => false
    case Dismissed => false
  }

  /** The status task `t` has after replaying its transition records from `queued`, if every record
      starts where the previous one ended and follows the graph. */
  function Replay(log: seq<Transition>, t: nat): Option<Status>
    decreases |log|
  {
    if log == [] then Some(Queued)
    else
      var before := Replay(log[..|log| - 1], t);
      var last := log[|log| - 1];
      if last.task != t then before
      else if before == Some(last.from) && Edge(last.from, last.to) then Some(last.to)
      else None
  }

  /** A task that still occupies its issue: unfinished, or finished but open to a second publish. */
  predicate Live(r: Row) {
    !Terminal(r.status) || ((r.status == Failed || r.status == ManualIntervention) && r.commit.Some?)
  }

  /** What the partial unique index over active tasks demands of the table. */
  ghost predicate IndexHolds(db: Db) {
    forall t, u :: t in db.tasks && u in db.tasks && t != u && db.tasks[t].issue == db.tasks[u].issue ==>
      Terminal(db.tasks[t].status) || Terminal(db.tasks[u].status)
  }
}
