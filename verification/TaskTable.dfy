/** Rows of the issue-task tables and the pure effect of every guarded write on them.

    A `Db` value is the content of the tables. Each function below gives the tables after one
    transaction; `TaskService.TaskStore` runs the same transactions step by step, and
    `Lifecycle` interleaves them. */
module TaskTable {
  import opened Values

  datatype Status =
    | Queued
    | Preparing | DeveloperWorking | Reviewing | DeveloperRevising | Sealing | Publishing
    | Cancelling
    | AwaitingHumanReview
    | Completed | Closed | Dismissed | Failed | Cancelled | ManualIntervention

  predicate Running(s: Status) {
    s.Preparing? || s.DeveloperWorking? || s.Reviewing? || s.DeveloperRevising? || s.Sealing? || s.Publishing?
  }

  predicate Terminal(s: Status) {
    s.Completed? || s.Closed? || s.Dismissed? || s.Failed? || s.Cancelled? || s.ManualIntervention?
  }

  /** What `failure_code` can hold: two recovery markers that choose the worker's program, and
      the codes of real failures. */
  datatype Code =
    | PublishExisting | FeedbackRevision
    | ManagerRestarted | WorkerInterrupted | ReportInvalid | Classified(kind: nat)

  datatype PrState = Open | ClosedPr | MergedPr

  datatype Row = Row(
    issue: nat,
    owner: nat,
    status: Status,
    priority: int,
    createdAt: int,
    workspace: Option<Path>,
    branch: Option<Path>,
    baseCommit: Option<Commit>,
    reviewedTree: Option<Tree>,
    commit: Option<Commit>,
    prUrl: Option<Path>,
    prNumber: Option<nat>,
    prState: Option<PrState>,
    code: Option<Code>,
    claim: Option<Token>,
    expires: Option<int>,
    publicationKey: Option<nat>,
    startedAt: Option<int>,
    finishedAt: Option<int>)

  datatype Triage = Discovered | Ignored | Dispatched
  datatype IssueRow = IssueRow(repository: nat, open: bool, triage: Triage, ignoredBy: Option<nat>)
  datatype User = User(active: bool, admin: bool)
  datatype Transition = Transition(task: nat, from: Status, to: Status)

  datatype Db = Db(
    tasks: map<nat, Row>,
    issues: map<nat, IssueRow>,
    users: map<nat, User>,
    enabled: map<nat, bool>,
    log: seq<Transition>)

  // ---------------------------------------------------------------- the two ways a status moves

  /** The row update of a successful compare-and-set, with its transition record. */
  function Moved(db: Db, t: nat, r: Row): Db
    requires t in db.tasks
  {
    db.(tasks := db.tasks[t := r], log := db.log + [Transition(t, db.tasks[t].status, r.status)])
  }

  /** An update that leaves the status alone writes no transition record. */
  function Kept(db: Db, t: nat, r: Row): Db {
    db.(tasks := db.tasks[t := r])
  }

  predicate Holds(db: Db, t: nat, k: Token) {
    t in db.tasks && db.tasks[t].claim == Some(k)
  }

  function RunningTasks(db: Db): set<nat> {
    set t | t in db.tasks && Running(db.tasks[t].status)
  }

  function RunningOf(db: Db, user: nat): set<nat> {
    set t | t in db.tasks && Running(db.tasks[t].status) && db.tasks[t].owner == user
  }

  datatype Limits = Limits(global: nat, perUser: nat, lease: nat)

  predicate HasRoom(db: Db, user: nat, limits: Limits) {
    |RunningTasks(db)| < limits.global && |RunningOf(db, user)| < limits.perUser
  }

  predicate Claimable(db: Db, t: nat, limits: Limits) {
    t in db.tasks && db.tasks[t].status == Queued && HasRoom(db, db.tasks[t].owner, limits)
  }

  function Claimed(r: Row, k: Token, now: int, lease: nat): Row {
    r.(status := Preparing,
       claim := Some(k),
       expires := Some(now + lease),
       startedAt := if r.startedAt.Some? then r.startedAt else Some(now),
       finishedAt := None)
  }

  function ClaimDb(db: Db, t: nat, k: Token, now: int, limits: Limits): Db {
    if Claimable(db, t, limits) then Moved(db, t, Claimed(db.tasks[t], k, now, limits.lease)) else db
  }

  // ---------------------------------------------------------------- leases

  predicate Renewable(db: Db, t: nat, k: Token, now: int) {
    && Holds(db, t, k)
    && (Running(db.tasks[t].status) || db.tasks[t].status == Cancelling)
    && db.tasks[t].expires.Some?
    && db.tasks[t].expires.value > now
  }

  function RenewDb(db: Db, t: nat, k: Token, now: int, lease: nat): Db {
    if Renewable(db, t, k, now)
    then Kept(db, t, db.tasks[t].(expires := Some(now + lease)))
    else db
  }

  predicate Due(r: Row, now: int) {
    || r.status == Cancelling
    || (Running(r.status) && (r.expires.None? || r.expires.value <= now))
  }

  /** A publication that had begun can be reconciled from the row alone. */
  predicate Reconcilable(r: Row) {
    r.status == Publishing && r.workspace.Some? && r.branch.Some? && r.commit.Some?
  }

  function Recovered(r: Row, now: int): Row {
    var freed := r.(claim := None, expires := None);
    if r.status == Cancelling then freed.(status := Cancelled, finishedAt := Some(now))
    else if Reconcilable(r) then freed.(status := Queued, code := Some(PublishExisting), finishedAt := None)
    else freed.(status := ManualIntervention, code := Some(ManagerRestarted), finishedAt := Some(now))
  }

  function RecoverDb(db: Db, t: nat, now: int): Db {
    if t in db.tasks && Due(db.tasks[t], now) then Moved(db, t, Recovered(db.tasks[t], now)) else db
  }

  // ---------------------------------------------------------------- the worker's guarded writes

  /** Statuses from which the orchestrator lets a stage begin. */
  predicate StageExpected(from: Status, to: Status) {
    match to
    case Preparing => from.Queued?
    case DeveloperWorking => from.Preparing?
    case Reviewing => from.DeveloperWorking? || from.Reviewing?
    case DeveloperRevising => from.Preparing? || from.Reviewing?
    case Sealing => from.Preparing? || from.DeveloperWorking? || from.Reviewing? || from.DeveloperRevising?
    case Publishing => from.Preparing? || from.Sealing?
    case _ => false
  }

  datatype StageResult = Advanced | ClaimLost | Stopped | Refused

  function StageOutcome(db: Db, t: nat, to: Status, k: Token): StageResult {
    if !Running(to) || t !in db.tasks then Refused
    else
      var r := db.tasks[t];
      if r.claim != Some(k) then ClaimLost
      else if StageExpected(r.status, to) then Advanced
      else if r.status in {Cancelling, Cancelled, Dismissed} then Stopped
      else Refused
  }

  function StageDb(db: Db, t: nat, to: Status, k: Token): Db {
    if StageOutcome(db, t, to, k) == Advanced then Moved(db, t, db.tasks[t].(status := to)) else db
  }

  predicate HoldsIn(db: Db, t: nat, k: Token, s: Status) {
    Holds(db, t, k) && db.tasks[t].status == s
  }

  function Prepared(r: Row, workspace: Path, base: Commit, branch: Path): Row {
    r.(workspace := Some(workspace), baseCommit := Some(base), branch := Some(branch))
  }

  function PreparedDb(db: Db, t: nat, k: Token, workspace: Path, base: Commit, branch: Path): Db {
    if HoldsIn(db, t, k, Preparing)
    then Kept(db, t, Prepared(db.tasks[t], workspace, base, branch))
    else db
  }

  function SealedDb(db: Db, t: nat, k: Token, tree: Tree): Db {
    if HoldsIn(db, t, k, Sealing) then Kept(db, t, db.tasks[t].(reviewedTree := Some(tree))) else db
  }

  function CommitDb(db: Db, t: nat, k: Token, commit: Commit): Db {
    if HoldsIn(db, t, k, Sealing) then Kept(db, t, db.tasks[t].(commit := Some(commit))) else db
  }

  predicate CanBegin(db: Db, t: nat, k: Token) {
    Holds(db, t, k) && (db.tasks[t].status == Preparing || db.tasks[t].status == Sealing)
  }

  function Begun(r: Row, key: nat): Row {
    r.(status := Publishing, publicationKey := if r.publicationKey.Some? then r.publicationKey else Some(key))
  }

  function BeginDb(db: Db, t: nat, k: Token, key: nat): Db {
    if CanBegin(db, t, k) then Moved(db, t, Begun(db.tasks[t], key)) else db
  }

  predicate CanAwait(db: Db, t: nat, k: Token) {
    Holds(db, t, k) && (db.tasks[t].status == Publishing || db.tasks[t].status == Cancelling)
  }

  /** The pull request exists either way, so it is recorded even on a task being cancelled. */
  function Published(r: Row, url: Path, number: nat, state: PrState, now: int): Row {
    r.(status := if r.status == Cancelling then Cancelled else AwaitingHumanReview,
       prUrl := Some(url), prNumber := Some(number), prState := Some(state),
       claim := None, expires := None, code := None, finishedAt := Some(now))
  }

  function AwaitDb(db: Db, t: nat, k: Token, url: Path, number: nat, state: PrState, now: int): Db {
    if CanAwait(db, t, k) then Moved(db, t, Published(db.tasks[t], url, number, state, now)) else db
  }

  function SetTriage(db: Db, i: nat, triage: Triage): Db {
    if i in db.issues then db.(issues := db.issues[i := db.issues[i].(triage := triage)]) else db
  }

  /** Closes the claim of row `r`, whatever the reason. */
  function Ended(r: Row, to: Status, now: int): Row {
    r.(status := to, claim := None, expires := None, finishedAt := Some(now))
  }

  /** A failure before any commit gives the issue back for a new dispatch. */
  function FailDb(db: Db, t: nat, k: Token, kind: nat, now: int): Db {
    if !Holds(db, t, k) then db
    else
      var r := db.tasks[t];
      if r.status == Cancelling then Moved(db, t, Ended(r, Cancelled, now))
      else if Terminal(r.status) then db
      else
        var failed := Moved(db, t, Ended(r, Failed, now).(code := Some(Classified(kind))));
        if r.commit.None? then SetTriage(failed, r.issue, Discovered) else failed
  }

  function ManualDb(db: Db, t: nat, k: Token, now: int): Db {
    if !Holds(db, t, k) || Terminal(db.tasks[t].status) || db.tasks[t].status == Cancelling then db
    else Moved(db, t, Ended(db.tasks[t], ManualIntervention, now).(code := Some(ReportInvalid)))
  }

  function MarkCancelledDb(db: Db, t: nat, k: Token, now: int): Db {
    if HoldsIn(db, t, k, Cancelling) then Moved(db, t, Ended(db.tasks[t], Cancelled, now)) else db
  }

  function InterruptDb(db: Db, t: nat, k: Token, now: int): Db {
    if !Holds(db, t, k) then db
    else if db.tasks[t].status == Cancelling then Moved(db, t, Ended(db.tasks[t], Cancelled, now))
    else Moved(db, t, Ended(db.tasks[t], ManualIntervention, now).(code := Some(WorkerInterrupted)))
  }

  // ---------------------------------------------------------------- commands of users and pollers

  predicate MayAct(db: Db, t: nat, actor: nat) {
    t in db.tasks && actor in db.users && (db.users[actor].admin || db.tasks[t].owner == actor)
  }

  predicate Cancellable(r: Row) {
    r.status == Queued || Running(r.status)
  }

  /** A waiting task is cancelled at once; a running one is told to stop and keeps its claim. */
  function CancelRow(r: Row, now: int): Row {
    if r.status == Queued then r.(status := Cancelled, finishedAt := Some(now)) else r.(status := Cancelling)
  }

  function CancelDb(db: Db, t: nat, now: int): Db {
    if t in db.tasks && Cancellable(db.tasks[t]) then Moved(db, t, CancelRow(db.tasks[t], now)) else db
  }

  predicate Closable(s: Status) {
    s.AwaitingHumanReview? || s.Failed? || s.ManualIntervention? || s.Cancelled?
  }

  function CloseDb(db: Db, t: nat, now: int): Db {
    if t in db.tasks && Closable(db.tasks[t].status)
    then Moved(db, t, db.tasks[t].(status := Dismissed, finishedAt := Some(now)))
    else db
  }

  /** What the forge says about the pull request; `Unmerged` stands for any other answer. */
  datatype Verdict = Merged | ClosedUnmerged | Unmerged

  function Settled(r: Row, v: Verdict, now: int): Row {
    match v
    case Merged => r.(status := Completed, prState := Some(MergedPr), finishedAt := Some(now))
    case ClosedUnmerged => r.(status := Closed, prState := Some(ClosedPr), finishedAt := Some(now))
    case Unmerged => r
  }

  predicate Awaiting(db: Db, t: nat) {
    t in db.tasks && db.tasks[t].status == AwaitingHumanReview
  }

  /** A feedback sync records a transition even when the verdict moves nothing. */
  function SyncFeedbackDb(db: Db, t: nat, v: Verdict, now: int): Db {
    if Awaiting(db, t) then Moved(db, t, Settled(db.tasks[t], v, now)) else db
  }

  function PollDb(db: Db, t: nat, v: Verdict, now: int): Db {
    if Awaiting(db, t) && !v.Unmerged? then Moved(db, t, Settled(db.tasks[t], v, now)) else db
  }

  predicate Requeueable(r: Row) {
    && (r.status == ManualIntervention || r.status == Failed)
    && r.commit.Some?
    && r.workspace.Some?
    && r.branch.Some?
  }

  function QueueExistingDb(db: Db, t: nat): Db {
    if t in db.tasks && Requeueable(db.tasks[t])
    then Moved(db, t, db.tasks[t].(status := Queued, code := Some(PublishExisting), finishedAt := None))
    else db
  }

  function QueueFeedbackDb(db: Db, t: nat): Db {
    if Awaiting(db, t)
    then Moved(db, t, db.tasks[t].(status := Queued, code := Some(FeedbackRevision), finishedAt := None))
    else db
  }

  // ---------------------------------------------------------------- issues

  function NewTask(i: nat, u: nat, priority: int, now: int): Row {
    Row(i, u, Queued, priority, now, None, None, None, None, None, None, None, None, None, None, None, None,
        None, None)
  }

  predicate ActiveOn(db: Db, t: nat, i: nat) {
    t in db.tasks && db.tasks[t].issue == i && !Terminal(db.tasks[t].status)
  }

  predicate Dispatchable(db: Db, i: nat, u: nat) {
    && u in db.users && db.users[u].active
    && i in db.issues && db.issues[i].open && db.issues[i].triage == Discovered
    && (forall t :: t in db.tasks ==> !ActiveOn(db, t, i))
    && db.issues[i].repository in db.enabled && db.enabled[db.issues[i].repository]
  }

  function DispatchDb(db: Db, i: nat, u: nat, t: nat, priority: int, now: int): Db {
    if Dispatchable(db, i, u) && t !in db.tasks
    then SetTriage(db, i, Dispatched).(tasks := db.tasks[t := NewTask(i, u, priority, now)])
    else db
  }

  predicate IsAdmin(db: Db, actor: nat) {
    actor in db.users && db.users[actor].admin
  }

  function IgnoreDb(db: Db, i: nat, actor: nat): Db {
    if i in db.issues && IsAdmin(db, actor) && db.issues[i].triage == Discovered && db.issues[i].open
    then db.(issues := db.issues[i := db.issues[i].(triage := Ignored, ignoredBy := Some(actor))])
    else db
  }

  function RestoreDb(db: Db, i: nat, actor: nat): Db {
    if i in db.issues && IsAdmin(db, actor) && db.issues[i].triage == Ignored
    then db.(issues := db.issues[i := db.issues[i].(triage := Discovered, ignoredBy := None)])
    else db
  }

  /** Sync creates an issue row or refreshes the provider's part of it, never the triage. */
  function UpsertIssueDb(db: Db, i: nat, repository: nat, open: bool): Db {
    db.(issues := db.issues[i := if i in db.issues
                                 then db.issues[i].(open := open)
                                 else IssueRow(repository, open, Discovered, None)])
  }
}
