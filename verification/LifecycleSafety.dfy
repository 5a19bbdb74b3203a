/** What every step of the lifecycle keeps, and what follows for whole runs. */
module LifecycleSafety {
  import opened Values
  import opened TaskTable
  import opened Lifecycle

  // ---------------------------------------------------------------- the invariant

  ghost predicate RowOk(cfg: Config, t: nat, r: Row, sealed: set<(nat, Tree)>) {
    && (r.claim.Some? <==> Running(r.status) || r.status == Cancelling)
    && (r.expires.Some? <==> r.claim.Some?)
    && (r.commit.Some? ==> r.workspace.Some? && r.branch.Some? && (t, cfg.treeOf(r.commit.value)) in sealed)
    && (r.status == Publishing ==> r.commit.Some? && r.publicationKey.Some?)
    && (r.status == AwaitingHumanReview ==> r.commit.Some? && r.prNumber.Some?)
    && (r.code == Some(PublishExisting) ==> r.commit.Some?)
    && (r.code == Some(FeedbackRevision) ==> r.commit.Some? && r.prNumber.Some?)
    && (r.status == Queued ==> Launchable(r))
  }

  /** A row the scheduler may hand to a worker: its marker picks a program whose needs are met. */
  predicate Launchable(r: Row) {
    || r.code == Some(PublishExisting)
    || r.code == Some(FeedbackRevision)
    || (r.code == None && r.workspace == None && r.commit == None)
  }

  /** The statuses a claimed row can be in while its worker stands at `pc`. */
  predicate StatusAt(pc: Pc, s: Status) {
    match pc
    case Starting => s == Preparing
    case Loading => s == Preparing
    case PrepareRecording => s == Preparing
    case Developing => s == Preparing
    case ReviewingA => s == DeveloperWorking
    case ReviewingB => s == Reviewing
    case Revising => s == Reviewing
    case Addressing => s == Preparing
    case SealStarting => s == Reviewing || s == DeveloperRevising
    case SealRecording => s == Sealing
    case CommitRecording => s == Sealing
    case PublishStarting => s == Sealing || s == Preparing
    case AwaitRecording => s == Publishing
    case Notifying => false
    case Handling(_) => true
    case Finished => true
  }

  /** Program points from which the worker may still write work of its own. */
  predicate InWorkspace(pc: Pc) {
    !(pc.Starting? || pc.Loading? || pc.PrepareRecording? || pc.Handling? || pc.Finished?)
  }

  ghost predicate WorkerFits(t: nat, r: Row, p: Worker, sealed: set<(nat, Tree)>) {
    && p.task == t
    && !p.pc.Notifying?
    && (r.status == Cancelling || StatusAt(p.pc, r.status))
    && (p.pc.Starting? || p.pc.Loading? ==> Launchable(r))
    && (p.pc.PrepareRecording? ==> r.workspace == None && r.commit == None)
    && (InWorkspace(p.pc) ==> r.workspace.Some? && r.branch.Some?)
    && (p.pc.CommitRecording? ==> p.tree.Some? && (t, p.tree.value) in sealed)
    && (p.pc.PublishStarting? || p.pc.AwaitRecording? ==> r.commit.Some?)
  }

  ghost predicate ClaimOk(w: World, t: nat, r: Row) {
    r.claim.Some? ==> r.claim.value in w.workers && WorkerFits(t, r, w.workers[r.claim.value], w.sealed)
  }

  ghost predicate IssuesOk(db: Db) {
    && (forall t :: t in db.tasks ==> db.tasks[t].issue in db.issues)
    && (forall t :: t in db.tasks && Live(db.tasks[t]) ==> db.issues[db.tasks[t].issue].triage == Dispatched)
    && (forall t, u :: t in db.tasks && u in db.tasks && t != u && Live(db.tasks[t]) && Live(db.tasks[u]) ==>
          db.tasks[t].issue != db.tasks[u].issue)
  }

  ghost predicate LogOk(db: Db) {
    forall t: nat :: Replay(db.log, t) == Some(if t in db.tasks then db.tasks[t].status else Queued)
  }

  ghost predicate WorkersOk(w: World) {
    forall k :: k in w.workers ==> k in w.issued && w.workers[k].task in w.db.tasks
  }

  ghost predicate RowsOk(cfg: Config, w: World) {
    forall t :: t in w.db.tasks ==> RowOk(cfg, t, w.db.tasks[t], w.sealed) && ClaimOk(w, t, w.db.tasks[t])
  }

  ghost predicate Inv(cfg: Config, w: World) {
    RowsOk(cfg, w) && IssuesOk(w.db) && LogOk(w.db) && WorkersOk(w)
  }

  // ---------------------------------------------------------------- one changed row

  /** `w'` differs from `w` in row `t`, now `r`, and in the workers started on that row. */
  ghost predicate Changes(cfg: Config, w: World, w': World, t: nat, r: Row, logged: bool) {
    && t in w.db.tasks
    && w'.db.tasks == w.db.tasks[t := r]
    && w'.db.log == (if logged then w.db.log + [Transition(t, w.db.tasks[t].status, r.status)] else w.db.log)
    && (if logged then Edge(w.db.tasks[t].status, r.status) else w.db.tasks[t].status == r.status)
    && r.issue == w.db.tasks[t].issue
    && (Live(r) ==> Live(w.db.tasks[t]))
    && w.sealed <= w'.sealed
    && RowOk(cfg, t, r, w'.sealed)
    && ClaimOk(w', t, r)
    && WorkersOk(w')
    && (forall k :: k in w.workers && w.workers[k].task != t ==> k in w'.workers && w'.workers[k] == w.workers[k])
    && w'.db.issues == w.db.issues
  }

  lemma ChangesKeepRows(cfg: Config, w: World, w': World, t: nat, r: Row, logged: bool)
    requires RowsOk(cfg, w) && Changes(cfg, w, w', t, r, logged)
    ensures RowsOk(cfg, w')
  {
    forall u | u in w'.db.tasks
      ensures RowOk(cfg, u, w'.db.tasks[u], w'.sealed) && ClaimOk(w', u, w'.db.tasks[u])
    {
      if u != t {
        assert w'.db.tasks[u] == w.db.tasks[u];
      }
    }
  }

  lemma ReplacingKeepsIssues(db: Db, db': Db, t: nat, r: Row)
    requires IssuesOk(db) && t in db.tasks && db'.tasks == db.tasks[t := r]
    requires r.issue == db.tasks[t].issue && (Live(r) ==> Live(db.tasks[t]))
    requires db'.issues == db.issues
    ensures IssuesOk(db')
  {
    forall u | u in db'.tasks
      ensures db'.tasks[u].issue in db'.issues
      ensures Live(db'.tasks[u]) ==> db'.issues[db'.tasks[u].issue].triage == Dispatched
    {
      assert u in db.tasks && db'.tasks[u].issue == db.tasks[u].issue;
      if Live(db'.tasks[u]) {
        assert Live(db.tasks[u]);
      }
    }
  }

  lemma ChangesKeepLog(cfg: Config, w: World, w': World, t: nat, r: Row, logged: bool)
    requires LogOk(w.db) && Changes(cfg, w, w', t, r, logged)
    ensures LogOk(w'.db)
  {
    forall u: nat
      ensures Replay(w'.db.log, u) == Some(if u in w'.db.tasks then w'.db.tasks[u].status else Queued)
    {
      if logged {
        assert w'.db.log[..|w'.db.log| - 1] == w.db.log;
      }
    }
  }

  lemma ChangesKeepInv(cfg: Config, w: World, w': World, t: nat, r: Row, logged: bool)
    requires Inv(cfg, w) && Changes(cfg, w, w', t, r, logged)
    ensures Inv(cfg, w')
  {
    ChangesKeepRows(cfg, w, w', t, r, logged);
    ReplacingKeepsIssues(w.db, w'.db, t, r);
    ChangesKeepLog(cfg, w, w', t, r, logged);
  }

  // ---------------------------------------------------------------- steps of a worker

  /** The worker that holds `k` stands at `p`, on a row it may or may not still hold. */
  ghost predicate Local(cfg: Config, t: nat, k: Token, r: Row, p: Worker, sealed: set<(nat, Tree)>) {
    p.task == t && RowOk(cfg, t, r, sealed) && (r.claim == Some(k) ==> WorkerFits(t, r, p, sealed))
  }

  lemma LocalOf(cfg: Config, w: World, k: Token)
    requires Inv(cfg, w) && k in w.workers
    ensures w.workers[k].task in w.db.tasks
    ensures Local(cfg, w.workers[k].task, k, w.db.tasks[w.workers[k].task], w.workers[k], w.sealed)
  {
    var t := w.workers[k].task;
    assert t in w.db.tasks;
    assert RowOk(cfg, t, w.db.tasks[t], w.sealed) && ClaimOk(w, t, w.db.tasks[t]);
  }

  /** The world after worker `k` writes row `r` and moves to `p`. */
  function Written(w: World, k: Token, r: Row, p: Worker, sealed: set<(nat, Tree)>, logged: bool): World
    requires k in w.workers && w.workers[k].task in w.db.tasks
  {
    var t := w.workers[k].task;
    w.(db := if logged then Moved(w.db, t, r) else Kept(w.db, t, r),
       workers := w.workers[k := p],
       sealed := sealed)
  }

  /** What a worker's own write must satisfy, in terms of its row and program point alone. */
  ghost predicate GoodWrite(cfg: Config, t: nat, k: Token, r: Row, r': Row, p': Worker, sealed': set<(nat, Tree)>, logged: bool) {
    && Local(cfg, t, k, r', p', sealed')
    && (if logged then Edge(r.status, r'.status) else r.status == r'.status)
    && r'.issue == r.issue
    && (Live(r') ==> Live(r))
    && (r'.claim.Some? ==> r'.claim == r.claim)
  }

  lemma WriteKeepsInv(cfg: Config, w: World, k: Token, r: Row, p: Worker, sealed: set<(nat, Tree)>, logged: bool)
    requires Inv(cfg, w) && k in w.workers && w.sealed <= sealed
    requires Holds(w.db, w.workers[k].task, k)
    requires GoodWrite(cfg, w.workers[k].task, k, w.db.tasks[w.workers[k].task], r, p, sealed, logged)
    ensures Inv(cfg, Written(w, k, r, p, sealed, logged))
  {
    var t := w.workers[k].task;
    var w' := Written(w, k, r, p, sealed, logged);
    assert ClaimOk(w', t, r);
    assert WorkersOk(w');
    assert w'.db.issues == w.db.issues;
    ChangesKeepInv(cfg, w, w', t, r, logged);
  }

  /** A step that moves only the program point. */
  lemma GotoKeepsInv(cfg: Config, w: World, k: Token, pc: Pc)
    requires Inv(cfg, w) && k in w.workers && w.workers[k].task in w.db.tasks
    requires Local(cfg, w.workers[k].task, k, w.db.tasks[w.workers[k].task], w.workers[k].(pc := pc), w.sealed)
    ensures Inv(cfg, Goto(w, k, pc))
  {
    var t := w.workers[k].task;
    var r := w.db.tasks[t];
    var w' := Goto(w, k, pc);
    assert w.db.tasks[t := r] == w.db.tasks;
    assert ClaimOk(w', t, r) by {
      assert ClaimOk(w, t, r);
    }
    assert WorkersOk(w');
    ChangesKeepInv(cfg, w, w', t, r, false);
  }

  // Each step on its own row, with nothing else in sight.

  lemma StageIsGood(cfg: Config, t: nat, k: Token, r: Row, p: Worker, sealed: set<(nat, Tree)>, findings: bool)
    requires Local(cfg, t, k, r, p, sealed) && r.claim == Some(k) && StageOf(p.pc).Some?
    ensures StageExpected(r.status, StageOf(p.pc).value) ==>
              GoodWrite(cfg, t, k, r, r.(status := StageOf(p.pc).value), p.(pc := AfterStage(p.pc, findings)), sealed, true)
    ensures !StageExpected(r.status, StageOf(p.pc).value) ==> r.status == Cancelling
  {
  }

  lemma PrepareIsGood(cfg: Config, t: nat, k: Token, r: Row, p: Worker, sealed: set<(nat, Tree)>,
                      workspace: Path, base: Commit, branch: Path)
    requires Local(cfg, t, k, r, p, sealed) && r.claim == Some(k) && p.pc.PrepareRecording? && r.status == Preparing
    ensures GoodWrite(cfg, t, k, r, Prepared(r, workspace, base, branch), p.(pc := Developing), sealed, false)
  {
  }

  lemma SealIsGood(cfg: Config, t: nat, k: Token, r: Row, p: Worker, sealed: set<(nat, Tree)>, tree: Tree)
    requires Local(cfg, t, k, r, p, sealed) && r.claim == Some(k) && p.pc.SealRecording? && r.status == Sealing
    ensures GoodWrite(cfg, t, k, r, r.(reviewedTree := Some(tree)), p.(pc := CommitRecording, tree := Some(tree)),
                      sealed + {(t, tree)}, false)
  {
  }

  lemma CommitIsGood(cfg: Config, t: nat, k: Token, r: Row, p: Worker, sealed: set<(nat, Tree)>, commit: Commit)
    requires Local(cfg, t, k, r, p, sealed) && r.claim == Some(k) && p.pc.CommitRecording? && r.status == Sealing
    requires p.tree == Some(cfg.treeOf(commit))
    ensures GoodWrite(cfg, t, k, r, r.(commit := Some(commit)), p.(pc := PublishStarting), sealed, false)
  {
  }

  lemma BeginIsGood(cfg: Config, t: nat, k: Token, r: Row, p: Worker, sealed: set<(nat, Tree)>, key: nat)
    requires Local(cfg, t, k, r, p, sealed) && r.claim == Some(k) && p.pc.PublishStarting?
    requires r.status == Preparing || r.status == Sealing
    ensures GoodWrite(cfg, t, k, r, Begun(r, key), p.(pc := AwaitRecording), sealed, true)
  {
  }

  lemma PublishedIsGood(cfg: Config, t: nat, k: Token, r: Row, p: Worker, sealed: set<(nat, Tree)>,
                        url: Path, number: nat, state: PrState, now: int)
    requires Local(cfg, t, k, r, p, sealed) && r.claim == Some(k) && p.pc.AwaitRecording?
    requires r.status == Publishing || r.status == Cancelling
    ensures GoodWrite(cfg, t, k, r, Published(r, url, number, state, now), p.(pc := Notifying), sealed, true)
  {
  }

  lemma StartKeepsInv(cfg: Config, w: World, k: Token)
    requires Inv(cfg, w)
    ensures Inv(cfg, WorkStep(cfg, w, k, Start))
  {
    hide Inv;
    if k in w.workers && w.workers[k].pc.Starting? {
      LocalOf(cfg, w, k);
      var p := w.workers[k];
      var r := w.db.tasks[p.task];
      if Renewable(w.db, p.task, k, w.now) {
        var r' := r.(expires := Some(w.now + cfg.limits.lease));
        WriteKeepsInv(cfg, w, k, r', p.(pc := Loading), w.sealed, false);
        assert WorkStep(cfg, w, k, Start) == Written(w, k, r', p.(pc := Loading), w.sealed, false);
      } else {
        GotoKeepsInv(cfg, w, k, Finished);
      }
    }
  }

  lemma LoadKeepsInv(cfg: Config, w: World, k: Token)
    requires Inv(cfg, w)
    ensures Inv(cfg, WorkStep(cfg, w, k, Load))
  {
    hide Inv;
    if k in w.workers && w.workers[k].pc.Loading? {
      LocalOf(cfg, w, k);
      GotoKeepsInv(cfg, w, k, Program(w.db.tasks[w.workers[k].task]));
    }
  }

  lemma EnterStageKeepsInv(cfg: Config, w: World, k: Token, findings: bool)
    requires Inv(cfg, w)
    ensures Inv(cfg, WorkStep(cfg, w, k, EnterStage(findings)))
  {
    hide Inv, Local, GoodWrite;
    if k in w.workers && StageOf(w.workers[k].pc).Some? {
      LocalOf(cfg, w, k);
      var p := w.workers[k];
      var r := w.db.tasks[p.task];
      var to := StageOf(p.pc).value;
      if r.claim != Some(k) {
        GotoKeepsInv(cfg, w, k, Finished);
      } else {
        StageIsGood(cfg, p.task, k, r, p, w.sealed, findings);
        if StageExpected(r.status, to) {
          WriteKeepsInv(cfg, w, k, r.(status := to), p.(pc := AfterStage(p.pc, findings)), w.sealed, true);
        } else {
          GotoKeepsInv(cfg, w, k, Handling(OnCancelled));
        }
      }
    }
  }

  lemma RecordKeepsInv(cfg: Config, w: World, k: Token, s: WorkerStep)
    requires Inv(cfg, w) && (s.RecordPrepared? || s.RecordSeal? || s.RecordCommit?)
    ensures Inv(cfg, WorkStep(cfg, w, k, s))
  {
    hide Inv, Local, GoodWrite;
    if k in w.workers && WorkStep(cfg, w, k, s) != w {
      LocalOf(cfg, w, k);
      var p := w.workers[k];
      var t := p.task;
      var r := w.db.tasks[t];
      match s
      case RecordPrepared(workspace, base, branch) =>
        if HoldsIn(w.db, t, k, Preparing) {
          PrepareIsGood(cfg, t, k, r, p, w.sealed, workspace, base, branch);
          WriteKeepsInv(cfg, w, k, Prepared(r, workspace, base, branch), p.(pc := Developing), w.sealed, false);
        } else {
          GotoKeepsInv(cfg, w, k, Finished);
        }
      case RecordSeal(tree) =>
        if HoldsIn(w.db, t, k, Sealing) {
          SealIsGood(cfg, t, k, r, p, w.sealed, tree);
          WriteKeepsInv(cfg, w, k, r.(reviewedTree := Some(tree)), p.(pc := CommitRecording, tree := Some(tree)),
                        w.sealed + {(t, tree)}, false);
        } else {
          GotoKeepsInv(cfg, w, k, Finished);
        }
      case RecordCommit(commit) =>
        if p.tree != Some(cfg.treeOf(commit)) {
          GotoKeepsInv(cfg, w, k, Handling(OnFailure(0)));
        } else if HoldsIn(w.db, t, k, Sealing) {
          CommitIsGood(cfg, t, k, r, p, w.sealed, commit);
          WriteKeepsInv(cfg, w, k, r.(commit := Some(commit)), p.(pc := PublishStarting), w.sealed, false);
        } else {
          GotoKeepsInv(cfg, w, k, Finished);
        }
    }
  }

  lemma PublishKeepsInv(cfg: Config, w: World, k: Token, s: WorkerStep)
    requires Inv(cfg, w) && (s.Begin? || s.RecordPublished?)
    ensures Inv(cfg, WorkStep(cfg, w, k, s))
  {
    hide Inv, Local, GoodWrite;
    if k in w.workers && WorkStep(cfg, w, k, s) != w {
      LocalOf(cfg, w, k);
      var p := w.workers[k];
      var t := p.task;
      var r := w.db.tasks[t];
      match s
      case Begin(key) =>
        if CanBegin(w.db, t, k) {
          BeginIsGood(cfg, t, k, r, p, w.sealed, key);
          WriteKeepsInv(cfg, w, k, Begun(r, key), p.(pc := AwaitRecording), w.sealed, true);
        } else {
          GotoKeepsInv(cfg, w, k, Finished);
        }
      case RecordPublished(url, number, state) =>
        if CanAwait(w.db, t, k) {
          PublishedIsGood(cfg, t, k, r, p, w.sealed, url, number, state, w.now);
          WriteKeepsInv(cfg, w, k, Published(r, url, number, state, w.now), p.(pc := Notifying), w.sealed, true);
        } else {
          GotoKeepsInv(cfg, w, k, Finished);
        }
    }
  }

  lemma EndingIsGood(cfg: Config, t: nat, k: Token, r: Row, p: Worker, sealed: set<(nat, Tree)>, to: Status, now: int)
    requires Local(cfg, t, k, r, p, sealed) && r.claim == Some(k)
    requires if r.status == Cancelling then to == Cancelled else to == Failed || to == ManualIntervention
    ensures Running(r.status) || r.status == Cancelling
    ensures GoodWrite(cfg, t, k, r, Ended(r, to, now), p.(pc := Finished), sealed, true)
    ensures forall c: Code :: !c.PublishExisting? && !c.FeedbackRevision? ==>
              GoodWrite(cfg, t, k, r, Ended(r, to, now).(code := Some(c)), p.(pc := Finished), sealed, true)
  {
  }

  ghost predicate Vacant(tasks: map<nat, Row>, i: nat) {
    forall u :: u in tasks && tasks[u].issue == i ==> !Live(tasks[u])
  }

  /** Reopening an issue is safe when nothing occupies it. */
  lemma ReopeningKeepsInv(cfg: Config, w: World, i: nat)
    requires Inv(cfg, w)
    requires Vacant(w.db.tasks, i)
    ensures Inv(cfg, WithDb(w, SetTriage(w.db, i, Discovered)))
  {
    var w' := WithDb(w, SetTriage(w.db, i, Discovered));
    assert RowsOk(cfg, w') by {
      forall u | u in w'.db.tasks ensures ClaimOk(w', u, w'.db.tasks[u]) {
        assert ClaimOk(w, u, w.db.tasks[u]);
      }
    }
  }

  /** A live task has its issue to itself, so once it fails without a commit nobody holds the issue. */
  lemma AloneOnIssue(cfg: Config, w: World, t: nat, r: Row)
    requires Inv(cfg, w) && t in w.db.tasks && Live(w.db.tasks[t]) && !Live(r)
    requires r.issue == w.db.tasks[t].issue
    ensures Vacant(w.db.tasks[t := r], r.issue)
  {
    assert IssuesOk(w.db);
  }

  lemma FailUncommittedKeepsInv(cfg: Config, w: World, k: Token, kind: nat)
    requires Inv(cfg, w) && k in w.workers && Holds(w.db, w.workers[k].task, k)
    requires var r := w.db.tasks[w.workers[k].task]; Running(r.status) && r.commit.None?
    ensures Inv(cfg, Goto(WithDb(w, FailDb(w.db, w.workers[k].task, k, kind, w.now)), k, Finished))
  {
    hide Inv;
    LocalOf(cfg, w, k);
    var p := w.workers[k];
    var t := p.task;
    var r := w.db.tasks[t];
    var r' := Ended(r, Failed, w.now).(code := Some(Classified(kind)));
    EndingIsGood(cfg, t, k, r, p, w.sealed, Failed, w.now);
    WriteKeepsInv(cfg, w, k, r', p.(pc := Finished), w.sealed, true);
    AloneOnIssue(cfg, w, t, r');
    ReopeningKeepsInv(cfg, Written(w, k, r', p.(pc := Finished), w.sealed, true), r.issue);
  }

  lemma HandleKeepsInv(cfg: Config, w: World, k: Token)
    requires Inv(cfg, w)
    ensures Inv(cfg, WorkStep(cfg, w, k, Handle))
  {
    hide Inv;
    if k in w.workers && w.workers[k].pc.Handling? {
      LocalOf(cfg, w, k);
      var p := w.workers[k];
      var r := w.db.tasks[p.task];
      var done := p.(pc := Finished);
      if WorkStep(cfg, w, k, Handle).db == w.db {
        GotoKeepsInv(cfg, w, k, Finished);
      } else if r.status == Cancelling {
        EndingIsGood(cfg, p.task, k, r, p, w.sealed, Cancelled, w.now);
        WriteKeepsInv(cfg, w, k, Ended(r, Cancelled, w.now), done, w.sealed, true);
      } else {
        match p.pc.handler
        case OnFailure(kind) =>
          if r.commit.None? {
            FailUncommittedKeepsInv(cfg, w, k, kind);
          } else {
            EndingIsGood(cfg, p.task, k, r, p, w.sealed, Failed, w.now);
            WriteKeepsInv(cfg, w, k, Ended(r, Failed, w.now).(code := Some(Classified(kind))), done, w.sealed, true);
          }
        case OnReportInvalid =>
          EndingIsGood(cfg, p.task, k, r, p, w.sealed, ManualIntervention, w.now);
          WriteKeepsInv(cfg, w, k, Ended(r, ManualIntervention, w.now).(code := Some(ReportInvalid)), done, w.sealed, true);
        case OnInterrupt =>
          EndingIsGood(cfg, p.task, k, r, p, w.sealed, ManualIntervention, w.now);
          WriteKeepsInv(cfg, w, k, Ended(r, ManualIntervention, w.now).(code := Some(WorkerInterrupted)), done, w.sealed, true);
        case OnCancelled => assert false;
      }
    }
  }

  lemma WorkKeepsInv(cfg: Config, w: World, k: Token, s: WorkerStep)
    requires Inv(cfg, w)
    ensures Inv(cfg, WorkStep(cfg, w, k, s))
  {
    hide Inv;
    match s
    case Start => StartKeepsInv(cfg, w, k);
    case Load => LoadKeepsInv(cfg, w, k);
    case EnterStage(findings) => EnterStageKeepsInv(cfg, w, k, findings);
    case RecordPrepared(_, _, _) => RecordKeepsInv(cfg, w, k, s);
    case RecordSeal(_) => RecordKeepsInv(cfg, w, k, s);
    case RecordCommit(_) => RecordKeepsInv(cfg, w, k, s);
    case Begin(_) => PublishKeepsInv(cfg, w, k, s);
    case RecordPublished(_, _, _) => PublishKeepsInv(cfg, w, k, s);
    case Handle => HandleKeepsInv(cfg, w, k);
    case Raise(h) =>
      if k in w.workers && WorkStep(cfg, w, k, s) != w {
        LocalOf(cfg, w, k);
        GotoKeepsInv(cfg, w, k, Handling(h));
      }
    case Crash =>
      if k in w.workers {
        LocalOf(cfg, w, k);
        GotoKeepsInv(cfg, w, k, Finished);
      }
  }

  // ---------------------------------------------------------------- steps of everyone else

  /** What a command must satisfy on its row. A claim may only survive it unchanged, and then the
      row keeps everything its worker relies on or is told to stop. */
  ghost predicate GoodCommand(cfg: Config, t: nat, r: Row, r': Row, sealed: set<(nat, Tree)>, logged: bool) {
    && RowOk(cfg, t, r', sealed)
    && (if logged then Edge(r.status, r'.status) else r.status == r'.status)
    && r'.issue == r.issue
    && (Live(r') ==> Live(r))
    && (r'.claim.Some? ==> r' == r.(status := r'.status, expires := r'.expires) && (r'.status == r.status || r'.status == Cancelling))
  }

  lemma CommandKeepsInv(cfg: Config, w: World, t: nat, r: Row, logged: bool)
    requires Inv(cfg, w) && t in w.db.tasks
    requires GoodCommand(cfg, t, w.db.tasks[t], r, w.sealed, logged)
    ensures Inv(cfg, WithDb(w, if logged then Moved(w.db, t, r) else Kept(w.db, t, r)))
  {
    var w' := WithDb(w, if logged then Moved(w.db, t, r) else Kept(w.db, t, r));
    assert ClaimOk(w', t, r) by {
      assert ClaimOk(w, t, w.db.tasks[t]);
    }
    assert WorkersOk(w');
    ChangesKeepInv(cfg, w, w', t, r, logged);
  }

  /** The row each row-changing command leaves, and whether it records a transition. */
  function Commanded(cfg: Config, w: World, a: Action, r: Row): Row {
    match a
    case Renew(_, _) => r.(expires := Some(w.now + cfg.limits.lease))
    case Recover(_) => Recovered(r, w.now)
    case Cancel(_) => CancelRow(r, w.now)
    case Close(_) => r.(status := Dismissed, finishedAt := Some(w.now))
    case SyncFeedback(_, v) => Settled(r, v, w.now)
    case Poll(_, v) => Settled(r, v, w.now)
    case QueueExisting(_) => r.(status := Queued, code := Some(PublishExisting), finishedAt := None)
    case QueueFeedback(_) => r.(status := Queued, code := Some(FeedbackRevision), finishedAt := None)
    case _ => r
  }

  predicate IsCommand(a: Action) {
    a.Renew? || a.Recover? || a.Cancel? || a.Close? || a.SyncFeedback? || a.Poll? || a.QueueExisting? || a.QueueFeedback?
  }

  predicate Applies(w: World, a: Action)
    requires IsCommand(a)
  {
    a.task in w.db.tasks &&
    var r := w.db.tasks[a.task];
    match a
    case Renew(t, k) => Renewable(w.db, t, k, w.now)
    case Recover(_) => Due(r, w.now)
    case Cancel(_) => Cancellable(r)
    case Close(_) => Closable(r.status)
    case SyncFeedback(_, _) => r.status == AwaitingHumanReview
    case Poll(_, v) => r.status == AwaitingHumanReview && !v.Unmerged?
    case QueueExisting(_) => Requeueable(r)
    case QueueFeedback(_) => r.status == AwaitingHumanReview
  }

  lemma CommandIsGood(cfg: Config, w: World, a: Action)
    requires IsCommand(a) && Applies(w, a) && RowOk(cfg, a.task, w.db.tasks[a.task], w.sealed)
    ensures GoodCommand(cfg, a.task, w.db.tasks[a.task], Commanded(cfg, w, a, w.db.tasks[a.task]), w.sealed, !a.Renew?)
  {
  }

  function ByCommand(cfg: Config, w: World, a: Action): Db
    requires IsCommand(a) && Applies(w, a)
  {
    var r := Commanded(cfg, w, a, w.db.tasks[a.task]);
    if a.Renew? then Kept(w.db, a.task, r) else Moved(w.db, a.task, r)
  }

  lemma CommandShape(cfg: Config, w: World, a: Action)
    requires IsCommand(a)
    ensures Act(cfg, w, a) == if Applies(w, a) then WithDb(w, ByCommand(cfg, w, a)) else w
  {
  }

  lemma CommandsKeepInv(cfg: Config, w: World, a: Action)
    requires Inv(cfg, w) && IsCommand(a)
    ensures Inv(cfg, Act(cfg, w, a))
  {
    hide Inv, GoodCommand, Act, Commanded;
    CommandShape(cfg, w, a);
    if Applies(w, a) {
      assert RowOk(cfg, a.task, w.db.tasks[a.task], w.sealed) by {
        RowOf(cfg, w, a.task);
      }
      CommandIsGood(cfg, w, a);
      CommandKeepsInv(cfg, w, a.task, Commanded(cfg, w, a, w.db.tasks[a.task]), !a.Renew?);
    }
  }

  lemma RowOf(cfg: Config, w: World, t: nat)
    requires Inv(cfg, w) && t in w.db.tasks
    ensures RowOk(cfg, t, w.db.tasks[t], w.sealed) && ClaimOk(w, t, w.db.tasks[t])
  {
  }

  lemma ClaimKeepsInv(cfg: Config, w: World, t: nat, k: Token)
    requires Inv(cfg, w)
    ensures Inv(cfg, ClaimStep(cfg, w, t, k))
  {
    if k !in w.issued && Claimable(w.db, t, cfg.limits) {
      RowOf(cfg, w, t);
      var w' := ClaimStep(cfg, w, t, k);
      var r' := Claimed(w.db.tasks[t], k, w.now, cfg.limits.lease);
      assert k !in w.workers;
      assert WorkerFits(t, r', w'.workers[k], w'.sealed);
      assert WorkersOk(w');
      ChangesKeepInv(cfg, w, w', t, r', true);
    }
  }

  lemma DispatchKeepsRows(cfg: Config, w: World, i: nat, u: nat, t: nat, priority: int)
    requires Inv(cfg, w)
    ensures RowsOk(cfg, Act(cfg, w, Dispatch(i, u, t, priority)))
    ensures WorkersOk(Act(cfg, w, Dispatch(i, u, t, priority)))
  {
    var w' := Act(cfg, w, Dispatch(i, u, t, priority));
    forall x | x in w'.db.tasks
      ensures RowOk(cfg, x, w'.db.tasks[x], w'.sealed) && ClaimOk(w', x, w'.db.tasks[x])
    {
      if x in w.db.tasks {
        RowOf(cfg, w, x);
      }
    }
  }

  lemma DispatchKeepsIssues(db: Db, i: nat, u: nat, t: nat, priority: int, now: int)
    requires IssuesOk(db)
    ensures IssuesOk(DispatchDb(db, i, u, t, priority, now))
  {
    var db' := DispatchDb(db, i, u, t, priority, now);
    if db' != db {
      // The issue was waiting, so nothing live was on it.
      assert Vacant(db.tasks, i);
      forall x | x in db'.tasks
        ensures db'.tasks[x].issue in db'.issues
        ensures Live(db'.tasks[x]) ==> db'.issues[db'.tasks[x].issue].triage == Dispatched
      {
        assert x != t ==> x in db.tasks;
      }
    }
  }

  lemma SameTasksKeepInv(cfg: Config, w: World, w': World)
    requires Inv(cfg, w) && IssuesOk(w'.db)
    requires w'.db.tasks == w.db.tasks && w'.db.log == w.db.log
    requires w'.workers == w.workers && w'.issued == w.issued && w'.sealed == w.sealed
    ensures Inv(cfg, w')
  {
    forall u | u in w'.db.tasks ensures ClaimOk(w', u, w'.db.tasks[u]) {
      RowOf(cfg, w, u);
    }
  }

  lemma IssueStepKeepsIssues(db: Db, db': Db, i: nat)
    requires IssuesOk(db) && db'.tasks == db.tasks
    requires db.issues.Keys <= db'.issues.Keys
    requires forall j :: j in db.issues && j != i ==> db'.issues[j] == db.issues[j]
    requires i in db.issues ==> db.issues[i].triage == Dispatched ==> db'.issues[i].triage == Dispatched
    ensures IssuesOk(db')
  {
    forall x | x in db'.tasks && Live(db'.tasks[x])
      ensures db'.issues[db'.tasks[x].issue].triage == Dispatched
    {
      assert db.issues[db.tasks[x].issue].triage == Dispatched;
    }
  }

  lemma IssueActionsKeepInv(cfg: Config, w: World, a: Action)
    requires Inv(cfg, w) && (a.UpsertIssue? || a.Ignore? || a.Restore?)
    ensures Inv(cfg, Act(cfg, w, a))
  {
    IssueStepKeepsIssues(w.db, Act(cfg, w, a).db, a.issue);
    SameTasksKeepInv(cfg, w, Act(cfg, w, a));
  }

  /** Every step keeps the invariant. */
  lemma ActKeepsInv(cfg: Config, w: World, a: Action)
    requires Inv(cfg, w)
    ensures Inv(cfg, Act(cfg, w, a))
  {
    match a
    case Work(k, s) => WorkKeepsInv(cfg, w, k, s);
    case Claim(t, k) => ClaimKeepsInv(cfg, w, t, k);
    case Dispatch(i, u, t, priority) =>
      DispatchKeepsRows(cfg, w, i, u, t, priority);
      DispatchKeepsIssues(w.db, i, u, t, priority, w.now);
    case UpsertIssue(_, _, _) => IssueActionsKeepInv(cfg, w, a);
    case Ignore(_, _) => IssueActionsKeepInv(cfg, w, a);
    case Restore(_, _) => IssueActionsKeepInv(cfg, w, a);
    case Elapse(_) => SameTasksKeepInv(cfg, w, Act(cfg, w, a));
    case AddUser(_, _) => SameTasksKeepInv(cfg, w, Act(cfg, w, a));
    case SetActive(_, _) => SameTasksKeepInv(cfg, w, Act(cfg, w, a));
    case SetEnabled(_, _) => SameTasksKeepInv(cfg, w, Act(cfg, w, a));
    case _ => CommandsKeepInv(cfg, w, a);
  }

  lemma {:induction false} RunKeepsInv(cfg: Config, w: World, actions: seq<Action>)
    requires Inv(cfg, w)
    ensures Inv(cfg, Run(cfg, w, actions))
    decreases |actions|
  {
    hide Inv;
    if actions != [] {
      ActKeepsInv(cfg, w, actions[0]);
      RunKeepsInv(cfg, Act(cfg, w, actions[0]), actions[1..]);
    }
  }

  /** Every run of a new installation keeps the invariant, however its actors interleave. */
  lemma Reachable(cfg: Config, now: int, actions: seq<Action>)
    ensures Inv(cfg, Run(cfg, Initial(now), actions))
  {
    RunKeepsInv(cfg, Initial(now), actions);
  }
}
