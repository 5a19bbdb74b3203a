/** What the transition log of a task says about the program its worker runs. */
module LifecycleStory {
  import opened Values
  import opened TaskTable
  import opened Lifecycle
  import opened LifecycleSafety
  import opened LifecycleTheorems

  datatype Plan = Fresh | Feedback | Republish

  /** How far the log has told a task's story: its status, what its next or present claim is for, and
      how many reviews that claim has entered. */
  datatype Story = Story(status: Status, plan: Plan, reviews: nat)

  const BEGINNING := Story(Queued, Fresh, 0)

  /** The transitions a story allows; more than the lifecycle graph it looks at the plan and the reviews. */
  predicate Allowed(s: Story, to: Status) {
    match s.status
    case Preparing =>
      || Aborts(to)
      || (to == DeveloperWorking && s.plan == Fresh)
      || (to == DeveloperRevising && s.plan == Feedback)
      || (to == Publishing && s.plan == Republish)
    case Reviewing =>
      Aborts(to) || (to == Reviewing && s.reviews == 1) || ((to == DeveloperRevising || to == Sealing) && s.reviews == 2)
    case _ => Edge(s.status, to)
  }

  function Continued(s: Story, to: Status): Story {
    Story(to,
      if to != Queued then s.plan else if s.status == AwaitingHumanReview then Feedback else Republish,
      if to == Preparing then 0 else if to == Reviewing then s.reviews + 1 else s.reviews)
  }

  function Told(log: seq<Transition>, t: nat): Option<Story>
    decreases |log|
  {
    if log == [] then Some(BEGINNING)
    else
      var before := Told(log[..|log| - 1], t);
      var last := log[|log| - 1];
      if last.task != t then before
      else if before.Some? && before.value.status == last.from && Allowed(before.value, last.to)
      then Some(Continued(before.value, last.to)) else None
  }

  function PlanOf(c: Option<Code>): Plan {
    if c == Some(FeedbackRevision) then Feedback else if c == Some(PublishExisting) then Republish else Fresh
  }

  /** What the worker's program point says about the story of the row it holds. */
  predicate AtPoint(r: Row, s: Story, pc: Pc) {
    match pc
    case Starting => s.plan == PlanOf(r.code)
    case Loading => s.plan == PlanOf(r.code)
    case PrepareRecording => s.plan == Fresh
    case Developing => s.plan == Fresh
    case Addressing => s.plan == Feedback
    case PublishStarting => r.status == Preparing ==> s.plan == Republish
    case ReviewingB => s.reviews == 1
    case Revising => s.reviews == 2
    case SealStarting => r.status == Reviewing ==> s.reviews == 2
    case ReviewingA => s.reviews == 0
    case _ => true
  }

  ghost predicate Fits(r: Row, s: Story, workers: map<Token, Worker>) {
    && s.status == r.status
    && (r.status == Queued ==> s.plan == PlanOf(r.code))
    && (r.status == Preparing ==> s.reviews == 0)
    && (r.status == DeveloperWorking ==> s.reviews == 0)
    && (r.claim.Some? && r.status != Cancelling ==> r.claim.value in workers && AtPoint(r, s, workers[r.claim.value].pc))
  }

  ghost predicate StoryOk(w: World, t: nat) {
    var s := Told(w.db.log, t);
    s.Some? && if t in w.db.tasks then Fits(w.db.tasks[t], s.value, w.workers) else s.value == BEGINNING
  }

  ghost predicate AllTold(w: World) { forall t: nat :: StoryOk(w, t) }

  lemma ToldStep(log: seq<Transition>, e: Transition, t: nat)
    ensures Told(log + [e], t) ==
            if e.task != t then Told(log, t)
            else if Told(log, t).Some? && Told(log, t).value.status == e.from && Allowed(Told(log, t).value, e.to)
            then Some(Continued(Told(log, t).value, e.to)) else None
  {
    assert (log + [e])[..|log|] == log;
  }

  // ---------------------------------------------------------------- a step in outline

  /** `w'` comes from `w` by a write of row `t`, recorded or not, in which only workers of that task move. */
  ghost predicate Rewrites(w: World, w': World, t: nat, logged: bool) {
    && t in w.db.tasks && t in w'.db.tasks
    && w'.db.tasks == w.db.tasks[t := w'.db.tasks[t]]
    && w'.db.log == (if logged then w.db.log + [Transition(t, w.db.tasks[t].status, w'.db.tasks[t].status)] else w.db.log)
    && (forall k :: k in w.workers && w.workers[k].task != t ==> k in w'.workers && w'.workers[k] == w.workers[k])
  }

  /** The story of the written row goes on. */
  ghost predicate GoesOn(w: World, w': World, t: nat, logged: bool)
    requires t in w.db.tasks && t in w'.db.tasks && Told(w.db.log, t).Some?
  {
    var s, r, r' := Told(w.db.log, t).value, w.db.tasks[t], w'.db.tasks[t];
    if logged then Allowed(s, r'.status) && Fits(r', Continued(s, r'.status), w'.workers)
    else r'.status == r.status && Fits(r', s, w'.workers)
  }

  lemma OthersStayTold(cfg: Config, w: World, w': World, t: nat, logged: bool, u: nat)
    requires Inv(cfg, w) && AllTold(w) && Rewrites(w, w', t, logged) && u != t
    ensures StoryOk(w', u)
  {
    assert StoryOk(w, u);
    if logged {
      ToldStep(w.db.log, Transition(t, w.db.tasks[t].status, w'.db.tasks[t].status), u);
    }
    if u in w.db.tasks {
      RowOf(cfg, w, u);
    }
    hide Inv, Told, AllTold;
  }

  lemma RewriteKeepsTold(cfg: Config, w: World, w': World, t: nat, logged: bool)
    requires Inv(cfg, w) && AllTold(w) && Rewrites(w, w', t, logged) && Told(w.db.log, t).Some? && GoesOn(w, w', t, logged)
    ensures AllTold(w')
  {
    assert StoryOk(w, t);
    forall u: nat ensures StoryOk(w', u) {
      if u != t {
        OthersStayTold(cfg, w, w', t, logged, u);
      } else if logged {
        ToldStep(w.db.log, Transition(t, w.db.tasks[t].status, w'.db.tasks[t].status), t);
      }
    }
  }

  // ---------------------------------------------------------------- steps of a worker

  /** A worker's step rewrites its own row at most, and moves no other worker. */
  ghost predicate Outlined(w: World, w': World, k: Token)
    requires k in w.workers
  {
    var t := w.workers[k].task;
    && Rewrites(w, w', t, w'.db.log != w.db.log)
    && k in w'.workers && w'.workers == w.workers[k := w'.workers[k]]
    && (w'.db.log != w.db.log ==> Holds(w.db, t, k)) && w'.issued == w.issued
  }

  lemma WorkOutline(cfg: Config, w: World, k: Token, s: WorkerStep)
    requires k in w.workers && w.workers[k].task in w.db.tasks
    ensures Outlined(w, WorkStep(cfg, w, k, s), k)
  {
    if s.Handle? && w.workers[k].pc.Handling? {
      HandleOutline(cfg, w, k);
    } else if s.Begin? || s.RecordPublished? {
      PublishOutline(cfg, w, k, s);
    } else if s.RecordPrepared? || s.RecordSeal? || s.RecordCommit? || s.Start? {
      RecordOutline(cfg, w, k, s);
    } else {
      StageOutline(cfg, w, k, s);
    }
  }

  lemma RecordOutline(cfg: Config, w: World, k: Token, s: WorkerStep)
    requires k in w.workers && w.workers[k].task in w.db.tasks
    requires s.RecordPrepared? || s.RecordSeal? || s.RecordCommit? || s.Start?
    ensures Outlined(w, WorkStep(cfg, w, k, s), k)
  {
    hide AwaitDb, BeginDb, StageDb, StageOutcome, FailDb, ManualDb, MarkCancelledDb, InterruptDb;
    var t := w.workers[k].task;
    assert w.db.tasks[t := w.db.tasks[t]] == w.db.tasks;
    assert w.workers[k := w.workers[k]] == w.workers;
  }

  lemma StageOutline(cfg: Config, w: World, k: Token, s: WorkerStep)
    requires k in w.workers && w.workers[k].task in w.db.tasks
    requires s.EnterStage? || s.Load? || s.Raise? || s.Crash? || (s.Handle? && !w.workers[k].pc.Handling?)
    ensures Outlined(w, WorkStep(cfg, w, k, s), k)
  {
    hide AwaitDb, BeginDb, PreparedDb, SealedDb, CommitDb, FailDb, ManualDb, MarkCancelledDb, InterruptDb;
    var t := w.workers[k].task;
    assert w.db.tasks[t := w.db.tasks[t]] == w.db.tasks;
    assert w.workers[k := w.workers[k]] == w.workers;
  }

  lemma PublishOutline(cfg: Config, w: World, k: Token, s: WorkerStep)
    requires k in w.workers && w.workers[k].task in w.db.tasks && (s.Begin? || s.RecordPublished?)
    ensures Outlined(w, WorkStep(cfg, w, k, s), k)
  {
    var t := w.workers[k].task;
    assert w.db.tasks[t := w.db.tasks[t]] == w.db.tasks;
    assert w.workers[k := w.workers[k]] == w.workers;
  }

  lemma HandleOutline(cfg: Config, w: World, k: Token)
    requires k in w.workers && w.workers[k].task in w.db.tasks && w.workers[k].pc.Handling?
    ensures Outlined(w, WorkStep(cfg, w, k, Handle), k)
  {
    var t := w.workers[k].task;
    assert w.db.tasks[t := w.db.tasks[t]] == w.db.tasks;
    match w.workers[k].pc.handler
    case OnFailure(_) =>
    case OnReportInvalid =>
    case OnCancelled =>
    case OnInterrupt =>
  }

  /** The step of a worker that does not hold its row leaves the row's story alone. */
  lemma StaleGoesOn(cfg: Config, w: World, k: Token, s: WorkerStep)
    requires Inv(cfg, w) && AllTold(w) && k in w.workers && w.workers[k].task in w.db.tasks && !Holds(w.db, w.workers[k].task, k)
    ensures var t, w' := w.workers[k].task, WorkStep(cfg, w, k, s);
            t in w'.db.tasks && Told(w.db.log, t).Some? && GoesOn(w, w', t, w'.db.log != w.db.log)
  {
    var t := w.workers[k].task;
    assert StoryOk(w, t);
    RowOf(cfg, w, t);
    WorkOutline(cfg, w, k, s);
    StaleWorkerChangesNothing(cfg, w, k, s);
    hide Inv, Told, AllTold, WorkStep;
  }

  /** The story of a row while worker `p` holds it. */
  ghost predicate Telling(cfg: Config, w: World, k: Token, t: nat, r: Row, p: Worker, s: Story) {
    && k in w.workers && p == w.workers[k] && t == p.task && Holds(w.db, t, k) && r == w.db.tasks[t]
    && Told(w.db.log, t) == Some(s) && Fits(r, s, w.workers) && Local(cfg, t, k, r, p, w.sealed)
  }

  lemma LoadGoesOn(cfg: Config, w: World, k: Token, t: nat, r: Row, p: Worker, s: Story)
    requires Telling(cfg, w, k, t, r, p, s)
    ensures var w' := WorkStep(cfg, w, k, Load);
            w'.db == w.db && GoesOn(w, w', t, false)
  {
    hide Told;
  }

  lemma StageGoesOn(cfg: Config, w: World, k: Token, t: nat, r: Row, p: Worker, s: Story, findings: bool)
    requires Telling(cfg, w, k, t, r, p, s)
    ensures var w' := WorkStep(cfg, w, k, EnterStage(findings));
            t in w'.db.tasks && GoesOn(w, w', t, w'.db.log != w.db.log)
  {
    hide Told, AwaitDb, BeginDb, PreparedDb, SealedDb, CommitDb, RenewDb, FailDb, ManualDb, MarkCancelledDb, InterruptDb;
  }

  lemma WriteGoesOn(cfg: Config, w: World, k: Token, t: nat, r: Row, p: Worker, s: Story, a: WorkerStep)
    requires Telling(cfg, w, k, t, r, p, s)
    requires a.Start? || a.RecordPrepared? || a.RecordSeal? || a.RecordCommit? || a.Raise? || a.Crash?
    ensures var w' := WorkStep(cfg, w, k, a);
            t in w'.db.tasks && w'.db.log == w.db.log && GoesOn(w, w', t, false)
  {
    hide WorkStep, GoesOn, Telling;
    if a.RecordSeal? {
      SealGoesOn(cfg, w, k, t, r, p, s, a);
    } else if a.RecordCommit? {
      CommitGoesOn(cfg, w, k, t, r, p, s, a);
    } else {
      BeginningGoesOn(cfg, w, k, t, r, p, s, a);
    }
  }

  lemma BeginningGoesOn(cfg: Config, w: World, k: Token, t: nat, r: Row, p: Worker, s: Story, a: WorkerStep)
    requires Telling(cfg, w, k, t, r, p, s) && (a.Start? || a.RecordPrepared? || a.Raise? || a.Crash?)
    ensures var w' := WorkStep(cfg, w, k, a);
            t in w'.db.tasks && w'.db.log == w.db.log && GoesOn(w, w', t, false)
  {
    hide Told, AwaitDb, BeginDb, SealedDb, CommitDb, FailDb, ManualDb, MarkCancelledDb, InterruptDb, StageDb, StageOutcome;
  }

  lemma SealGoesOn(cfg: Config, w: World, k: Token, t: nat, r: Row, p: Worker, s: Story, a: WorkerStep)
    requires Telling(cfg, w, k, t, r, p, s) && a.RecordSeal?
    ensures var w' := WorkStep(cfg, w, k, a);
            t in w'.db.tasks && w'.db.log == w.db.log && GoesOn(w, w', t, false)
  {
    hide Told, AwaitDb, BeginDb, PreparedDb, RenewDb, CommitDb, FailDb, ManualDb, MarkCancelledDb, InterruptDb, StageDb, StageOutcome;
  }

  lemma CommitGoesOn(cfg: Config, w: World, k: Token, t: nat, r: Row, p: Worker, s: Story, a: WorkerStep)
    requires Telling(cfg, w, k, t, r, p, s) && a.RecordCommit?
    ensures var w' := WorkStep(cfg, w, k, a);
            t in w'.db.tasks && w'.db.log == w.db.log && GoesOn(w, w', t, false)
  {
    hide Told, AwaitDb, BeginDb, PreparedDb, RenewDb, SealedDb, FailDb, ManualDb, MarkCancelledDb, InterruptDb, StageDb, StageOutcome;
  }

  lemma PublishGoesOn(cfg: Config, w: World, k: Token, t: nat, r: Row, p: Worker, s: Story, a: WorkerStep)
    requires Telling(cfg, w, k, t, r, p, s) && (a.Begin? || a.RecordPublished?)
    ensures var w' := WorkStep(cfg, w, k, a);
            t in w'.db.tasks && GoesOn(w, w', t, w'.db.log != w.db.log)
  {
    hide Told;
  }

  lemma HandleGoesOn(cfg: Config, w: World, k: Token, t: nat, r: Row, p: Worker, s: Story)
    requires Telling(cfg, w, k, t, r, p, s) && p.pc.Handling?
    ensures var w' := WorkStep(cfg, w, k, Handle);
            t in w'.db.tasks && GoesOn(w, w', t, w'.db.log != w.db.log)
  {
    hide WorkStep, GoesOn, Telling;
    if p.pc.handler.OnFailure? {
      FailureGoesOn(cfg, w, k, t, r, p, s);
    } else {
      OtherEndGoesOn(cfg, w, k, t, r, p, s);
    }
  }

  lemma FailureGoesOn(cfg: Config, w: World, k: Token, t: nat, r: Row, p: Worker, s: Story)
    requires Telling(cfg, w, k, t, r, p, s) && p.pc.Handling? && p.pc.handler.OnFailure?
    ensures var w' := WorkStep(cfg, w, k, Handle);
            t in w'.db.tasks && GoesOn(w, w', t, w'.db.log != w.db.log)
  {
    hide Told, ManualDb, MarkCancelledDb, InterruptDb;
  }

  lemma OtherEndGoesOn(cfg: Config, w: World, k: Token, t: nat, r: Row, p: Worker, s: Story)
    requires Telling(cfg, w, k, t, r, p, s) && p.pc.Handling? && !p.pc.handler.OnFailure?
    ensures var w' := WorkStep(cfg, w, k, Handle);
            t in w'.db.tasks && GoesOn(w, w', t, w'.db.log != w.db.log)
  {
    hide Told, FailDb;
    match p.pc.handler
    case OnReportInvalid =>
    case OnCancelled =>
    case OnInterrupt =>
  }

  lemma WorkKeepsTold(cfg: Config, w: World, k: Token, a: WorkerStep)
    requires Inv(cfg, w) && AllTold(w)
    ensures AllTold(WorkStep(cfg, w, k, a))
  {
    if k in w.workers {
      var t := w.workers[k].task;
      LocalOf(cfg, w, k);
      WorkOutline(cfg, w, k, a);
      var w' := WorkStep(cfg, w, k, a);
      assert StoryOk(w, t);
      if !Holds(w.db, t, k) {
        StaleGoesOn(cfg, w, k, a);
      } else {
        var r, p, s := w.db.tasks[t], w.workers[k], Told(w.db.log, t).value;
        assert Telling(cfg, w, k, t, r, p, s);
        hide WorkStep, Telling, GoesOn, Told, AllTold, Inv;
        match a
        case Load => LoadGoesOn(cfg, w, k, t, r, p, s);
        case EnterStage(findings) => StageGoesOn(cfg, w, k, t, r, p, s, findings);
        case Begin(_) => PublishGoesOn(cfg, w, k, t, r, p, s, a);
        case RecordPublished(_, _, _) => PublishGoesOn(cfg, w, k, t, r, p, s, a);
        case Handle =>
          if p.pc.Handling? {
            HandleGoesOn(cfg, w, k, t, r, p, s);
          } else {
            IdleHandle(cfg, w, k, t, r, p, s);
          }
        case _ => WriteGoesOn(cfg, w, k, t, r, p, s, a);
      }
      RewriteKeepsTold(cfg, w, w', t, w'.db.log != w.db.log);
    }
  }

  lemma IdleHandle(cfg: Config, w: World, k: Token, t: nat, r: Row, p: Worker, s: Story)
    requires Telling(cfg, w, k, t, r, p, s) && !p.pc.Handling?
    ensures WorkStep(cfg, w, k, Handle) == w && GoesOn(w, w, t, false)
  {
    hide Told;
  }

  // ---------------------------------------------------------------- steps of everyone else

  lemma CommandKeepsTold(cfg: Config, w: World, a: Action)
    requires Inv(cfg, w) && AllTold(w) && IsCommand(a)
    ensures AllTold(Act(cfg, w, a))
  {
    hide Act, Commanded;
    CommandShape(cfg, w, a);
    if Applies(w, a) {
      var t := a.task;
      RowOf(cfg, w, t);
      assert StoryOk(w, t);
      var w' := Act(cfg, w, a);
      assert Rewrites(w, w', t, !a.Renew?);
      hide Inv, AllTold, Told;
      CommandGoesOn(cfg, w, a);
      RewriteKeepsTold(cfg, w, w', t, !a.Renew?);
    }
  }

  lemma CommandGoesOn(cfg: Config, w: World, a: Action)
    requires IsCommand(a) && Applies(w, a) && RowOk(cfg, a.task, w.db.tasks[a.task], w.sealed)
    requires Told(w.db.log, a.task).Some? && Fits(w.db.tasks[a.task], Told(w.db.log, a.task).value, w.workers)
    ensures var w' := WithDb(w, ByCommand(cfg, w, a));
            a.task in w'.db.tasks && GoesOn(w, w', a.task, !a.Renew?)
  {
    hide Told, Allowed, Fits, Continued, Commanded;
    CommandRowGoesOn(cfg, w, a, w.db.tasks[a.task], Told(w.db.log, a.task).value);
  }

  lemma CommandRowGoesOn(cfg: Config, w: World, a: Action, r: Row, s: Story)
    requires IsCommand(a) && Applies(w, a) && r == w.db.tasks[a.task] && RowOk(cfg, a.task, r, w.sealed) && Fits(r, s, w.workers)
    ensures var r' := Commanded(cfg, w, a, r);
            if a.Renew? then r'.status == r.status && Fits(r', s, w.workers)
            else Allowed(s, r'.status) && Fits(r', Continued(s, r'.status), w.workers)
  {
    if a.Recover? {
      RecoveryGoesOn(cfg, w, a.task, r, s);
    }
  }

  lemma RecoveryGoesOn(cfg: Config, w: World, t: nat, r: Row, s: Story)
    requires RowOk(cfg, t, r, w.sealed) && Fits(r, s, w.workers) && Due(r, w.now)
    ensures var r' := Recovered(r, w.now);
            Allowed(s, r'.status) && Fits(r', Continued(s, r'.status), w.workers)
  {
  }

  lemma ClaimKeepsTold(cfg: Config, w: World, t: nat, k: Token)
    requires Inv(cfg, w) && AllTold(w)
    ensures AllTold(ClaimStep(cfg, w, t, k))
  {
    if k !in w.issued && Claimable(w.db, t, cfg.limits) {
      RowOf(cfg, w, t);
      assert StoryOk(w, t);
      var w' := ClaimStep(cfg, w, t, k);
      assert k !in w.workers;
      assert Rewrites(w, w', t, true);
      assert GoesOn(w, w', t, true);
      hide Inv, AllTold, Told, GoesOn, Rewrites;
      RewriteKeepsTold(cfg, w, w', t, true);
    }
  }

  lemma DispatchKeepsTold(cfg: Config, w: World, i: nat, u: nat, t: nat, priority: int)
    requires AllTold(w)
    ensures AllTold(Act(cfg, w, Dispatch(i, u, t, priority)))
  {
    var w' := Act(cfg, w, Dispatch(i, u, t, priority));
    forall x: nat ensures StoryOk(w', x) {
      assert StoryOk(w, x);
    }
  }

  lemma SameTasksKeepTold(w: World, w': World)
    requires AllTold(w) && w'.db.tasks == w.db.tasks && w'.db.log == w.db.log && w'.workers == w.workers
    ensures AllTold(w')
  {
    forall t: nat ensures StoryOk(w', t) {
      assert StoryOk(w, t);
    }
  }

  lemma ActKeepsTold(cfg: Config, w: World, a: Action)
    requires Inv(cfg, w) && AllTold(w)
    ensures AllTold(Act(cfg, w, a))
  {
    hide Inv, AllTold;
    match a
    case Work(k, s) => WorkKeepsTold(cfg, w, k, s);
    case Claim(t, k) => ClaimKeepsTold(cfg, w, t, k);
    case Dispatch(i, u, t, priority) => DispatchKeepsTold(cfg, w, i, u, t, priority);
    case Elapse(_) => SameTasksKeepTold(w, Act(cfg, w, a));
    case AddUser(_, _) => SameTasksKeepTold(w, Act(cfg, w, a));
    case SetActive(_, _) => SameTasksKeepTold(w, Act(cfg, w, a));
    case SetEnabled(_, _) => SameTasksKeepTold(w, Act(cfg, w, a));
    case UpsertIssue(_, _, _) => SameTasksKeepTold(w, Act(cfg, w, a));
    case Ignore(_, _) => SameTasksKeepTold(w, Act(cfg, w, a));
    case Restore(_, _) => SameTasksKeepTold(w, Act(cfg, w, a));
    case _ => CommandKeepsTold(cfg, w, a);
  }

  lemma {:induction false} RunKeepsTold(cfg: Config, w: World, actions: seq<Action>)
    requires Inv(cfg, w) && AllTold(w)
    ensures Inv(cfg, Run(cfg, w, actions)) && AllTold(Run(cfg, w, actions))
    decreases |actions|
  {
    hide Inv, AllTold, Act;
    if actions != [] {
      ActKeepsInv(cfg, w, actions[0]);
      ActKeepsTold(cfg, w, actions[0]);
      RunKeepsTold(cfg, Act(cfg, w, actions[0]), actions[1..]);
    }
  }

  /** On every run the log of each task tells a story that fits its row. */
  lemma StoriesAreTold(cfg: Config, now: int, actions: seq<Action>, t: nat)
    ensures Told(Run(cfg, Initial(now), actions).db.log, t).Some?
  {
    RunKeepsTold(cfg, Initial(now), actions);
    assert StoryOk(Run(cfg, Initial(now), actions), t);
  }

  // ---------------------------------------------------------------- reading the log

  /** The last record of task `t` before position `n`. */
  function Prev(log: seq<Transition>, t: nat, n: nat): (i: Option<nat>)
    requires n <= |log|
    ensures i.Some? ==> i.value < n && log[i.value].task == t && forall m :: i.value < m < n ==> log[m].task != t
    ensures i.None? ==> forall m :: 0 <= m < n ==> log[m].task != t
  {
    if n == 0 then None else if log[n - 1].task == t then Some(n - 1) else Prev(log, t, n - 1)
  }

  lemma {:induction false} ToldOfPrefix(log: seq<Transition>, t: nat, n: nat)
    requires n <= |log| && Told(log, t).Some?
    ensures Told(log[..n], t).Some?
    decreases |log|
  {
    if n < |log| {
      assert log[..|log| - 1][..n] == log[..n];
      ToldOfPrefix(log[..|log| - 1], t, n);
    } else {
      assert log[..n] == log;
    }
  }

  /** The story up to any point is that of the record before, gone on by it. */
  lemma {:induction false} ToldByPrev(log: seq<Transition>, t: nat, n: nat)
    requires n <= |log| && Told(log, t).Some?
    ensures var i := Prev(log, t, n);
            if i.None? then Told(log[..n], t) == Some(BEGINNING)
            else
              var before := Told(log[..i.value], t);
              && before.Some? && before.value.status == log[i.value].from && Allowed(before.value, log[i.value].to)
              && Told(log[..n], t) == Some(Continued(before.value, log[i.value].to))
    decreases n
  {
    if n == 0 {
      assert log[..0] == [];
    } else {
      assert log[..n][..n - 1] == log[..n - 1] && log[..n][n - 1] == log[n - 1];
      ToldOfPrefix(log, t, n);
      ToldOfPrefix(log, t, n - 1);
      if log[n - 1].task != t {
        ToldByPrev(log, t, n - 1);
      }
    }
  }

  /** What a record says of the two before it. */
  lemma ToldBack(log: seq<Transition>, t: nat, k: nat)
    requires k < |log| && log[k].task == t && Told(log, t).Some?
    ensures Told(log[..k], t).Some? && Told(log[..k], t).value.status == log[k].from && Allowed(Told(log[..k], t).value, log[k].to)
    ensures Prev(log, t, k).None? ==> Told(log[..k], t).value == BEGINNING
    ensures Prev(log, t, k).Some? ==>
              var j := Prev(log, t, k).value;
              && log[j].to == log[k].from
              && Told(log[..j], t).Some? && Told(log[..j], t).value.status == log[j].from && Allowed(Told(log[..j], t).value, log[j].to)
              && Told(log[..k], t).value == Continued(Told(log[..j], t).value, log[j].to)
  {
    assert Prev(log, t, k + 1) == Some(k);
    ToldByPrev(log, t, k + 1);
    ToldByPrev(log, t, k);
  }

  /** The record says that the claim ended. */
  predicate GaveUp(to: Status) { to == Cancelling || to == Failed || to == ManualIntervention }

  /** Record `k`, which leaves preparing, goes where the past of its task sends it. */
  ghost predicate FollowsPast(log: seq<Transition>, k: nat)
    requires k < |log|
  {
    var t, to := log[k].task, log[k].to;
    var j := Prev(log, t, k);
    && j.Some? && log[j.value] == Transition(t, Queued, Preparing)
    && var i := Prev(log, t, j.value);
       && (i.None? ==> to == DeveloperWorking || GaveUp(to))
       && (i.Some? ==>
             && log[i.value].to == Queued
             && (if log[i.value].from == AwaitingHumanReview then to == DeveloperRevising || GaveUp(to)
                 else log[i.value].from in {Failed, ManualIntervention, Publishing} && (to == Publishing || GaveUp(to))))
  }

  lemma ToldFollowsPast(log: seq<Transition>, k: nat)
    requires k < |log| && log[k].from == Preparing && Told(log, log[k].task).Some?
    ensures FollowsPast(log, k)
  {
    hide Told, Prev;
    var t := log[k].task;
    ToldBack(log, t, k);
    var j := Prev(log, t, k).value;
    ToldBack(log, t, j);
    if Prev(log, t, j).Some? {
      ToldBack(log, t, Prev(log, t, j).value);
    }
  }

  /** On every run a claimed task goes where its past sends it, or gives up: to development if nothing
      came before, to revision if it was queued out of review, to publication if it was queued after a
      failure, by hand, or by recovery of a publication. */
  lemma ProgramFollowsPast(cfg: Config, now: int, actions: seq<Action>, k: nat)
    requires k < |Run(cfg, Initial(now), actions).db.log|
    requires Run(cfg, Initial(now), actions).db.log[k].from == Preparing
    ensures FollowsPast(Run(cfg, Initial(now), actions).db.log, k)
  {
    hide *;
    StoriesAreTold(cfg, now, actions, Run(cfg, Initial(now), actions).db.log[k].task);
    ToldFollowsPast(Run(cfg, Initial(now), actions).db.log, k);
  }

  /** Reviewing is left for revision or sealing only after exactly two reviews, and sealing comes
      straight after the second, or after a revision that came after it or out of a claim for feedback. */
  ghost predicate ReviewedTwice(log: seq<Transition>, k: nat)
    requires k < |log|
  {
    var t := log[k].task;
    var j := Prev(log, t, k);
    && (log[k].from == Reviewing && log[k].to in {DeveloperRevising, Sealing} ==>
          && j.Some? && log[j.value] == Transition(t, Reviewing, Reviewing)
          && var i := Prev(log, t, j.value);
             i.Some? && log[i.value] == Transition(t, DeveloperWorking, Reviewing))
    && (log[k].to == Sealing ==>
          || log[k].from == Reviewing
          || (log[k].from == DeveloperRevising && j.Some? && log[j.value].to == DeveloperRevising
              && log[j.value].from in {Reviewing, Preparing}))
  }

  lemma ToldReviewedTwice(log: seq<Transition>, k: nat)
    requires k < |log| && Told(log, log[k].task).Some?
    ensures ReviewedTwice(log, k)
  {
    hide Told, Prev;
    var t := log[k].task;
    ToldBack(log, t, k);
    if Prev(log, t, k).Some? {
      var j := Prev(log, t, k).value;
      ToldBack(log, t, j);
      if Prev(log, t, j).Some? {
        ToldBack(log, t, Prev(log, t, j).value);
      }
    }
  }

  lemma TwoReviewsBeforeSealing(cfg: Config, now: int, actions: seq<Action>, k: nat)
    requires k < |Run(cfg, Initial(now), actions).db.log|
    ensures ReviewedTwice(Run(cfg, Initial(now), actions).db.log, k)
  {
    hide *;
    StoriesAreTold(cfg, now, actions, Run(cfg, Initial(now), actions).db.log[k].task);
    ToldReviewedTwice(Run(cfg, Initial(now), actions).db.log, k);
  }

  // ---------------------------------------------------------------- what findings lead to

  /** The next record of `t` from position `n` on has not been written. */
  ghost predicate Undecided(w: World, k: Token, t: nat, findings: bool, n: nat) {
    && n <= |w.db.log| && (forall j :: n <= j < |w.db.log| ==> w.db.log[j].task != t)
    && t in w.db.tasks && w.db.tasks[t].status == Reviewing && w.db.tasks[t].claim == Some(k)
    && k in w.workers && w.workers[k].task == t && k in w.issued
    && var pc := w.workers[k].pc;
       pc.Handling? || pc.Finished? || (if findings then pc.Revising? else pc.SealStarting?)
  }

  /** It has, and it is a revision if there were findings, and sealing if there were none, or the end
      of the claim. */
  ghost predicate Decided(log: seq<Transition>, t: nat, findings: bool, n: nat, j: nat) {
    && n <= j < |log| && log[j].task == t && (forall m :: n <= m < j ==> log[m].task != t)
    && (log[j].to == (if findings then DeveloperRevising else Sealing) || GaveUp(log[j].to))
  }

  lemma DecidedStays(log: seq<Transition>, more: seq<Transition>, t: nat, findings: bool, n: nat, j: nat)
    requires Decided(log, t, findings, n, j)
    ensures Decided(log + more, t, findings, n, j)
  {
  }

  lemma WorkDecides(cfg: Config, w: World, k: Token, t: nat, findings: bool, n: nat, k': Token, s: WorkerStep)
    requires Inv(cfg, w) && Undecided(w, k, t, findings, n)
    ensures var w' := WorkStep(cfg, w, k', s);
            Undecided(w', k, t, findings, n) || Decided(w'.db.log, t, findings, n, |w.db.log|)
  {
    hide Inv, WorkStep, Undecided, Decided;
    if k' !in w.workers {
      StrangerDoesNothing(cfg, w, k', s);
    } else if k' == k {
      HolderDecides(cfg, w, k, t, findings, n, s);
    } else {
      LocalOf(cfg, w, k');
      WorkOutline(cfg, w, k', s);
      if w.workers[k'].task == t {
        NotTheHolder(w, k, t, findings, n, k');
        StaleWorkerChangesNothing(cfg, w, k', s);
      }
      OtherWorkerDecides(w, WorkStep(cfg, w, k', s), k, t, findings, n, k');
    }
  }

  lemma StrangerDoesNothing(cfg: Config, w: World, k: Token, s: WorkerStep)
    requires k !in w.workers
    ensures WorkStep(cfg, w, k, s) == w
  {
  }

  lemma NotTheHolder(w: World, k: Token, t: nat, findings: bool, n: nat, k': Token)
    requires Undecided(w, k, t, findings, n) && k' != k
    ensures !Holds(w.db, t, k')
  {
  }

  lemma OtherWorkerDecides(w: World, w': World, k: Token, t: nat, findings: bool, n: nat, k': Token)
    requires Undecided(w, k, t, findings, n) && k' in w.workers && k' != k
    requires Rewrites(w, w', w.workers[k'].task, w'.db.log != w.db.log)
    requires k' in w'.workers && w'.workers == w.workers[k' := w'.workers[k']]
    requires w.workers[k'].task == t ==> w'.db == w.db
    requires w'.issued == w.issued
    ensures Undecided(w', k, t, findings, n)
  {
  }

  lemma HolderDecides(cfg: Config, w: World, k: Token, t: nat, findings: bool, n: nat, s: WorkerStep)
    requires Undecided(w, k, t, findings, n)
    ensures var w' := WorkStep(cfg, w, k, s);
            Undecided(w', k, t, findings, n) || Decided(w'.db.log, t, findings, n, |w.db.log|)
  {
    hide Undecided, Decided, WorkStep;
    if s.Handle? {
      HandlerDecides(cfg, w, k, t, findings, n);
    } else {
      ProgramDecides(cfg, w, k, t, findings, n, s);
    }
  }

  lemma HandlerDecides(cfg: Config, w: World, k: Token, t: nat, findings: bool, n: nat)
    requires Undecided(w, k, t, findings, n)
    ensures var w' := WorkStep(cfg, w, k, Handle);
            Undecided(w', k, t, findings, n) || Decided(w'.db.log, t, findings, n, |w.db.log|)
  {
    if w.workers[k].pc.Handling? {
      match w.workers[k].pc.handler
      case OnFailure(_) =>
      case OnReportInvalid =>
      case OnCancelled =>
      case OnInterrupt =>
    }
  }

  lemma ProgramDecides(cfg: Config, w: World, k: Token, t: nat, findings: bool, n: nat, s: WorkerStep)
    requires Undecided(w, k, t, findings, n) && !s.Handle?
    ensures var w' := WorkStep(cfg, w, k, s);
            Undecided(w', k, t, findings, n) || Decided(w'.db.log, t, findings, n, |w.db.log|)
  {
    hide AwaitDb, BeginDb, FailDb, ManualDb, MarkCancelledDb, InterruptDb;
  }

  lemma CommandDecides(cfg: Config, w: World, k: Token, t: nat, findings: bool, n: nat, a: Action)
    requires Undecided(w, k, t, findings, n) && IsCommand(a) && Applies(w, a)
    ensures var w' := WithDb(w, ByCommand(cfg, w, a));
            Undecided(w', k, t, findings, n) || Decided(w'.db.log, t, findings, n, |w.db.log|)
  {
  }

  lemma ClaimDecides(cfg: Config, w: World, k: Token, t: nat, findings: bool, n: nat, t': nat, k': Token)
    requires Undecided(w, k, t, findings, n)
    ensures Undecided(ClaimStep(cfg, w, t', k'), k, t, findings, n)
  {
    hide HasRoom;
  }

  lemma SameTasksDecide(w: World, w': World, k: Token, t: nat, findings: bool, n: nat)
    requires Undecided(w, k, t, findings, n)
    requires (forall u :: u in w.db.tasks ==> u in w'.db.tasks && w'.db.tasks[u] == w.db.tasks[u])
    requires w'.db.log == w.db.log && w'.workers == w.workers && w'.issued == w.issued
    ensures Undecided(w', k, t, findings, n)
  {
  }

  lemma ActDecides(cfg: Config, w: World, k: Token, t: nat, findings: bool, n: nat, a: Action)
    requires Inv(cfg, w) && Undecided(w, k, t, findings, n)
    ensures var w' := Act(cfg, w, a);
            Undecided(w', k, t, findings, n) || Decided(w'.db.log, t, findings, n, |w.db.log|)
  {
    hide Inv, Undecided, Decided, WorkStep, ClaimStep, ByCommand, Commanded;
    if a.Work? {
      WorkDecides(cfg, w, k, t, findings, n, a.token, a.step);
    } else if IsCommand(a) {
      CommandShape(cfg, w, a);
      hide Act;
      if Applies(w, a) {
        CommandDecides(cfg, w, k, t, findings, n, a);
      }
    } else if a.Claim? {
      ClaimDecides(cfg, w, k, t, findings, n, a.task, a.token);
    } else {
      SameTasksDecide(w, Act(cfg, w, a), k, t, findings, n);
    }
  }

  lemma StepOnlyLogs(cfg: Config, w: World, a: Action)
    requires Inv(cfg, w)
    ensures w.db.log <= Act(cfg, w, a).db.log
  {
    if a.Work? {
      if a.token in w.workers {
        LocalOf(cfg, w, a.token);
        WorkOutline(cfg, w, a.token, a.step);
        hide WorkStep;
      }
    } else if IsCommand(a) {
      hide Act;
      CommandShape(cfg, w, a);
    }
  }

  /** The run from a state with the decision open ends with it open still, or taken as it should. */
  lemma {:induction false} RunDecides(cfg: Config, w: World, actions: seq<Action>, k: Token, t: nat, findings: bool, n: nat)
    requires Inv(cfg, w) && (Undecided(w, k, t, findings, n) || exists j: nat :: Decided(w.db.log, t, findings, n, j))
    ensures var v := Run(cfg, w, actions);
            Undecided(v, k, t, findings, n) || exists j: nat :: Decided(v.db.log, t, findings, n, j)
    decreases |actions|
  {
    if actions != [] {
      var next := Act(cfg, w, actions[0]);
      ActKeepsInv(cfg, w, actions[0]);
      StepOnlyLogs(cfg, w, actions[0]);
      if Undecided(w, k, t, findings, n) {
        ActDecides(cfg, w, k, t, findings, n, actions[0]);
      } else {
        var j: nat :| Decided(w.db.log, t, findings, n, j);
        assert next.db.log == w.db.log + next.db.log[|w.db.log|..];
        DecidedStays(w.db.log, next.db.log[|w.db.log|..], t, findings, n, j);
      }
      hide Inv, Act, Undecided, Decided;
      RunDecides(cfg, next, actions[1..], k, t, findings, n);
    }
  }

  /** On every run: once a worker's step into the second review is accepted, with or without findings, the
      next record of that task is a revision exactly if there were findings and sealing exactly if
      there were none, unless the claim ends there. */
  lemma FindingsDecide(cfg: Config, w: World, k: Token, findings: bool, actions: seq<Action>, j: nat)
    requires Inv(cfg, w) && k in w.workers
    requires Act(cfg, w, Work(k, EnterStage(findings))).db.log == w.db.log + [Transition(w.workers[k].task, Reviewing, Reviewing)]
    requires var log, t := Run(cfg, Act(cfg, w, Work(k, EnterStage(findings))), actions).db.log, w.workers[k].task;
             |w.db.log| + 1 <= j < |log| && log[j].task == t && forall m :: |w.db.log| + 1 <= m < j ==> log[m].task != t
    ensures var to := Run(cfg, Act(cfg, w, Work(k, EnterStage(findings))), actions).db.log[j].to;
            to == (if findings then DeveloperRevising else Sealing) || GaveUp(to)
  {
    hide *;
    var t, n := w.workers[k].task, |w.db.log| + 1;
    var w1 := Act(cfg, w, Work(k, EnterStage(findings)));
    LocalOf(cfg, w, k);
    ActKeepsInv(cfg, w, Work(k, EnterStage(findings)));
    SecondReview(cfg, w, k, findings);
    RunDecides(cfg, w1, actions, k, t, findings, n);
    DecidesRecord(Run(cfg, w1, actions), k, t, findings, n, j);
  }

  lemma DecidesRecord(w: World, k: Token, t: nat, findings: bool, n: nat, j: nat)
    requires Undecided(w, k, t, findings, n) || exists i: nat :: Decided(w.db.log, t, findings, n, i)
    requires n <= j < |w.db.log| && w.db.log[j].task == t && forall m :: n <= m < j ==> w.db.log[m].task != t
    ensures w.db.log[j].to == (if findings then DeveloperRevising else Sealing) || GaveUp(w.db.log[j].to)
  {
    assert !Undecided(w, k, t, findings, n);
    var i: nat :| Decided(w.db.log, t, findings, n, i);
    assert i == j;
  }

  lemma SecondReview(cfg: Config, w: World, k: Token, findings: bool)
    requires Inv(cfg, w) && k in w.workers && w.workers[k].task in w.db.tasks
    requires Act(cfg, w, Work(k, EnterStage(findings))).db.log == w.db.log + [Transition(w.workers[k].task, Reviewing, Reviewing)]
    ensures Undecided(Act(cfg, w, Work(k, EnterStage(findings))), k, w.workers[k].task, findings, |w.db.log| + 1)
  {
    hide Act, Inv, WorkStep, Undecided;
    LocalOf(cfg, w, k);
    ActIsWork(cfg, w, k, EnterStage(findings));
    IsIssued(cfg, w, k);
    SecondReviewOf(cfg, w, k, findings, w.workers[k].task, w.db.tasks[w.workers[k].task], w.workers[k]);
  }

  lemma IsIssued(cfg: Config, w: World, k: Token)
    requires Inv(cfg, w) && k in w.workers
    ensures k in w.issued
  {
  }

  lemma SecondReviewOf(cfg: Config, w: World, k: Token, findings: bool, t: nat, r: Row, p: Worker)
    requires k in w.workers && p == w.workers[k] && t == p.task && t in w.db.tasks && r == w.db.tasks[t] && Local(cfg, t, k, r, p, w.sealed)
    requires k in w.issued
    requires WorkStep(cfg, w, k, EnterStage(findings)).db.log == w.db.log + [Transition(t, Reviewing, Reviewing)]
    ensures Undecided(WorkStep(cfg, w, k, EnterStage(findings)), k, t, findings, |w.db.log| + 1)
  {
    var v := WorkStep(cfg, w, k, EnterStage(findings));
    assert v.db.log[|w.db.log|] == Transition(t, Reviewing, Reviewing);
    assert StageOf(p.pc).Some? && StageOutcome(w.db, t, StageOf(p.pc).value, k) == Advanced;
    assert p.pc.ReviewingB?;
  }
}
