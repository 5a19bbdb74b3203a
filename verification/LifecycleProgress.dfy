/** Where a worker gets that nobody disturbs: from the queue to a pull request under review, whichever of
    the three programs its task asks for. */
module LifecycleProgress {
  import opened Values
  import opened TaskTable
  import opened Lifecycle

  /** What Git, the agents and the forge hand to a worker on the way. */
  datatype Facts = Facts(
    workspace: Path, base: Commit, branch: Path,
    findings: bool,
    sealedTree: Tree, commit: Commit,
    key: nat, url: Path, number: nat, state: PrState)

  /** Worker `k` stands at `p`, and its task has row `r`; `log` is the whole transition log. */
  predicate At(w: World, k: Token, p: Worker, r: Row, log: seq<Transition>) {
    && k in w.workers && w.workers[k] == p
    && p.task in w.db.tasks && w.db.tasks[p.task] == r
    && r.claim == Some(k) && r.expires.Some? && r.expires.value > w.now
    && w.db.log == log
  }

  /** The same once the claim has been given up. */
  predicate Left(w: World, t: nat, r: Row, log: seq<Transition>) {
    t in w.db.tasks && w.db.tasks[t] == r && w.db.log == log
  }

  // ---------------------------------------------------------------- one step after the other

  lemma Claims(cfg: Config, w: World, t: nat, k: Token)
    requires k !in w.issued && Claimable(w.db, t, cfg.limits) && cfg.limits.lease > 0
    ensures var w', r := Act(cfg, w, Claim(t, k)), w.db.tasks[t];
            && w'.now == w.now
            && At(w', k, Worker(t, Starting, None),
                  r.(status := Preparing, claim := Some(k), expires := Some(w.now + cfg.limits.lease),
                     startedAt := if r.startedAt == None then Some(w.now) else r.startedAt, finishedAt := None),
                  w.db.log + [Transition(t, Queued, Preparing)])
  {
  }

  lemma Starts(cfg: Config, w: World, k: Token, t: nat, r: Row, log: seq<Transition>)
    requires At(w, k, Worker(t, Starting, None), r, log) && r.status == Preparing && cfg.limits.lease > 0
    ensures var w' := Act(cfg, w, Work(k, Start));
            w'.now == w.now && At(w', k, Worker(t, Loading, None), r.(expires := Some(w.now + cfg.limits.lease)), log)
  {
  }

  lemma Loads(cfg: Config, w: World, k: Token, t: nat, r: Row, log: seq<Transition>)
    requires At(w, k, Worker(t, Loading, None), r, log)
    ensures var w' := Act(cfg, w, Work(k, Load));
            && w'.now == w.now
            && (r.code !in {Some(FeedbackRevision), Some(PublishExisting)} ==>
                  At(w', k, Worker(t, PrepareRecording, None), r, log))
            && (r.code == Some(FeedbackRevision) && r.workspace.Some? && r.branch.Some? && r.prNumber.Some? ==>
                  At(w', k, Worker(t, Addressing, None), r, log))
            && (r.code == Some(PublishExisting) && r.workspace.Some? && r.branch.Some? && r.commit.Some? ==>
                  At(w', k, Worker(t, PublishStarting, None), r, log))
  {
  }

  lemma Prepares(cfg: Config, w: World, k: Token, t: nat, r: Row, log: seq<Transition>, f: Facts)
    requires At(w, k, Worker(t, PrepareRecording, None), r, log) && r.status == Preparing
    ensures var w' := Act(cfg, w, Work(k, RecordPrepared(f.workspace, f.base, f.branch)));
            && w'.now == w.now
            && At(w', k, Worker(t, Developing, None),
                  r.(workspace := Some(f.workspace), baseCommit := Some(f.base), branch := Some(f.branch)), log)
  {
  }

  /** The stages, each with the status it is entered from, its own, and the point it leads to. */
  predicate Stage(pc: Pc, findings: bool, from: Status, to: Status, next: Pc) {
    || (pc == Developing && from == Preparing && to == DeveloperWorking && next == ReviewingA)
    || (pc == ReviewingA && from == DeveloperWorking && to == Reviewing && next == ReviewingB)
    || (pc == ReviewingB && from == Reviewing && to == Reviewing && next == if findings then Revising else SealStarting)
    || (pc == Revising && from == Reviewing && to == DeveloperRevising && next == SealStarting)
    || (pc == Addressing && from == Preparing && to == DeveloperRevising && next == SealStarting)
    || (pc == SealStarting && from in {Reviewing, DeveloperRevising} && to == Sealing && next == SealRecording)
  }

  lemma Enters(cfg: Config, w: World, k: Token, t: nat, pc: Pc, r: Row, log: seq<Transition>, findings: bool, to: Status, next: Pc)
    requires At(w, k, Worker(t, pc, None), r, log) && Stage(pc, findings, r.status, to, next)
    ensures var w' := Act(cfg, w, Work(k, EnterStage(findings)));
            && w'.now == w.now
            && At(w', k, Worker(t, next, None), r.(status := to), log + [Transition(t, r.status, to)])
  {
  }

  lemma Seals(cfg: Config, w: World, k: Token, t: nat, r: Row, log: seq<Transition>, f: Facts)
    requires At(w, k, Worker(t, SealRecording, None), r, log) && r.status == Sealing
    ensures var w' := Act(cfg, w, Work(k, RecordSeal(f.sealedTree)));
            && w'.now == w.now
            && At(w', k, Worker(t, CommitRecording, Some(f.sealedTree)), r.(reviewedTree := Some(f.sealedTree)), log)
  {
  }

  lemma Commits(cfg: Config, w: World, k: Token, t: nat, r: Row, log: seq<Transition>, f: Facts)
    requires At(w, k, Worker(t, CommitRecording, Some(f.sealedTree)), r, log) && r.status == Sealing
    requires cfg.treeOf(f.commit) == f.sealedTree
    ensures var w' := Act(cfg, w, Work(k, RecordCommit(f.commit)));
            && w'.now == w.now
            && At(w', k, Worker(t, PublishStarting, Some(f.sealedTree)), r.(commit := Some(f.commit)), log)
  {
  }

  lemma Begins(cfg: Config, w: World, k: Token, p: Worker, r: Row, log: seq<Transition>, f: Facts)
    requires At(w, k, p, r, log) && p.pc == PublishStarting && r.status in {Preparing, Sealing}
    ensures var w' := Act(cfg, w, Work(k, Begin(f.key)));
            && w'.now == w.now
            && At(w', k, p.(pc := AwaitRecording),
                  r.(status := Publishing, publicationKey := if r.publicationKey == None then Some(f.key) else r.publicationKey),
                  log + [Transition(p.task, r.status, Publishing)])
  {
  }

  lemma Publishes(cfg: Config, w: World, k: Token, p: Worker, r: Row, log: seq<Transition>, f: Facts)
    requires At(w, k, p, r, log) && p.pc == AwaitRecording && r.status == Publishing
    ensures Left(Act(cfg, w, Work(k, RecordPublished(f.url, f.number, f.state))), p.task, UnderReview(r, f, w.now),
                 log + [Transition(p.task, Publishing, AwaitingHumanReview)])
  {
  }

  /** The row of a task whose pull request has just been recorded. */
  function UnderReview(r: Row, f: Facts, now: int): Row {
    r.(status := AwaitingHumanReview, prUrl := Some(f.url), prNumber := Some(f.number), prState := Some(f.state),
       code := None, claim := None, expires := None, finishedAt := Some(now))
  }

  // ---------------------------------------------------------------- whole programs

  lemma RunFirst(cfg: Config, w: World, a: Action, rest: seq<Action>)
    ensures Run(cfg, w, [a] + rest) == Run(cfg, Act(cfg, w, a), rest)
  {
    hide Act;
    assert ([a] + rest)[1..] == rest;
  }

  lemma RunNothing(cfg: Config, w: World)
    ensures Run(cfg, w, []) == w
  {
  }

  function PublishSteps(k: Token, f: Facts): seq<Action> {
    [Work(k, Begin(f.key))] + ([Work(k, RecordPublished(f.url, f.number, f.state))] + [])
  }

  function FinalSteps(k: Token, f: Facts): seq<Action> {
    [Work(k, EnterStage(f.findings))] + ([Work(k, RecordSeal(f.sealedTree))] + ([Work(k, RecordCommit(f.commit))] + PublishSteps(k, f)))
  }

  /** Claim, start and load, and then what the program of the task asks for. */
  function FirstSteps(t: nat, k: Token, rest: seq<Action>): seq<Action> {
    [Claim(t, k)] + ([Work(k, Start)] + ([Work(k, Load)] + rest))
  }

  function NormalSteps(k: Token, f: Facts): seq<Action> {
    var enter := [Work(k, EnterStage(f.findings))];
    var last := if f.findings then enter + FinalSteps(k, f) else FinalSteps(k, f);
    [Work(k, RecordPrepared(f.workspace, f.base, f.branch))] + (enter + (enter + (enter + last)))
  }

  function FeedbackSteps(k: Token, f: Facts): seq<Action> {
    [Work(k, EnterStage(f.findings))] + FinalSteps(k, f)
  }

  /** A row as the scheduler's claim leaves it and the worker's first renewal finds it. */
  function Taken(cfg: Config, r: Row, k: Token, now: int): Row {
    r.(status := Preparing, claim := Some(k), expires := Some(now + cfg.limits.lease),
       startedAt := if r.startedAt == None then Some(now) else r.startedAt, finishedAt := None)
  }

  lemma PublishStepsPublish(cfg: Config, w: World, k: Token, p: Worker, r: Row, log: seq<Transition>, f: Facts)
    requires At(w, k, p, r, log) && p.pc == PublishStarting && r.status in {Preparing, Sealing}
    ensures Left(Run(cfg, w, PublishSteps(k, f)), p.task,
                 UnderReview(r.(publicationKey := if r.publicationKey == None then Some(f.key) else r.publicationKey), f, w.now),
                 log + [Transition(p.task, r.status, Publishing), Transition(p.task, Publishing, AwaitingHumanReview)])
  {
    hide Act, Run, At;
    var key := if r.publicationKey == None then Some(f.key) else r.publicationKey;
    var a, b := Work(k, Begin(f.key)), Work(k, RecordPublished(f.url, f.number, f.state));
    var w1 := Act(cfg, w, a);
    RunFirst(cfg, w, a, [b] + []);
    RunFirst(cfg, w1, b, []);
    RunNothing(cfg, Act(cfg, w1, b));
    Begins(cfg, w, k, p, r, log, f);
    Publishes(cfg, w1, k, p.(pc := AwaitRecording), r.(status := Publishing, publicationKey := key),
              log + [Transition(p.task, r.status, Publishing)], f);
    assert log + [Transition(p.task, r.status, Publishing)] + [Transition(p.task, Publishing, AwaitingHumanReview)]
        == log + [Transition(p.task, r.status, Publishing), Transition(p.task, Publishing, AwaitingHumanReview)];
  }

  /** The row in the end: the seal, the commit, the one publication key and the pull request. */
  function Finalized(r: Row, f: Facts, now: int): Row {
    UnderReview(r.(reviewedTree := Some(f.sealedTree), commit := Some(f.commit),
                   publicationKey := if r.publicationKey == None then Some(f.key) else r.publicationKey), f, now)
  }

  function FinalLog(t: nat, from: Status): seq<Transition> {
    [Transition(t, from, Sealing), Transition(t, Sealing, Publishing), Transition(t, Publishing, AwaitingHumanReview)]
  }

  lemma FinalStepsPublish(cfg: Config, w: World, k: Token, t: nat, r: Row, log: seq<Transition>, f: Facts)
    requires At(w, k, Worker(t, SealStarting, None), r, log) && r.status in {Reviewing, DeveloperRevising}
    requires cfg.treeOf(f.commit) == f.sealedTree
    ensures Left(Run(cfg, w, FinalSteps(k, f)), t, Finalized(r, f, w.now), log + FinalLog(t, r.status))
  {
    hide Act, Run, At, PublishSteps;
    var a, b, c := Work(k, EnterStage(f.findings)), Work(k, RecordSeal(f.sealedTree)), Work(k, RecordCommit(f.commit));
    var w1 := Act(cfg, w, a);
    var w2 := Act(cfg, w1, b);
    var w3 := Act(cfg, w2, c);
    RunFirst(cfg, w, a, [b] + ([c] + PublishSteps(k, f)));
    RunFirst(cfg, w1, b, [c] + PublishSteps(k, f));
    RunFirst(cfg, w2, c, PublishSteps(k, f));
    var r1, log1 := r.(status := Sealing), log + [Transition(t, r.status, Sealing)];
    Enters(cfg, w, k, t, SealStarting, r, log, f.findings, Sealing, SealRecording);
    Seals(cfg, w1, k, t, r1, log1, f);
    Commits(cfg, w2, k, t, r1.(reviewedTree := Some(f.sealedTree)), log1, f);
    PublishStepsPublish(cfg, w3, k, Worker(t, PublishStarting, Some(f.sealedTree)),
                        r1.(reviewedTree := Some(f.sealedTree), commit := Some(f.commit)), log1, f);
    assert log1 + [Transition(t, Sealing, Publishing), Transition(t, Publishing, AwaitingHumanReview)] == log + FinalLog(t, r.status);
  }

  /** Whatever the program, a claimed worker gets to its loading point, and the claim is recorded. */
  lemma FirstStepsLoad(cfg: Config, w: World, t: nat, k: Token, rest: seq<Action>) returns (w': World)
    requires k !in w.issued && Claimable(w.db, t, cfg.limits) && cfg.limits.lease > 0
    ensures w'.now == w.now
    ensures At(w', k, Worker(t, Loading, None), Taken(cfg, w.db.tasks[t], k, w.now), w.db.log + [Transition(t, Queued, Preparing)])
    ensures Run(cfg, w, FirstSteps(t, k, rest)) == Run(cfg, w', [Work(k, Load)] + rest)
  {
    hide Act, Run, At, HasRoom;
    var a, b := Claim(t, k), Work(k, Start);
    var w1 := Act(cfg, w, a);
    w' := Act(cfg, w1, b);
    RunFirst(cfg, w, a, [b] + ([Work(k, Load)] + rest));
    RunFirst(cfg, w1, b, [Work(k, Load)] + rest);
    Claims(cfg, w, t, k);
    Starts(cfg, w1, k, t, Taken(cfg, w.db.tasks[t], k, w.now), w.db.log + [Transition(t, Queued, Preparing)]);
  }

  /** A new task that has room and that nobody disturbs gets from the queue to its pull request: developer,
      two reviews, a revision exactly if there are findings, seal, commit of the sealed tree, publication.
      Its row ends with exactly what was handed in, and the log gets exactly these records. */
  lemma NormalRunPublishes(cfg: Config, w: World, t: nat, k: Token, f: Facts)
    requires k !in w.issued && Claimable(w.db, t, cfg.limits) && cfg.limits.lease > 0
    requires w.db.tasks[t].code !in {Some(FeedbackRevision), Some(PublishExisting)} && cfg.treeOf(f.commit) == f.sealedTree
    ensures Left(Run(cfg, w, FirstSteps(t, k, NormalSteps(k, f))), t,
                 Finalized(Taken(cfg, w.db.tasks[t], k, w.now).(workspace := Some(f.workspace), baseCommit := Some(f.base),
                                                                branch := Some(f.branch)), f, w.now),
                 w.db.log
                 + [Transition(t, Queued, Preparing), Transition(t, Preparing, DeveloperWorking),
                    Transition(t, DeveloperWorking, Reviewing), Transition(t, Reviewing, Reviewing)]
                 + (if f.findings then [Transition(t, Reviewing, DeveloperRevising)] else [])
                 + FinalLog(t, if f.findings then DeveloperRevising else Reviewing))
  {
    hide Act, Run, At, HasRoom, FinalSteps, FirstSteps, Taken, FinalLog;
    var r := Taken(cfg, w.db.tasks[t], k, w.now);
    TakenIs(cfg, w.db.tasks[t], k, w.now);
    var log := w.db.log + [Transition(t, Queued, Preparing)];
    var enter := Work(k, EnterStage(f.findings));
    var prepare := Work(k, RecordPrepared(f.workspace, f.base, f.branch));
    var last := if f.findings then [enter] + FinalSteps(k, f) else FinalSteps(k, f);
    var w0 := FirstStepsLoad(cfg, w, t, k, NormalSteps(k, f));
    var w1 := Act(cfg, w0, Work(k, Load));
    var w2 := Act(cfg, w1, prepare);
    var w3 := Act(cfg, w2, enter);
    var w4 := Act(cfg, w3, enter);
    var w5 := Act(cfg, w4, enter);
    RunFirst(cfg, w0, Work(k, Load), NormalSteps(k, f));
    RunFirst(cfg, w1, prepare, [enter] + ([enter] + ([enter] + last)));
    RunFirst(cfg, w2, enter, [enter] + ([enter] + last));
    RunFirst(cfg, w3, enter, [enter] + last);
    RunFirst(cfg, w4, enter, last);
    var r2 := r.(workspace := Some(f.workspace), baseCommit := Some(f.base), branch := Some(f.branch));
    var log3 := log + [Transition(t, Preparing, DeveloperWorking)];
    var log4 := log3 + [Transition(t, DeveloperWorking, Reviewing)];
    var log5 := log4 + [Transition(t, Reviewing, Reviewing)];
    Loads(cfg, w0, k, t, r, log);
    Prepares(cfg, w1, k, t, r, log, f);
    Enters(cfg, w2, k, t, Developing, r2, log, f.findings, DeveloperWorking, ReviewingA);
    Enters(cfg, w3, k, t, ReviewingA, r2.(status := DeveloperWorking), log3, f.findings, Reviewing, ReviewingB);
    Enters(cfg, w4, k, t, ReviewingB, r2.(status := Reviewing), log4, f.findings, Reviewing,
           if f.findings then Revising else SealStarting);
    if f.findings {
      RunFirst(cfg, w5, enter, FinalSteps(k, f));
      Enters(cfg, w5, k, t, Revising, r2.(status := Reviewing), log5, f.findings, DeveloperRevising, SealStarting);
      FinalStepsPublish(cfg, Act(cfg, w5, enter), k, t, r2.(status := DeveloperRevising),
                        log5 + [Transition(t, Reviewing, DeveloperRevising)], f);
    } else {
      FinalStepsPublish(cfg, w5, k, t, r2.(status := Reviewing), log5, f);
    }
    assert log5 == w.db.log
                   + [Transition(t, Queued, Preparing), Transition(t, Preparing, DeveloperWorking),
                      Transition(t, DeveloperWorking, Reviewing), Transition(t, Reviewing, Reviewing)];
    assert log5 + [] == log5;
  }

  lemma TakenIs(cfg: Config, r: Row, k: Token, now: int)
    ensures var taken := Taken(cfg, r, k, now); taken.status == Preparing && taken.code == r.code && taken.claim == Some(k)
  {
  }

  /** A task queued for its feedback addresses it and publishes again under the key it has. */
  lemma FeedbackRunPublishes(cfg: Config, w: World, t: nat, k: Token, f: Facts)
    requires k !in w.issued && Claimable(w.db, t, cfg.limits) && cfg.limits.lease > 0
    requires var r := w.db.tasks[t];
             r.code == Some(FeedbackRevision) && r.workspace.Some? && r.branch.Some? && r.prNumber.Some?
    requires cfg.treeOf(f.commit) == f.sealedTree
    ensures Left(Run(cfg, w, FirstSteps(t, k, FeedbackSteps(k, f))), t, Finalized(Taken(cfg, w.db.tasks[t], k, w.now), f, w.now),
                 w.db.log + [Transition(t, Queued, Preparing), Transition(t, Preparing, DeveloperRevising)]
                 + FinalLog(t, DeveloperRevising))
  {
    hide Act, Run, At, HasRoom, FinalSteps, FirstSteps, FinalLog;
    var r, log := Taken(cfg, w.db.tasks[t], k, w.now), w.db.log + [Transition(t, Queued, Preparing)];
    var enter := Work(k, EnterStage(f.findings));
    var w0 := FirstStepsLoad(cfg, w, t, k, FeedbackSteps(k, f));
    var w1 := Act(cfg, w0, Work(k, Load));
    RunFirst(cfg, w0, Work(k, Load), FeedbackSteps(k, f));
    RunFirst(cfg, w1, enter, FinalSteps(k, f));
    Loads(cfg, w0, k, t, r, log);
    Enters(cfg, w1, k, t, Addressing, r, log, f.findings, DeveloperRevising, SealStarting);
    FinalStepsPublish(cfg, Act(cfg, w1, enter), k, t, r.(status := DeveloperRevising),
                      log + [Transition(t, Preparing, DeveloperRevising)], f);
    assert log + [Transition(t, Preparing, DeveloperRevising)]
        == w.db.log + [Transition(t, Queued, Preparing), Transition(t, Preparing, DeveloperRevising)];
  }

  /** A task queued for publishing again publishes the commit it has, under the key it has. */
  lemma RepublishRunPublishes(cfg: Config, w: World, t: nat, k: Token, f: Facts)
    requires k !in w.issued && Claimable(w.db, t, cfg.limits) && cfg.limits.lease > 0
    requires var r := w.db.tasks[t];
             r.code == Some(PublishExisting) && r.workspace.Some? && r.branch.Some? && r.commit.Some?
    ensures var r := Taken(cfg, w.db.tasks[t], k, w.now);
            Left(Run(cfg, w, FirstSteps(t, k, PublishSteps(k, f))), t,
                 UnderReview(r.(publicationKey := if r.publicationKey == None then Some(f.key) else r.publicationKey), f, w.now),
                 w.db.log + [Transition(t, Queued, Preparing), Transition(t, Preparing, Publishing),
                             Transition(t, Publishing, AwaitingHumanReview)])
  {
    hide Act, Run, At, HasRoom, PublishSteps, FirstSteps;
    var r, log := Taken(cfg, w.db.tasks[t], k, w.now), w.db.log + [Transition(t, Queued, Preparing)];
    var w0 := FirstStepsLoad(cfg, w, t, k, PublishSteps(k, f));
    RunFirst(cfg, w0, Work(k, Load), PublishSteps(k, f));
    Loads(cfg, w0, k, t, r, log);
    PublishStepsPublish(cfg, Act(cfg, w0, Work(k, Load)), k, Worker(t, PublishStarting, None), r, log, f);
    assert log + [Transition(t, Preparing, Publishing), Transition(t, Publishing, AwaitingHumanReview)]
        == w.db.log + [Transition(t, Queued, Preparing), Transition(t, Preparing, Publishing),
                       Transition(t, Publishing, AwaitingHumanReview)];
  }
}
