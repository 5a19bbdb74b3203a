# Coderus: a verified model

Coderus picks up issues, lets agents work on them in a workspace, and publishes the result as a pull
request; it also reviews pull requests. This project models the parts of it that carry state across
steps, and proves what they keep.

**Task lifecycle** (`TaskTable`, `TaskService`, `Lifecycle`, `LifecycleSafety`, `LifecycleTheorems`,
`LifecycleStory`, `LifecycleOutcomes`, `LifecycleProgress`, `Orchestrator`, `Scheduler`). The database is a map of task rows, a map of issues, users, repositories, and an
append-only transition log. `TaskTable` says what each transaction does to it, `TaskService` is the same
code in place on a class, proved equal to those functions. `Lifecycle` puts everybody on one table: workers
as small programs with a program point (normal run, feedback revision, publishing again), the scheduler's
claim, renewal, recovery, cancel, close, dispatch, ignore and restore, feedback sync, the PR poller, and
deactivating a user, one transaction at a time, in any order. Theorems are about every run of it:
`LifecycleSafety` and `LifecycleTheorems` say what no step breaks, `LifecycleStory` what the transition log
tells about the program a worker runs, `LifecycleOutcomes` what each step writes field by field and what
runs make of it, `LifecycleProgress` where a worker gets that nobody disturbs.
`Orchestrator` runs the worker's program in place on the task store, step by step what `Lifecycle`
interleaves. `Scheduler` has the loops of recovery, of a tick and of deactivation. `PrReview` is the second,
smaller instance of claim, fence and recover.

**From a diff to published findings** (`Utf8`, `GitPath`, `RepositoryPath`, `Runs`, `DiffReader`,
`DiffRoundTrip`, `DiffMeaning`, `DiffTheorems`, `ReviewRanges`, `Findings`). `DiffReader` is the line-by-line
reader. `DiffRoundTrip` has structured diffs and the text Git prints for them; which lines such a diff
changes is said without the reader, by counting the lines of a side above each change. Reading the
printed text gives back the maximal runs of exactly those lines.

**Credential broker** (`Broker`, `BrokerRuns`). The broker and its permits as classes, and whole runs with
a log of everything granted, against which the books are checked.

**A remote that is copied and written to** (`Paging`, `ListIssues`, `Mirror`, `MirrorPaged`, `Comments`,
`Feedback`). Paged listing with an early stop, the issue mirror with its cursor, first over whole listings
and then with every page request a step of its own while the remote goes on changing; comment publishing
over writes that may fail before or after they take effect, its searches again page by page; and the
merging of feedback rows.

**Bounded loops** (`Heartbeat`, `Backoff`, `TailBuffer`).

Tokens, digests and ids that the program draws at random are parameters assumed fresh. Clocks are
parameters; times are integers or reals. Answers of the network, of Git and of the agents are parameters.

## Where the code and its promises part

- A decoded octal escape above `\377` makes the path decoder raise instead of refusing the path:
  `GitPath.RaisesExactly` says on exactly which inputs.
- A changed line that comes after a larger one of the same path and side is merged into the larger one's
  run and lost. Git prints hunks in order, and then nothing is lost:
  `DiffTheorems.RangesAreExactWhenOrdered` is the exact condition.
- Changes in a file whose path is not accepted are counted but not recorded, so the run lengths add up to
  the counters exactly when there are none (`DiffTheorems.DiffRoundTrips`).
- The mirror is broken by an edit dated before the cursor, or before the start of a running sync that
  has its listing already, which a provider that dates edits in whole seconds can produce, and by an issue
  that was fetched by URL before a sync and stored after it: `Mirror.EditBreaksExactly`,
  `Mirror.EditAfterListingBreaksExactly`, `Mirror.EditBeforeListingBreaksExactly`, `Mirror.StoreBreaksExactly`,
  with the runs `Mirror.EditDuringSyncIsLost` and `Mirror.LateStoreLosesAnEdit`.
- A deletion between two page requests of a listing can pull an issue onto a page already read, and the
  sync succeeds without it. A sync leaves the mirror right exactly when every issue dated before its start
  is among those it brought or was in place already (`MirrorPaged.SyncMirrorsExactly`); in an otherwise
  undisturbed sync a deletion breaks the mirror exactly when it hides an issue that is missing locally
  (`MirrorPaged.DeletionBreaksExactly`, with the run `MirrorPaged.DeletionLosesAnIssue`). Additions, and
  edits dated with the shared clock, do no harm between requests.
- A deletion between two page requests of the search for the bot's own comment can hide that comment, and
  a second one is posted: `Comments.WalkMissesExactly`, `Comments.MissedExactly`, with the run
  `Comments.DeletionDuringSearchGivesTwo`.
- GitHub's publisher never edits, so a successful call may leave an older body: exactly when the comment
  it found had one (`Comments.GitHubBodyMayBeOld`). GitCode's second search accepts whatever body the
  server had stored (`Comments.GitCodeBodyIsCurrent`).
- `record_output` does not look at the expiry: requests stop at expiry, output only when the lease is
  revoked, or validated or asked for after its expiry (`BrokerRuns.OutputStopsAtRemoval`).
- A feedback item whose own id is the prefixed id of another takes that one's row:
  `Feedback.OneRowEachExactly`. The ids that providers hand out never do (`Feedback.RealIdsAreApart`).
- The sleeps of a retried request stay within `max_elapsed` together whenever the clock shows the time
  slept. On a clock that only never goes back they do exactly when
  `(max_attempts - 1) * min(max_delay, max_elapsed)` does not exceed it (`Backoff.AnyClockExactly`); the
  policies in use satisfy this.
- A worker that gives up for want of success leaves a lease that still runs in the database exactly when a
  renewal that raised had been stored and reaches beyond that moment
  (`Heartbeat.TimeoutLeavesLeaseExactly`).

## Model

| member | source | states |
|---|---|---|
| `LifecycleSafety.RunKeepsInv` | coderus/workflow/task_state.py:20-125 | the joint invariant of rows, issues, log and workers survives any interleaving of all actors, crashes included |
| `LifecycleSafety.Reachable` | coderus/models.py:244-249 | every run of a new installation is in the invariant |
| `LifecycleSafety.FailUncommittedKeepsInv` | coderus/workflow/orchestrator.py:534-574 | failing without a commit may reopen the issue, because a live task has its issue to itself |
| `LifecycleSafety.CommandsKeepInv` | coderus/application/tasks.py:41-214 | user commands, recovery and polling on one task keep the invariant |
| `LifecycleSafety.IssueActionsKeepInv` | coderus/application/issues.py:89-116 | ignore, restore, dispatch and issue sync keep it |
| `LifecycleTheorems.OneLiveTaskPerIssue` | coderus/models.py:244-249 | on every run at most one task occupies an issue, counting failed ones that may publish again, the issue is then dispatched, and the unique index holds |
| `LifecycleTheorems.WaitingIssueIsFree` | coderus/issues/service.py:144-169 | dispatching a waiting issue can be refused neither by the lookup nor by the index |
| `LifecycleTheorems.RequeueKeepsIndex` | coderus/application/tasks.py:116-141 | reviving a failed publication never meets a second active task |
| `LifecycleTheorems.StaleWorkerChangesNothing` | coderus/workflow/task_state.py:34-63 | without the row's token a worker step leaves the whole database as it is |
| `LifecycleTheorems.SupersededForever` | coderus/workflow/task_state.py:66-125 | a superseded token never comes back on its row |
| `LifecycleTheorems.FencedForever` | coderus/workflow/orchestrator.py:426-532 | a worker that lost its claim never changes the database again, at any later point of any run |
| `LifecycleTheorems.WorkChangesOnlyUnderClaim` | coderus/workflow/publication.py:113-173 | workspace, base, branch, seal, commit, key and PR fields change only by a step of the worker that holds the row |
| `LifecycleTheorems.RunGrows` | coderus/workflow/publication.py:113-140 | over any run identity, workspace and publication key are written once, commits are not taken back, settled rows are frozen, cancelling ends in cancelled |
| `LifecycleTheorems.ClaimedExactlyWhileRunning` | coderus/workflow/task_state.py:66-125 | a claim token is set exactly while the task runs or is being cancelled |
| `LifecycleTheorems.PublishingIsComplete` | coderus/workflow/publication.py:46-140 | publishing implies commit, workspace, branch and key; every recorded commit has a tree sealed earlier for that task |
| `LifecycleTheorems.RecoveryRepublishes` | coderus/workflow/scheduler.py:66-106 | recovering a publishing task always requeues it for reconciliation |
| `LifecycleTheorems.LoadedProgramIsRunnable` | coderus/workflow/orchestrator.py:285-308 | the missing-workspace errors and the sealing fallback of a republish are unreachable |
| `LifecycleTheorems.StageNeverRefused` | coderus/workflow/orchestrator.py:426-452 | a claim holder enters its stage or has been told to stop |
| `LifecycleTheorems.HolderNeverBlocked` | coderus/workflow/orchestrator.py:426-532 | every guarded write of an uncancelled holder succeeds |
| `LifecycleTheorems.LogIsPath` | coderus/workflow/task_state.py:44-63 | each task's log is a connected path in the lifecycle graph from queued to its status |
| `LifecycleTheorems.ReplayedRecords` | coderus/workflow/orchestrator.py:45-53 | record by record: each starts where the last ended, stages strictly advance except reviewing to reviewing |
| `LifecycleTheorems.PhasesAdvance` | coderus/workflow/orchestrator.py:45-53 | the same on every run from the start |
| `LifecycleTheorems.OnlyClaimsStart` | coderus/workflow/task_state.py:66-125 | no step but a claim lets a task start running |
| `LifecycleTheorems.RunKeepsQuota` | coderus/workflow/task_state.py:76-110 | running tasks stay within the global and the owner's limit however claims race with the rest |
| `LifecycleTheorems.QuotaHolds` | coderus/tasks/quotas.py:1-18 | the same on every run from the start |
| `LifecycleTheorems.LeasesProtect` | coderus/tasks/lease.py:42-59 | an accepted renewal never moves expiry back; recovery leaves unexpired running tasks alone |
| `LifecycleTheorems.RunKeepsLeases` | coderus/workflow/task_state.py:112-125 | no lease reaches further than one period from now |
| `LifecycleStory.ProgramFollowsPast` | coderus/workflow/orchestrator.py:176-183 | on every run, what follows the claim of a task is fixed by its record before: development if there is none, revision if it was queued out of review, publication if it was queued after a failure, by hand or by recovery of a publication, or the claim is given up |
| `LifecycleStory.TwoReviewsBeforeSealing` | coderus/workflow/orchestrator.py:203-221 | on every run reviewing is left for revision or sealing only after exactly two reviews of that claim, and sealing comes straight after the second, after a revision, or out of a claim for feedback |
| `LifecycleStory.FindingsDecide` | coderus/workflow/orchestrator.py:210-221 | once the second review is entered, with findings or without, the next record of the task is a revision exactly with and sealing exactly without them, unless the claim ends there, however the run goes on |
| `LifecycleProgress.NormalRunPublishes` | coderus/workflow/orchestrator.py:154-232 | a new task with room, claimed and not disturbed, gets from the queue to review through exactly the records of its program, and its row ends with the workspace, seal, commit and pull request handed in |
| `LifecycleProgress.FeedbackRunPublishes` | coderus/workflow/orchestrator.py:251-283 | the same for a task queued for its feedback: it is revised, sealed, committed and published under the key it has |
| `LifecycleProgress.RepublishRunPublishes` | coderus/workflow/orchestrator.py:285-299 | the same for a task queued for publishing again: the commit it has is published under the key it has |
| `LifecycleOutcomes.LastVerdictStands` | coderus/workflow/pr_status.py:87-106 | on every run a task is completed exactly if the last verdict it heard was merged, closed exactly if it was closed unmerged, and its PR state says the same |
| `LifecycleOutcomes.VerdictDecides` | coderus/application/tasks.py:96-110 | a poll or sync of a task under review completes it exactly on merged and closes it exactly on closed unmerged |
| `LifecycleOutcomes.RecoveryDecides` | coderus/workflow/scheduler.py:66-106 | recovery cancels, requeues for reconciliation, parks for a human or leaves alone, by status and expiry |
| `LifecycleOutcomes.HandlersDecide` | coderus/workflow/orchestrator.py:233-249 | what each exception handler leaves of a claimed task, told to stop or not |
| `LifecycleOutcomes.OnlyUncommittedFailuresReopen` | coderus/workflow/orchestrator.py:534-574 | a dispatched issue is waiting again after a step exactly if that is the failure of the holder of a task on it that is not being cancelled and has no commit |
| `LifecycleOutcomes.StopIsHonoured` | coderus/workflow/orchestrator.py:439-452 | a worker told to stop that reaches its next stage ends its task as cancelled |
| `LifecycleOutcomes.RecordsAreKept` | coderus/workflow/publication.py:113-173 | each accepted record of a worker writes the fields handed in and nothing else |
| `LifecycleOutcomes.RefusedStepsEnd` | coderus/workflow/orchestrator.py:154-250 | a refused renewal or record ends the worker and leaves the tables alone, and a commit whose tree is not the sealed one fails |
| `LifecycleOutcomes.DispatchedTask` | coderus/issues/service.py:136-169 | a new task is queued for its open, waiting issue under an active creator, with the priority asked for and nothing recorded |
| `LifecycleOutcomes.WholeLease` | coderus/tasks/lease.py:42-59 | a claim and every accepted renewal are good for a whole lease: on no run does recovery take the task away from that token before |
| `TaskService.TaskStore.CasTaskStatus` | coderus/workflow/task_state.py:20-63 | writes row and log record together exactly when status and token match |
| `TaskService.TaskStore.ClaimQueuedTask` | coderus/workflow/task_state.py:66-125 | claims a queued task exactly within both quotas |
| `TaskService.TaskStore.Renew` | coderus/tasks/lease.py:42-59 | extends an active, unexpired lease of this token and nothing else |
| `TaskService.TaskStore.SetStatus` | coderus/workflow/orchestrator.py:426-452 | enters a stage, or tells lost claim, cancellation and refusal apart |
| `TaskService.TaskStore.SetPrepared` | coderus/workflow/orchestrator.py:454-473 | records the workspace under claim while preparing |
| `TaskService.TaskStore.SetSealed` | coderus/workflow/publication.py:142-158 | records the sealed tree under claim while sealing |
| `TaskService.TaskStore.SetCommit` | coderus/workflow/publication.py:160-173 | records the commit under claim while sealing |
| `TaskService.TaskStore.BeginPublication` | coderus/workflow/publication.py:113-140 | enters publishing with a new key only where there is none |
| `TaskService.TaskStore.AwaitingReview` | coderus/workflow/orchestrator.py:496-532 | records the PR and gives the claim up |
| `TaskService.TaskStore.Fail` | coderus/workflow/orchestrator.py:534-574 | fails the task and reopens its issue exactly without a commit |
| `TaskService.TaskStore.ManualIntervention` | coderus/workflow/orchestrator.py:576-602 | parks the task for a human |
| `TaskService.TaskStore.MarkCancelled` | coderus/workflow/orchestrator.py:604-619 | completes a cancellation |
| `TaskService.TaskStore.Interrupt` | coderus/workflow/orchestrator.py:621-650 | what an interrupted worker leaves behind |
| `TaskService.TaskStore.RequestCancel` | coderus/application/tasks.py:41-58 | cancels a queued task, tells a running one to stop |
| `TaskService.TaskStore.Close` | coderus/application/tasks.py:60-72 | dismisses closable tasks only |
| `TaskService.TaskStore.RecordSync` | coderus/application/tasks.py:74-114 | a merged pull request completes a task under review, one closed unmerged closes it, any other answer only leaves a record |
| `TaskService.TaskStore.QueueExistingPublish` | coderus/application/tasks.py:116-141 | requeues a task with a commit as a republish |
| `TaskService.TaskStore.QueueFeedbackRevision` | coderus/application/tasks.py:143-176 | requeues a task under review for its feedback |
| `TaskService.TaskStore.RecordPoll` | coderus/workflow/pr_status.py:45-108 | a merged pull request completes a task under review, one closed unmerged closes it, any other answer changes nothing |
| `TaskService.TaskStore.DispatchIssue` | coderus/issues/service.py:136-169 | opens a task and marks the issue, or refuses |
| `TaskService.TaskStore.Ignore` | coderus/application/issues.py:89-101 | ignores waiting open issues only |
| `TaskService.TaskStore.Restore` | coderus/application/issues.py:103-115 | brings ignored issues back |
| `TaskService.TaskStore.UpsertIssue` | coderus/issues/service.py:36-54 | refreshes the provider's part of an issue, never its triage |
| `Orchestrator.TaskWorker.Step` | coderus/workflow/orchestrator.py:154-308 | every step of the worker, run in place on the task store, is the step that the interleaved model takes, so what LifecycleStory, LifecycleOutcomes and LifecycleProgress prove of those steps holds of it |
| `Orchestrator.StepIsLocal` | coderus/workflow/orchestrator.py:154-308 | a worker's step does the same among other workers as alone |
| `Scheduler.RecoveredRows` | coderus/workflow/scheduler.py:48-120 | recovery touches exactly the due rows, each as found, in whatever order |
| `Scheduler.RecoveredIsNotDue` | coderus/workflow/scheduler.py:48-120 | no recovered row needs recovering again |
| `Scheduler.TaskScheduler.RecoverExpired` | coderus/workflow/scheduler.py:48-120 | one pass recovers each due row once and leaves no cancelling row and no running row whose lease is over |
| `Scheduler.AdmittedRows` | coderus/workflow/task_state.py:76-110 | what offering a queue to the claim does to each row |
| `Scheduler.AdmitIsGreedy` | coderus/workflow/scheduler.py:135-186 | a task left queued by an undisturbed tick has no room |
| `Scheduler.AdmitIsOrdered` | coderus/workflow/scheduler.py:135-186 | no later task of a user starts past an earlier one left by quota |
| `Scheduler.TickHonoursPriority` | coderus/workflow/scheduler.py:148-154 | of two waiting tasks of one active user the one with the higher priority, then the older, then the one with the smaller id goes first: if a pass leaves it queued it leaves the other queued |
| `Scheduler.TickStartsOnlyWaiting` | coderus/workflow/scheduler.py:148-183 | a pass starts only queued tasks of active users that no worker is busy with, for one lease and under the token drawn, and leaves every other row alone |
| `Scheduler.TickFillsRoom` | coderus/workflow/scheduler.py:156-186 | a waiting task left queued means that the running tasks fill the global limit or the limit of its owner |
| `Scheduler.TalliedRoom` | coderus/workflow/scheduler.py:156-186 | the tick's reserved counters decide as the claim's own count does |
| `Scheduler.TaskScheduler.Tick` | coderus/workflow/scheduler.py:135-186 | a tick with its counters equals recovery and then offering every eligible task in queue order; busy afterwards are the workers not ended and those of the tasks it started |
| `Scheduler.TaskScheduler.WaitingTasks` | coderus/workflow/scheduler.py:148-154 | exactly the queued tasks of active users, by descending priority, then age, then id |
| `Scheduler.TaskScheduler.ToggleUserActive` | coderus/web/routes/users.py:82-115 | refuses a missing user and one's own account; deactivation cancels exactly the user's queued and running tasks, one record each, adds no row, changes nothing else, and signals the running ones |
| `Scheduler.CancelledLog` | coderus/web/routes/users.py:98-113 | the log gets one record for each cancelled task, in order |
| `PrReview.RunKeepsInv` | coderus/pr_review/orchestrator.py:488-603 | a token is set exactly while the review is active; what is published was recorded first |
| `PrReview.FencedForever` | coderus/pr_review/orchestrator.py:562-575 | a superseded token never claims again and never changes the row |
| `PrReview.KeyIsWrittenOnce` | coderus/pr_review/orchestrator.py:488-518 | the review key outlives every attempt; an ended review is frozen |
| `PrReview.LeaseProtects` | coderus/pr_review/scheduler.py:91-114 | recovery takes an active review exactly when its lease ran out |
| `PrReview.RowHoldsTheNotes` | coderus/pr_review/orchestrator.py:520-603 | on every run base, head, result and comment are those the holders last handed in since the last claim |
| `PrReview.AskDecides` | coderus/pr_review/orchestrator.py:520-603 | an update of the holder in its one status writes exactly what it carries, any other nothing |
| `PrReview.RenewDecides` | coderus/tasks/lease.py:42-59 | a renewal holds for a lease from now, for the unexpired holder of an active review only |
| `PrReview.ReviewStore.Claim` | coderus/pr_review/orchestrator.py:488-518 | claims a queued review, wiping the last attempt but its key |
| `PrReview.ReviewStore.ExpectedUpdate` | coderus/pr_review/orchestrator.py:562-575 | writes exactly when status and token match |
| `PrReview.ReviewStore.Ask` | coderus/pr_review/orchestrator.py:520-603 | each guarded write of the review worker |
| `PrReview.ReviewStore.RecoverExpired` | coderus/pr_review/scheduler.py:91-114 | resets exactly the expired active reviews and counts them |
| `Utf8.DecodeEncoded` | coderus/pr_review/workspace.py:556-579 | decoding undoes encoding on every string |
| `Utf8.EncodeDecoded` | coderus/pr_review/workspace.py:576-579 | only encodings of strings decode |
| `Utf8.EncodedBits` | coderus/pr_review/workspace.py:556-579 | the bit patterns of section 3 of RFC 3629 |
| `GitPath.DecodeGitPath` | coderus/pr_review/workspace.py:535-579 | the index loop ends on every input and computes the decoder's value |
| `GitPath.UnescapeQuoted` | coderus/pr_review/workspace.py:555-575 | unquoting undoes Git's quoting on every byte string |
| `GitPath.DecodeQuotedBytes` | coderus/pr_review/workspace.py:535-579 | quoted bytes decode to the text they encode, and are refused exactly when they encode none |
| `GitPath.PathRoundTrip` | coderus/pr_review/workspace.py:535-579 | every path survives printing and reading |
| `GitPath.QuotesExactly` | coderus/pr_review/workspace.py:536-540 | a printed path begins with a quote, which the decoder goes by, exactly when some character of it is not plain |
| `GitPath.EscapesExactly` | coderus/pr_review/workspace.py:538-566 | what each escape letter stands for, and which escapes are refused |
| `GitPath.OctalsExactly` | coderus/pr_review/workspace.py:567-575 | one to three octal digits, as many as there are, are one byte, or raise above 255 |
| `GitPath.RaisesExactly` | coderus/pr_review/workspace.py:567-575 | the decoder raises exactly when it reaches an octal escape above \377 with everything before it decoded |
| `RepositoryPath.NormalizeIsCanonical` | coderus/pr_review/models.py:13-25 | a path is accepted exactly if its slashed form is relative, clean and names no drive; it comes out in that form, a fixed point |
| `Runs.AlwaysGapped` | coderus/pr_review/workspace.py:474-482 | on any lines in any order the runs stay sorted with gaps |
| `Runs.IncreasingGivesMaximalRuns` | coderus/pr_review/workspace.py:474-482 | increasing lines give their maximal runs, with lengths adding up to their number |
| `Runs.MaximalRunsAreUnique` | coderus/pr_review/workspace.py:474-482 | there is only one way to cut lines into maximal runs |
| `Runs.ExactlyPeaksAreCovered` | coderus/pr_review/workspace.py:474-482 | in any order, exactly the lines larger than all before them are kept |
| `Runs.ExactWhenNothingFallsBack` | coderus/pr_review/workspace.py:474-482 | the runs are the maximal runs exactly when every line exceeds all before it or repeats one |
| `DiffReader.ParseChangedRanges` | coderus/pr_review/workspace.py:462-524 | the reader's loop with its running variables equals reading line by line and filing each recorded line |
| `DiffReader.RangesOfKey` | coderus/pr_review/workspace.py:474-482 | the ranges of a path and side depend on its own lines alone, and exist exactly when it has some |
| `DiffReader.RangesAreWellFormed` | coderus/pr_review/workspace.py:462-524 | for every line sequence, even ill-formed, parsed ranges are sorted with gaps |
| `DiffReader.FilesAreCounted` | coderus/pr_review/workspace.py:484-490 | for every line sequence, the files counted are its file header lines |
| `DiffReader.NothingWithoutPaths` | coderus/pr_review/workspace.py:484-504 | for every line sequence, nothing is counted or recorded before a file header, an old and a new path line, in this order |
| `DiffRoundTrip.HunkLineIsRead` | coderus/pr_review/workspace.py:499-504 | a printed hunk header is read back, with or without counts |
| `DiffRoundTrip.SideIsRead` | coderus/pr_review/workspace.py:526-533 | a printed file line is read back, /dev/null as no path |
| `DiffRoundTrip.BodyIsRead` | coderus/pr_review/workspace.py:505-517 | body lines are counted and recorded by their own side's position, whatever text they carry |
| `DiffRoundTrip.DiffIsRead` | coderus/pr_review/workspace.py:484-524 | from any reader state a printed diff adds exactly its files, deletions, additions and changed lines |
| `DiffMeaning.DiffLinesAreChanges` | coderus/pr_review/workspace.py:505-517 | the recorded lines of a path and side are exactly those the diff changes |
| `DiffMeaning.OrderedDiffsIncrease` | coderus/pr_review/workspace.py:499-514 | in-order hunks give increasing lines per path and side |
| `DiffTheorems.PrintedDiffIsRead` | coderus/pr_review/workspace.py:519-524 | every printed diff is read and its counters are those of the diff |
| `DiffTheorems.RangesAreExactWhenOrdered` | coderus/pr_review/workspace.py:474-524 | parsed ranges are the maximal runs of the changed lines exactly when no line falls back |
| `DiffTheorems.DiffRoundTrips` | coderus/pr_review/workspace.py:462-524 | from an ordered diff: maximal runs for every path and side, and run lengths equal to the counters exactly when every changed path can be recorded |
| `DiffTheorems.PublishedLinesAreChanged` | coderus/pr_review/models.py:39-54 | a one-line finding is publishable exactly on a line the diff changes; a longer one is cut to such lines |
| `ReviewRanges.ClipIsExact` | coderus/pr_review/models.py:36-54 | clipping succeeds exactly on a sound span that touches one run and holds at most one unchanged line; the result is all its changed lines and clips to itself |
| `ReviewRanges.ReasonIsRight` | coderus/pr_review/models.py:56-73 | a rejection reason is null exactly for publishable spans and otherwise names what is wrong |
| `ReviewRanges.ContextIsUnchanged` | coderus/pr_review/models.py:52-54 | the clip's arithmetic counts the unchanged lines of the span |
| `Findings.ValidateFindings` | coderus/pr_review/result.py:369-391 | the loop keeps and clips exactly the clippable findings, and its flag says whether anything changed |
| `Findings.UnlocatedFindings` | coderus/pr_review/result.py:394-402 | the loop collects exactly the rejected findings with their reasons |
| `Findings.NothingLost` | coderus/pr_review/result.py:369-402 | published and pending findings together are exactly the findings given |
| `Findings.OrderIsKept` | coderus/pr_review/result.py:369-402 | published and pending findings keep the order they came in |
| `Findings.NothingElseChanges` | coderus/pr_review/result.py:369-402 | only line ranges change, and each pending finding carries its reason |
| `Findings.PublishedIsStable` | coderus/pr_review/result.py:369-391 | validating the published findings again changes nothing |
| `Broker.CredentialBroker.Issue` | coderus/model_proxy/broker.py:109-160 | exactly on named, positive terms: a lease for the asked or default time, the configured model and the asked concurrency; the limits of its task stage are the asked ones, or the smaller of those and the present ones |
| `Broker.CredentialBroker.Validate` | coderus/model_proxy/broker.py:177-189 | true exactly for an unexpired lease; removes an expired one |
| `Broker.CredentialBroker.Acquire` | coderus/model_proxy/broker.py:191-217 | a grant needs a present, unexpired lease, the one endpoint, the model of the lease and room in both limits; what is missing first is the reason; only a grant counts and gives a permit |
| `Broker.CredentialBroker.RecordOutput` | coderus/model_proxy/broker.py:244-254 | books output of a present lease within the limit, or refuses |
| `Broker.CredentialBroker.RemoveLease` | coderus/model_proxy/broker.py:256-266 | the last lease of a task stage takes its usage with it |
| `Broker.CredentialBroker.Revoke` | coderus/model_proxy/broker.py:226-230 | removes the lease of a token |
| `Broker.LeasePermit.Release` | coderus/model_proxy/broker.py:77-82 | only the first release gives the slot back |
| `Broker.RemovalKeepsMatch` | coderus/model_proxy/broker.py:256-266 | usage keys stay the keys of live leases |
| `BrokerRuns.Run` | coderus/model_proxy/broker.py:77-266 | any sequence of operations keeps the books in order |
| `BrokerRuns.BooksAreInOrder` | coderus/model_proxy/broker.py:109-266 | on every run: usage keys are the keys of live leases, in_flight is the number of unreturned permits within max_concurrency, totals are what the log granted since the key appeared, within its first limits |
| `BrokerRuns.LeaseKeepsTerms` | coderus/model_proxy/broker.py:118-160 | from its issue on, on every run: unreturned permits on a token stay within the concurrency asked for, even after the lease is gone, and while it stands it keeps that concurrency, its task stage, the configured model and its expiry |
| `BrokerRuns.GrantNeeds` | coderus/model_proxy/broker.py:191-217 | a request is granted exactly with an unexpired lease, the endpoint, the model, a request left and fewer unreturned permits than allowed |
| `BrokerRuns.TotalsStayWithinFirstLimits` | coderus/model_proxy/broker.py:142-152 | totals and current limits never pass the first limits of a key |
| `BrokerRuns.LimitsShrinkWhileKeyStays` | coderus/model_proxy/broker.py:150-152 | on every run in which a key keeps its usage, its limits only shrink and its totals only grow |
| `BrokerRuns.ReopenedOnlyWhenUnused` | coderus/model_proxy/broker.py:142-152 | usage is only started afresh for a key without a live lease |
| `BrokerRuns.GivingBackAlwaysCounts` | coderus/model_proxy/broker.py:238-242 | the guard against counting below zero never decides |
| `BrokerRuns.DeadForever` | coderus/model_proxy/broker.py:177-230 | an expired or revoked token is refused at every later point; a removed one books no output either |
| `BrokerRuns.LeaseLeavesExactly` | coderus/model_proxy/broker.py:177-230 | a step takes a lease away exactly if it revokes it, or validates or acquires on it after expiry |
| `BrokerRuns.OutputStopsAtRemoval` | coderus/model_proxy/broker.py:244-254 | on every run output on a lease is refused as unauthorised exactly if such a step came before, however long it has been expired |
| `ListIssues.ListAll` | coderus/forge/gitcode/issues.py:91-132 | the loop, over a list that may change between requests, ends and computes the page-by-page walk |
| `ListIssues.ListingIsExact` | coderus/forge/gitcode/issues.py:91-132 | on a list that stays: without a cursor the whole list, with one the filter of a newest-first list, each exactly when it fits the page limit; on any list, the filter of a part of it |
| `ListIssues.PageChecksAreExact` | coderus/forge/gitcode/issues.py:115-127 | the per-page checks find a repetition exactly when there is one so far |
| `ListIssues.NothingNewerBehind` | coderus/forge/gitcode/issues.py:119-127 | stopping at an older issue loses nothing of a newest-first list |
| `Mirror.RunKeepsInv` | coderus/issues/service.py:92-133 | any mix of syncs, failures, crashes, edits and additions keeps the mirror and what a running sync will store right |
| `Mirror.MirrorHolds` | coderus/issues/service.py:92-133 | every remote issue last updated before the cursor has an equal local row |
| `Mirror.SharedClockIsPrompt` | coderus/issues/service.py:102-104 | with one clock that dates edits to the instant the condition on edits always holds |
| `Mirror.SharedClockMirrors` | coderus/issues/service.py:92-133 | so on every run with one clock and no late store every issue dated before the cursor is mirrored |
| `Mirror.EditBreaksExactly` | coderus/issues/service.py:112-121 | an edit breaks the mirror at once exactly when it is dated before the cursor and not already copied |
| `Mirror.EditAfterListingBreaksExactly` | coderus/issues/service.py:109-133 | an edit after a sync's listing breaks the mirror at its end exactly when it is dated before the start and neither listed nor copied as it is |
| `Mirror.EditBeforeListingBreaksExactly` | coderus/issues/service.py:109-133 | before the listing, exactly when it is dated before the start and neither asked for, listed nor copied |
| `Mirror.EditDuringSyncIsLost` | coderus/issues/service.py:109-133 | a concrete run in which a successful sync loses an edit dated in whole seconds |
| `Mirror.StoreBreaksExactly` | coderus/issues/service.py:57-77 | storing a fetched issue breaks it exactly when the remote one is older than the cursor and differs |
| `Mirror.LateStoreLosesAnEdit` | coderus/issues/service.py:57-77 | a concrete run in which an addition by URL overwrites an edit that a sync had copied |
| `Mirror.FilteredListingIsHonest` | coderus/issues/service.py:109-121 | the provider's filtered listing of an unchanged remote gives the sync everything it asked for |
| `Mirror.FullSyncCopies` | coderus/issues/service.py:92-133 | an undisturbed full sync copies everything dated before its start |
| `Mirror.IssueMirror.SyncRepository` | coderus/issues/service.py:92-133 | the cursor moves only on success and only to the start; a failure keeps what was stored before it |
| `MirrorPaged.RunKeepsInv` | coderus/issues/service.py:92-133 | with page requests, edits, additions and deletions in any order, a listing under way has got or still has before it whatever is missing locally, as long as no deletion hides a missing issue |
| `MirrorPaged.MirrorHolds` | coderus/issues/service.py:92-133 | on every such run every remote issue dated before the cursor is mirrored; deletions that hide only what is in place already are among them |
| `MirrorPaged.MirrorHoldsWithoutDeletions` | coderus/forge/gitcode/issues.py:91-132 | in particular however additions, and edits dated with the shared clock, fall between page requests |
| `MirrorPaged.SyncMirrorsExactly` | coderus/issues/service.py:92-133 | the sync that ends with a listing leaves the mirror right exactly when every listed issue dated before its start was brought or in place |
| `MirrorPaged.CompleteExactly` | coderus/forge/gitcode/issues.py:91-132 | that is so exactly when nothing missing locally was left behind before the last page |
| `MirrorPaged.LastIsHonestExactly` | coderus/forge/gitcode/issues.py:117-131 | without looking at the local rows, a finished listing is one to rely on exactly when it brought every unchanged issue asked for |
| `MirrorPaged.DeletionHidesExactly` | coderus/forge/gitcode/issues.py:91-132 | a deletion leaves something missing behind exactly when it stood ahead of the next page and the first issue of that page is missing and not got |
| `MirrorPaged.DeletionBreaksExactly` | coderus/issues/service.py:92-133 | if the rest of the sync is undisturbed and succeeds, a deletion breaks the mirror exactly when it hides an issue |
| `MirrorPaged.DeletionLosesAnIssue` | coderus/issues/service.py:92-133 | a run in which a deletion between two page requests loses an issue and the sync succeeds |
| `Comments.FindComment` | coderus/forge/gitcode/pulls.py:470-492 | the loop, over a thread that may change between requests, ends and computes the page-by-page search |
| `Comments.WalkOfOneThread` | coderus/forge/gitcode/pulls.py:470-492 | on a thread that stays it finds the first own comment it can see, and takes no over-long thread for absence |
| `Comments.WalkMissesExactly` | coderus/forge/github/pulls.py:333-360 | a search misses an own comment that is there all along, and never moved back, exactly when it comes forward over a page boundary between two requests and the search meets neither a repeated page nor the page limit |
| `Comments.MissedExactly` | coderus/forge/github/pulls.py:333-360 | a page request leads on to a second comment exactly when the own one has been passed by and the page is the last |
| `Comments.PagesDiffer` | coderus/forge/gitcode/pulls.py:484-488 | no page of a list with unique ids is taken for a repetition |
| `Comments.NeverTwoComments` | coderus/forge/gitcode/pulls.py:315-367 | across any calls, page requests, crashes, uncertain writes and changes by others there is at most one own comment under the marker, unless others bring it before the next page of a search under way |
| `Comments.NeverTwoWhenOthersAppend` | coderus/forge/gitcode/pulls.py:315-367 | in particular as long as others only edit and append during a search |
| `Comments.DeletionDuringSearchGivesTwo` | coderus/forge/github/pulls.py:279-296 | a run in which a deletion between two page requests ends with two comments |
| `Comments.SuccessMeansExactlyOne` | coderus/forge/github/pulls.py:269-296 | a successful call leaves exactly one |
| `Comments.CallPublishes` | coderus/forge/gitcode/pulls.py:315-367 | with a server that answers and stores, a call on any thread a walk can see succeeds: GitCode gives the first own comment exactly the body asked for, GitHub leaves it, and without one the bot's comment with that body is added |
| `Comments.GitCodeCallPublishes` | coderus/forge/gitcode/pulls.py:315-367 | whatever the server does, a successful call leaves exactly one own comment with the body asked for, unless the server altered the posted text |
| `Comments.CallWorksForItsBody` | coderus/forge/gitcode/pulls.py:290-367 | a call that succeeds has worked with the body it was given |
| `Comments.AskedBodyStays` | coderus/forge/gitcode/pulls.py:319-367 | on every run, every point of a call works with the body the last call asked for |
| `Comments.PostDecides` | coderus/forge/gitcode/pulls.py:338-352 | which outcomes of a post succeed, fail, or lead to the second search |
| `Comments.GitCodeBodyIsCurrent` | coderus/forge/gitcode/pulls.py:319-367 | on every run that hides nothing, GitCode's success means the comment carries the body the call asked for, and after the second search exactly if the server had stored it |
| `Comments.GitHubBodyMayBeOld` | coderus/forge/github/pulls.py:279-292 | GitHub's success with an old comment means the posted body exactly when it already had it |
| `Comments.LongThreadsAreRefused` | coderus/forge/gitcode/pulls.py:475-477 | a thread longer than the walk stops the call before it writes |
| `Comments.Thread.PublishPrComment` | coderus/forge/gitcode/pulls.py:315-367 | one call in place equals its steps, and succeeds only with the body it was given; a body without the marker changes nothing |
| `Feedback.FeedbackTable.Upsert` | coderus/workflow/feedback.py:13-75 | rename, merge, delete, then insert or refresh, in place |
| `Feedback.FeedbackTable.SyncAll` | coderus/application/tasks.py:111-113 | the loop over the items |
| `Feedback.RowsLeftExactly` | coderus/workflow/feedback.py:20-75 | on any items, exactly which rows are left |
| `Feedback.OneRowEachExactly` | coderus/workflow/feedback.py:20-46 | one row per item and no legacy twin, exactly when no item's id is the prefixed id of another |
| `Feedback.RealIdsAreApart` | coderus/forge/github/pulls.py:420-421 | the ids providers hand out never collide |
| `Feedback.EarliestMarksAreKept` | coderus/workflow/feedback.py:40-46 | no selected or processed mark is lost: the kept one is one of the two and no later than either, there if one was; the creation time is that of the row kept |
| `Feedback.LastTextIsKept` | coderus/workflow/feedback.py:49-75 | an item's row carries the text it came with last |
| `Feedback.OtherRowsUnchanged` | coderus/workflow/feedback.py:21-26 | unrelated rows are left alone |
| `Feedback.SecondFoldChangesNothing` | coderus/workflow/feedback.py:49-75 | a second synchronisation changes no row |
| `Heartbeat.Worker` | coderus/tasks/lease.py:87-106 | ends in the first round that is stopped, refused, or a full lease without success, and reports a loss exactly then with no stop asked |
| `Heartbeat.LossIsTimely` | coderus/tasks/lease.py:87-106 | giving up comes within lease, interval and one renewal of the last success |
| `Heartbeat.TimeoutLeavesLeaseExactly` | coderus/tasks/lease.py:93-99 | a worker that times out leaves a running lease exactly when a renewal stored behind an error reaches beyond that moment |
| `Heartbeat.TimeoutMeansExpired` | coderus/tasks/lease.py:93-99 | without one since the last success the lease has expired in the database too |
| `Heartbeat.HiddenRenewalOutlivesTheWorker` | coderus/tasks/lease.py:93-99 | a concrete run in which it makes the difference |
| `Backoff.RequestWithBackoff` | coderus/forge/http.py:48-101 | attempts, sleeps and the deadline are exact, none follows the last answer, all sleeps together stay within the deadline on a clock that shows them; Retry-After only of the current answer; the final assertion is unreachable |
| `Backoff.RetriesExactly` | coderus/forge/http.py:60-88 | every attempt but the last raised or was answered 408, 425, 429 or 500 and above; any other answer is final |
| `Backoff.SleepsGrow` | coderus/forge/http.py:72-82 | a sleep is the server's seconds, or the base delay doubled per attempt with its jitter, cut to the limit and the time left |
| `Backoff.DelaysDouble` | coderus/forge/http.py:72-82 | of two uncut sleeps in a row under one random number the second is twice the first |
| `Backoff.AnyClockExactly` | coderus/forge/http.py:57-82 | on every clock that never goes back the sleeps stay within the limit exactly when the policy's pauses of the longest kind fit into it |
| `Backoff.StillClockSleepsInFull` | coderus/forge/http.py:72-82 | on a clock that stands still every pause may take its longest |
| `Backoff.PoliciesInUseAreSafe` | coderus/forge/gitcode/pulls.py:101-104 | the default policy and the publisher's meet that condition |
| `TailBuffer.TailBuffer.Append` | coderus/runner/local.py:183-203 | the buffer holds exactly the last bytes of everything and is marked exactly when some are gone |
| `TailBuffer.ReadOutput` | coderus/runner/local.py:723-732 | within the shared budget the tail of the whole output, past it of the chunks before |
| `TailBuffer.KeptFitsBudget` | coderus/runner/local.py:206-217 | what a stream keeps fits what the budget has counted |
| `TailBuffer.BothFitBudget` | coderus/runner/local.py:519-527 | however the two streams take turns, what they keep together fits the budget |

## Left out

- Transactions are atomic steps here; SQLite reads that precede the write of the same session are not split from it, and two syncs that both pass the `running` check are not modelled.
- The two reviewers enter their stage in parallel; here one after the other, in either order of outcomes.
- Git, the workspace and the file system: Git is a function from commits to trees, and files are not fenced.
- Unfenced side writes: failure summaries of notifications, AgentRun rows, marks on processed feedback.
- A direct run without a claim token, which claims with unlimited quotas.
- `str.splitlines`, Git's trailing tab after names with spaces, non-ASCII digits in hunk headers and Python's limit on the length of an integer text: the reader starts from a sequence of lines.
- DiffTheorems.DiffRoundTrips: hunks are in order and no two sections change one side of the same path, as Git prints them without copy detection; RangesAreExactWhenOrdered covers any order.
- Broker: times are integers, and locks make every operation one step, except that a permit is given back in two.
- Broker: the read-only usage snapshot and the default limits.
- ListIssues: GitHub's listing, which follows link headers, and providers that list open issues only.
- Mirror: every issue is dated; local rows carry one text for title, body, labels, state and URL.
- MirrorPaged: issue ids and numbers are one; the provider's own order moves no issue on an edit.
- MirrorPaged: edits are dated with the shared clock; what a back-dated edit does to a sync is in Mirror, over whole listings.
- Comments.NeverTwoComments: calls under one marker do not overlap; two review tasks on the same head commit share the approval marker and may.
- Comments: a POST takes effect before its outcome is known or never; one that arrives after the second search, or after a crash and the next search, is not modelled.
- Comments: account names are compared as given, not case-folded; GitHub's link headers agree with the page length.
- Heartbeat.Worker: waiting takes no longer than the interval and logging takes no time.
- TaskService.TaskStore.RecordSync: the feedback rows written in the same transaction are modelled apart, in Feedback.
- TaskService.TaskStore.RecordPoll: the recorded poll error and check time, which nothing else reads.
- TaskService.TaskStore.QueueFeedbackRevision: the trust of the chosen comments is a parameter, and their selected marks are left out.
- TaskService.TaskStore.UpsertIssue: of the provider's part only whether the issue is open, which is what dispatch reads; its texts are in Mirror.
- Agent review text parsing, Markdown rendering, redaction, prompts, notifications, HTTP routes and settings: library-bound or single branches.
