# Verified model of the SOJ online judge

A Dafny 4.11 model of the four subsystems of the judge whose correctness is spread over many
functions, with proofs of what they promise. `dafny verify dfyconfig.toml` checks everything.

* **Standings** (`Submissions`, `Projection`, `Ranking`, `Scoreboard`, `Standings`, `Paging`,
  `PagedWalk`, `ContestIndex`, `ContestTables`, `IndexRuns`, `Agreement`, `Snapshots`,
  `SnapshotProgress`, `SnapshotPages`). One ranking is computed four ways: from per-cell projections rebuilt with
  every verdict, from running totals, by folding raw submissions, and page by page behind a
  cursor. `Agreement` puts the four together. `ContestTables` has the transactions that keep the
  index, one at a time, and `IndexRuns` interleaves their locks, writes and rebuilds. `Snapshots`
  is the snapshot worker interleaved with rebuilds and `FirstRows` its query's order and limit,
  `SnapshotProgress` says that a pass catches up, `SnapshotPages` how its boards are stored and
  read back.
* **Judging** (`RejudgeItems`, `JudgeModel`, `JudgeRuns`, `ExactlyOnce`, `RejudgeAnswers`,
  `JudgeProgress`, `JudgeStore`, `LockOrder`, `CancelLocks`). A step relation over tasks, attempts, submissions,
  rejudge items and messages: dispatchers that read and write in separate steps, agents that
  answer a request any number of times, deliveries in any order and number, crashes between
  commit and acknowledgement; `JudgeProgress` says that none of it leaves an open submission
  stuck. `JudgeStore` is the same transactions as code over tables,
  `LockOrder` their row locks, and `CancelLocks` ties the locks of a cancellation to the run it
  reads its items from.
* **Testcases** (`NaturalOrder`, `Archive`, `ArchiveNames`, `ArchiveMeaning`, `ArchiveResults`,
  `ArchivePairs`, `FindingsOrder`, `TestcaseCache`, `CacheCallers`). The archive parser with its wrapping 64-bit guards, the
  order of case keys, and the byte-bounded cache with callers that write into what they got.
* **Runs** (`RunSlots`, `RunCap`, `Retention`, `RetentionSweep`, `RunArtifacts`, `SlotLimiter`) and
  the output checker (`Text`, `Checker`).

`Wrappers`, `Sorting`, `Sums` and `TextOrder` hold what the others share.

Code that updates fields, slices or maps step by step is a class or a method here, proved
against a function; the properties are proved about that function. Concurrency is a step
relation whose invariant is kept by every step and so holds in every run.

Facts the proofs turned up:

* A frozen cell that shows an acceptance equals the final cell exactly when no hidden submission
  of that user and problem was submitted before the accepted one (`Standings.FrozenCellIsFinal`);
  `Standings.FrozenCellChanges` is a history where it does not.
* A dispatcher that claims a task before a verdict and creates its attempt after it leaves an
  open attempt on a judged submission (`RejudgeAnswers.OpenAttemptOnJudged`). A later rejudge can
  then be answered by that older attempt: `RejudgeAnswers.AnsweredByOldAttempt` is such a run, and
  `RejudgeAnswers.RejudgeAnswered` says exactly when.
* At the end of that run the rejudge item still counts as running, since the reused attempt has
  no batch. `RejudgeAnswers.StrandedIff` says exactly when this happens; by
  `RejudgeAnswers.StrandedForGood` the submission can then not be rejudged again and its batch
  cannot end by progress. What decides it is whether the reused attempt has a `rejudge_batch_id`.
* Two executions may list the findings of one archive in different orders
  (`FindingsOrder.FindingsOrderVaries`). They list them alike exactly if the archive is refused
  before its members are read, or at most one input and at most one output has no partner
  (`FindingsOrder.SameFindingsIff`); all else agrees (`ArchiveResults.UploadPredictsJudging`).
* The candidate query for snapshots is ordered and has a limit, so the absence of a contest's
  final row does not always mean that its snapshot is current (`Snapshots.CutAnswerMisses`). It
  does exactly while the answer has room left or its last row sorts after that final row
  (`Snapshots.SnapshotFreshness`, `Snapshots.FreshnessIff`).
* A rejudge batch cancelled right after its creation puts a submission back to its stored
  verdict, which after a dead task is not what it showed, and cannot be cancelled if there is
  none (`ContestTables.CreateThenCancel`, `ContestTables.DeadTaskRows`).
* Deleting an expired run deletes the artifact row it refers to, whatever that row's owner and kind
  (`submissions.sql:953-955`), so "only run sources go" holds exactly but for the artifacts of expired
  runs (`RetentionSweep.SweepSpares`).
* Whatever crashed, went stale or was delivered twice, every open submission can still be brought to
  every verdict (`JudgeProgress.AnyVerdictPossible`): no unique index refuses the next attempt.

Assumptions about what is not code of this repository: `sort.Slice` sorts; a transaction commits
whole or not at all and holds its row locks to the end; the query that feeds the projection
returns exactly a user's terminal submissions to a problem; a testcase archive's checksum
identifies its bytes; `strings.ToLower` is any function of strings; Go walks a map in any order.

## Model

| member | source | states |
|---|---|---|
| `Projection.BuildContestProblemProjection` | internal/submission/contest_projection_repository.go:158-186 | The loop over the sorted copy returns the projection of the whole list; the argument is left as it was. |
| `Projection.ProjectionForgetsOrder` | internal/submission/contest_projection_repository.go:159-165 | Submissions with distinct ids have one projection, in whatever order the query returns them. |
| `Projection.ProjectionMeaning` | internal/submission/contest_projection_repository.go:166-185 | On times, ids and nanoseconds: accepted exactly if some submission is; then the first accepted one by time and id decides the accepted time, the attempts are those made up to it, and the penalty is twenty minutes for each of them before it plus the minutes since the start, of 60,000,000,000 ns each, cut off toward zero; otherwise all are counted and the last one is named. |
| `Ranking.RankRows` | internal/contest/scoreboard.go:523-542 | The array ends up as the stable sort of its old rows, with ranks assigned. |
| `Ranking.RankMeaning` | internal/contest/scoreboard.go:533-541 | After sorting, a row's rank is one plus the number of rows with a strictly better (accepted, penalty). |
| `Ranking.RankedMeaning` | internal/contest/scoreboard.go:523-542 | Ranking permutes the rows and gives every row the rank its score earns among them. |
| `Ranking.RankedOrder` | internal/contest/scoreboard.go:524-532 | Down the board the accepted count falls, then the penalty rises, then no name comes before one above it. |
| `TextOrder.CompareMeaning` | internal/contest/scoreboard.go:531 | A name comes before another exactly if it is a proper prefix of it or has the smaller character where they first differ. |
| `Ranking.TiesKeepOrder` | internal/contest/scoreboard.go:524-532 | Rows equal in accepted, penalty and name keep their input order. |
| `Scoreboard.BuildBoardFromResults` | internal/contest/scoreboard.go:365-413 | The board filled in place from the projections is the ranked board of the cells each (user, problem) result gives. |
| `Scoreboard.FrozenResultHides` | internal/contest/scoreboard.go:386-405 | On the frozen board a result accepted after the freeze shows its attempts and nothing else; any other shows what the live board shows. |
| `Scoreboard.BuildBoardFromSubmissions` | internal/contest/scoreboard.go:415-481 | The board filled in place from raw submissions is the ranked board of the per-cell folds of the sorted submissions. |
| `Scoreboard.ApplyVisibleSubmission` | internal/contest/scoreboard.go:492-506 | Updating the cell state in place is one step of the fold; nothing changes once the cell is accepted. |
| `Scoreboard.Observe` | internal/contest/scoreboard.go:434-458 | One submission changes the state of its own (user, problem) and of no other; hidden ones only add to the hidden count. |
| `Scoreboard.FillRow` | internal/contest/scoreboard.go:381-411 | A row's accepted count and penalty are the sums over its accepted cells. |
| `Standings.FoldMeaning` | internal/contest/scoreboard.go:434-506 | After any prefix the cell state is the first accepted visible submission, the failures before it, and the hidden count, said without the loop. |
| `Standings.FoldedCell` | internal/contest/scoreboard.go:415-481 | Each folded cell is what the earliest accepted visible submission, the failures before it and the hidden count make of it. |
| `Standings.TwoScoringsAgree` | internal/contest/scoreboard.go:365-481 | For a view that is not frozen and distinct ids, the board folded from raw submissions equals the board built from their projections: rows, order, ranks and cells (last submission compared on accepted cells only), whatever the two input orders. |
| `Standings.BoardForgetsOrder` | internal/contest/scoreboard.go:415-431 | The folded board does not depend on the order of the submissions. |
| `Standings.FrozenNonInterference` | internal/contest/scoreboard.go:434-481 | Two histories with the same visible submissions and the same hidden count per cell have the same frozen board. |
| `Standings.AcceptedCellMeaning` | internal/contest/scoreboard.go:459-506 | A folded cell is accepted exactly if some shown submission of its user and problem is. |
| `Standings.AcceptedCellInNumbers` | internal/contest/scoreboard.go:434-506 | An accepted folded cell has the time and id of the first acceptance the view reveals, counts the revealed submissions made before it, and charges twenty minutes for each plus the whole minutes since the start; the frozen view reveals what was submitted before the freeze and first judged by then. |
| `Standings.OpenCellInNumbers` | internal/contest/scoreboard.go:434-481 | A cell is accepted exactly if something it reveals is; any other shows how many submissions are hidden, if any are, and otherwise how many there are. |
| `Standings.FrozenIsSound` | internal/contest/scoreboard.go:434-481 | Every cell accepted on the frozen board is accepted on the final one, so no frozen accepted count exceeds the final count. |
| `Standings.FrozenCellIsFinal` | internal/contest/scoreboard.go:434-506 | An accepted frozen cell equals the final cell if and only if no hidden submission of the user and problem comes before the accepted one in (time, id) order. |
| `Standings.FrozenCellChanges` | internal/contest/scoreboard.go:434-458 | A history in which the frozen cell is accepted and differs from the final one: an earlier acceptance was judged after the freeze. |
| `Paging.ApplyPageRanks` | internal/contest/scoreboard.go:244-256 | In place, each row gets the rank the cursor and its predecessor determine; nothing else changes. |
| `Paging.PopulateRowsWithResults` | internal/contest/scoreboard.go:184-224 | In place, every cell becomes the cell of its user's stored result, or stays blank. |
| `Paging.LiveScoreboardPage` | internal/contest/scoreboard.go:105-150 | The page and next cursor are those of the specification: query, one extra row, ranks, cells. |
| `Paging.CursorSelectsAfter` | internal/postgres/queries/contests.sql:161-187 | The keyset predicate selects exactly the active rows that come after the cursor's row: fewer accepted, then more penalty, then a later name, then a higher user id. |
| `Paging.StandingIsStrict` | internal/postgres/queries/contests.sql:161-187 | With distinct users that order is strict: no two registrations tie. |
| `PagedWalk.QueryAt` | internal/postgres/queries/contests.sql:161-187 | With the cursor after k rows, the query returns the rows from position k on, up to its limit. |
| `PagedWalk.PageAt` | internal/contest/scoreboard.go:105-150 | A page after k rows is exactly rows k to k + size of the whole ranking, ranks included, with a cursor if and only if rows remain. |
| `PagedWalk.WalkIsPrefix` | internal/contest/scoreboard.go:105-150 | Following next_cursor with any page sizes has yielded, after each page, a prefix of the whole ranking: each registration once, in order, with its rank. |
| `PagedWalk.WalkTerminates` | internal/contest/scoreboard.go:130-150 | With positive page sizes the walk ends, after at most as many pages as there are rows, having yielded the whole ranking. |
| `PagedWalk.WholeBoardMeaning` | internal/contest/scoreboard.go:244-256 | In the whole ranking each row's rank is one plus the number of rows with strictly better (accepted, penalty), the rank the other board gives. |
| `PagedWalk.PagedRowsAreBoardRows` | internal/contest/scoreboard.go:105-150 | While the stored totals are current, the paged rows are a permutation of the rows of the board built from results, with the same ranks. |
| `ContestIndex.TotalIsScratch` | internal/submission/contest_projection_repository.go:120-150 | Totals summed from current projections are the totals recomputed from the raw terminal submissions. |
| `ContestIndex.EnsuredIsCurrent` | internal/submission/contest_projection_repository.go:60-80 | Inserting the empty projection row changes no current total. |
| `ContestIndex.ChangeMakesStale` | internal/submission/contest_projection_repository.go:87-156 | Changing one submission leaves every cell and every user's totals current except its own. |
| `ContestIndex.RebuiltIsCurrent` | internal/submission/contest_projection_repository.go:87-156 | Rebuilding the one stale (user, problem) makes the whole index current again. |
| `ContestIndex.CurrentIsUnique` | internal/submission/contest_projection_repository.go:87-156 | There is only one current index for given submissions, so the incremental index is the recomputed one. |
| `ContestIndex.CellShows` | internal/submission/contest_projection_repository.go:87-185 | While the index is current, a stored cell is accepted exactly if one of that user's submissions to the problem is, and empty exactly if none has been judged. |
| `ContestIndex.AcceptedCellShows` | internal/submission/contest_projection_repository.go:87-185 | What an accepted cell stores is read off the judged submissions: the first acceptance by time and id, those before it, and the penalty in nanoseconds. |
| `ContestTables.ContestTables.LockContestProblemProjection` | internal/submission/contest_projection_repository.go:40-85 | Enabled exactly for a contest problem and a registered user; the index stays current. |
| `ContestTables.ContestTables.RebuildContestProblemResult` | internal/submission/contest_projection_repository.go:87-156 | Rewrites the stale projection and totals and adds one revision; the index is current afterwards. |
| `ContestTables.ContestTables.CompleteSubmissionAttempt` | internal/submission/judge_repository.go:158-234 | Only a queued or running submission gets the verdict: status, stored verdict, attempt and judging time are those given, a first judging time stays, a task in flight is done, everything else and every other row is as before, and an acceptance in the contest shows in the stored cell; the running item of an attempt made for a batch is completed and its batch refreshed, and without such an item nothing is written. |
| `ContestTables.ContestTables.MarkJudgeTaskDead` | internal/submission/judge_task_repository.go:77-109 | A task in flight dies: a queued or running submission becomes a system error with its judging times set and its attempt and stored verdict kept, a judged one stays, its active rejudge item fails and that item's batch is refreshed, with the index current afterwards. |
| `ContestTables.ContestTables.RecoverDeadJudgeTask` | internal/submission/judge_task_repository.go:111-148 | Only a dead task of a system-error submission is reopened: that submission is queued and its task pending, all else is kept, and the index is current afterwards. |
| `ContestTables.ContestTables.CreateRejudgeBatchWithItems` | internal/submission/rejudge_repository.go:18-118 | All targets become queued with a pending task and get a queued item of a new batch, or nothing changes: refused for no targets, then for one that is open or whose task is, then for one with an active item. |
| `ContestTables.ContestTables.CancelRejudgeBatch` | internal/submission/rejudge_repository.go:157-240 | For an open batch all queued items are cancelled and their submissions show their stored verdict with a finished task; if one is no longer queued with a pending task and a stored verdict, or the batch is unknown or no longer open, no table changes. |
| `ContestTables.CreateThenCancel` | internal/submission/rejudge_repository.go:85-232 | Cancelled right after its creation, a batch is cancelled if and only if every target has a stored verdict, and a target shows its old status again if and only if it is and that verdict is the status. |
| `ContestTables.RestoredShows` | internal/postgres/queries/submissions.sql:556-569 | Reopening and restoring one submission gives its old row back, but for a finished task, if and only if its stored verdict is the status it showed. |
| `ContestTables.DeadTaskRows` | internal/submission/judge_task_repository.go:77-109 | A dead task makes submissions that may be rejudged and show a system error with no stored verdict, or with another one. |
| `ContestTables.ContestTables.StartRejudgeBatchItem` | internal/submission/judge_repository.go:60-110 | A queued item starts unless another has its attempt; the batch is refreshed only for a new attempt, and fits its items either way. |
| `ContestTables.ContestTables.MarkSubmissionRunning` | internal/postgres/queries/submissions.sql:622-628 | Only a queued submission starts to run, and the index stays current without a rebuild. |
| `RejudgeItems.FinishFits` | internal/postgres/queries/submissions.sql:571-599 | After an item is finished and its batch refreshed, every batch that was not cancelled is open exactly while it has an active item and failed exactly if an item failed. |
| `RejudgeItems.FailFits` | internal/postgres/queries/submissions.sql:526-534 | The same after the active item of a dead task is failed. |
| `RejudgeItems.RefreshMeaning` | internal/postgres/queries/submissions.sql:571-599 | Refreshing leaves a cancelled batch and all others alone; it makes a batch running exactly if an item of it is queued or running, and completed exactly if all are completed or cancelled. |
| `IndexRuns.StepKeeps` | internal/submission/contest_projection_repository.go:40-156 | Every step of any number of transactions (row lock, registration lock, write, rebuild, commit, abort) and of unlocked inserts and status changes keeps: a transaction sees a current index for every user it has locked, but for the cell between its write and its rebuild. |
| `IndexRuns.CommittedIsCurrent` | internal/submission/contest_projection_repository.go:87-156 | Under any interleaving every committed cell and total equals recomputation from the committed submissions, in particular whenever nobody holds a user's registration. |
| `IndexRuns.LockedIsCurrent` | internal/submission/contest_projection_repository.go:56-62 | At most one transaction has locked a user, and it sees that user's cells and totals current but for the one it is about to rebuild. |
| `IndexRuns.AloneCommits` | internal/submission/contest_projection_repository.go:40-156 | While no other transaction is open, one can rewrite any row of its cell and commit by enabled steps, which changes that row alone and leaves the index current for it. |
| `Agreement.StandingsAgree` | internal/contest/scoreboard.go:105-150 | While the index is current, the live view paged to its end with any page sizes yields the same rows with the same ranks as the board built from results, and that board equals the one folded from the raw terminal submissions. |
| `Snapshots.EmptyRowInvisible` | internal/postgres/queries/submissions.sql:304-320 | An inserted empty projection row changes no board, so it needs no revision. |
| `Snapshots.StepKeeps` | internal/contest/scoreboard.go:259-326 | Every step of the worker, of rebuilds, of status changes and of the clock keeps the invariant: a final snapshot is never stamped with a later revision than its contest has, shows the board of the current results while its stamp is the current revision, and successive final snapshots have increasing stamps. |
| `FirstRows.SortedAndCut` | internal/postgres/queries/contests.sql:355-356 | Sorting the rows of a query and cutting at the limit gives the first `limit` of them: each sorts before every row that is left out. |
| `Snapshots.AnswerExists` | internal/postgres/queries/contests.sql:262-356 | In every state the candidate query has an answer: its due rows by due time, id and kind, cut at the limit, each with its contest's revision. |
| `Snapshots.AnswerIsUnique` | internal/postgres/queries/contests.sql:355-356 | That answer is the only one: due time, id and kind leave no ties. |
| `Snapshots.OfferedIff` | internal/postgres/queries/contests.sql:317-356 | A contest's final row is in the answer if and only if it is due and fewer than `limit` due rows sort before it. |
| `Snapshots.OfferedRow` | internal/postgres/queries/contests.sql:262-356 | Every row of the answer is of a listed contest past its freeze or end, carries its current revision, and has no frozen snapshot, or is idle and has no final one of that revision. |
| `Snapshots.OfferedOrder` | internal/postgres/queries/contests.sql:355-356 | Rows are ordered by due time, then contest id, then final before frozen. |
| `Snapshots.FrozenIsOffered` | internal/postgres/queries/contests.sql:262-316 | A listed contest past its freeze without a frozen snapshot is in the answer, or the answer is full of rows due no later. |
| `Snapshots.FinalIsOffered` | internal/postgres/queries/contests.sql:317-356 | Likewise an ended, idle contest whose final snapshots are all of earlier revisions. |
| `Snapshots.SnapshotFreshness` | internal/contest/scoreboard.go:259-326 | In every reachable state with one worker: if the answer offers no final row for a listed, ended, idle contest, and either has room left or has a last row sorting after that final row, then the contest's newest final snapshot has the rows of the board of its current results. |
| `Snapshots.FreshnessIff` | internal/postgres/queries/contests.sql:317-356 | That condition on the answer is exact: without it, some reachable state with the same answer has a contest whose newest final snapshot is out of date or missing, if its board can change at all. |
| `Snapshots.CutAnswerMisses` | internal/postgres/queries/contests.sql:355-356 | Two ended, idle contests and a limit of one: the answer offers no final row for the second, which has no final snapshot. |
| `SnapshotProgress.WorkerCatchesUp` | internal/contest/scoreboard.go:259-326 | From every reachable state, if the worker starts over and the answer is not cut, one pass over it leaves every listed, ended, idle contest with a newest final snapshot that shows its current results. |
| `SnapshotProgress.OneCandidate` | internal/contest/scoreboard.go:275-326 | One candidate: its board, the final one of the current results or the frozen one it is given, goes in with the candidate's revision and the clock, unless its contest, kind and revision are there already. |
| `SnapshotPages.SnapshotStore.CreateScoreSnapshot` | internal/contest/repository.go:477-534 | Nothing changes when the (contest, kind, revision) exists; otherwise the header and one row per board row, with ordinals from 1, are added. |
| `SnapshotPages.SnapshotStore.ScoreSnapshotPage` | internal/contest/scoreboard.go:152-182 | Not ready without a snapshot, stale for a cursor of another snapshot, otherwise the page the specification cuts. |
| `SnapshotPages.CreateFiles` | internal/contest/repository.go:477-534 | Every stored snapshot keeps exactly its own board's rows, whatever is created next to it. |
| `SnapshotPages.CreateIsInsert` | internal/contest/repository.go:477-534 | On the tables, creating a snapshot is the insert-if-absent the freshness proof uses. |
| `SnapshotPages.PageIs` | internal/contest/scoreboard.go:152-182 | A page is the next slice of the latest board, with a cursor if and only if rows remain. |
| `SnapshotPages.FollowIsOneBoard` | internal/contest/scoreboard.go:152-182 | Whatever snapshots are created between pages, a reader gets consecutive rows of the one board it started on, or is told its cursor is stale. |
| `SnapshotPages.Latest` | internal/postgres/queries/contests.sql:392-398 | The chosen snapshot has the latest generation time, then the highest id, among those of the contest and kind. |
| `JudgeStore.Tables.CompleteJudgeAttemptResult` | internal/submission/judge_repository.go:112-234 | Persisted exactly if the attempt is open, its submission queued or running and, for a batch, its item running; then submission, stored result, attempt and a task in flight are the verdict's, the items running for the attempt are completed, and nothing else changes. Otherwise all tables are as before. |
| `JudgeStore.Tables.FinishRejudgeBatchItem` | internal/postgres/queries/submissions.sql:516-524 | Exactly the items running for the attempt are completed, and their absence is reported. |
| `JudgeStore.Tables.EnsureJudgeAttempt` | internal/submission/judge_repository.go:33-110 | Returns an open attempt of the submission, the latest one if that is open and otherwise a new one, numbered one above the last and made for a batch exactly if an item of the submission is queued; only such an item is started, and an error changes nothing. |
| `JudgeStore.ResultConsumer.ProcessResultMessage` | internal/submission/async.go:306-340 | The result is committed before the message is acknowledged; a crash in between leaves the message in the queue with the result written. |
| `JudgeStore.UninterruptedSteps` | internal/submission/judge_repository.go:33-110 | The dispatcher's separate reads and writes, run together, are EnsureJudgeAttempt. |
| `JudgeStore.EnsureTwice` | internal/submission/judge_repository.go:49-66 | In every reachable state, ensuring a submission's attempt twice leaves all tables as ensuring it once does. |
| `JudgeModel.CreateBatchMeaning` | internal/submission/rejudge_repository.go:18-118 | A batch is made exactly of distinct submissions that are judged, whose tasks are over and that are in no open batch; it queues them again and adds one queued item each. |
| `JudgeModel.CancelBatchMeaning` | internal/submission/rejudge_repository.go:157-240 | A cancellation goes exactly if every queued item of the batch still waits and has a stored verdict, and then puts those verdicts back. |
| `ExactlyOnce.FreeNumberIsNext` | internal/submission/judge_repository.go:49-67 | If the number after a closed attempt is free, that attempt is the submission's last, however stale the read was. |
| `ExactlyOnce.StepKeeps` | internal/submission/judge_repository.go:33-234 | Every step of dispatchers, agents, deliveries, acknowledgements, rejudges and cancellations keeps the invariant. |
| `ExactlyOnce.NumberedFromOne` | internal/submission/judge_repository.go:47-67 | In every run a submission's attempts are numbered 1..n in order of creation, and only the last may be open. |
| `ExactlyOnce.WrittenOnce` | internal/submission/judge_repository.go:128-138 | A written delivery decides its attempt for good: any later delivery for it, with any verdict, changes nothing. |
| `ExactlyOnce.LateResultIgnored` | internal/submission/judge_repository.go:128-138 | A result for an attempt that is not its submission's last changes nothing, so a late duplicate never changes a rejudge's verdict. |
| `ExactlyOnce.OneEntryPerAttempt` | internal/submission/judge_repository.go:112-154 | Over a whole run each attempt is written at most once, and a verdict is stored exactly if its one delivery was written. |
| `ExactlyOnce.WrittenIff` | internal/submission/judge_repository.go:136-167 | In every reachable state a result is written exactly if its attempt is open and its submission has no verdict; the rejudge item never stands in the way. |
| `ExactlyOnce.ShownVerdict` | internal/submission/judge_repository.go:158-216 | A judged submission shows the verdict of its last closed attempt. |
| `ExactlyOnce.JudgedUntilReopened` | internal/submission/judge_repository.go:165-167 | A submission's verdict stands until it is put in a rejudge batch. |
| `JudgeProgress.AnyVerdictPossible` | internal/submission/worker.go:118-228 | Nothing gets stuck: from every reachable state with a dispatcher, every open submission can be brought to every verdict by enabled steps, with its task done, its result stored and its message acknowledged. |
| `JudgeProgress.NextIsFree` | internal/submission/judge_repository.go:47-67 | Read and written with nothing in between, the number of a new attempt is never taken. |
| `JudgeProgress.StaleIsQueued` | internal/postgres/queries/submissions.sql:813-841 | A stale dispatch of an open submission puts it back in the queue with a pending task and touches nothing else. |
| `JudgeProgress.Redelivered` | internal/submission/async.go:306-340 | Delivering a message does not use it up: it can be delivered again, and acknowledged, whatever it did. |
| `ExactlyOnce.CancelUndoesCreate` | internal/submission/rejudge_repository.go:157-240 | Cancelling a batch right after creating it restores every status, result and attempt; only the tasks of its targets end up done. |
| `RejudgeAnswers.RejudgeAnswered` | internal/submission/rejudge_repository.go:90-110 | A rejudge can be answered by an attempt made before it if and only if the submission had an open attempt when it was reopened; otherwise every result written for it is of a later attempt. |
| `RejudgeAnswers.OpenAttemptOnJudged` | internal/submission/worker.go:118-178 | A run that leaves an open attempt on a judged submission ready to be rejudged: a dispatcher claims before the verdict and creates its attempt after it. |
| `RejudgeAnswers.AnsweredByOldAttempt` | internal/submission/judge_repository.go:60-66 | That run continued: the rejudge is dispatched with the old attempt, whose result is written as the answer, and its item is left running. |
| `RejudgeAnswers.StrandedIff` | internal/submission/judge_repository.go:214-223 | In every reachable state a started item whose attempt has its result still runs if and only if that attempt was not made for a batch, and is completed otherwise. |
| `RejudgeAnswers.StrandedForGood` | internal/postgres/queries/submissions.sql:571-599 | Such an item stays as it is in every later state, its submission never becomes rejudgeable again, and its batch always has an active item. |
| `RejudgeAnswers.StrandedTaskStays` | internal/postgres/queries/submissions.sql:763-770 | If the task of such an item is done it stays done, so the dead-task path, which wants a task in flight, cannot end the item either. |
| `LockOrder.ProgramInOrder` | internal/submission/rejudge_repository.go:53-81 | Each of the five transactions takes task, then attempt, then submission rows, each ascending, and afterwards touches only rows it holds. |
| `LockOrder.LockTargets` | internal/submission/rejudge_repository.go:53-81 | The two in-place sorts and lock loops ask for exactly the locks of the batch's program, in order, and leave the targets sorted by submission. |
| `LockOrder.LockQueuedItems` | internal/submission/rejudge_repository.go:178-202 | The same for the items of a batch that is cancelled. |
| `ExactlyOnce.QueuedWasQueued` | internal/submission/rejudge_repository.go:167-203 | In every run an item found queued when its batch is cancelled was already queued, and the same, whenever the batch was read before. |
| `LockOrder.CancelTouches` | internal/submission/rejudge_repository.go:203-226 | Cancelling updates only rows whose locks it took, since a queued item was queued when the locks were chosen. |
| `LockOrder.StepKeeps` | internal/submission/rejudge_repository.go:53-81 | No lock is ever held by two transactions. |
| `LockOrder.NoDeadlock` | internal/submission/judge_repository.go:123-162 | For any number of concurrent transactions, no path of waits-for edges in any reachable state returns to its start. |
| `LockOrder.Progress` | internal/submission/judge_task_repository.go:77-128 | While a transaction is unfinished, some unfinished transaction can take its next lock or has them all. |
| `CancelLocks.DrawnIsSound` | internal/submission/rejudge_repository.go:163-206 | If the queued and the cancelled items of a cancel transaction are those of two moments of a judging run, the cancelled ones are among those whose rows it locked. |
| `CancelLocks.JudgingNeverDeadlocks` | internal/submission/rejudge_repository.go:157-226 | Next to any judging run from which the cancellations draw their items, no waits-for path returns to its start, and while a transaction is unfinished some transaction can move. |
| `NaturalOrder.NaturalTokens` | internal/problem/testcase_archive.go:496-508 | The two nested loops cut the string into its runs. |
| `NaturalOrder.TokensSpell` | internal/problem/testcase_archive.go:496-508 | The runs are nonempty, maximal, alternate between digits and others, and spell the string. |
| `NaturalOrder.DigitRunsCompareAsNumbers` | internal/problem/testcase_archive.go:529-541 | Digit runs of any length compare as the numbers they denote. |
| `NaturalOrder.TokensFlip` | internal/problem/testcase_archive.go:510-527 | Token comparison is antisymmetric and zero only for equal tokens. |
| `NaturalOrder.TokensTransitive` | internal/problem/testcase_archive.go:510-527 | Token comparison is transitive, strictly if either step is strict. |
| `NaturalOrder.NaturalLess` | internal/problem/testcase_archive.go:485-494 | The loop decides the lexicographic order of the runs. |
| `NaturalOrder.NaturalTrichotomy` | internal/problem/testcase_archive.go:480-494 | For all strings exactly one of before, equal, after holds. |
| `NaturalOrder.NaturalTransitive` | internal/problem/testcase_archive.go:480-494 | The natural order is transitive. |
| `NaturalOrder.NumbersByValue` | internal/problem/testcase_archive.go:510-541 | Keys that are numbers come by value, and of two spellings of one number the one that sorts first. |
| `NaturalOrder.WordsByLowerCase` | internal/problem/testcase_archive.go:510-527 | Keys without digits come by their lower case, and of two that agree in it the one that sorts first. |
| `NaturalOrder.DigitsFirst` | internal/problem/testcase_archive.go:485-515 | A key that starts with a digit comes before one that does not, and the empty key before all others. |
| `NaturalOrder.NaturalSortIsDeterministic` | internal/problem/testcase_archive.go:470-474 | Sorting keys gives one result whatever order they come in. |
| `Archive.ReadArchiveEntry` | internal/problem/testcase_archive.go:345-378 | Reading in pieces of any size stops with an error exactly when the content exceeds the limit or is damaged, and otherwise returns its size and, if asked, its bytes. |
| `Archive.RecordArchiveEntry` | internal/problem/testcase_archive.go:331-341 | The first member of a slot is kept and a second one reported. |
| `Archive.ParseMember` | internal/problem/testcase_archive.go:219-281 | The branches for one member do what the specification's step says. |
| `Archive.ParseArchive` | internal/problem/testcase_archive.go:186-327 | The whole loop computes the specified findings, cases and testcases. |
| `Archive.ValidateArchive` | internal/problem/testcase_archive.go:120-123 | The parse with zero options, without contents. |
| `Archive.VerifyArchive` | internal/problem/testcase_archive.go:127-130 | The parse with a checksum, without contents. |
| `Archive.LoadArchive` | internal/problem/testcase_archive.go:135-139 | The parse with contents kept. |
| `ArchiveNames.SlotByName` | internal/problem/testcase_archive.go:408-432 | In any directory, a nonempty stem with extension "in" in any case is the input of the case it names, with "ans" or "out" the output, and with any other extension nothing. |
| `ArchiveNames.NoSlotByName` | internal/problem/testcase_archive.go:413-416 | A name without a dot after its first character, or that ends in one, has no slot. |
| `ArchiveNames.EveryName` | internal/problem/testcase_archive.go:408-412 | Every name is a directory part, empty or up to a separator of either kind, and a base name without one. |
| `ArchiveNames.EveryBase` | internal/problem/testcase_archive.go:408-417 | Every other base name is a stem and an extension, so these two decide the slot of any member. |
| `ArchiveNames.IgnoredByName` | internal/problem/testcase_archive.go:434-447 | A member is ignored exactly if a segment of its path starts with a dot or is __MACOSX. |
| `ArchiveNames.DefaultLimits` | internal/problem/testcase_archive.go:98-115 | Limits left at zero are 128 MiB, 16 MiB an entry, 128 MiB in all, 2048 files and a ratio of 200, in bytes. |
| `ArchiveNames.SizeRefuses` | internal/problem/testcase_archive.go:186-196 | An empty archive, or one over 134,217,728 bytes, is refused before anything else is looked at. |
| `ArchiveNames.FoldMeaning` | internal/problem/testcase_archive.go:203 | Checksums agree up to the case of ASCII letters. |
| `ArchiveMeaning.RatioIsExact` | internal/problem/testcase_archive.go:449-460 | The ratio guard computes size > compressed * ratio in unbounded integers; no product wraps. |
| `ArchiveMeaning.TotalIsExact` | internal/problem/testcase_archive.go:249-251 | The guard on a running total is exact and the addition after it does not wrap. |
| `ArchiveMeaning.TotalsStayWithin` | internal/problem/testcase_archive.go:249-280 | After any members, whatever was reported, both running totals are within the budget, so the guards never wrap. |
| `ArchiveMeaning.LoopFindingsAreTrue` | internal/problem/testcase_archive.go:219-281 | After any members, a finding about the next one names a defect it has, in unbounded arithmetic. |
| `ArchiveMeaning.CleanIff` | internal/problem/testcase_archive.go:212-281 | The loop reports no error exactly if all participating members are well named, readable and within every budget and no slot is claimed twice. |
| `ArchiveMeaning.AcceptedIff` | internal/problem/testcase_archive.go:186-327 | Parsing reports no error if and only if the archive passes size and checksum, the members stay within budget in ideal arithmetic, and every key has exactly one input and one output. |
| `ArchiveResults.PerfectPairing` | internal/problem/testcase_archive.go:283-326 | In an accepted archive participating members are twice the cases and keys strictly increase in natural order. |
| `ArchiveResults.CasesFit` | internal/problem/testcase_archive.go:302-326 | Each case has the names, sizes, contents and id of its two members. |
| `ArchiveResults.MemberHasCase` | internal/problem/testcase_archive.go:302-326 | Each participating member belongs to exactly one case, as its input or its output. |
| `ArchivePairs.PairAccepted` | internal/problem/testcase_archive.go:186-327 | A stem with "in" and the same stem with "out" or "ans", in any directories, within the budgets, makes an archive of exactly that case. |
| `ArchiveResults.OrderDoesNotMatter` | internal/problem/testcase_archive.go:283-327 | An accepted archive stays accepted, with the same ids, keys and contents, for any member order and any map iteration order. |
| `ArchiveResults.UploadPredictsJudging` | internal/problem/testcase_archive.go:120-139 | With the true checksum, validation, verification and loading, each walking its maps in its own order, agree on whether there are errors, on the findings up to their order and on the cases, for broken archives too. |
| `FindingsOrder.SameFindingsIff` | internal/problem/testcase_archive.go:283-300 | All map orders give one list of findings if and only if the archive is refused before its members are read, or at most one recorded input lacks its output and at most one output its input. |
| `FindingsOrder.NamesDecide` | internal/problem/testcase_archive.go:283-300 | For members without another defect this is a condition on their names: at most one key names an input alone and at most one an output alone. |
| `FindingsOrder.FoldLeads` | internal/problem/testcase_archive.go:331-341 | After any members, each recorded file name leads back to the slot it is recorded under, so different keys have different file names. |
| `FindingsOrder.FindingsOrderVaries` | internal/problem/testcase_archive.go:283-300 | An archive of two inputs without outputs whose findings two map orders list differently. |
| `ArchiveResults.WrongChecksumRefused` | internal/problem/testcase_archive.go:197-207 | Bytes of admissible size are reported as corrupted if and only if a checksum is expected that is not theirs, and then nothing else is reported or listed. |
| `ArchiveResults.LoadsTheObject` | internal/problem/testcase_archive.go:135-139 | Clean loads of one object agree on ids and contents, whatever limits and map order they run with. |
| `TestcaseCache.EvictsShortestSuffix` | internal/submission/testcase_cache.go:229-236 | Eviction keeps the longest prefix of the recency list that leaves room. |
| `TestcaseCache.StoredMeaning` | internal/submission/testcase_cache.go:217-251 | Storing keeps keys distinct and the byte bound, drops a shortest least-recently-used tail, and does nothing for a known key or an oversized entry. |
| `TestcaseCache.TouchedMeaning` | internal/submission/testcase_cache.go:209 | Touching a line moves it to the front and changes no other line. |
| `TestcaseCache.AgreeMeaning` | internal/submission/testcase_cache.go:49-51 | The map's keys are exactly the keys of the list, each leading to its element. |
| `TestcaseCache.Cache.Get` | internal/submission/testcase_cache.go:202-215 | A hit returns a fresh copy and moves the line to the front; a miss changes nothing. |
| `TestcaseCache.Cache.RemoveOldest` | internal/submission/testcase_cache.go:231-235 | The back of the list leaves the list, the map and the counter. |
| `TestcaseCache.Cache.Put` | internal/submission/testcase_cache.go:217-251 | The lines become those the specification stores; the stored slice is a fresh copy. |
| `TestcaseCache.Cache.Load` | internal/submission/testcase_cache.go:80-130 | Every successful load returns a fresh slice with the ids and contents that parsing the archive with the reference's checksum gives, hit or miss; it is refused exactly for an id or case count that is not positive or a blank checksum or key, and fails to download exactly on a miss without an archive of at most 134,217,728 bytes; a hit moves its line to the front, a download is stored, a failure changes nothing, and the cache comes to own fresh slices only. |
| `TestcaseCache.SharedLineIff` | internal/submission/testcase_cache.go:132-146 | Two references share a line exactly if they agree on the id and, up to case and outer white space, on the checksum. |
| `TestcaseCache.ParsedLimits` | internal/submission/testcase_cache.go:100-130 | The cases of a freshly parsed archive are numbered from one and carry the limits of the reference. |
| `TestcaseCache.BytesOfIsSum` | internal/submission/testcase_cache.go:257-263 | A line weighs the bytes of all its inputs and outputs. |
| `CacheCallers.Serve` | internal/submission/testcase_cache.go:253-255 | Over any sequence of loads and of writes into the slice of any earlier load, the cache and all slices are as if slices were values that share nothing; the cache stays authentic, and a slice nobody wrote into holds the cases of the archive its reference names. |
| `CacheCallers.WritesUnseen` | internal/submission/testcase_cache.go:202-255 | Taking every write out of such a sequence changes neither the cache nor any slice that was not written to. |
| `CacheCallers.QuietLoadsServe` | internal/submission/testcase_cache.go:80-130 | Each load of a sequence without writes returns the cases of the archive its reference names, whatever was loaded before. |
| `RunSlots.NextOk` | internal/submission/run_service.go:175-238 | Each step of a request or its run changes the slot channel and the wait group by what it takes or gives up. |
| `RunSlots.StepKeeps` | internal/submission/run_service.go:144-376 | Every interleaving keeps: slots in use are the slots owned, the wait group counts them and the half-done releases. |
| `RunSlots.SlotsAreOwned` | internal/submission/run_service.go:358-376 | Held slots never exceed the parallelism, and a request takes at most one, owned by it or by its run but never both. |
| `RunSlots.ReleasedExactlyOnce` | internal/submission/run_service.go:175-237 | On every exit path, once the request has returned and its run has ended, its slot was freed exactly as often as taken. |
| `RunSlots.NoneReservedWhileClosing` | internal/submission/run_service.go:342-371 | No reservation succeeds once shutdown has begun. |
| `RunSlots.ReservesIff` | internal/submission/run_service.go:358-371 | A reservation takes a slot and joins the wait group exactly if shutdown has not begun, the context is not cancelled and a slot is free. |
| `RunSlots.RunOutlivesRequest` | internal/submission/run_service.go:228-237 | A request can stop waiting while its run is executing, which keeps the slot. |
| `RunSlots.FailuresUndo` | internal/submission/run_service.go:185-231 | A failed upload or artifact row goes straight to the release of the slot; a refused admission discards its source first. |
| `RunSlots.CloseMeansDrained` | internal/submission/run_service.go:332-353 | Once Close can return nil, no inline run is outstanding, then or later. |
| `RunSlots.OwnersCanMove` | internal/submission/run_service.go:308-328 | An owner of a slot always has a step of its own that does not wait for anyone. |
| `RunSlots.ShutdownCanFinish` | internal/submission/run_service.go:332-353 | During shutdown somebody can move until the wait group is empty, and then Close can return. |
| `RunSlots.RunService.CreateRun` | internal/submission/run_service.go:175-238 | On every path the pool ends with one more slot if a run was started and none otherwise. |
| `RunCap.StepKeeps` | internal/submission/run_repository.go:41-119 | Every statement of every admission, and runs starting, finishing, going stale or being deleted, keeps the invariant. |
| `RunCap.CapHolds` | internal/submission/run_repository.go:41-86 | On every interleaving the rows of a user that are not deleted and are queued or running number at most the cap. |
| `RunCap.FinishedStays` | internal/submission/run_repository.go:93-119 | A finished run keeps its verdict and never becomes active again. |
| `RunCap.PlacesMove` | internal/submission/run_repository.go:41-119 | A user's places change only when a run is committed, or ends with its verdict or, being stale, as a system error. |
| `RunCap.CountIsExact` | internal/postgres/queries/submissions.sql:911-918 | What the query counts are the user's queued and running rows. |
| `RunCap.RefusedIff` | internal/submission/run_repository.go:48-62 | An admission is refused at the count exactly if that number has reached the cap. |
| `RunCap.RunTable.AdmitRun` | internal/submission/run_repository.go:41-86 | Admits exactly while the user's queued and running rows are fewer than the cap, with a missing user and a full quota told apart; adds exactly one row, which takes one place, and, if asked to, that run's one task. |
| `Retention.DeleteRunStrandsNothing` | internal/submission/run_retention.go:220-233 | Deleting one run, with either call failing before or after its effect, leaves no object without its row. |
| `Retention.DeleteRunKeepsLinks` | internal/submission/run_repository.go:177-200 | No run row outlives its artifact row; a shared artifact refuses the transaction. |
| `Retention.ExpiredAreOldest` | internal/postgres/queries/submissions.sql:927-947 | The runs listed for deletion are finished and older than the limit, by creation time and id; one not listed comes after a full list. |
| `Retention.OrphansAreOldest` | internal/postgres/queries/submissions.sql:957-977 | Likewise for run sources that no run refers to. |
| `RetentionSweep.Store.DeleteExpiredRun` | internal/submission/run_repository.go:183-200 | Both rows go or neither does. |
| `RetentionSweep.Store.SweepOrphanedArtifacts` | internal/submission/run_retention.go:182-218 | The loop deletes object then row of each orphan, skipping failures, and counts what it removed. |
| `RetentionSweep.Store.Sweep` | internal/submission/run_retention.go:135-174 | A completed run loop has scanned as many runs as it deleted or failed, and the database is the specified one; whatever fails, every run that is unfinished or not old enough stays, and so does every artifact row that a remaining run refers to, or that no expired run refers to and is no run source old enough. |
| `RetentionSweep.SweepStrandsNothing` | internal/submission/run_retention.go:135-233 | For any pattern of failures and any point of cancellation, every object that had an artifact row still has one or is gone. |
| `RetentionSweep.SweepSpares` | internal/submission/run_retention.go:135-218 | The same as a fact about the specified database, for every pattern of failures and cancellations. |
| `RetentionSweep.LoopDrains` | internal/submission/run_retention.go:144-153 | Without failures every listed run is deleted, if no two runs share an artifact, and the backlog of an earlier cutoff is down by those of them it counts. |
| `RetentionSweep.BacklogDrains` | internal/submission/run_retention.go:135-174 | If no two runs share an artifact and nothing else changes, m sweeps without failures, each with its own later cutoff, reduce a backlog of n by m batches; it is empty exactly when n is at most m times the batch. |
| `RetentionSweep.SharedStays` | internal/submission/run_repository.go:177-200 | A run that shares its artifact with another is never deleted. |
| `RunArtifacts.ReachableDrains` | internal/submission/run_service.go:190-230 | In every reachable state, with requests uploading and admitting or discarding, runs finishing and sweeps deleting in any order, no two runs share an artifact, so every backlog drains that way. |
| `RunArtifacts.AdmittedStays` | internal/submission/run_service.go:207-222 | A run just admitted, and the row of its source, survive every sweep, whatever its cutoff and whatever fails. |
| `RunArtifacts.SweepEmpties` | internal/submission/run_retention.go:135-218 | A sweep without faults that is large and late enough empties tables in which every run is over, objects with a row included. |
| `RunArtifacts.EverythingGoes` | internal/submission/run_retention.go:135-218 | From every reachable state, once its runs have finished, one such sweep leaves no run, no artifact row, and no object that had a row. |
| `RetentionSweep.CeilingCovers` | internal/submission/run_retention.go:101-104 | The least such m is ceil(n / batch). |
| `SlotLimiter.StepKeeps` | internal/app/judge_agent_slots.go:68-102 | Every interleaving keeps: each channel holds as many tokens as callers hold of it. |
| `SlotLimiter.SlotsAreBounded` | internal/app/judge_agent_slots.go:68-102 | Language slots in use together never exceed the global ones, those never the capacity, and each language stays within its own. |
| `SlotLimiter.BlockedOnHolder` | internal/app/judge_agent_slots.go:78-87 | Who waits for a language slot waits for a caller that holds one of that language and is not itself waiting. |
| `SlotLimiter.SomeoneIsFree` | internal/app/judge_agent_slots.go:68-102 | While anyone waits, somebody can take or release a slot. |
| `SlotLimiter.CancelLeavesNoTrace` | internal/app/judge_agent_slots.go:69-87 | Whatever other callers do meanwhile, a caller that gives up, before or after the global slot, leaves the state their steps alone lead to from its arrival. |
| `SlotLimiter.JudgeAgentSlotLimiter.Acquire` | internal/app/judge_agent_slots.go:68-88 | A cancelled call changes no count; otherwise the caller holds a global slot and its language's, if limited. |
| `SlotLimiter.ReleaseFunction.Call` | internal/app/judge_agent_slots.go:90-102 | The first call gives the slots back and any other is a no-op. |
| `SlotLimiter.JudgeAgentSlotLimiter.constructor` | internal/app/judge_agent_slots.go:22-38 | Exactly the nonempty normalized languages with a positive limit get a channel, each with the limit of its last entry. |
| `SlotLimiter.NormalizedIs` | internal/app/judge_agent_slots.go:128-130 | A language is known without its outer white space, in lower case. |
| `Text.SplitJoin` | internal/judgecore/checker/checker.go:52-58 | Splitting takes a join apart again. |
| `Text.FieldsConcat` | internal/judgecore/checker/checker.go:43-44 | Fields do not cross white space. |
| `Text.TrimSpaceMeaning` | internal/problem/testcase_archive.go:197 | What TrimSpace cuts off is white space, and what it leaves neither starts nor ends with any. |
| `Text.SpaceTable` | internal/judgecore/checker/checker.go:43-44 | White space is what Unicode calls so, code point by code point. |
| `Checker.TrimTrailingSpaceLines` | internal/judgecore/checker/checker.go:52-58 | The loop trims every line and joins them again. |
| `Checker.TrimIdempotent` | internal/judgecore/checker/checker.go:52-58 | Trimming twice is trimming once. |
| `Checker.TrimKeepsFields` | internal/judgecore/checker/checker.go:52-58 | Trimming changes no white-space field. |
| `Checker.Check` | internal/judgecore/checker/checker.go:34-50 | Accepts, for each policy by its name, exactly if the outputs are equal, or have the same fields, or agree line by line up to blanks, tabs and carriage returns at the ends; an unknown policy compares exactly. |
| `Checker.TrailingMeaning` | internal/judgecore/checker/checker.go:39-41 | Ignoring trailing white space accepts exactly if the lines agree one by one up to blanks, tabs and carriage returns at their ends. |
| `Checker.AllWhitespaceMeaning` | internal/judgecore/checker/checker.go:42-45 | Ignoring all white space accepts exactly if the fields are the same. |
| `Checker.PolicyChain` | internal/judgecore/checker/checker.go:34-50 | Exact acceptance implies trailing acceptance, which implies acceptance ignoring all white space. |
| `Checker.ChainIsStrict` | internal/judgecore/checker/checker.go:34-50 | Neither implication can be reversed. |
| `Checker.DiffIsOneLine` | internal/judgecore/checker/checker.go:60-73 | A reported difference is one line, whatever was printed. |
| `Checker.DiffShowsStart` | internal/judgecore/checker/checker.go:60-73 | The report quotes the first eighty characters of each output, as they are unless a line break is among them. |

## Left out

- HTTP handlers, routing, authentication, configuration, metrics, tracing, Docker, Redis and S3 clients, JSON and cursor encoding, zip decoding, SHA-256: plumbing, or functions taken as given. Redis is a bag of messages delivered at least once, storage a set of objects whose deletions may fail.
- Role and permission tables, audit vocabulary, the language catalogue, site statistics, problem review: branch-level facts that would only add easy members.
- The inline judging path (`persistJudgeResult`, `TaskProcessor`) and the dead-task path are not actions of `JudgeRuns`: the first creates attempts without a task, the second leaves its attempt open, and "only the last attempt may be open" does not hold with them. Their effect on the contest index is in `ContestTables`.
- `attachTestcaseKeys`, `retryOrDead` and the backoff schedule: they fill in labels, and choose times and branches of the inline path.
- Registration, projection and contest row locks, and `ResetStaleJudgeTasks`, are outside the deadlock claim: the rejudge loops take the former once per target, and the latter locks several rows in no fixed order.
- In `IndexRuns`: judge tasks, stored results, rejudge items and the score revision, which `ContestTables` has; a transaction takes the row lock of a submission when it comes to it, where the batch transactions take all of them first and so interleave less.
- In `ContestTables`: the attempts table (whether an attempt was made for a batch is a parameter) and the counter columns and times of a rejudge batch; its status is modelled.
- RejudgeAnswers.StrandedForGood: does not cover the dead-task path, which could still fail the item while its task is in flight; `RejudgeAnswers.StrandedTaskStays` says that a finished task never is again.
- `discardSource`: it ignores a failed object deletion and still deletes the row, so it is a step of `RunSlots` but not of the retention claim; uploads that crash before `CreateArtifact` have no row and are outside it too.
- `buildBoardFromResults` for the frozen view: the branch is modelled, but its boundary at freeze time differs from the fold's and no agreement is claimed for it.
- RetentionSweep.BacklogDrains: takes the sweeps one after the other with nothing in between; runs that expire meanwhile are not counted.
- Several snapshot workers, or a database clock that runs backwards.
- `Minutes()` is an exact truncating division of nanoseconds; the rounding of Go's float64 for very long durations, and the overflow of int32 totals, are not modelled.
- `judged_at` being null: the field has a meaning only once the status is terminal.
- `buildBoardFromSubmissions` sorts its caller's slice in place; the model sorts a copy, since no caller looks at the slice afterwards.
- In archives: entries of 2^64 bytes or more, and the messages of findings. A checksum is compared with ASCII folding, which is what `EqualFold` does against hexadecimal digits.
- `TestcaseCache.Cache.Load`: agreement is on ids and contents; time and memory limits come from the reference that loaded the set, because the key holds only id and checksum. Concurrent callers are whole operations of the mutex; sharing one download through singleflight is not modelled.
- Strings are sequences of code points; invalid UTF-8 and the byte-wise cut of `firstDiff` inside a character are not modelled.
- A nil slot limiter, and `parseJudgeAgentLanguageSlots`, which only fills the map given to the constructor.
