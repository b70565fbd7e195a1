/**
 * internal/submission: the transactions that make a submission terminal or reopen it, with the
 * rejudge items and batches they end. Each locks the registration, changes rows, and rebuilds the
 * projection and the running totals before it commits; a failing one restores every table. Here
 * they run one at a time; IndexRuns interleaves their steps.
 */
module ContestTables {
  import opened Wrappers
  import opened Sorting
  import opened Submissions
  import opened Projection
  import opened ContestIndex
  import opened RejudgeItems

  /** A submission, its judge task, and the verdict stored in submission_results. */
  datatype Row = Row(submission: Submission, task: TaskStatus, verdict: Option<Status>)

  function SubmissionsOf(rows: seq<Row>): (s: seq<Submission>)
    ensures |s| == |rows|
    ensures forall i | 0 <= i < |rows| :: s[i] == rows[i].submission
  {
    seq(|rows|, i requires 0 <= i < |rows| => rows[i].submission)
  }

  /** UpdateSubmissionStatus with UpsertSubmissionResult and MarkJudgeTaskDone. */
  function Judged(row: Row, verdict: Status, judgedAt: Time, attempt: int): Row {
    var first := if row.submission.firstJudgedAt.None? then Some(judgedAt) else row.submission.firstJudgedAt;
    Row(row.submission.(status := verdict, judgedAt := judgedAt, firstJudgedAt := first, attempt := Some(attempt)),
        if InFlight(row.task) then Done else row.task,
        Some(verdict))
  }

  /** MarkJudgeTaskDead with MarkSubmissionSystemError, which skips a terminal submission. */
  function Failed(row: Row, judgedAt: Time): Row {
    var first := if row.submission.firstJudgedAt.None? then Some(judgedAt) else row.submission.firstJudgedAt;
    if Terminal(row.submission.status) then row.(task := Dead)
    else row.(submission := row.submission.(status := SystemError, judgedAt := judgedAt, firstJudgedAt := first), task := Dead)
  }

  /** Back to the queue, for a rejudge or for a recovered dead task. */
  function Reopened(row: Row): Row {
    row.(submission := row.submission.(status := Queued), task := Pending)
  }

  function Started(row: Row): Row {
    row.(submission := row.submission.(status := Running))
  }

  /** RestoreSubmissionAfterCanceledRejudge with CancelPendingJudgeTaskForRejudge. */
  function Restored(row: Row): Row
    requires row.verdict.Some?
  {
    row.(submission := row.submission.(status := row.verdict.value), task := Done)
  }

  predicate Restorable(row: Row) {
    row.task.Pending? && row.submission.status.Queued? && row.verdict.Some?
  }

  predicate Rejudgeable(row: Row) {
    Terminal(row.submission.status) && (row.task.Done? || row.task.Dead?)
  }

  /** The submission is still open, or its task is. */
  predicate NotReady(row: Row)
    ensures NotReady(row) <==>
              || row.submission.status == Queued || row.submission.status == Running
              || row.task == Pending || row.task == Dispatching || row.task == Dispatched || row.task == TaskRunning
  {
    !Rejudgeable(row)
  }

  /** A set of row numbers, listed. */
  predicate Within(targets: seq<nat>, n: nat) {
    && (forall k | 0 <= k < |targets| :: targets[k] < n)
    && (forall j, k | 0 <= j < k < |targets| :: targets[j] != targets[k])
  }

  /** The submissions of a batch's queued items, by item. */
  function QueuedSubmissions(items: seq<Item>, batch: nat): seq<nat> {
    if items == [] then []
    else
      var x := items[|items| - 1];
      QueuedSubmissions(items[..|items| - 1], batch) + if x.batch == batch && x.status.ItemQueued? then [x.submission] else []
  }

  lemma {:induction false} QueuedListed(items: seq<Item>, batch: nat, n: nat)
    requires OneActiveEach(items) && forall i | 0 <= i < |items| :: items[i].submission < n
    ensures Within(QueuedSubmissions(items, batch), n)
    ensures forall s: nat :: s in QueuedSubmissions(items, batch) <==> QueuedIn(items, batch, s)
  {
    if items != [] {
      var front, x := items[..|items| - 1], items[|items| - 1];
      QueuedListed(front, batch, n);
      forall s: nat ensures QueuedIn(items, batch, s) <==> QueuedIn(front, batch, s) || x == Item(batch, s, ItemQueued) {
        if i :| 0 <= i < |front| && front[i] == Item(batch, s, ItemQueued) {
          assert items[i] == front[i];
        }
        if i :| 0 <= i < |items| && items[i] == Item(batch, s, ItemQueued) {
          assert i < |front| ==> front[i] == items[i];
        }
      }
      assert x == Item(x.batch, x.submission, x.status);
      if ActiveItem(x) {
        forall i | 0 <= i < |front| ensures front[i] != Item(batch, x.submission, ItemQueued) {
          assert items[i] == front[i];
        }
        assert !QueuedIn(front, batch, x.submission);
        assert x.submission !in QueuedSubmissions(front, batch);
      }
    }
  }

  lemma EndedHasNone(items: seq<Item>, batches: seq<BatchStatus>, n: nat, batch: nat)
    requires ItemsOk(items, batches, n) && batch < |batches|
    ensures !Open(batches[batch]) ==> QueuedSubmissions(items, batch) == []
  {
    QueuedListed(items, batch, n);
    NoneQueuedOnceEnded(items, batches, n, batch);
    if !Open(batches[batch]) && QueuedSubmissions(items, batch) != [] {
      assert QueuedSubmissions(items, batch)[0] in QueuedSubmissions(items, batch);
    }
  }

  predicate InIndex(c: Setting, row: Row) {
    row.submission.user in c.registered && row.submission.problem in c.problems
  }

  /** How many of the rows are in somebody's index: the revisions their rebuilds add. */
  function IndexedCount(c: Setting, rows: seq<Row>, targets: seq<nat>): nat
    requires Within(targets, |rows|)
  {
    if targets == [] then 0
    else
      IndexedCount(c, rows, targets[..|targets| - 1]) + if InIndex(c, rows[targets[|targets| - 1]]) then 1 else 0
  }

  /** The fields that no transaction changes. */
  predicate SameOrigin(a: Submission, b: Submission) {
    a.id == b.id && a.user == b.user && a.problem == b.problem && a.submittedAt == b.submittedAt
  }

  /** A first judging time once set stays. */
  function FirstOr(first: Option<Time>, now: Time): (r: Option<Time>)
    ensures r == if first.Some? then first else Some(now)
  {
    if first.None? then Some(now) else first
  }

  /** What a dead task makes of a row: a system error, unless the submission has its verdict. */
  predicate HasFailed(was: Row, row: Row, now: Time) {
    && row.task == Dead && row.verdict == was.verdict
    && if was.submission.status != Queued && was.submission.status != Running then row.submission == was.submission
       else && SameOrigin(was.submission, row.submission) && row.submission.attempt == was.submission.attempt
            && row.submission.status == SystemError && row.submission.judgedAt == now
            && row.submission.firstJudgedAt == FirstOr(was.submission.firstJudgedAt, now)
  }

  /** An accepted row of the contest shows in its stored cell. */
  lemma AcceptedShows(c: Setting, rows: seq<Row>, x: Index, i: nat)
    requires Current(c, SubmissionsOf(rows), x) && i < |rows| && InIndex(c, rows[i]) && rows[i].submission.status == Accepted
    ensures var s := rows[i].submission;
            (s.user, s.problem) in x.results && x.results[(s.user, s.problem)].status == AcceptedResult
  {
    var s := rows[i].submission;
    assert SubmissionsOf(rows)[i] == s;
    assert s in JudgedOf(SubmissionsOf(rows), s.user, s.problem);
    CellShows(c, SubmissionsOf(rows), x, s.user, s.problem);
  }

  datatype Outcome =
    | Committed | NoChange | TaskNotReady | CancelRace | NoRows | NoSubmissions
    | ActiveConflict | NotFound | NotCancelable

  datatype ProjectionLock = ProjectionLock(user: int, problem: int, enabled: bool)

  class ContestTables {
    const c: Setting
    var rows: seq<Row>
    var index: Index
    var revision: nat
    var items: seq<Item>
    var batches: seq<BatchStatus>

    /** The index equals recomputation, and stored verdicts are terminal. */
    ghost predicate RowsValid()
      reads this`rows, this`index
    {
      && Current(c, SubmissionsOf(rows), index)
      && forall i | 0 <= i < |rows| && rows[i].verdict.Some? :: Terminal(rows[i].verdict.value)
    }

    /** Besides, every batch fits its items. */
    ghost predicate Valid()
      reads this
    {
      RowsValid() && ItemsOk(items, batches, |rows|)
    }

    constructor (c: Setting)
      ensures Valid() && this.c == c && rows == [] && revision == 0 && items == [] && batches == []
    {
      this.c, rows, revision, items, batches := c, [], 0, [], [];
      index := Index(map[], map u | u in c.registered :: Totals(0, 0));
      new;
      NoRowsIsCurrent(c);
      assert SubmissionsOf(rows) == [];
    }

    method CreateSubmissionWithTask(submission: Submission)
      requires Valid() && submission.status.Queued?
      modifies this`rows
      ensures Valid()
      ensures rows == old(rows) + [Row(submission, Pending, None)]
    {
      NewRowKeeps(c, SubmissionsOf(rows), submission, index);
      rows := rows + [Row(submission, Pending, None)];
      assert SubmissionsOf(rows) == SubmissionsOf(old(rows)) + [submission];
    }

    /** MarkSubmissionRunning: queued and running are the same to the index. */
    method MarkSubmissionRunning(i: nat) returns (outcome: Outcome)
      requires Valid() && i < |rows|
      modifies this`rows
      ensures Valid()
      ensures outcome == if old(rows[i]).submission.status.Queued? then Committed else NoRows
      ensures outcome.Committed? ==> rows == old(rows)[i := old(rows[i]).(submission := old(rows[i]).submission.(status := Running))]
      ensures outcome.NoRows? ==> rows == old(rows)
    {
      if !rows[i].submission.status.Queued? {
        return NoRows;
      }
      UncountedChangeKeeps(c, SubmissionsOf(rows), i, Started(rows[i]).submission, index);
      rows := rows[i := Started(rows[i])];
      assert SubmissionsOf(rows) == SubmissionsOf(old(rows))[i := rows[i].submission];
      outcome := Committed;
    }

    /** Takes the registration lock and makes sure the projection row exists. */
    method LockContestProblemProjection(submission: Submission) returns (lock: ProjectionLock)
      requires RowsValid()
      modifies this`index
      ensures RowsValid()
      ensures lock == ProjectionLock(submission.user, submission.problem,
                                     submission.user in c.registered && submission.problem in c.problems)
      ensures index == if lock.enabled then Ensured(old(index), submission.user, submission.problem) else old(index)
    {
      lock := ProjectionLock(submission.user, submission.problem, false);
      for k := 0 to |c.problems|
        invariant submission.problem !in c.problems[..k]
      {
        if c.problems[k] != submission.problem {
          continue;
        }
        if submission.user !in c.registered {
          return;
        }
        EnsuredIsCurrent(c, SubmissionsOf(rows), index, submission.user, submission.problem);
        if (submission.user, submission.problem) !in index.results {
          index := index.(results := index.results[(submission.user, submission.problem) := EMPTY_RESULT]);
        }
        lock := lock.(enabled := true);
        return;
      }
    }

    /** The loop that adds up a user's accepted results. */
    method SumResults(list: seq<ProblemResult>) returns (acceptedCount: int, penaltyMinutes: int)
      ensures Totals(acceptedCount, penaltyMinutes) == Total(list)
    {
      acceptedCount, penaltyMinutes := 0, 0;
      for k := 0 to |list|
        invariant Totals(acceptedCount, penaltyMinutes) == Total(list[..k])
      {
        assert list[..k + 1][..k] == list[..k];
        if !list[k].status.AcceptedResult? {
          continue;
        }
        acceptedCount := acceptedCount + 1;
        penaltyMinutes := penaltyMinutes + list[k].penalty;
      }
      assert list[..|list|] == list;
    }

    method RebuildContestProblemResult(lock: ProjectionLock)
      modifies this`index, this`revision
      ensures lock.enabled ==> revision == old(revision) + 1
      ensures lock.enabled ==> index == Rebuilt(c, SubmissionsOf(rows), old(index), lock.user, lock.problem)
      ensures !lock.enabled ==> index == old(index) && revision == old(revision)
    {
      if !lock.enabled {
        return;
      }
      var items := Filter(Counted(lock.user, lock.problem), SubmissionsOf(rows));
      var projection := BuildContestProblemProjection(c.start, items);
      index := index.(results := index.results[(lock.user, lock.problem) := projection]);
      var acceptedCount, penaltyMinutes := SumResults(ListResults(index.results, c.problems, lock.user));
      index := index.(totals := index.totals[lock.user := Totals(acceptedCount, penaltyMinutes)]);
      revision := revision + 1;
    }

    /** Replaces one row between its projection lock and its rebuild. */
    method WriteRow(i: nat, row: Row, lock: ProjectionLock)
      requires RowsValid() && i < |rows|
      requires row.submission.user == rows[i].submission.user && row.submission.problem == rows[i].submission.problem
      requires row.verdict.Some? ==> Terminal(row.verdict.value)
      requires lock == ProjectionLock(row.submission.user, row.submission.problem,
                                      row.submission.user in c.registered && row.submission.problem in c.problems)
      modifies this`rows, this`index, this`revision
      ensures RowsValid() && rows == old(rows)[i := row]
      ensures revision == old(revision) + if lock.enabled then 1 else 0
    {
      ChangeMakesStale(c, SubmissionsOf(rows), i, row.submission, index);
      rows := rows[i := row];
      assert SubmissionsOf(rows) == SubmissionsOf(old(rows))[i := row.submission];
      if lock.enabled {
        RebuiltIsCurrent(c, SubmissionsOf(rows), index, lock.user, lock.problem);
      }
      RebuildContestProblemResult(lock);
    }

    /** completeSubmissionAttempt, and CompleteSubmissionWithResult on the inline path, up to the rejudge item. */
    method WriteVerdict(i: nat, verdict: Status, judgedAt: Time, attempt: int)
      requires RowsValid() && i < |rows| && Terminal(verdict)
      modifies this`rows, this`index, this`revision
      ensures RowsValid() && rows == old(rows)[i := Judged(old(rows[i]), verdict, judgedAt, attempt)]
      ensures revision == old(revision) + if InIndex(c, old(rows[i])) then 1 else 0
    {
      var lock := LockContestProblemProjection(rows[i].submission);
      WriteRow(i, Judged(rows[i], verdict, judgedAt, attempt), lock);
    }

    /** FinishRejudgeBatchItem and RefreshRejudgeBatchProgress. */
    method FinishItem(attempt: nat) returns (found: bool)
      requires Valid()
      modifies this`items, this`batches
      ensures Valid() && found == ItemRunningFor(old(items), attempt)
      ensures !found ==> items == old(items) && batches == old(batches)
      ensures found ==> items == FinishItems(old(items), attempt)
                        && batches == Refreshed(old(batches), items, old(items)[RunningItem(old(items), attempt)].batch)
    {
      found := ItemRunningFor(items, attempt);
      if found {
        FinishFits(items, batches, |rows|, attempt);
        var batch := items[RunningItem(items, attempt)].batch;
        items := FinishItems(items, attempt);
        batches := Refreshed(batches, items, batch);
      }
    }

    /** `forBatch` says that the attempt was made for a rejudge batch; then its item has to be running, or nothing is written. */
    method CompleteSubmissionAttempt(i: nat, verdict: Status, judgedAt: Time, attempt: nat, forBatch: bool) returns (outcome: Outcome)
      requires Valid() && i < |rows| && Terminal(verdict)
      modifies this
      ensures Valid()
      ensures outcome == if old(rows[i]).submission.status != Queued && old(rows[i]).submission.status != Running then NoChange
                         else if forBatch && !ItemRunningFor(old(items), attempt) then NoRows else Committed
      ensures !outcome.Committed? ==>
                rows == old(rows) && index == old(index) && revision == old(revision) && items == old(items) && batches == old(batches)
      ensures outcome.Committed? ==> |rows| == |old(rows)| && rows == old(rows)[i := rows[i]] && SameOrigin(old(rows[i]).submission, rows[i].submission)
      ensures outcome.Committed? ==>
                var was, s := old(rows[i]), rows[i].submission;
                && s.status == verdict && rows[i].verdict == Some(verdict) && s.attempt == Some(attempt)
                && s.judgedAt == judgedAt && s.firstJudgedAt == FirstOr(was.submission.firstJudgedAt, judgedAt)
                && rows[i].task == if was.task == Dispatching || was.task == Dispatched || was.task == TaskRunning then Done else was.task
      ensures outcome.Committed? && verdict == Accepted && InIndex(c, old(rows[i])) ==>
                var s := rows[i].submission;
                (s.user, s.problem) in index.results && index.results[(s.user, s.problem)].status == AcceptedResult
      ensures outcome.Committed? ==> revision == old(revision) + if InIndex(c, old(rows[i])) then 1 else 0
      ensures outcome.Committed? && forBatch ==>
                items == FinishItems(old(items), attempt)
                && batches == Refreshed(old(batches), items, old(items)[RunningItem(old(items), attempt)].batch)
      ensures !forBatch ==> items == old(items) && batches == old(batches)
    {
      if Terminal(rows[i].submission.status) {
        return NoChange;
      }
      var savedRows, savedIndex, savedRevision := rows, index, revision;
      WriteVerdict(i, verdict, judgedAt, attempt);
      outcome := Committed;
      if forBatch {
        var found := FinishItem(attempt);
        if !found {
          rows, index, revision := savedRows, savedIndex, savedRevision;
          outcome := NoRows;
          return;
        }
      }
      if verdict == Accepted && InIndex(c, rows[i]) {
        AcceptedShows(c, rows, index, i);
      }
    }

    /** StartRejudgeBatchItem; a new attempt's batch is refreshed, a reused one's is not. */
    method StartRejudgeBatchItem(item: nat, attempt: nat, created: bool) returns (outcome: Outcome)
      requires Valid() && item < |items|
      modifies this`items, this`batches
      ensures Valid()
      ensures outcome == if !old(items)[item].status.ItemQueued? then NoRows
                         else if AttemptInItem(old(items), attempt) then ActiveConflict else Committed
      ensures !outcome.Committed? ==> items == old(items) && batches == old(batches)
      ensures outcome.Committed? ==> items == StartItem(old(items), Some(item), attempt)
      ensures outcome.Committed? ==> batches == if created then Refreshed(old(batches), items, old(items)[item].batch) else old(batches)
    {
      if !items[item].status.ItemQueued? {
        return NoRows;
      }
      if AttemptInItem(items, attempt) {
        return ActiveConflict;
      }
      StartFits(items, batches, |rows|, item, attempt);
      var batch := items[item].batch;
      items := StartItem(items, Some(item), attempt);
      if created {
        batches := Refreshed(batches, items, batch);
      }
      outcome := Committed;
    }

    /** MarkJudgeTaskDead on the task, and markSubmissionSystemError. */
    method FailSubmission(i: nat, now: Time)
      requires RowsValid() && i < |rows|
      modifies this`rows, this`index, this`revision
      ensures RowsValid() && |rows| == |old(rows)| && rows == old(rows)[i := rows[i]] && HasFailed(old(rows[i]), rows[i], now)
      ensures revision == old(revision) + if InIndex(c, old(rows[i])) && !Terminal(old(rows[i]).submission.status) then 1 else 0
    {
      if Terminal(rows[i].submission.status) {
        rows := rows[i := Failed(rows[i], now)];
        assert SubmissionsOf(rows) == SubmissionsOf(old(rows));
        return;
      }
      var lock := LockContestProblemProjection(rows[i].submission);
      WriteRow(i, Failed(rows[i], now), lock);
    }

    /** The task dies, its submission fails unless it has a verdict, and so does its active rejudge item. */
    method MarkJudgeTaskDead(i: nat, now: Time) returns (outcome: Outcome)
      requires Valid() && i < |rows|
      modifies this
      ensures Valid()
      ensures outcome == if old(rows[i]).task == Dispatching || old(rows[i]).task == Dispatched || old(rows[i]).task == TaskRunning
                         then Committed else NoRows
      ensures outcome.NoRows? ==>
                rows == old(rows) && index == old(index) && revision == old(revision) && items == old(items) && batches == old(batches)
      ensures outcome.Committed? ==> |rows| == |old(rows)| && rows == old(rows)[i := rows[i]] && HasFailed(old(rows[i]), rows[i], now)
      ensures outcome.Committed? ==>
        revision == old(revision) + if InIndex(c, old(rows[i])) && !Terminal(old(rows[i]).submission.status) then 1 else 0
      ensures outcome.Committed? ==> items == FailItems(old(items), i)
      ensures outcome.Committed? ==>
                batches == match ActiveItemOf(old(items), i)
                           case None => old(batches)
                           case Some(k) => Refreshed(old(batches), items, old(items)[k].batch)
    {
      if !InFlight(rows[i].task) {
        return NoRows;
      }
      FailSubmission(i, now);
      FailFits(items, batches, |rows|, i);
      var active := ActiveItemOf(items, i);
      if active.Some? {
        var batch := items[active.value].batch;
        items := FailItems(items, i);
        batches := Refreshed(batches, items, batch);
      }
      outcome := Committed;
    }

    method RecoverDeadJudgeTask(i: nat) returns (outcome: Outcome)
      requires Valid() && i < |rows|
      modifies this`rows, this`index, this`revision
      ensures Valid()
      ensures outcome == if old(rows[i]).task.Dead? && old(rows[i]).submission.status.SystemError? then Committed else NoRows
      ensures outcome.NoRows? ==> rows == old(rows) && index == old(index) && revision == old(revision)
      ensures outcome.Committed? ==>
                rows == old(rows)[i := old(rows[i]).(submission := old(rows[i]).submission.(status := Queued), task := Pending)]
      ensures outcome.Committed? ==> revision == old(revision) + if InIndex(c, old(rows[i])) then 1 else 0
    {
      var savedIndex := index;
      var lock := LockContestProblemProjection(rows[i].submission);
      if !rows[i].task.Dead? || !rows[i].submission.status.SystemError? {
        index := savedIndex;
        return NoRows;
      }
      WriteRow(i, Reopened(rows[i]), lock);
      outcome := Committed;
    }

    method Reopen(i: nat)
      requires RowsValid() && i < |rows|
      modifies this`rows, this`index, this`revision
      ensures RowsValid() && rows == old(rows)[i := Reopened(old(rows[i]))]
      ensures revision == old(revision) + if InIndex(c, old(rows[i])) then 1 else 0
    {
      var lock := LockContestProblemProjection(rows[i].submission);
      WriteRow(i, Reopened(rows[i]), lock);
    }

    method ReopenTargets(targets: seq<nat>)
      requires RowsValid() && Within(targets, |rows|)
      modifies this`rows, this`index, this`revision
      ensures RowsValid() && |rows| == |old(rows)|
      ensures forall i | 0 <= i < |rows| :: rows[i] == if i in targets then Reopened(old(rows)[i]) else old(rows)[i]
      ensures revision == old(revision) + IndexedCount(c, old(rows), targets)
    {
      for k := 0 to |targets|
        invariant RowsValid() && |rows| == |old(rows)|
        invariant forall i | 0 <= i < |rows| :: rows[i] == if i in targets[..k] then Reopened(old(rows)[i]) else old(rows)[i]
        invariant revision == old(revision) + IndexedCount(c, old(rows), targets[..k])
      {
        assert targets[k] !in targets[..k];
        assert targets[..k + 1][..k] == targets[..k];
        Reopen(targets[k]);
      }
      assert targets[..|targets|] == targets;
    }

    /** The inserts of the items: the unique index refuses a second active item of a submission. */
    method CreateItems(targets: seq<nat>) returns (ok: bool)
      requires Valid() && Within(targets, |rows|) && targets != []
      modifies this`items, this`batches
      ensures Valid()
      ensures ok == forall k | 0 <= k < |targets| :: ActiveItemOf(old(items), targets[k]).None?
      ensures !ok ==> items == old(items) && batches == old(batches)
      ensures ok ==> items == old(items) + NewItems(|old(batches)|, targets) && batches == old(batches) + [BatchQueued]
    {
      for k := 0 to |targets|
        invariant forall j | 0 <= j < k :: ActiveItemOf(items, targets[j]).None?
      {
        if ActiveItemOf(items, targets[k]).Some? {
          return false;
        }
      }
      CreateFits(items, batches, |rows|, targets);
      items := items + NewItems(|batches|, targets);
      batches := batches + [BatchQueued];
      ok := true;
    }

    method CreateRejudgeBatchWithItems(targets: seq<nat>) returns (outcome: Outcome)
      requires Valid() && Within(targets, |rows|)
      modifies this
      ensures Valid()
      ensures outcome == if targets == [] then NoSubmissions
                         else if exists k :: 0 <= k < |targets| && NotReady(old(rows)[targets[k]]) then TaskNotReady
                         else if !forall k | 0 <= k < |targets| :: ActiveItemOf(old(items), targets[k]).None? then ActiveConflict
                         else Committed
      ensures !outcome.Committed? ==>
                rows == old(rows) && index == old(index) && revision == old(revision) && items == old(items) && batches == old(batches)
      ensures outcome.Committed? ==> |rows| == |old(rows)| && forall i | 0 <= i < |rows| ::
        rows[i] == if i in targets then old(rows)[i].(submission := old(rows)[i].submission.(status := Queued), task := Pending) else old(rows)[i]
      ensures outcome.Committed? ==> revision == old(revision) + IndexedCount(c, old(rows), targets)
      ensures outcome.Committed? ==> items == old(items) + NewItems(|old(batches)|, targets) && batches == old(batches) + [BatchQueued]
    {
      if |targets| == 0 {
        return NoSubmissions;
      }
      for k := 0 to |targets|
        invariant forall j | 0 <= j < k :: Rejudgeable(rows[targets[j]])
      {
        if !Rejudgeable(rows[targets[k]]) {
          return TaskNotReady;
        }
      }
      var ok := CreateItems(targets);
      if !ok {
        return ActiveConflict;
      }
      ReopenTargets(targets);
      outcome := Committed;
    }

    method Restore(i: nat) returns (outcome: Outcome)
      requires RowsValid() && i < |rows|
      modifies this`rows, this`index, this`revision
      ensures outcome.Committed? <==> Restorable(old(rows[i]))
      ensures outcome.Committed? || outcome.CancelRace? || outcome.NoRows?
      ensures outcome.Committed? ==> RowsValid() && rows == old(rows)[i := Restored(old(rows[i]))]
      ensures outcome.Committed? ==> revision == old(revision) + if InIndex(c, old(rows[i])) then 1 else 0
    {
      if !rows[i].task.Pending? {
        return CancelRace;
      }
      var lock := LockContestProblemProjection(rows[i].submission);
      if !rows[i].submission.status.Queued? || rows[i].verdict.None? {
        return NoRows;
      }
      WriteRow(i, Restored(rows[i]), lock);
      outcome := Committed;
    }

    /** The loop over the cancelled items; one whose task has started undoes it all. */
    method RestoreTargets(targets: seq<nat>) returns (outcome: Outcome)
      requires RowsValid() && Within(targets, |rows|)
      modifies this`rows, this`index, this`revision
      ensures RowsValid()
      ensures outcome.Committed? || outcome.CancelRace? || outcome.NoRows?
      ensures outcome.Committed? <==> forall k | 0 <= k < |targets| :: Restorable(old(rows)[targets[k]])
      ensures !outcome.Committed? ==> rows == old(rows) && index == old(index) && revision == old(revision)
      ensures outcome.Committed? ==> |rows| == |old(rows)| && forall i | 0 <= i < |rows| ::
        rows[i] == if i in targets then Restored(old(rows)[i]) else old(rows)[i]
      ensures outcome.Committed? ==> revision == old(revision) + IndexedCount(c, old(rows), targets)
    {
      var savedRows, savedIndex, savedRevision := rows, index, revision;
      for k := 0 to |targets|
        invariant RowsValid() && |rows| == |savedRows|
        invariant forall j | 0 <= j < k :: Restorable(savedRows[targets[j]])
        invariant forall i | 0 <= i < |rows| :: rows[i] == if i in targets[..k] then Restored(savedRows[i]) else savedRows[i]
        invariant revision == savedRevision + IndexedCount(c, savedRows, targets[..k])
      {
        assert targets[k] !in targets[..k];
        assert targets[..k + 1][..k] == targets[..k];
        outcome := Restore(targets[k]);
        if !outcome.Committed? {
          rows, index, revision := savedRows, savedIndex, savedRevision;
          return;
        }
      }
      assert targets[..|targets|] == targets;
      outcome := Committed;
    }

    /** Cancels a batch's queued items and then the batch, if it is still open; otherwise nothing happens. */
    method CancelRejudgeBatch(batch: nat) returns (outcome: Outcome)
      requires Valid()
      modifies this
      ensures Valid()
      ensures outcome.NotFound? <==> batch >= |old(batches)|
      ensures outcome.Committed? <==> batch < |old(batches)| && Open(old(batches)[batch])
                                      && forall s | 0 <= s < |old(rows)| && QueuedIn(old(items), batch, s) ::
                                           && old(rows)[s].task == Pending && old(rows)[s].submission.status == Queued
                                           && old(rows)[s].verdict.Some?
      ensures outcome.NotCancelable? <==> batch < |old(batches)| && !Open(old(batches)[batch])
      ensures !outcome.Committed? ==>
                rows == old(rows) && index == old(index) && revision == old(revision) && items == old(items) && batches == old(batches)
      ensures outcome.Committed? ==> |rows| == |old(rows)| && forall i | 0 <= i < |rows| ::
        rows[i] == if QueuedIn(old(items), batch, i)
                   then old(rows)[i].(submission := old(rows)[i].submission.(status := old(rows)[i].verdict.value), task := Done)
                   else old(rows)[i]
      ensures outcome.Committed? ==> items == CancelItems(old(items), batch) && batches == old(batches)[batch := BatchCanceled]
    {
      if batch >= |batches| {
        return NotFound;
      }
      var targets := QueuedSubmissions(items, batch);
      QueuedListed(items, batch, |rows|);
      var savedRows, savedIndex, savedRevision := rows, index, revision;
      EndedHasNone(items, batches, |rows|, batch);
      outcome := RestoreTargets(targets);
      if !outcome.Committed? {
        return;
      }
      if !Open(batches[batch]) {
        rows, index, revision := savedRows, savedIndex, savedRevision;
        return NotCancelable;
      }
      CancelFits(items, batches, |rows|, batch);
      items := CancelItems(items, batch);
      batches := batches[batch := BatchCanceled];
    }
  }

  // ----- a rejudge that is cancelled before anything starts -----

  /** Reopening and restoring a row gives it its stored verdict, which is what it showed exactly if that is its status. */
  lemma RestoredShows(row: Row)
    requires Rejudgeable(row)
    ensures Restorable(Reopened(row)) <==> row.verdict.Some?
    ensures row.verdict.Some? ==>
              (Restored(Reopened(row)) == row.(task := Done) <==> row.verdict == Some(row.submission.status))
    ensures row.verdict.Some? ==>
              (Restored(Reopened(row)).submission.status == row.submission.status <==> row.verdict == Some(row.submission.status))
  {
    if row.verdict == Some(row.submission.status) {
      assert Restored(Reopened(row)).submission == row.submission;
    }
  }

  /** A dead task makes rows that show another verdict than the stored one, or have none, and that may be rejudged. */
  lemma DeadTaskRows(row: Row, verdict: Status, judgedAt: Time, attempt: int, now: Time)
    requires row.submission.status.Queued? && row.verdict.None? && Terminal(verdict)
    ensures var never := Failed(row.(task := Dispatching), now);
            Rejudgeable(never) && never.submission.status.SystemError? && never.verdict.None?
    ensures var again := Failed(Reopened(Judged(row, verdict, judgedAt, attempt)).(task := Dispatching), now);
            Rejudgeable(again) && again.submission.status.SystemError? && again.verdict == Some(verdict)
  {
  }

  lemma NewBatchQueued(items: seq<Item>, batches: seq<BatchStatus>, n: nat, targets: seq<nat>, s: nat)
    requires ItemsOk(items, batches, n)
    ensures QueuedIn(items + NewItems(|batches|, targets), |batches|, s) <==> s in targets
  {
    var more := items + NewItems(|batches|, targets);
    if s in targets {
      var k :| 0 <= k < |targets| && targets[k] == s;
      assert more[|items| + k] == Item(|batches|, s, ItemQueued);
    }
  }

  /**
   * Cancelled right after it was created, a batch goes exactly if every target has a stored verdict,
   * and a target shows its old status again exactly if it goes and that verdict is the status.
   */
  method CreateThenCancel(tables: ContestTables, targets: seq<nat>) returns (created: Outcome, canceled: Outcome)
    requires tables.Valid() && Within(targets, |tables.rows|)
    modifies tables
    ensures tables.Valid() && |tables.rows| == |old(tables.rows)|
    ensures !created.Committed? ==> tables.rows == old(tables.rows) && tables.items == old(tables.items)
    ensures created.Committed? ==> (canceled.Committed? <==> forall k | 0 <= k < |targets| :: old(tables.rows)[targets[k]].verdict.Some?)
    ensures created.Committed? ==> forall k | 0 <= k < |targets| ::
              (tables.rows[targets[k]].submission.status == old(tables.rows)[targets[k]].submission.status
               <==> canceled.Committed? && old(tables.rows)[targets[k]].verdict == Some(old(tables.rows)[targets[k]].submission.status))
    ensures forall i | 0 <= i < |tables.rows| && i !in targets :: tables.rows[i] == old(tables.rows)[i]
  {
    ghost var rows, items, batches := tables.rows, tables.items, tables.batches;
    canceled := NoChange;
    created := tables.CreateRejudgeBatchWithItems(targets);
    if !created.Committed? {
      return;
    }
    forall s: nat ensures QueuedIn(tables.items, |batches|, s) <==> s in targets {
      NewBatchQueued(items, batches, |rows|, targets, s);
    }
    forall k | 0 <= k < |targets| ensures tables.rows[targets[k]] == Reopened(rows[targets[k]]) && Rejudgeable(rows[targets[k]]) {
      assert targets[k] in targets;
      RestoredShows(rows[targets[k]]);
    }
    canceled := tables.CancelRejudgeBatch(|tables.batches| - 1);
  }
}
