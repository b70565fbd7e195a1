/**
 * The judging tables and the transactions on them, as functions from tables to tables:
 * internal/submission/judge_repository.go, rejudge_repository.go and judge_task_repository.go
 * on the agent path. A submission has exactly one judge task, which is kept with it.
 */
module JudgeModel {
  import opened Wrappers
  import opened Submissions
  import opened RejudgeItems

  /** A row of submission_results. */
  datatype Stored = Stored(attempt: nat, verdict: Status)

  datatype Sub = Sub(status: Status, task: TaskStatus, result: Option<Stored>)

  /** A judge attempt; it is open until it has a verdict. */
  datatype Attempt = Attempt(submission: nat, number: nat, batch: Option<nat>, verdict: Option<Status>)

  /** Attempts, items and submissions are numbered by position. */
  datatype Store = Store(subs: seq<Sub>, attempts: seq<Attempt>, items: seq<Item>, batches: nat)

  const EMPTY_STORE := Store([], [], [], 0)

  // ----- results -----

  /** Whether a result for attempt `a` is written. */
  predicate Accepts(st: Store, a: nat) {
    && a < |st.attempts| && st.attempts[a].submission < |st.subs|
    && st.attempts[a].verdict.None?
    && !Terminal(st.subs[st.attempts[a].submission].status)
    && (st.attempts[a].batch.Some? ==> ItemRunningFor(st.items, a))
  }

  /** CompleteJudgeAttemptResult for a submission attempt. */
  function Complete(st: Store, a: nat, verdict: Status): Store {
    if !Accepts(st, a) then st
    else
      var attempt := st.attempts[a];
      var sub := st.subs[attempt.submission];
      st.(subs := st.subs[attempt.submission := Sub(verdict, if InFlight(sub.task) then Done else sub.task, Some(Stored(a, verdict)))],
          attempts := st.attempts[a := attempt.(verdict := Some(verdict))],
          items := if attempt.batch.Some? then FinishItems(st.items, a) else st.items)
  }

  // ----- opening attempts -----

  /** GetLatestJudgeAttemptBySubmissionID: the attempt with the highest number. */
  function Latest(attempts: seq<Attempt>, s: nat): Option<nat> {
    if attempts == [] then None
    else if attempts[|attempts| - 1].submission == s then Some(|attempts| - 1)
    else Latest(attempts[..|attempts| - 1], s)
  }

  /** The unique index on (submission_id, attempt_no). */
  predicate NumberTaken(attempts: seq<Attempt>, s: nat, number: nat) {
    exists i :: 0 <= i < |attempts| && attempts[i].submission == s && attempts[i].number == number
  }

  /** Whether inserting a new attempt goes through, given what was read before. */
  predicate CanCreate(st: Store, s: nat, item: Option<nat>, number: nat) {
    && !NumberTaken(st.attempts, s, number)
    && (item.Some? ==> item.value < |st.items| && st.items[item.value].status.ItemQueued?)
  }

  /** The insert of ensureJudgeAttempt, with the item it starts. */
  function CreateAttempt(st: Store, s: nat, item: Option<nat>, number: nat): Store {
    if !CanCreate(st, s, item, number) then st
    else
      var batch := match item case None => None case Some(i) => Some(st.items[i].batch);
      st.(attempts := st.attempts + [Attempt(s, number, batch, None)],
          items := match item
                   case None => st.items
                   case Some(i) => st.items[i := st.items[i].(status := ItemRunning(|st.attempts|))])
  }

  // ----- tasks -----

  function SetTask(st: Store, s: nat, task: TaskStatus): Store
    requires s < |st.subs|
  {
    st.(subs := st.subs[s := st.subs[s].(task := task)])
  }

  function SetStatus(st: Store, s: nat, status: Status): Store
    requires s < |st.subs|
  {
    st.(subs := st.subs[s := st.subs[s].(status := status)])
  }

  // ----- rejudge batches -----

  /** A submission that may enter a batch: judged, its task finished, no active item. */
  predicate Rejudgeable(st: Store, s: nat) {
    && s < |st.subs|
    && Terminal(st.subs[s].status) && (st.subs[s].task.Done? || st.subs[s].task.Dead?)
    && forall i | 0 <= i < |st.items| && st.items[i].submission == s :: !ActiveItem(st.items[i])
  }

  predicate CanRejudge(st: Store, targets: seq<nat>) {
    && targets != []
    && (forall k | 0 <= k < |targets| :: Rejudgeable(st, targets[k]))
    && (forall j, k | 0 <= j < k < |targets| :: targets[j] != targets[k])
  }

  function Reopen(subs: seq<Sub>, targets: seq<nat>): (r: seq<Sub>)
    ensures |r| == |subs|
    ensures forall s | 0 <= s < |subs| :: r[s] == if s in targets then subs[s].(status := Queued, task := Pending) else subs[s]
  {
    seq(|subs|, s requires 0 <= s < |subs| => if s in targets then subs[s].(status := Queued, task := Pending) else subs[s])
  }

  /** CreateRejudgeBatchWithItems. */
  function CreateBatch(st: Store, targets: seq<nat>): Store {
    if !CanRejudge(st, targets) then st
    else st.(subs := Reopen(st.subs, targets), items := st.items + NewItems(st.batches, targets), batches := st.batches + 1)
  }

  /** Every queued item's task is still pending and its submission has a verdict to go back to. */
  predicate CanCancel(st: Store, batch: nat) {
    forall i | 0 <= i < |st.items| && st.items[i].batch == batch && st.items[i].status.ItemQueued? ::
      && st.items[i].submission < |st.subs|
      && var sub := st.subs[st.items[i].submission];
         sub.task.Pending? && sub.status.Queued? && sub.result.Some?
  }

  function Restore(st: Store, batch: nat): (r: seq<Sub>)
    requires CanCancel(st, batch)
    ensures |r| == |st.subs|
    ensures forall s | 0 <= s < |r| ::
      r[s] == if QueuedIn(st.items, batch, s) && st.subs[s].result.Some?
              then st.subs[s].(status := st.subs[s].result.value.verdict, task := Done) else st.subs[s]
  {
    seq(|st.subs|, s requires 0 <= s < |st.subs| =>
      if QueuedIn(st.items, batch, s) && st.subs[s].result.Some?
      then st.subs[s].(status := st.subs[s].result.value.verdict, task := Done) else st.subs[s])
  }

  /** CancelRejudgeBatch: all queued items, or nothing. */
  function CancelBatch(st: Store, batch: nat): Store {
    if !CanCancel(st, batch) then st
    else st.(subs := Restore(st, batch), items := CancelItems(st.items, batch))
  }

  // ----- rejudges, column by column -----

  /** A batch is made exactly of distinct submissions that are judged, whose tasks are over, and that are in no open batch. */
  lemma CreateBatchMeaning(st: Store, targets: seq<nat>)
    ensures var after := CreateBatch(st, targets);
      && (after != st <==>
            && targets != []
            && (forall j, k | 0 <= j < k < |targets| :: targets[j] != targets[k])
            && forall k | 0 <= k < |targets| ::
                 && targets[k] < |st.subs|
                 && st.subs[targets[k]].status != Queued && st.subs[targets[k]].status != Running
                 && (st.subs[targets[k]].task == Done || st.subs[targets[k]].task == Dead)
                 && forall i | 0 <= i < |st.items| && st.items[i].submission == targets[k] ::
                      st.items[i].status != ItemQueued && !st.items[i].status.ItemRunning?)
      && (after != st ==>
            && after.batches == st.batches + 1 && after.attempts == st.attempts
            && |after.subs| == |st.subs|
            && (forall s | 0 <= s < |st.subs| ::
                  after.subs[s] == if s in targets then Sub(Queued, Pending, st.subs[s].result) else st.subs[s])
            && |after.items| == |st.items| + |targets| && after.items[..|st.items|] == st.items
            && forall k | 0 <= k < |targets| :: after.items[|st.items| + k] == Item(st.batches, targets[k], ItemQueued))
  {
    assert CanRejudge(st, targets) ==> CreateBatch(st, targets).batches == st.batches + 1;
  }

  /** Cancelling puts back the stored verdicts of the batch's queued items, if all of them still wait and have one. */
  lemma CancelBatchMeaning(st: Store, batch: nat)
    ensures var after := CancelBatch(st, batch);
            var waiting := forall i | 0 <= i < |st.items| && st.items[i].batch == batch && st.items[i].status == ItemQueued ::
                             && st.items[i].submission < |st.subs|
                             && st.subs[st.items[i].submission].status == Queued && st.subs[st.items[i].submission].task == Pending
                             && st.subs[st.items[i].submission].result.Some?;
      && (!waiting ==> after == st)
      && (waiting ==>
            && after.attempts == st.attempts && after.batches == st.batches
            && |after.items| == |st.items| && |after.subs| == |st.subs|
            && (forall i | 0 <= i < |st.items| ::
                  after.items[i] == if st.items[i].batch == batch && st.items[i].status == ItemQueued then st.items[i].(status := ItemCanceled)
                                    else st.items[i])
            && forall s | 0 <= s < |st.subs| ::
                 after.subs[s] == if Item(batch, s, ItemQueued) in st.items && st.subs[s].result.Some?
                                  then Sub(st.subs[s].result.value.verdict, Done, st.subs[s].result) else st.subs[s])
  {
    var waiting := forall i | 0 <= i < |st.items| && st.items[i].batch == batch && st.items[i].status == ItemQueued ::
                             && st.items[i].submission < |st.subs|
                             && st.subs[st.items[i].submission].status == Queued && st.subs[st.items[i].submission].task == Pending
                             && st.subs[st.items[i].submission].result.Some?;
    assert waiting <==> CanCancel(st, batch);
    forall s | 0 <= s < |st.subs| ensures QueuedIn(st.items, batch, s) <==> Item(batch, s, ItemQueued) in st.items {
    }
  }
}
