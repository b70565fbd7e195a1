/**
 * The items and batches of rejudges (internal/postgres/queries/submissions.sql), and how a batch
 * follows its items. Items are numbered by position, and so are batches and submissions.
 */
module RejudgeItems {
  import opened Wrappers

  datatype ItemStatus = ItemQueued | ItemRunning(attempt: nat) | ItemCompleted(attempt: nat) | ItemFailed | ItemCanceled

  datatype Item = Item(batch: nat, submission: nat, status: ItemStatus)

  predicate ActiveItem(x: Item) {
    x.status.ItemQueued? || x.status.ItemRunning?
  }

  /** The item an attempt was started for, if it is still running. */
  predicate ItemRunningFor(items: seq<Item>, a: nat) {
    exists i :: 0 <= i < |items| && items[i].status == ItemRunning(a)
  }

  /** FinishRejudgeBatchItem. */
  function FinishItems(items: seq<Item>, a: nat): (r: seq<Item>)
    ensures |r| == |items|
    ensures forall i | 0 <= i < |items| :: r[i] == if items[i].status == ItemRunning(a) then items[i].(status := ItemCompleted(a)) else items[i]
  {
    seq(|items|, i requires 0 <= i < |items| =>
      if items[i].status == ItemRunning(a) then items[i].(status := ItemCompleted(a)) else items[i])
  }

  predicate AttemptInItem(items: seq<Item>, a: nat) {
    exists i :: 0 <= i < |items| && (items[i].status == ItemRunning(a) || items[i].status == ItemCompleted(a))
  }

  /** The unique index on an item's attempt would refuse the update. */
  predicate ItemConflict(items: seq<Item>, item: Option<nat>, a: nat) {
    item.Some? && item.value < |items| && items[item.value].status.ItemQueued? && AttemptInItem(items, a)
  }

  /** StartRejudgeBatchItem: no effect once the item is no longer queued. */
  function StartItem(items: seq<Item>, item: Option<nat>, a: nat): seq<Item> {
    match item
    case None => items
    case Some(i) =>
      if i < |items| && items[i].status.ItemQueued? then items[i := items[i].(status := ItemRunning(a))] else items
  }

  function NewItems(batch: nat, targets: seq<nat>): (r: seq<Item>)
    ensures |r| == |targets|
    ensures forall k | 0 <= k < |targets| :: r[k] == Item(batch, targets[k], ItemQueued)
  {
    seq(|targets|, k requires 0 <= k < |targets| => Item(batch, targets[k], ItemQueued))
  }

  predicate QueuedIn(items: seq<Item>, batch: nat, s: nat) {
    exists i :: 0 <= i < |items| && items[i] == Item(batch, s, ItemQueued)
  }

  function CancelItems(items: seq<Item>, batch: nat): (r: seq<Item>)
    ensures |r| == |items|
    ensures forall i | 0 <= i < |items| ::
      r[i] == if items[i].batch == batch && items[i].status.ItemQueued? then items[i].(status := ItemCanceled) else items[i]
  {
    seq(|items|, i requires 0 <= i < |items| =>
      if items[i].batch == batch && items[i].status.ItemQueued? then items[i].(status := ItemCanceled) else items[i])
  }

  /** FailActiveRejudgeBatchItemByTaskID; a submission's one task carries its number. */
  function FailItems(items: seq<Item>, s: nat): (r: seq<Item>)
    ensures |r| == |items|
    ensures forall i | 0 <= i < |items| ::
      r[i] == if items[i].submission == s && ActiveItem(items[i]) then items[i].(status := ItemFailed) else items[i]
  {
    seq(|items|, i requires 0 <= i < |items| =>
      if items[i].submission == s && ActiveItem(items[i]) then items[i].(status := ItemFailed) else items[i])
  }

  // ----- batches -----

  datatype BatchStatus = BatchQueued | BatchRunning | BatchCompleted | BatchFailed | BatchCanceled

  predicate Open(status: BatchStatus) {
    status.BatchQueued? || status.BatchRunning?
  }

  predicate AnyActive(items: seq<Item>, batch: nat) {
    exists i :: 0 <= i < |items| && items[i].batch == batch && ActiveItem(items[i])
  }

  predicate AnyFailed(items: seq<Item>, batch: nat) {
    exists i :: 0 <= i < |items| && items[i].batch == batch && items[i].status.ItemFailed?
  }

  predicate AnyQueued(items: seq<Item>, batch: nat) {
    exists i :: 0 <= i < |items| && items[i].batch == batch && items[i].status.ItemQueued?
  }

  /** The status RefreshRejudgeBatchProgress sets. */
  function Progress(status: BatchStatus, items: seq<Item>, batch: nat): BatchStatus {
    if status.BatchCanceled? then BatchCanceled
    else if AnyActive(items, batch) then BatchRunning
    else if AnyFailed(items, batch) then BatchFailed
    else BatchCompleted
  }

  function Refreshed(batches: seq<BatchStatus>, items: seq<Item>, batch: nat): seq<BatchStatus> {
    if batch < |batches| then batches[batch := Progress(batches[batch], items, batch)] else batches
  }

  /** Refreshing leaves a cancelled batch and every other batch alone, and otherwise follows the statuses of the items. */
  lemma RefreshMeaning(batches: seq<BatchStatus>, items: seq<Item>, batch: nat)
    ensures var after := Refreshed(batches, items, batch);
      && |after| == |batches|
      && (forall b | 0 <= b < |batches| && (b != batch || batches[b] == BatchCanceled) :: after[b] == batches[b])
      && (batch < |batches| && batches[batch] != BatchCanceled ==>
            && (after[batch] == BatchRunning <==>
                  exists i :: 0 <= i < |items| && items[i].batch == batch && (items[i].status == ItemQueued || items[i].status.ItemRunning?))
            && (after[batch] == BatchCompleted <==>
                  forall i | 0 <= i < |items| && items[i].batch == batch :: items[i].status == ItemCanceled || items[i].status.ItemCompleted?)
            && (after[batch] == BatchRunning || after[batch] == BatchCompleted || after[batch] == BatchFailed))
  {
    if batch < |batches| && batches[batch] != BatchCanceled && AnyActive(items, batch) {
      var i :| 0 <= i < |items| && items[i].batch == batch && ActiveItem(items[i]);
      assert items[i].status == ItemQueued || items[i].status.ItemRunning?;
    }
  }

  /** A batch that was not cancelled is open exactly while an item is active, and failed exactly if an item did. */
  predicate StatusFits(status: BatchStatus, items: seq<Item>, batch: nat) {
    match status
    case BatchQueued => AnyActive(items, batch)
    case BatchRunning => AnyActive(items, batch)
    case BatchCompleted => !AnyActive(items, batch) && !AnyFailed(items, batch)
    case BatchFailed => !AnyActive(items, batch) && AnyFailed(items, batch)
    case BatchCanceled => !AnyQueued(items, batch)
  }

  ghost predicate OneActiveEach(items: seq<Item>) {
    forall i, j | 0 <= i < j < |items| && ActiveItem(items[i]) && ActiveItem(items[j]) :: items[i].submission != items[j].submission
  }

  function AttemptOf(x: Item): Option<nat> {
    match x.status
    case ItemRunning(a) => Some(a)
    case ItemCompleted(a) => Some(a)
    case _ => None
  }

  ghost predicate OneItemEach(items: seq<Item>) {
    forall i, j | 0 <= i < j < |items| && AttemptOf(items[i]).Some? :: AttemptOf(items[i]) != AttemptOf(items[j])
  }

  /** The unique indexes hold, references exist, and every batch fits its items. */
  ghost predicate ItemsOk(items: seq<Item>, batches: seq<BatchStatus>, submissions: nat) {
    && (forall i | 0 <= i < |items| :: items[i].submission < submissions && items[i].batch < |batches|)
    && OneActiveEach(items) && OneItemEach(items)
    && forall b | 0 <= b < |batches| :: StatusFits(batches[b], items, b)
  }

  lemma OtherBatchFits(status: BatchStatus, items: seq<Item>, after: seq<Item>, batch: nat)
    requires StatusFits(status, items, batch) && |items| <= |after|
    requires forall i | 0 <= i < |items| && items[i].batch == batch :: after[i] == items[i]
    requires forall i | 0 <= i < |after| && after[i].batch == batch :: i < |items| && after[i] == items[i]
    ensures StatusFits(status, after, batch)
  {
    if AnyActive(items, batch) {
      var i :| 0 <= i < |items| && items[i].batch == batch && ActiveItem(items[i]);
      assert after[i] == items[i];
    }
    if AnyFailed(items, batch) {
      var i :| 0 <= i < |items| && items[i].batch == batch && items[i].status.ItemFailed?;
      assert after[i] == items[i];
    }
  }

  lemma NoneNewlyQueued(items: seq<Item>, after: seq<Item>, batch: nat)
    requires |after| == |items| && forall i | 0 <= i < |items| :: after[i].batch == items[i].batch
    requires forall i | 0 <= i < |items| && after[i].status.ItemQueued? :: items[i].status.ItemQueued?
    ensures AnyQueued(after, batch) ==> AnyQueued(items, batch)
  {
    if AnyQueued(after, batch) {
      var i :| 0 <= i < |after| && after[i].batch == batch && after[i].status.ItemQueued?;
      assert items[i].status.ItemQueued?;
    }
  }

  /** After items of one batch changed and no new one became active, refreshing that batch restores the fit. */
  lemma RefreshFits(items: seq<Item>, after: seq<Item>, batches: seq<BatchStatus>, submissions: nat, batch: nat)
    requires ItemsOk(items, batches, submissions) && |after| == |items| && batch < |batches|
    requires forall i | 0 <= i < |items| :: after[i].submission == items[i].submission && after[i].batch == items[i].batch
    requires forall i | 0 <= i < |items| && items[i].batch != batch :: after[i] == items[i]
    requires forall i | 0 <= i < |items| && after[i].status.ItemQueued? :: items[i].status.ItemQueued?
    requires OneActiveEach(after) && OneItemEach(after)
    ensures ItemsOk(after, Refreshed(batches, after, batch), submissions)
  {
    var fitted := Refreshed(batches, after, batch);
    forall b | 0 <= b < |fitted| ensures StatusFits(fitted[b], after, b) {
      if b != batch {
        OtherBatchFits(batches[b], items, after, b);
      } else {
        NoneNewlyQueued(items, after, b);
      }
    }
  }

  function RunningItem(items: seq<Item>, a: nat): (i: nat)
    requires ItemRunningFor(items, a)
    ensures i < |items| && items[i].status == ItemRunning(a)
  {
    if items[0].status == ItemRunning(a) then 0 else 1 + RunningItem(items[1..], a)
  }

  function ActiveItemOf(items: seq<Item>, s: nat): (r: Option<nat>)
    ensures r.None? ==> forall i | 0 <= i < |items| && items[i].submission == s :: !ActiveItem(items[i])
    ensures r.Some? ==> r.value < |items| && items[r.value].submission == s && ActiveItem(items[r.value])
  {
    if items == [] then None
    else if items[0].submission == s && ActiveItem(items[0]) then Some(0)
    else match ActiveItemOf(items[1..], s) case None => None case Some(i) => Some(i + 1)
  }

  lemma FinishFits(items: seq<Item>, batches: seq<BatchStatus>, submissions: nat, a: nat)
    requires ItemsOk(items, batches, submissions) && ItemRunningFor(items, a)
    ensures var after := FinishItems(items, a);
            ItemsOk(after, Refreshed(batches, after, items[RunningItem(items, a)].batch), submissions)
  {
    var k := RunningItem(items, a);
    forall i | 0 <= i < |items| && items[i].status == ItemRunning(a) ensures i == k {
      assert AttemptOf(items[i]) == AttemptOf(items[k]);
    }
    RefreshFits(items, FinishItems(items, a), batches, submissions, items[k].batch);
  }

  lemma FailFits(items: seq<Item>, batches: seq<BatchStatus>, submissions: nat, s: nat)
    requires ItemsOk(items, batches, submissions)
    ensures match ActiveItemOf(items, s)
            case None => FailItems(items, s) == items
            case Some(k) => ItemsOk(FailItems(items, s), Refreshed(batches, FailItems(items, s), items[k].batch), submissions)
  {
    match ActiveItemOf(items, s)
    case None =>
    case Some(k) =>
      forall i | 0 <= i < |items| && items[i].submission == s && ActiveItem(items[i]) ensures i == k {
      }
      RefreshFits(items, FailItems(items, s), batches, submissions, items[k].batch);
  }

  /** Starting keeps an item active, so the batch fits with or without a refresh. */
  lemma StartFits(items: seq<Item>, batches: seq<BatchStatus>, submissions: nat, item: nat, a: nat)
    requires ItemsOk(items, batches, submissions) && item < |items| && items[item].status.ItemQueued? && !AttemptInItem(items, a)
    ensures var after := StartItem(items, Some(item), a);
            ItemsOk(after, batches, submissions) && ItemsOk(after, Refreshed(batches, after, items[item].batch), submissions)
  {
    var after, batch := StartItem(items, Some(item), a), items[item].batch;
    forall i | 0 <= i < |items| ensures AttemptOf(items[i]) != Some(a) {
    }
    assert AnyQueued(items, batch) && AnyActive(items, batch);
    RefreshFits(items, after, batches, submissions, batch);
    assert AnyActive(after, batch) by {
      assert after[item].batch == batch && ActiveItem(after[item]);
    }
    forall b | 0 <= b < |batches| ensures StatusFits(batches[b], after, b) {
      if b != batch {
        OtherBatchFits(batches[b], items, after, b);
      }
    }
  }

  lemma CreateFits(items: seq<Item>, batches: seq<BatchStatus>, submissions: nat, targets: seq<nat>)
    requires ItemsOk(items, batches, submissions) && targets != []
    requires forall k | 0 <= k < |targets| :: targets[k] < submissions && ActiveItemOf(items, targets[k]).None?
    requires forall j, k | 0 <= j < k < |targets| :: targets[j] != targets[k]
    ensures ItemsOk(items + NewItems(|batches|, targets), batches + [BatchQueued], submissions)
  {
    var after, more := items + NewItems(|batches|, targets), batches + [BatchQueued];
    forall i, j | 0 <= i < j < |after| && ActiveItem(after[i]) && ActiveItem(after[j]) ensures after[i].submission != after[j].submission {
      if j >= |items| {
        assert ActiveItemOf(items, targets[j - |items|]).None?;
      }
    }
    forall b | 0 <= b < |more| ensures StatusFits(more[b], after, b) {
      if b < |batches| {
        OtherBatchFits(batches[b], items, after, b);
      } else {
        assert after[|items|].batch == b && ActiveItem(after[|items|]);
      }
    }
  }

  lemma CancelFits(items: seq<Item>, batches: seq<BatchStatus>, submissions: nat, batch: nat)
    requires ItemsOk(items, batches, submissions) && batch < |batches|
    ensures ItemsOk(CancelItems(items, batch), batches[batch := BatchCanceled], submissions)
  {
    var after, canceled := CancelItems(items, batch), batches[batch := BatchCanceled];
    forall b | 0 <= b < |canceled| ensures StatusFits(canceled[b], after, b) {
      if b != batch {
        OtherBatchFits(batches[b], items, after, b);
      }
    }
  }

  /** Whatever ended a batch left none of its items queued. */
  lemma NoneQueuedOnceEnded(items: seq<Item>, batches: seq<BatchStatus>, submissions: nat, batch: nat)
    requires ItemsOk(items, batches, submissions) && batch < |batches|
    ensures !Open(batches[batch]) ==> forall s: nat :: !QueuedIn(items, batch, s)
  {
    if !Open(batches[batch]) {
      forall s: nat ensures !QueuedIn(items, batch, s) {
        if i :| 0 <= i < |items| && items[i] == Item(batch, s, ItemQueued) {
          assert ActiveItem(items[i]) && AnyQueued(items, batch) && AnyActive(items, batch);
          assert false;
        }
      }
    }
  }
}
