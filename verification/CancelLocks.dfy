/**
 * Where the two item lists of a cancel transaction come from (rejudge_repository.go:163-206), and
 * so why it touches no row it has not locked: the lists are read at two moments of a judging run.
 */
module CancelLocks {
  import opened Sorting
  import opened RejudgeItems
  import opened JudgeModel
  import J = JudgeRuns
  import ExactlyOnce
  import L = LockOrder

  /** Item `i` as a row; a submission's one task carries its number. */
  function RowOf(items: seq<Item>, i: nat): L.BatchItem
    requires i < |items|
  {
    L.BatchItem(i, items[i].submission, items[i].submission)
  }

  /** The queued items of a batch, by id. */
  function QueuedRows(items: seq<Item>, batch: nat, n: nat): seq<L.BatchItem>
    requires n <= |items|
  {
    if n == 0 then []
    else QueuedRows(items, batch, n - 1) + if items[n - 1].batch == batch && items[n - 1].status.ItemQueued? then [RowOf(items, n - 1)] else []
  }

  lemma {:induction false} RowsAre(items: seq<Item>, batch: nat, n: nat, row: L.BatchItem)
    requires n <= |items|
    ensures row in QueuedRows(items, batch, n) <==>
              exists i: nat :: i < n && items[i].batch == batch && items[i].status.ItemQueued? && row == RowOf(items, i)
  {
    if n > 0 {
      RowsAre(items, batch, n - 1, row);
      if items[n - 1].batch == batch && items[n - 1].status.ItemQueued? {
        assert RowOf(items, n - 1) in QueuedRows(items, batch, n);
      }
    }
  }

  /** The batch is read at moment `m` of a judging run, its items are cancelled at a later one. */
  ghost predicate ReadAt(judging: seq<J.State>, m: nat, n: nat, batch: nat, t: L.Transaction)
    requires t.CancelBatch?
  {
    && m <= n < |judging| && batch < judging[m].store.batches
    && t.queued == QueuedRows(judging[m].store.items, batch, |judging[m].store.items|)
    && multiset(t.canceled) == multiset(QueuedRows(judging[n].store.items, batch, |judging[n].store.items|))
  }

  ghost predicate Drawn(judging: seq<J.State>, t: L.Transaction) {
    t.CancelBatch? ==> exists m: nat, n: nat, batch: nat :: ReadAt(judging, m, n, batch, t)
  }

  /** The cancelled items are among those whose locks were taken. */
  lemma DrawnIsSound(judging: seq<J.State>, actions: seq<J.Action>, t: L.Transaction)
    requires J.Run(judging, actions) && Drawn(judging, t)
    ensures L.Sound(t)
  {
    if t.CancelBatch? {
      var m: nat, n: nat, batch: nat :| ReadAt(judging, m, n, batch, t);
      var before, after := judging[m].store.items, judging[n].store.items;
      forall row | row in t.canceled ensures row in t.queued {
        SameMembers(t.canceled, QueuedRows(after, batch, |after|));
        RowsAre(after, batch, |after|, row);
        var i: nat :| i < |after| && after[i].batch == batch && after[i].status.ItemQueued? && row == RowOf(after, i);
        ExactlyOnce.QueuedWasQueued(judging, actions, m, n, i);
        RowsAre(before, batch, |before|, row);
      }
    }
  }

  ghost predicate DrawnStep(judging: seq<J.State>, before: seq<L.Process>, x: L.Step, after: seq<L.Process>) {
    match x
    case Begin(t) => Drawn(judging, t) && after == before + [L.Process(t, 0, false)]
    case _ => L.Enabled(before, x) && after == L.After(before, x)
  }

  /** A run of transactions whose cancellations are drawn from a run of the judging path. */
  ghost predicate DrawnRun(judging: seq<J.State>, trace: seq<seq<L.Process>>, steps: seq<L.Step>) {
    && |trace| == |steps| + 1
    && trace[0] == []
    && forall n | 0 <= n < |steps| :: DrawnStep(judging, trace[n], steps[n], trace[n + 1])
  }

  lemma DrawnRunIsRun(judging: seq<J.State>, actions: seq<J.Action>, trace: seq<seq<L.Process>>, steps: seq<L.Step>)
    requires J.Run(judging, actions) && DrawnRun(judging, trace, steps)
    ensures L.Run(trace, steps)
  {
    forall n | 0 <= n < |steps| ensures L.Enabled(trace[n], steps[n]) && trace[n + 1] == L.After(trace[n], steps[n]) {
      assert DrawnStep(judging, trace[n], steps[n], trace[n + 1]);
      if steps[n].Begin? {
        DrawnIsSound(judging, actions, steps[n].t);
      }
    }
  }

  /** Next to any judging run, the five transactions never wait in a circle, and one of them can always go on. */
  lemma JudgingNeverDeadlocks(judging: seq<J.State>, actions: seq<J.Action>, trace: seq<seq<L.Process>>, steps: seq<L.Step>, n: nat)
    requires J.Run(judging, actions) && DrawnRun(judging, trace, steps) && n < |trace|
    ensures forall path: seq<nat> | |path| >= 2 && L.WaitPath(trace[n], path) :: path[0] != path[|path| - 1]
    ensures (exists i :: 0 <= i < |trace[n]| && !trace[n][i].ended) ==>
              exists k: nat :: k < |trace[n]| && L.CanMove(trace[n], k)
  {
    DrawnRunIsRun(judging, actions, trace, steps);
    forall path: seq<nat> | |path| >= 2 && L.WaitPath(trace[n], path) ensures path[0] != path[|path| - 1] {
      L.NoDeadlock(trace, steps, n, path);
    }
    if i :| 0 <= i < |trace[n]| && !trace[n][i].ended {
      L.RunKeeps(trace, steps, n);
      var k := L.SomeoneMoves(trace[n], i, L.Indices(|trace[n]|));
      assert L.CanMove(trace[n], k);
    }
  }
}
