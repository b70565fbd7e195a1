/**
 * The same transactions and the result consumer, as code that updates tables: each method
 * is one committed transaction and leaves the tables as the function of JudgeModel says.
 */
module JudgeStore {
  import opened Wrappers
  import opened Submissions
  import opened RejudgeItems
  import opened JudgeModel
  import opened JudgeRuns

  /** The queued item of a submission's task, if there is one. */
  function FirstQueued(items: seq<Item>, s: nat): (r: Option<nat>)
    ensures QueuedItem(items, s, r)
  {
    if items == [] then None
    else
      var rest := FirstQueued(items[..|items| - 1], s);
      if rest.Some? then rest
      else if items[|items| - 1].submission == s && items[|items| - 1].status.ItemQueued? then Some(|items| - 1) else None
  }

  predicate OpenLatest(st: Store, s: nat) {
    var latest := Latest(st.attempts, s);
    latest.Some? && latest.value < |st.attempts| && st.attempts[latest.value].verdict.None?
  }

  /** ensureJudgeAttempt when nothing happens between its reads and its writes. */
  function Ensured(st: Store, s: nat): Store {
    var item, latest := FirstQueued(st.items, s), Latest(st.attempts, s);
    if OpenLatest(st, s) then
      if ItemConflict(st.items, item, latest.value) then st
      else st.(items := StartItem(st.items, item, latest.value))
    else CreateAttempt(st, s, item, NextNumber(st, latest))
  }

  datatype Fault = AttemptNotFound | ItemNotRunning | Conflict

  class Tables {
    var subs: seq<Sub>
    var attempts: seq<Attempt>
    var items: seq<Item>
    var batches: nat

    function Contents(): Store
      reads this
    {
      Store(subs, attempts, items, batches)
    }

    constructor ()
      ensures Contents() == EMPTY_STORE
    {
      subs, attempts, items, batches := [], [], [], 0;
    }

    /** UpdateSubmissionStatus and UpsertSubmissionResult. */
    method WriteVerdict(s: nat, a: nat, verdict: Status)
      requires s < |subs|
      modifies this`subs
      ensures subs == old(subs)[s := Sub(verdict, old(subs)[s].task, Some(Stored(a, verdict)))]
    {
      subs := subs[s := subs[s].(status := verdict)];
      subs := subs[s := subs[s].(result := Some(Stored(a, verdict)))];
    }

    /** MarkJudgeAttemptFinished and MarkJudgeTaskDone. */
    method FinishJudgeAttempt(s: nat, a: nat, verdict: Status)
      requires s < |subs| && a < |attempts|
      modifies this`subs, this`attempts
      ensures attempts == old(attempts)[a := old(attempts)[a].(verdict := Some(verdict))]
      ensures subs == old(subs)[s := old(subs)[s].(task := if InFlight(old(subs)[s].task) then Done else old(subs)[s].task)]
    {
      attempts := attempts[a := attempts[a].(verdict := Some(verdict))];
      if InFlight(subs[s].task) {
        subs := subs[s := subs[s].(task := Done)];
      }
    }

    /** FinishRejudgeBatchItem: no row is an error. */
    method FinishRejudgeBatchItem(a: nat) returns (found: bool)
      modifies this`items
      ensures found == ItemRunningFor(old(items), a)
      ensures items == FinishItems(old(items), a)
    {
      found := false;
      for i := 0 to |items|
        invariant |items| == |old(items)|
        invariant forall k | 0 <= k < i :: items[k] == FinishItems(old(items), a)[k]
        invariant forall k | i <= k < |items| :: items[k] == old(items)[k]
        invariant found == exists k :: 0 <= k < i && old(items)[k].status == ItemRunning(a)
      {
        if items[i].status == ItemRunning(a) {
          found := true;
          items := items[i := items[i].(status := ItemCompleted(a))];
        }
      }
    }

    /** One transaction: on an error every table is as before. */
    method CompleteJudgeAttemptResult(a: nat, verdict: Status) returns (persisted: bool, fault: Option<Fault>)
      requires a < |attempts| ==> attempts[a].submission < |subs|
      modifies this
      ensures Contents() == Complete(old(Contents()), a, verdict)
      ensures persisted == Accepts(old(Contents()), a)
      ensures a >= |old(attempts)| <==> fault == Some(AttemptNotFound)
      ensures persisted <==>
                && a < |old(attempts)| && old(attempts)[a].verdict.None?
                && (old(subs)[old(attempts)[a].submission].status == Queued || old(subs)[old(attempts)[a].submission].status == Running)
                && (old(attempts)[a].batch.Some? ==> exists i :: 0 <= i < |old(items)| && old(items)[i].status == ItemRunning(a))
      ensures !persisted ==> subs == old(subs) && attempts == old(attempts) && items == old(items)
      ensures persisted ==>
                var s := old(attempts)[a].submission;
                && |subs| == |old(subs)| && subs == old(subs)[s := subs[s]]
                && subs[s].status == verdict && subs[s].result == Some(Stored(a, verdict))
                && subs[s].task == (var t := old(subs)[s].task; if t == Dispatching || t == Dispatched || t == TaskRunning then Done else t)
                && attempts == old(attempts)[a := old(attempts)[a].(verdict := Some(verdict))]
      ensures persisted && old(attempts)[a].batch.None? ==> items == old(items)
      ensures persisted && old(attempts)[a].batch.Some? ==>
                |items| == |old(items)|
                && forall i | 0 <= i < |items| ::
                     items[i] == if old(items)[i].status == ItemRunning(a) then old(items)[i].(status := ItemCompleted(a)) else old(items)[i]
      ensures persisted ==> fault.None?
      ensures fault == Some(ItemNotRunning) ==> a < |old(attempts)| && old(attempts)[a].batch.Some? && !ItemRunningFor(old(items), a)
    {
      persisted, fault := false, None;
      if a >= |attempts| {
        fault := Some(AttemptNotFound);
        return;
      }
      if attempts[a].verdict.Some? {
        return;
      }
      var attempt := attempts[a];
      var s := attempt.submission;
      if Terminal(subs[s].status) {
        return;
      }
      var subsBefore, attemptsBefore, itemsBefore := subs, attempts, items;
      WriteVerdict(s, a, verdict);
      FinishJudgeAttempt(s, a, verdict);
      if attempt.batch.Some? {
        var found := FinishRejudgeBatchItem(a);
        if !found {
          subs, attempts, items := subsBefore, attemptsBefore, itemsBefore;
          fault := Some(ItemNotRunning);
          return;
        }
      }
      persisted := true;
    }

    method GetQueuedRejudgeBatchItem(s: nat) returns (item: Option<nat>)
      ensures item == FirstQueued(items, s)
    {
      item := None;
      for i := 0 to |items|
        invariant item == FirstQueued(items[..i], s)
      {
        assert items[..i + 1][..i] == items[..i];
        if item.None? && items[i].submission == s && items[i].status.ItemQueued? {
          item := Some(i);
        }
      }
      assert items[..|items|] == items;
    }

    method GetLatestJudgeAttempt(s: nat) returns (latest: Option<nat>)
      ensures latest == Latest(attempts, s)
      ensures latest.Some? ==> latest.value < |attempts| && attempts[latest.value].submission == s
      ensures forall i | 0 <= i < |attempts| && attempts[i].submission == s :: latest.Some? && i <= latest.value
    {
      latest := None;
      for i := 0 to |attempts|
        invariant latest == Latest(attempts[..i], s)
        invariant latest.Some? ==> latest.value < i && attempts[latest.value].submission == s
        invariant forall j | 0 <= j < i && attempts[j].submission == s :: latest.Some? && j <= latest.value
      {
        assert attempts[..i + 1][..i] == attempts[..i];
        if attempts[i].submission == s {
          latest := Some(i);
        }
      }
      assert attempts[..|attempts|] == attempts;
    }

    /** The attempt returned is the submission's open one. */
    method EnsureJudgeAttempt(s: nat) returns (r: Result<nat, Fault>)
      modifies this
      ensures Contents() == Ensured(old(Contents()), s)
      ensures r.Ok? ==> r.value < |attempts| && attempts[r.value].verdict.None? && attempts[r.value].submission == s
      ensures r.Ok? && old(OpenLatest(Contents(), s)) ==> attempts == old(attempts)
      ensures r.Ok? && r.value == |old(attempts)| ==>
                && attempts == old(attempts) + [attempts[r.value]]
                && ((forall i | 0 <= i < r.value :: old(attempts)[i].submission != s) ==> attempts[r.value].number == 1)
                && (forall i | 0 <= i < r.value && old(attempts)[i].submission == s && (forall j | i < j < r.value :: old(attempts)[j].submission != s) ::
                      old(attempts)[i].verdict.Some? && attempts[r.value].number == old(attempts)[i].number + 1)
                && (attempts[r.value].batch.Some? <==> exists i :: 0 <= i < |old(items)| && old(items)[i].submission == s && old(items)[i].status == ItemQueued)
      ensures r.Ok? ==> |items| == |old(items)| && forall i | 0 <= i < |items| ::
                items[i] == old(items)[i]
                || (old(items)[i].submission == s && old(items)[i].status == ItemQueued && items[i] == old(items)[i].(status := ItemRunning(r.value)))
      ensures r.Err? ==> Contents() == old(Contents())
    {
      var item := GetQueuedRejudgeBatchItem(s);
      var latest := GetLatestJudgeAttempt(s);
      if latest.Some? && attempts[latest.value].verdict.None? {
        if ItemConflict(items, item, latest.value) {
          return Err(Conflict);
        }
        items := StartItem(items, item, latest.value);
        return Ok(latest.value);
      }
      var number := 1;
      if latest.Some? {
        number := attempts[latest.value].number + 1;
      }
      if NumberTaken(attempts, s, number) {
        return Err(Conflict);
      }
      var batch: Option<nat> := None;
      if item.Some? {
        batch := Some(items[item.value].batch);
      }
      var a := |attempts|;
      attempts := attempts + [Attempt(s, number, batch, None)];
      if item.Some? {
        items := items[item.value := items[item.value].(status := ItemRunning(a))];
      }
      return Ok(a);
    }
  }

  /** The result queue and its consumer. */
  class ResultConsumer {
    const store: Tables
    var queue: set<Message>

    constructor (store: Tables)
      ensures this.store == store && queue == {}
    {
      this.store, queue := store, {};
    }

    /** Commit, then acknowledge; `crash` says the process dies in between. */
    method ProcessResultMessage(m: Message, crash: bool) returns (persisted: bool, acked: bool)
      requires m in queue
      requires m.attempt < |store.attempts| ==> store.attempts[m.attempt].submission < |store.subs|
      modifies this`queue, store
      ensures store.Contents() == Complete(old(store.Contents()), m.attempt, m.verdict)
      ensures persisted == Accepts(old(store.Contents()), m.attempt)
      ensures queue == if acked then old(queue) - {m} else old(queue)
      ensures persisted && !crash ==> acked
      ensures acked ==> !crash && m.attempt < |old(store.attempts)|
    {
      acked := false;
      var fault;
      persisted, fault := store.CompleteJudgeAttemptResult(m.attempt, m.verdict);
      if fault.Some? || crash {
        return;
      }
      queue := queue - {m};
      acked := true;
    }
  }

  /** The three steps of a dispatcher, with nothing in between, are EnsureJudgeAttempt. */
  lemma UninterruptedSteps(s: State, d: nat, sub: nat)
    requires d < |s.dispatchers| && s.dispatchers[d] == Claimed(sub)
    ensures var s1 := After(s, SeeItem(d, FirstQueued(s.store.items, sub)));
            Enabled(s1, SeeLatest(d)) && Enabled(After(s1, SeeLatest(d)), Ensure(d))
            && After(After(s1, SeeLatest(d)), Ensure(d)).store == Ensured(s.store, sub)
  {
    var item := FirstQueued(s.store.items, sub);
    var s1 := After(s, SeeItem(d, item));
    assert s1.dispatchers[d] == SawItem(sub, item) && s1.store == s.store;
    var s2 := After(s1, SeeLatest(d));
    assert s2.store == s.store;
    assert s2.dispatchers[d] == SawLatest(sub, item, Latest(s.store.attempts, sub), OpenLatest(s.store, sub));
  }

  lemma ActiveStep(s: State, a: Action)
    requires Enabled(s, a) && OneActiveEach(s.store.items)
    ensures OneActiveEach(After(s, a).store.items)
  {
    if a.CreateRejudge? && CanRejudge(s.store, a.targets) {
      assert forall k | 0 <= k < |a.targets| :: Rejudgeable(s.store, a.targets[k]);
    }
  }

  /** In every run a submission has one active item at most. */
  lemma {:induction false} RunHasOneActive(trace: seq<State>, actions: seq<Action>, n: nat)
    requires Run(trace, actions) && n < |trace|
    ensures OneActiveEach(trace[n].store.items)
  {
    if n > 0 {
      RunHasOneActive(trace, actions, n - 1);
      ActiveStep(trace[n - 1], actions[n - 1]);
    }
  }

  lemma NoneQueued(items: seq<Item>, s: nat)
    requires forall i | 0 <= i < |items| && items[i].submission == s :: !items[i].status.ItemQueued?
    ensures FirstQueued(items, s).None?
  {
  }

  lemma StartedIsActive(items: seq<Item>, item: nat, s: nat, a: nat)
    requires OneActiveEach(items) && item < |items| && items[item].submission == s && items[item].status.ItemQueued?
    ensures FirstQueued(items[item := items[item].(status := ItemRunning(a))], s).None?
  {
    NoneQueued(items[item := items[item].(status := ItemRunning(a))], s);
  }

  lemma EnsuredLeavesOpen(st: Store, s: nat)
    requires OneActiveEach(st.items) && Ensured(st, s) != st
    ensures OpenLatest(Ensured(st, s), s) && FirstQueued(Ensured(st, s).items, s).None?
  {
    var item, once := FirstQueued(st.items, s), Ensured(st, s);
    if item.Some? {
      StartedIsActive(st.items, item.value, s, if OpenLatest(st, s) then Latest(st.attempts, s).value else |st.attempts|);
    }
    if !OpenLatest(st, s) {
      assert once.attempts[|once.attempts| - 1].submission == s;
    }
  }

  /** In every reachable state asking twice for a submission's attempt leaves all tables as asking once does. */
  lemma EnsureTwice(trace: seq<State>, actions: seq<Action>, n: nat, s: nat)
    requires Run(trace, actions) && n < |trace|
    ensures var st := trace[n].store; Ensured(Ensured(st, s), s) == Ensured(st, s)
  {
    RunHasOneActive(trace, actions, n);
    if Ensured(trace[n].store, s) != trace[n].store {
      EnsuredLeavesOpen(trace[n].store, s);
    }
  }
}
