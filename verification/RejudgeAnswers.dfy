/**
 * How a rejudge can be answered by an attempt made before it, what then becomes of its item
 * (judge_repository.go:60-66 against :214-223), and when neither can happen.
 */
module RejudgeAnswers {
  import opened Wrappers
  import opened Submissions
  import opened RejudgeItems
  import opened JudgeModel
  import opened JudgeRuns
  import opened ExactlyOnce

  predicate NoneOpen(st: Store, s: nat) {
    forall a | 0 <= a < |st.attempts| && st.attempts[a].submission == s :: st.attempts[a].verdict.Some?
  }

  /** Whether a result of an attempt made before the rejudge could be written as the answer to it. */
  predicate AnsweredEarly(before: Store, reopened: Store, s: nat) {
    exists a :: 0 <= a < |before.attempts| && before.attempts[a].submission == s && Accepts(reopened, a)
  }

  /** A rejudge is answered only by attempts opened after it exactly when no attempt of the submission was open. */
  lemma RejudgeAnswered(trace: seq<State>, actions: seq<Action>, i: nat, s: nat)
    requires Run(trace, actions) && i < |actions| && actions[i].CreateRejudge?
    requires CanRejudge(trace[i].store, actions[i].targets) && s in actions[i].targets
    ensures AnsweredEarly(trace[i].store, trace[i + 1].store, s) <==> !NoneOpen(trace[i].store, s)
    ensures NoneOpen(trace[i].store, s) ==>
              forall j | i < j < |actions| && actions[j].Deliver? && Accepts(trace[j].store, actions[j].message.attempt) ::
                trace[j].store.attempts[actions[j].message.attempt].submission == s ==> actions[j].message.attempt >= |trace[i].store.attempts|
  {
    var st, again := trace[i].store, trace[i + 1].store;
    assert again == CreateBatch(st, actions[i].targets);
    forall a | 0 <= a < |st.attempts| && st.attempts[a].submission == s ensures Accepts(again, a) <==> st.attempts[a].verdict.None? {
      WrittenIff(trace, actions, i, a);
      WrittenIff(trace, actions, i + 1, a);
    }
    if NoneOpen(st, s) {
      forall j | i < j < |actions| && actions[j].Deliver? && Accepts(trace[j].store, actions[j].message.attempt) && actions[j].message.attempt < |st.attempts|
        ensures trace[j].store.attempts[actions[j].message.attempt].submission != s
      {
        VerdictStays(trace, actions, i, j, actions[j].message.attempt);
      }
    }
  }

  ghost predicate Reachable(s: State) {
    exists trace: seq<State>, actions :: Run(trace, actions) && trace[|trace| - 1] == s
  }

  lemma ReachStep(s: State, a: Action)
    requires Reachable(s) && Enabled(s, a)
    ensures Reachable(After(s, a))
  {
    var trace: seq<State>, actions :| Run(trace, actions) && trace[|trace| - 1] == s;
    var longer, more := trace + [After(s, a)], actions + [a];
    assert Run(longer, more) && longer[|longer| - 1] == After(s, a);
  }

  /** One submission whose first attempt has just been opened. */
  lemma DispatchedOnce() returns (s: State)
    ensures Reachable(s)
    ensures s.store == Store([Sub(Queued, Dispatching, None)], [Attempt(0, 1, None, None)], [], 0)
    ensures s.dispatchers == [HasAttempt(0, 0), Free] && s.requests == {} && s.results == {}
  {
    s := State(EMPTY_STORE, [Free, Free], {}, {}, []);
    assert Run([s], []) && [s][|[s]| - 1] == s;
    ReachStep(s, Submit);
    s := After(s, Submit);
    ReachStep(s, Claim(0, 0));
    s := After(s, Claim(0, 0));
    ReachStep(s, SeeItem(0, None));
    s := After(s, SeeItem(0, None));
    assert s.store == Store([Sub(Queued, Dispatching, None)], [], [], 0) && s.dispatchers == [SawItem(0, None), Free];
    ReachStep(s, SeeLatest(0));
    s := After(s, SeeLatest(0));
    ReachStep(s, Ensure(0));
    s := After(s, Ensure(0));
    assert s.store == Store([Sub(Queued, Dispatching, None)], [Attempt(0, 1, None, None)], [], 0);
  }

  /** Its dispatch went stale and a second dispatcher took it over. */
  lemma DispatchedTwice() returns (s: State)
    ensures Reachable(s)
    ensures s.store == Store([Sub(Queued, Dispatching, None)], [Attempt(0, 1, None, None)], [], 0)
    ensures s.dispatchers == [HasAttempt(0, 0), SawItem(0, None)] && s.requests == {0} && s.results == {}
  {
    s := DispatchedOnce();
    ReachStep(s, Publish(0));
    s := After(s, Publish(0));
    ReachStep(s, ResetStale(0));
    s := After(s, ResetStale(0));
    ReachStep(s, Claim(1, 0));
    s := After(s, Claim(1, 0));
    ReachStep(s, SeeItem(1, None));
    s := After(s, SeeItem(1, None));
  }

  /** Its attempt has its result, and the item still counts as active. */
  predicate Stranded(st: Store, i: nat) {
    && i < |st.items| && st.items[i].status.ItemRunning?
    && st.items[i].status.attempt < |st.attempts| && st.attempts[st.items[i].status.attempt].verdict.Some?
  }

  /** A dispatcher that claimed before the verdict and writes after it leaves an open attempt on a judged submission. */
  lemma OpenAttemptOnJudged() returns (s: State)
    ensures Reachable(s) && !NoneOpen(s.store, 0) && CanRejudge(s.store, [0])
    ensures s.store == Store([Sub(WrongAnswer, Done, Some(Stored(0, WrongAnswer)))],
                             [Attempt(0, 1, None, Some(WrongAnswer)), Attempt(0, 2, None, None)], [], 0)
    ensures s.dispatchers == [HasAttempt(0, 0), HasAttempt(0, 1)] && s.requests == {0} && s.results == {Message(0, WrongAnswer)}
  {
    s := DispatchedTwice();
    var m := Message(0, WrongAnswer);
    ReachStep(s, Judge(0, WrongAnswer));
    s := After(s, Judge(0, WrongAnswer));
    ReachStep(s, Deliver(m));
    s := After(s, Deliver(m));
    assert s.store == Store([Sub(WrongAnswer, Done, Some(Stored(0, WrongAnswer)))], [Attempt(0, 1, None, Some(WrongAnswer))], [], 0);
    ReachStep(s, SeeLatest(1));
    s := After(s, SeeLatest(1));
    ReachStep(s, Ensure(1));
    s := After(s, Ensure(1));
    assert s.store.attempts[1] == Attempt(0, 2, None, None);
    assert Rejudgeable(s.store, 0);
  }

  lemma RejudgedAfterwards() returns (s: State)
    ensures Reachable(s)
    ensures s.store == Store([Sub(Queued, Pending, Some(Stored(0, WrongAnswer)))],
                             [Attempt(0, 1, None, Some(WrongAnswer)), Attempt(0, 2, None, None)], [Item(0, 0, ItemQueued)], 1)
    ensures s.dispatchers == [Free, HasAttempt(0, 1)] && s.requests == {0}
  {
    s := OpenAttemptOnJudged();
    ReachStep(s, CreateRejudge([0]));
    s := After(s, CreateRejudge([0]));
    assert s.store.subs == [Sub(Queued, Pending, Some(Stored(0, WrongAnswer)))];
    assert s.store.items == [Item(0, 0, ItemQueued)];
    ReachStep(s, Abandon(0));
    s := After(s, Abandon(0));
  }

  /** The rejudge of that submission, dispatched with the attempt that was open before it. */
  lemma RejudgedWithOldAttempt() returns (s: State)
    ensures Reachable(s)
    ensures s.store == Store([Sub(Queued, Dispatching, Some(Stored(0, WrongAnswer)))],
                             [Attempt(0, 1, None, Some(WrongAnswer)), Attempt(0, 2, None, None)], [Item(0, 0, ItemQueued)], 1)
    ensures s.dispatchers == [SawLatest(0, Some(0), Some(1), true), HasAttempt(0, 1)] && s.requests == {0}
  {
    s := RejudgedAfterwards();
    ReachStep(s, Claim(0, 0));
    s := After(s, Claim(0, 0));
    ReachStep(s, SeeItem(0, Some(0)));
    s := After(s, SeeItem(0, Some(0)));
    ReachStep(s, SeeLatest(0));
    s := After(s, SeeLatest(0));
  }

  /** Its result is the answer to the rejudge, and the item runs on. */
  lemma AnsweredByOldAttempt() returns (s: State)
    ensures Reachable(s)
    ensures s.store == Store([Sub(Accepted, Done, Some(Stored(1, Accepted)))],
                             [Attempt(0, 1, None, Some(WrongAnswer)), Attempt(0, 2, None, Some(Accepted))], [Item(0, 0, ItemRunning(1))], 1)
    ensures Stranded(s.store, 0)
  {
    s := RejudgedWithOldAttempt();
    ReachStep(s, Ensure(0));
    s := After(s, Ensure(0));
    assert s.store.items == [Item(0, 0, ItemRunning(1))];
    ReachStep(s, Publish(0));
    s := After(s, Publish(0));
    ReachStep(s, Judge(1, Accepted));
    s := After(s, Judge(1, Accepted));
    ReachStep(s, Deliver(Message(1, Accepted)));
    s := After(s, Deliver(Message(1, Accepted)));
  }

  // ----- what becomes of an item whose attempt is answered -----

  predicate StartedWith(x: Item, a: nat) {
    x.status == ItemRunning(a) || x.status == ItemCompleted(a)
  }

  /** Attempts made for a batch are in an item, finished items have such an attempt, and a decided attempt's item runs on only without one. */
  ghost predicate ItemsFollow(st: Store) {
    && (forall a | 0 <= a < |st.attempts| && st.attempts[a].batch.Some? :: AttemptInItem(st.items, a))
    && (forall i, a: nat | 0 <= i < |st.items| && st.items[i].status == ItemCompleted(a) ::
          a < |st.attempts| && st.attempts[a].batch.Some? && st.attempts[a].verdict.Some?)
    && (forall i, a: nat | 0 <= i < |st.items| && st.items[i].status == ItemRunning(a) ::
          a < |st.attempts| && st.attempts[a].submission == st.items[i].submission
          && (st.attempts[a].verdict.Some? ==> st.attempts[a].batch.None?))
  }

  lemma InItemStays(items: seq<Item>, more: seq<Item>, a: nat)
    requires AttemptInItem(items, a) && |items| <= |more|
    requires forall i | 0 <= i < |items| :: StartedWith(items[i], a) ==> StartedWith(more[i], a)
    ensures AttemptInItem(more, a)
  {
    var i :| 0 <= i < |items| && (items[i].status == ItemRunning(a) || items[i].status == ItemCompleted(a));
    assert StartedWith(items[i], a);
  }

  lemma CompleteFollows(st: Store, a: nat, verdict: Status)
    requires ItemsFollow(st)
    ensures ItemsFollow(Complete(st, a, verdict))
  {
    var t := Complete(st, a, verdict);
    forall b | 0 <= b < |t.attempts| && t.attempts[b].batch.Some? ensures AttemptInItem(t.items, b) {
      assert AttemptInItem(st.items, b);
      InItemStays(st.items, t.items, b);
    }
  }

  lemma StartFollows(st: Store, item: Option<nat>, a: nat)
    requires ItemsFollow(st) && a < |st.attempts| && !ItemConflict(st.items, item, a)
    requires item.Some? ==> item.value < |st.items| && st.items[item.value].submission == st.attempts[a].submission
    ensures ItemsFollow(st.(items := StartItem(st.items, item, a)))
  {
    var t := st.(items := StartItem(st.items, item, a));
    forall b | 0 <= b < |t.attempts| && t.attempts[b].batch.Some? ensures AttemptInItem(t.items, b) {
      assert AttemptInItem(st.items, b);
      InItemStays(st.items, t.items, b);
    }
  }

  lemma CreateFollows(st: Store, s: nat, item: Option<nat>, number: nat)
    requires ItemsFollow(st)
    requires item.Some? ==> item.value < |st.items| && st.items[item.value].submission == s
    ensures ItemsFollow(CreateAttempt(st, s, item, number))
  {
    if CanCreate(st, s, item, number) {
      var t := CreateAttempt(st, s, item, number);
      forall b | 0 <= b < |t.attempts| && t.attempts[b].batch.Some? ensures AttemptInItem(t.items, b) {
        if b < |st.attempts| {
          assert AttemptInItem(st.items, b);
          InItemStays(st.items, t.items, b);
        } else {
          assert t.items[item.value].status == ItemRunning(b);
        }
      }
    }
  }

  lemma EnsureFollows(s: State, d: nat)
    requires Inv(s) && ItemsFollow(s.store) && d < |s.dispatchers| && s.dispatchers[d].SawLatest?
    ensures ItemsFollow(EnsureWrite(s, d).store)
  {
    var x := s.dispatchers[d];
    assert DispatcherOk(s.store, x);
    if x.latest.Some? && x.open {
      if !ItemConflict(s.store.items, x.item, x.latest.value) {
        StartFollows(s.store, x.item, x.latest.value);
      }
    } else {
      CreateFollows(s.store, x.sub, x.item, NextNumber(s.store, x.latest));
    }
  }

  /** Items that only queue or are cancelled while queued. */
  lemma OthersFollow(st: Store, t: Store)
    requires ItemsFollow(st) && t.attempts == st.attempts && |st.items| <= |t.items|
    requires forall i | 0 <= i < |st.items| :: t.items[i] == st.items[i] || (st.items[i].status.ItemQueued? && t.items[i].status.ItemCanceled?)
    requires forall i | |st.items| <= i < |t.items| :: t.items[i].status.ItemQueued?
    ensures ItemsFollow(t)
  {
    forall b | 0 <= b < |t.attempts| && t.attempts[b].batch.Some? ensures AttemptInItem(t.items, b) {
      assert AttemptInItem(st.items, b);
      InItemStays(st.items, t.items, b);
    }
  }

  lemma FollowStep(s: State, a: Action)
    requires Inv(s) && Enabled(s, a) && ItemsFollow(s.store)
    ensures ItemsFollow(After(s, a).store)
  {
    match a
    case Ensure(d) => EnsureFollows(s, d);
    case Deliver(m) => CompleteFollows(s.store, m.attempt, m.verdict);
    case _ => OthersFollow(s.store, After(s, a).store);
  }

  lemma {:induction false} RunFollows(trace: seq<State>, actions: seq<Action>, n: nat)
    requires Run(trace, actions) && n < |trace|
    ensures ItemsFollow(trace[n].store)
  {
    if n > 0 {
      RunFollows(trace, actions, n - 1);
      RunKeeps(trace, actions, n - 1);
      FollowStep(trace[n - 1], actions[n - 1]);
    }
  }

  /** A started item whose attempt is decided runs on exactly when that attempt was not made for a batch; otherwise it is finished. */
  lemma StrandedIff(trace: seq<State>, actions: seq<Action>, n: nat, i: nat, a: nat)
    requires Run(trace, actions) && n < |trace| && i < |trace[n].store.items| && StartedWith(trace[n].store.items[i], a)
    ensures var st := trace[n].store;
            a < |st.attempts| && (st.attempts[a].verdict.Some? ==>
              && (Stranded(st, i) <==> st.attempts[a].batch.None?)
              && (st.items[i].status == ItemCompleted(a) <==> st.attempts[a].batch.Some?))
  {
    RunFollows(trace, actions, n);
  }

  lemma StrandedStep(s: State, a: Action, i: nat)
    requires Inv(s) && Enabled(s, a) && ItemsFollow(s.store) && Stranded(s.store, i)
    ensures Stranded(After(s, a).store, i) && After(s, a).store.items[i] == s.store.items[i]
  {
    StoreStep(s, a);
    var b := s.store.items[i].status.attempt;
    assert s.store.attempts[b].batch.None?;
    if a.Ensure? {
      var x := s.dispatchers[a.d];
      assert DispatcherOk(s.store, x);
    }
  }

  /** While its item is active, a submission's finished task cannot be taken up again. */
  lemma DoneStays(s: State, a: Action, i: nat, x: nat)
    requires Enabled(s, a) && Stranded(s.store, i) && x == s.store.items[i].submission
    requires x < |s.store.subs| && s.store.subs[x].task.Done?
    ensures x < |After(s, a).store.subs| && After(s, a).store.subs[x].task.Done?
  {
    StrandedBlocks(s.store, i);
  }

  lemma StrandedBlocks(st: Store, i: nat)
    requires Stranded(st, i)
    ensures !Rejudgeable(st, st.items[i].submission) && AnyActive(st.items, st.items[i].batch)
  {
    assert ActiveItem(st.items[i]);
  }

  /** Such an item stays, its submission can never be rejudged again, and its batch can never end by progress. */
  lemma {:induction false} StrandedForGood(trace: seq<State>, actions: seq<Action>, m: nat, n: nat, i: nat)
    requires Run(trace, actions) && m <= n < |trace| && Stranded(trace[m].store, i)
    ensures Stranded(trace[n].store, i) && trace[n].store.items[i] == trace[m].store.items[i]
    ensures !Rejudgeable(trace[n].store, trace[m].store.items[i].submission)
    ensures AnyActive(trace[n].store.items, trace[m].store.items[i].batch)
  {
    if m == n {
      StrandedBlocks(trace[m].store, i);
    } else {
      StrandedForGood(trace, actions, m, n - 1, i);
      RunFollows(trace, actions, n - 1);
      RunKeeps(trace, actions, n - 1);
      StrandedStep(trace[n - 1], actions[n - 1], i);
      StrandedBlocks(trace[n].store, i);
    }
  }

  /** Once its task is done it stays done, so neither a dispatcher nor the dead-task path, which wants a task in flight, can end the item. */
  lemma {:induction false} StrandedTaskStays(trace: seq<State>, actions: seq<Action>, m: nat, n: nat, i: nat, x: nat)
    requires Run(trace, actions) && m <= n < |trace| && Stranded(trace[m].store, i) && x == trace[m].store.items[i].submission
    requires x < |trace[m].store.subs| && trace[m].store.subs[x].task.Done?
    ensures x < |trace[n].store.subs| && trace[n].store.subs[x].task.Done?
  {
    if m < n {
      StrandedTaskStays(trace, actions, m, n - 1, i, x);
      StrandedForGood(trace, actions, m, n - 1, i);
      DoneStays(trace[n - 1], actions[n - 1], i, x);
    }
  }
}
