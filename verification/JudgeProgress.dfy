/**
 * From every reachable state of the judging path: an open submission can still get any verdict,
 * whatever crashed before and whatever was delivered twice.
 */
module JudgeProgress {
  import opened Wrappers
  import opened Submissions
  import opened RejudgeItems
  import opened JudgeModel
  import opened JudgeRuns
  import opened JudgeStore
  import opened ExactlyOnce
  import opened RejudgeAnswers

  /** The state after some actions, if each of them can be taken. */
  function Played(s: State, actions: seq<Action>): Option<State> {
    if actions == [] then Some(s)
    else
      var last := actions[|actions| - 1];
      match Played(s, actions[..|actions| - 1])
      case None => None
      case Some(t) => if Enabled(t, last) then Some(After(t, last)) else None
  }

  lemma PlayMore(s: State, actions: seq<Action>, t: State, a: Action)
    requires Played(s, actions) == Some(t) && Enabled(t, a)
    ensures Played(s, actions + [a]) == Some(After(t, a))
  {
    assert (actions + [a])[..|actions|] == actions;
  }

  // ----- what else every run keeps -----

  /** The task of an open submission is not over. */
  ghost predicate OpenTasks(st: Store) {
    forall s | 0 <= s < |st.subs| && !Terminal(st.subs[s].status) :: st.subs[s].task != Done && st.subs[s].task != Dead
  }

  lemma OpenTasksStep(s: State, a: Action)
    requires StoreOk(s.store) && OpenTasks(s.store) && Enabled(s, a) && MessagesOk(s)
    ensures OpenTasks(After(s, a).store)
  {
    if a.CancelRejudge? {
      forall x | 0 <= x < |s.store.subs| && s.store.subs[x].result.Some? ensures Terminal(s.store.subs[x].result.value.verdict) {
        assert ResultOk(s.store, x);
      }
    }
  }

  lemma RunIsSound(trace: seq<State>, actions: seq<Action>, n: nat)
    requires Run(trace, actions) && n < |trace|
    ensures StoreOk(trace[n].store) && MessagesOk(trace[n])
  {
    RunKeeps(trace, actions, n);
  }

  lemma {:induction false} RunKeepsOpenTasks(trace: seq<State>, actions: seq<Action>, n: nat)
    requires Run(trace, actions) && n < |trace|
    ensures OpenTasks(trace[n].store)
  {
    if n > 0 {
      RunKeepsOpenTasks(trace, actions, n - 1);
      RunIsSound(trace, actions, n - 1);
      OpenTasksStep(trace[n - 1], actions[n - 1]);
    }
  }

  ghost predicate AllKept(s: State) {
    Inv(s) && ItemsFollow(s.store) && OneActiveEach(s.store.items) && OpenTasks(s.store)
  }

  lemma ReachableKeeps(s: State)
    requires Reachable(s)
    ensures AllKept(s)
  {
    var trace: seq<State>, actions :| Run(trace, actions) && trace[|trace| - 1] == s;
    RunKeeps(trace, actions, |trace| - 1);
    RunFollows(trace, actions, |trace| - 1);
    RunHasOneActive(trace, actions, |trace| - 1);
    RunKeepsOpenTasks(trace, actions, |trace| - 1);
  }

  // ----- opening an attempt never fails -----

  lemma LatestIsLast(attempts: seq<Attempt>, s: nat)
    ensures var latest := Latest(attempts, s);
      && (latest.Some? ==> latest.value < |attempts| && attempts[latest.value].submission == s
                           && forall i | latest.value < i < |attempts| :: attempts[i].submission != s)
      && (latest.None? ==> forall i | 0 <= i < |attempts| :: attempts[i].submission != s)
  {
  }

  lemma {:induction false} CountStops(attempts: seq<Attempt>, s: nat, n: nat)
    requires n <= |attempts| && forall i | n <= i < |attempts| :: attempts[i].submission != s
    ensures CountOf(attempts, s) == CountOf(attempts[..n], s)
  {
    if n < |attempts| {
      var front := attempts[..|attempts| - 1];
      CountStops(front, s, n);
      assert front[..n] == attempts[..n];
    } else {
      assert attempts[..n] == attempts;
    }
  }

  lemma NextIsFree(st: Store, s: nat)
    requires AttemptsOk(st)
    ensures !NumberTaken(st.attempts, s, NextNumber(st, Latest(st.attempts, s)))
  {
    var latest := Latest(st.attempts, s);
    LatestIsLast(st.attempts, s);
    NextNumberCounts(st, s, latest);
    var n := match latest case None => 0 case Some(a) => a + 1;
    CountStops(st.attempts, s, n);
    forall i | 0 <= i < |st.attempts| && st.attempts[i].submission == s ensures st.attempts[i].number <= CountOf(st.attempts, s) {
      CountMonotone(st.attempts, i, |st.attempts|, s);
      assert st.attempts[..|st.attempts|] == st.attempts;
    }
  }

  lemma NoItemConflict(st: Store, s: nat, item: Option<nat>, a: nat)
    requires ItemsFollow(st) && OneActiveEach(st.items) && a < |st.attempts| && st.attempts[a].submission == s && st.attempts[a].verdict.None?
    requires item.Some? ==> item.value < |st.items| && st.items[item.value].submission == s
    ensures !ItemConflict(st.items, item, a)
  {
    if item.Some? && st.items[item.value].status.ItemQueued? {
      forall i | 0 <= i < |st.items| ensures st.items[i].status != ItemRunning(a) && st.items[i].status != ItemCompleted(a) {
        if st.items[i].status == ItemRunning(a) {
          assert ActiveItem(st.items[i]) && ActiveItem(st.items[item.value]);
        }
      }
    }
  }

  /** Ensuring an attempt of an open submission leaves the dispatcher with an open one that can be answered. */
  lemma EnsureSucceeds(s: State, d: nat, sub: nat)
    requires AllKept(s) && d < |s.dispatchers| && s.dispatchers[d] == Claimed(sub) && sub < |s.store.subs|
    ensures var item := FirstQueued(s.store.items, sub);
            var s1 := After(s, SeeItem(d, item));
            Enabled(s1, SeeLatest(d)) && Enabled(After(s1, SeeLatest(d)), Ensure(d))
            && var t := After(After(s1, SeeLatest(d)), Ensure(d));
               && t.dispatchers[d].HasAttempt? && t.dispatchers[d].sub == sub && |t.dispatchers| == |s.dispatchers|
               && t.store.subs == s.store.subs && t.results == s.results && t.requests == s.requests
               && t.dispatchers[d].attempt < |t.store.attempts| && t.store.attempts[t.dispatchers[d].attempt].verdict.None?
               && t.store.attempts[t.dispatchers[d].attempt].submission == sub
  {
    var st, item, latest := s.store, FirstQueued(s.store.items, sub), Latest(s.store.attempts, sub);
    var s1 := After(s, SeeItem(d, item));
    assert s1.dispatchers[d] == SawItem(sub, item) && s1.store == st;
    var s2 := After(s1, SeeLatest(d));
    assert s2.dispatchers[d] == SawLatest(sub, item, latest, OpenLatest(st, sub)) && s2.store == st;
    LatestIsLast(st.attempts, sub);
    if OpenLatest(st, sub) {
      NoItemConflict(st, sub, item, latest.value);
    } else {
      NextIsFree(st, sub);
      assert CanCreate(st, sub, item, NextNumber(st, latest));
    }
  }

  /** A stale dispatch puts an open submission back in the queue, its stored result kept, and touches nothing else. */
  lemma StaleIsQueued(s: State, sub: nat)
    requires sub < |s.store.subs| && (s.store.subs[sub].status == Queued || s.store.subs[sub].status == Running)
    requires s.store.subs[sub].task == Dispatching || s.store.subs[sub].task == TaskRunning
    ensures Enabled(s, ResetStale(sub))
    ensures After(s, ResetStale(sub)) == s.(store := s.store.(subs := s.store.subs[sub := Sub(Queued, Pending, s.store.subs[sub].result)]))
  {
  }

  /** Delivering a message does not use it up: it can be delivered again, and acknowledged, whatever it did. */
  lemma Redelivered(s: State, m: Message)
    requires m in s.results
    ensures Enabled(s, Deliver(m))
    ensures Enabled(After(s, Deliver(m)), Deliver(m)) && Enabled(After(s, Deliver(m)), Acknowledge(m))
    ensures After(After(s, Deliver(m)), Acknowledge(m)).results == s.results - {m}
  {
  }

  // ----- the way to a verdict -----

  ghost predicate CanReach(s: State, t: State) {
    exists actions :: Played(s, actions) == Some(t)
  }

  lemma StartHere(s: State)
    ensures CanReach(s, s)
  {
    assert Played(s, []) == Some(s);
  }

  lemma Onward(s: State, t: State, a: Action)
    requires CanReach(s, t) && Reachable(t) && Enabled(t, a)
    ensures CanReach(s, After(t, a)) && Reachable(After(t, a))
  {
    var actions :| Played(s, actions) == Some(t);
    PlayMore(s, actions, t, a);
    ReachStep(t, a);
  }

  /** A submission that waits for a verdict. */
  predicate Waits(s: State, d: nat, sub: nat) {
    && d < |s.dispatchers| && sub < |s.store.subs|
    && (s.store.subs[sub].status == Queued || s.store.subs[sub].status == Running)
  }

  /** Whatever state its task and the dispatcher are in, the task can be made pending and the dispatcher free. */
  lemma MadeReady(s: State, d: nat, sub: nat) returns (t: State)
    requires Reachable(s) && Waits(s, d, sub)
    ensures CanReach(s, t) && Reachable(t) && Waits(t, d, sub)
    ensures t.dispatchers[d] == Free && t.store.subs[sub].task == Pending && t.results == s.results
  {
    ReachableKeeps(s);
    StartHere(s);
    Onward(s, s, Abandon(d));
    t := After(s, Abandon(d));
    if t.store.subs[sub].task != Pending {
      Onward(s, t, Retry(sub));
      t := After(t, Retry(sub));
    }
  }

  /** A pending task can be dispatched, which leaves a published attempt that is open. */
  lemma MadeRequest(s: State, d: nat, sub: nat) returns (t: State, a: nat)
    requires Reachable(s) && Waits(s, d, sub) && s.dispatchers[d] == Free && s.store.subs[sub].task == Pending
    ensures CanReach(s, t) && Reachable(t) && Waits(t, d, sub) && t.results == s.results
    ensures t.dispatchers[d] == Free && t.store.subs[sub].status == Running && t.store.subs[sub].task == Dispatched
    ensures a in t.requests && a < |t.store.attempts|
    ensures t.store.attempts[a].submission == sub && t.store.attempts[a].verdict.None?
  {
    StartHere(s);
    Onward(s, s, Claim(d, sub));
    t := After(s, Claim(d, sub));
    if t.store.subs[sub].status == Queued {
      Onward(s, t, MarkRunning(sub));
      t := After(t, MarkRunning(sub));
    }
    ReachableKeeps(t);
    EnsureSucceeds(t, d, sub);
    var item := FirstQueued(t.store.items, sub);
    Onward(s, t, SeeItem(d, item));
    t := After(t, SeeItem(d, item));
    Onward(s, t, SeeLatest(d));
    t := After(t, SeeLatest(d));
    Onward(s, t, Ensure(d));
    t := After(t, Ensure(d));
    a := t.dispatchers[d].attempt;
    Onward(s, t, Publish(d));
    t := After(t, Publish(d));
    Onward(s, t, MarkDispatched(d));
    t := After(t, MarkDispatched(d));
  }

  lemma Answered(s: State, sub: nat, a: nat, verdict: Status) returns (t: State)
    requires Reachable(s) && sub < |s.store.subs| && s.store.subs[sub] == Sub(Running, Dispatched, s.store.subs[sub].result)
    requires a in s.requests && a < |s.store.attempts| && s.store.attempts[a].submission == sub && s.store.attempts[a].verdict.None?
    requires Terminal(verdict)
    ensures CanReach(s, t) && Reachable(t) && sub < |t.store.subs| && t.store.subs[sub] == Sub(verdict, Done, Some(Stored(a, verdict)))
    ensures t.results == s.results - {Message(a, verdict)}
  {
    StartHere(s);
    var m := Message(a, verdict);
    Onward(s, s, Judge(a, verdict));
    t := After(s, Judge(a, verdict));
    ReachableKeeps(t);
    assert Accepts(t.store, a);
    Onward(s, t, Deliver(m));
    t := After(t, Deliver(m));
    Onward(s, t, Acknowledge(m));
    t := After(t, Acknowledge(m));
    assert t.results == s.results - {m};
  }

  lemma {:induction false} PlayedConcat(s: State, first: seq<Action>, t: State, more: seq<Action>)
    requires Played(s, first) == Some(t)
    ensures Played(s, first + more) == Played(t, more)
  {
    if more == [] {
      assert first + more == first;
    } else {
      var front, last := more[..|more| - 1], more[|more| - 1];
      PlayedConcat(s, first, t, front);
      assert (first + more)[..|first + more| - 1] == first + front;
    }
  }

  lemma ReachThrough(s: State, t: State, u: State)
    requires CanReach(s, t) && CanReach(t, u)
    ensures CanReach(s, u)
  {
    var first :| Played(s, first) == Some(t);
    var more :| Played(t, more) == Some(u);
    PlayedConcat(s, first, t, more);
  }

  /**
   * Nothing gets stuck: from every reachable state with a dispatcher, every open submission can be
   * brought to every verdict, with its task done, its result stored and its message acknowledged.
   */
  lemma AnyVerdictPossible(s: State, d: nat, sub: nat, verdict: Status) returns (t: State, a: nat)
    requires Reachable(s) && Waits(s, d, sub) && Terminal(verdict)
    ensures CanReach(s, t) && Reachable(t)
    ensures sub < |t.store.subs| && t.store.subs[sub] == Sub(verdict, Done, Some(Stored(a, verdict)))
    ensures t.results == s.results - {Message(a, verdict)}
  {
    var ready := MadeReady(s, d, sub);
    var asked;
    asked, a := MadeRequest(ready, d, sub);
    t := Answered(asked, sub, a, verdict);
    ReachThrough(s, ready, asked);
    ReachThrough(s, asked, t);
  }
}
