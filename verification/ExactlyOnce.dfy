/** What every run of the agent judging path keeps. */
module ExactlyOnce {
  import opened Wrappers
  import opened Submissions
  import opened RejudgeItems
  import opened JudgeModel
  import opened JudgeRuns
  import opened Sorting

  function CountOf(attempts: seq<Attempt>, s: nat): nat {
    if attempts == [] then 0
    else CountOf(attempts[..|attempts| - 1], s) + if attempts[|attempts| - 1].submission == s then 1 else 0
  }

  // ----- the store -----

  /** A submission's attempts are numbered 1, 2, 3, ... and only the last may be open. */
  ghost predicate AttemptsOk(st: Store) {
    && (forall i | 0 <= i < |st.attempts| :: st.attempts[i].submission < |st.subs|)
    && (forall i | 0 <= i < |st.attempts| :: st.attempts[i].number == CountOf(st.attempts[..i], st.attempts[i].submission) + 1)
    && (forall i, j | 0 <= i < j < |st.attempts| && st.attempts[i].submission == st.attempts[j].submission ::
          st.attempts[i].verdict.Some?)
    && (forall i | 0 <= i < |st.attempts| && st.attempts[i].verdict.Some? :: Terminal(st.attempts[i].verdict.value))
  }

  /** A stored result is the verdict of the submission's last closed attempt. */
  ghost predicate ResultOk(st: Store, s: nat)
    requires s < |st.subs|
  {
    && (Terminal(st.subs[s].status) ==> st.subs[s].result.Some? && st.subs[s].result.value.verdict == st.subs[s].status)
    && match st.subs[s].result
       case None => forall j | 0 <= j < |st.attempts| && st.attempts[j].submission == s :: st.attempts[j].verdict.None?
       case Some(r) =>
         && r.attempt < |st.attempts| && st.attempts[r.attempt].submission == s
         && st.attempts[r.attempt].verdict == Some(r.verdict)
         && forall j | r.attempt < j < |st.attempts| && st.attempts[j].submission == s :: st.attempts[j].verdict.None?
  }

  ghost predicate ItemsOk(st: Store) {
    && (forall i | 0 <= i < |st.items| :: st.items[i].submission < |st.subs| && st.items[i].batch < st.batches)
    && (forall i | 0 <= i < |st.items| && (st.items[i].status.ItemRunning? || st.items[i].status.ItemCompleted?) ::
          st.items[i].status.attempt < |st.attempts|)
    && Linked(st)
  }

  /** An open attempt made for a batch still has its item running. */
  ghost predicate Linked(st: Store) {
    forall a | 0 <= a < |st.attempts| && st.attempts[a].batch.Some? && st.attempts[a].verdict.None? :: ItemRunningFor(st.items, a)
  }

  ghost predicate StoreOk(st: Store) {
    && AttemptsOk(st)
    && (forall s | 0 <= s < |st.subs| :: ResultOk(st, s))
    && ItemsOk(st)
  }

  /** Attempts and rows are only added, and a verdict once written stays. */
  ghost predicate Grows(st: Store, after: Store) {
    && |st.subs| <= |after.subs| && |st.attempts| <= |after.attempts| && |st.items| <= |after.items|
    && (forall i | 0 <= i < |st.attempts| ::
          && after.attempts[i].submission == st.attempts[i].submission
          && after.attempts[i].number == st.attempts[i].number
          && after.attempts[i].batch == st.attempts[i].batch
          && (st.attempts[i].verdict.Some? ==> after.attempts[i].verdict == st.attempts[i].verdict))
    && (forall i | 0 <= i < |st.items| :: after.items[i].submission == st.items[i].submission)
  }

  lemma {:induction false} CountSame(a: seq<Attempt>, b: seq<Attempt>, s: nat)
    requires |a| == |b| && forall i | 0 <= i < |a| :: a[i].submission == b[i].submission
    ensures CountOf(a, s) == CountOf(b, s)
  {
    if a != [] {
      CountSame(a[..|a| - 1], b[..|b| - 1], s);
    }
  }

  /** With consecutive numbering, every number up to the count is taken. */
  lemma {:induction false} NumberExists(attempts: seq<Attempt>, n: nat, s: nat, m: nat)
    requires n <= |attempts|
    requires forall i | 0 <= i < n :: attempts[i].number == CountOf(attempts[..i], attempts[i].submission) + 1
    requires 1 <= m <= CountOf(attempts[..n], s)
    ensures exists i :: 0 <= i < n && attempts[i].submission == s && attempts[i].number == m
  {
    if n > 0 {
      assert attempts[..n][..n - 1] == attempts[..n - 1];
      if m <= CountOf(attempts[..n - 1], s) {
        NumberExists(attempts, n - 1, s, m);
      } else {
        assert attempts[n - 1].submission == s && attempts[n - 1].number == m;
      }
    }
  }

  lemma {:induction false} CountMonotone(attempts: seq<Attempt>, m: nat, n: nat, s: nat)
    requires m <= n <= |attempts|
    ensures CountOf(attempts[..m], s) <= CountOf(attempts[..n], s)
    ensures forall i | m <= i < n :: attempts[i].submission == s ==> CountOf(attempts[..m], s) < CountOf(attempts[..n], s)
  {
    if m < n {
      assert attempts[..n][..n - 1] == attempts[..n - 1];
      CountMonotone(attempts, m, n - 1, s);
    }
  }

  /** A free number is above the submission's attempts. */
  lemma FreeNumberIsAbove(st: Store, s: nat, number: nat)
    requires AttemptsOk(st) && number >= 1 && !NumberTaken(st.attempts, s, number)
    ensures number > CountOf(st.attempts, s)
  {
    assert st.attempts[..|st.attempts|] == st.attempts;
    if number <= CountOf(st.attempts, s) {
      NumberExists(st.attempts, |st.attempts|, s, number);
      assert false;
    }
  }

  lemma NextNumberCounts(st: Store, s: nat, latest: Option<nat>)
    requires AttemptsOk(st)
    requires latest.Some? ==> latest.value < |st.attempts| && st.attempts[latest.value].submission == s
    ensures latest.None? ==> NextNumber(st, latest) == CountOf(st.attempts[..0], s) + 1
    ensures latest.Some? ==> NextNumber(st, latest) == CountOf(st.attempts[..latest.value + 1], s) + 1
  {
    if latest.Some? {
      var a := latest.value;
      assert st.attempts[..a + 1][..a] == st.attempts[..a];
    }
  }

  /** If the number after a closed attempt is free, that attempt is the submission's last. */
  lemma FreeNumberIsNext(st: Store, s: nat, latest: Option<nat>, number: nat)
    requires AttemptsOk(st)
    requires latest.Some? ==> latest.value < |st.attempts| && st.attempts[latest.value].submission == s && st.attempts[latest.value].verdict.Some?
    requires number == NextNumber(st, latest) && !NumberTaken(st.attempts, s, number)
    ensures number == CountOf(st.attempts, s) + 1
    ensures forall i | 0 <= i < |st.attempts| && st.attempts[i].submission == s :: st.attempts[i].verdict.Some?
  {
    var seen := match latest case None => 0 case Some(a) => a + 1;
    NextNumberCounts(st, s, latest);
    FreeNumberIsAbove(st, s, number);
    CountMonotone(st.attempts, seen, |st.attempts|, s);
    assert st.attempts[..|st.attempts|] == st.attempts;
  }

  lemma CompleteKeepsAttempts(st: Store, a: nat, verdict: Status)
    requires StoreOk(st) && Terminal(verdict) && Accepts(st, a)
    ensures AttemptsOk(Complete(st, a, verdict)) && Grows(st, Complete(st, a, verdict))
  {
    var t := Complete(st, a, verdict);
    forall i | 0 <= i < |t.attempts| ensures t.attempts[i].number == CountOf(t.attempts[..i], t.attempts[i].submission) + 1 {
      CountSame(st.attempts[..i], t.attempts[..i], t.attempts[i].submission);
    }
  }

  /** Items that run keep running for every attempt that stays open. */
  lemma LinksStay(st: Store, t: Store)
    requires Linked(st) && |st.items| <= |t.items|
    requires forall b | 0 <= b < |t.attempts| && t.attempts[b].batch.Some? && t.attempts[b].verdict.None? ::
               || ItemRunningFor(t.items, b)
               || (&& b < |st.attempts| && st.attempts[b].batch.Some? && st.attempts[b].verdict.None?
                   && forall i | 0 <= i < |st.items| && st.items[i].status == ItemRunning(b) :: t.items[i].status == ItemRunning(b))
    ensures Linked(t)
  {
    forall b | 0 <= b < |t.attempts| && t.attempts[b].batch.Some? && t.attempts[b].verdict.None? ensures ItemRunningFor(t.items, b) {
      if b < |st.attempts| && st.attempts[b].batch.Some? && st.attempts[b].verdict.None? {
        assert ItemRunningFor(st.items, b);
        var i :| 0 <= i < |st.items| && st.items[i].status == ItemRunning(b);
        assert t.items[i].status == ItemRunning(b) || ItemRunningFor(t.items, b);
      }
    }
  }

  lemma CompleteKeepsItems(st: Store, a: nat, verdict: Status)
    requires ItemsOk(st) && Accepts(st, a)
    ensures ItemsOk(Complete(st, a, verdict))
  {
    LinksStay(st, Complete(st, a, verdict));
  }

  lemma CompleteKeepsResults(st: Store, a: nat, verdict: Status, s: nat)
    requires AttemptsOk(st) && Accepts(st, a) && s < |st.subs| && ResultOk(st, s)
    ensures ResultOk(Complete(st, a, verdict), s)
  {
    var x := st.attempts[a];
    if s == x.submission {
      assert forall j | a < j < |st.attempts| :: st.attempts[j].submission != s;
    }
  }

  lemma CompleteKeeps(st: Store, a: nat, verdict: Status)
    requires StoreOk(st) && Terminal(verdict)
    ensures StoreOk(Complete(st, a, verdict)) && Grows(st, Complete(st, a, verdict))
  {
    if Accepts(st, a) {
      CompleteKeepsAttempts(st, a, verdict);
      CompleteKeepsItems(st, a, verdict);
      forall s | 0 <= s < |st.subs| ensures ResultOk(Complete(st, a, verdict), s) {
        CompleteKeepsResults(st, a, verdict, s);
      }
    }
  }

  lemma NumberingGrows(attempts: seq<Attempt>, x: Attempt)
    requires forall i | 0 <= i < |attempts| :: attempts[i].number == CountOf(attempts[..i], attempts[i].submission) + 1
    requires x.number == CountOf(attempts, x.submission) + 1
    ensures var more := attempts + [x]; forall i | 0 <= i < |more| :: more[i].number == CountOf(more[..i], more[i].submission) + 1
  {
    var more := attempts + [x];
    forall i | 0 <= i < |more| ensures more[i].number == CountOf(more[..i], more[i].submission) + 1 {
      if i < |attempts| {
        assert more[..i] == attempts[..i];
      } else {
        assert more[..i] == attempts;
      }
    }
  }

  lemma CreatedAttempt(st: Store, s: nat, item: Option<nat>, number: nat) returns (x: Attempt)
    requires CanCreate(st, s, item, number)
    ensures x.submission == s && x.number == number && x.verdict.None?
    ensures CreateAttempt(st, s, item, number).attempts == st.attempts + [x] && CreateAttempt(st, s, item, number).subs == st.subs
  {
    x := CreateAttempt(st, s, item, number).attempts[|st.attempts|];
  }

  lemma AttemptsGrow(subs: nat, attempts: seq<Attempt>, x: Attempt, st: Store, t: Store)
    requires AttemptsOk(st) && st.attempts == attempts && |st.subs| == subs == |t.subs| && t.attempts == attempts + [x]
    requires x.submission < subs && x.number == CountOf(attempts, x.submission) + 1 && x.verdict.None?
    requires forall i | 0 <= i < |attempts| && attempts[i].submission == x.submission :: attempts[i].verdict.Some?
    ensures AttemptsOk(t)
  {
    NumberingGrows(attempts, x);
  }

  lemma CreateGrows(st: Store, s: nat, item: Option<nat>, number: nat)
    requires CanCreate(st, s, item, number)
    ensures Grows(st, CreateAttempt(st, s, item, number))
  {
  }

  lemma CreateKeepsAttempts(st: Store, s: nat, item: Option<nat>, number: nat)
    requires AttemptsOk(st) && s < |st.subs| && CanCreate(st, s, item, number)
    requires number == CountOf(st.attempts, s) + 1
    requires forall i | 0 <= i < |st.attempts| && st.attempts[i].submission == s :: st.attempts[i].verdict.Some?
    ensures AttemptsOk(CreateAttempt(st, s, item, number)) && Grows(st, CreateAttempt(st, s, item, number))
  {
    var x := CreatedAttempt(st, s, item, number);
    var t := CreateAttempt(st, s, item, number);
    AttemptsGrow(|st.subs|, st.attempts, x, st, t);
    CreateGrows(st, s, item, number);
  }

  lemma CreateKeepsItems(st: Store, s: nat, item: Option<nat>, number: nat)
    requires ItemsOk(st) && CanCreate(st, s, item, number)
    ensures ItemsOk(CreateAttempt(st, s, item, number))
  {
    var t := CreateAttempt(st, s, item, number);
    if item.Some? {
      assert t.items[item.value].status == ItemRunning(|st.attempts|);
    }
    LinksStay(st, t);
  }

  lemma CreateKeepsResult(st: Store, s: nat, item: Option<nat>, number: nat, x: nat)
    requires x < |st.subs| && ResultOk(st, x)
    ensures ResultOk(CreateAttempt(st, s, item, number), x)
  {
  }

  lemma CreateKeeps(st: Store, s: nat, item: Option<nat>, latest: Option<nat>)
    requires StoreOk(st) && s < |st.subs|
    requires latest.Some? ==> latest.value < |st.attempts| && st.attempts[latest.value].submission == s && st.attempts[latest.value].verdict.Some?
    ensures var t := CreateAttempt(st, s, item, NextNumber(st, latest)); StoreOk(t) && Grows(st, t)
  {
    var number := NextNumber(st, latest);
    if CanCreate(st, s, item, number) {
      FreeNumberIsNext(st, s, latest, number);
      CreateKeepsAttempts(st, s, item, number);
      CreateKeepsItems(st, s, item, number);
      forall x | 0 <= x < |st.subs| ensures ResultOk(CreateAttempt(st, s, item, number), x) {
        CreateKeepsResult(st, s, item, number, x);
      }
    }
  }

  lemma StartKeeps(st: Store, item: Option<nat>, a: nat)
    requires StoreOk(st) && a < |st.attempts|
    ensures var t := st.(items := StartItem(st.items, item, a)); StoreOk(t) && Grows(st, t)
  {
    var t := st.(items := StartItem(st.items, item, a));
    forall x | 0 <= x < |t.subs| ensures ResultOk(t, x) {
      assert ResultOk(st, x);
    }
    LinksStay(st, t);
  }

  /** Changing tasks and open statuses touches no attempt and no result. */
  lemma SubsKeep(st: Store, subs: seq<Sub>)
    requires StoreOk(st) && |subs| >= |st.subs|
    requires forall s | 0 <= s < |st.subs| :: subs[s].result == st.subs[s].result
               && (Terminal(subs[s].status) ==> subs[s].status == st.subs[s].status
                                                || (subs[s].result.Some? && subs[s].status == subs[s].result.value.verdict))
    requires forall s | |st.subs| <= s < |subs| :: subs[s].result.None? && !Terminal(subs[s].status)
    ensures StoreOk(st.(subs := subs)) && Grows(st, st.(subs := subs))
  {
    var t := st.(subs := subs);
    forall s | 0 <= s < |subs| ensures ResultOk(t, s) {
      assert s < |st.subs| ==> ResultOk(st, s);
    }
  }

  lemma BatchKeeps(st: Store, targets: seq<nat>)
    requires StoreOk(st)
    ensures StoreOk(CreateBatch(st, targets)) && Grows(st, CreateBatch(st, targets))
  {
    if CanRejudge(st, targets) {
      var u := st.(subs := Reopen(st.subs, targets));
      SubsKeep(st, Reopen(st.subs, targets));
      var t := CreateBatch(st, targets);
      forall s | 0 <= s < |t.subs| ensures ResultOk(t, s) {
        assert ResultOk(u, s);
      }
      assert forall k | 0 <= k < |targets| :: Rejudgeable(st, targets[k]);
      LinksStay(st, t);
    }
  }

  lemma CancelKeeps(st: Store, batch: nat)
    requires StoreOk(st)
    ensures StoreOk(CancelBatch(st, batch)) && Grows(st, CancelBatch(st, batch))
  {
    if CanCancel(st, batch) {
      var u := st.(subs := Restore(st, batch));
      SubsKeep(st, Restore(st, batch));
      var t := CancelBatch(st, batch);
      forall s | 0 <= s < |t.subs| ensures ResultOk(t, s) {
        assert ResultOk(u, s);
      }
      LinksStay(st, t);
    }
  }

  // ----- the whole system -----

  /** What a dispatcher read earlier is still about its own submission. */
  ghost predicate DispatcherOk(st: Store, x: Dispatcher) {
    match x
    case Free => true
    case Claimed(sub) => sub < |st.subs|
    case SawItem(sub, item) => sub < |st.subs| && (item.Some? ==> item.value < |st.items| && st.items[item.value].submission == sub)
    case SawLatest(sub, item, latest, open) =>
      && sub < |st.subs| && (item.Some? ==> item.value < |st.items| && st.items[item.value].submission == sub)
      && (latest.Some? ==>
            && latest.value < |st.attempts| && st.attempts[latest.value].submission == sub
            && (!open ==> st.attempts[latest.value].verdict.Some?))
    case HasAttempt(sub, attempt) => sub < |st.subs| && attempt < |st.attempts| && st.attempts[attempt].submission == sub
  }

  ghost predicate DispatchersOk(s: State) {
    forall d | 0 <= d < |s.dispatchers| :: DispatcherOk(s.store, s.dispatchers[d])
  }

  ghost predicate MessagesOk(s: State) {
    && (forall a | a in s.requests :: a < |s.store.attempts|)
    && (forall m | m in s.results :: m.attempt < |s.store.attempts| && Terminal(m.verdict))
  }

  /** The log holds exactly one entry per closed attempt, and it is the attempt's verdict. */
  ghost predicate LogOk(st: Store, log: seq<Message>) {
    && (forall i, j | 0 <= i < j < |log| :: log[i].attempt != log[j].attempt)
    && (forall i | 0 <= i < |log| ::
          log[i].attempt < |st.attempts| && st.attempts[log[i].attempt].verdict == Some(log[i].verdict))
    && (forall a | 0 <= a < |st.attempts| && st.attempts[a].verdict.Some? :: Message(a, st.attempts[a].verdict.value) in log)
  }

  ghost predicate Inv(s: State) {
    StoreOk(s.store) && DispatchersOk(s) && MessagesOk(s) && LogOk(s.store, s.log)
  }

  lemma DispatchersStay(s: State, after: Store)
    requires DispatchersOk(s) && Grows(s.store, after)
    ensures DispatchersOk(s.(store := after))
  {
    forall d | 0 <= d < |s.dispatchers| ensures DispatcherOk(after, s.dispatchers[d]) {
      assert DispatcherOk(s.store, s.dispatchers[d]);
    }
  }

  /** No attempt is opened or closed between the two. */
  ghost predicate SameVerdicts(st: Store, after: Store) {
    && |st.attempts| <= |after.attempts|
    && (forall a | 0 <= a < |st.attempts| :: after.attempts[a].verdict == st.attempts[a].verdict)
    && (forall a | |st.attempts| <= a < |after.attempts| :: after.attempts[a].verdict.None?)
  }

  lemma LogStays(st: Store, after: Store, log: seq<Message>)
    requires LogOk(st, log) && SameVerdicts(st, after)
    ensures LogOk(after, log)
  {
  }

  lemma LogGrows(st: Store, m: Message, log: seq<Message>)
    requires LogOk(st, log) && Accepts(st, m.attempt)
    ensures LogOk(Complete(st, m.attempt, m.verdict), log + [m])
  {
    var t := Complete(st, m.attempt, m.verdict);
    forall a | 0 <= a < |t.attempts| && t.attempts[a].verdict.Some? ensures Message(a, t.attempts[a].verdict.value) in log + [m] {
      if a == m.attempt {
        assert (log + [m])[|log|] == m;
      } else {
        assert Message(a, st.attempts[a].verdict.value) in log;
      }
    }
  }

  lemma LatestIsOne(attempts: seq<Attempt>, s: nat)
    ensures var l := Latest(attempts, s); l.Some? ==> l.value < |attempts| && attempts[l.value].submission == s
  {
  }

  /** The actions that change neither attempts nor items. */
  predicate Plain(a: Action) {
    a.Submit? || a.Claim? || a.MarkRunning? || a.MarkDispatched? || a.Retry? || a.ResetStale?
  }

  lemma PlainKeeps(s: State, a: Action)
    requires Inv(s) && Enabled(s, a) && Plain(a)
    ensures var t := After(s, a).store; StoreOk(t) && Grows(s.store, t) && SameVerdicts(s.store, t)
  {
    var t := After(s, a).store;
    assert t == s.store.(subs := t.subs);
    SubsKeep(s.store, t.subs);
  }

  lemma EnsureKeeps(s: State, d: nat)
    requires Inv(s) && d < |s.dispatchers| && s.dispatchers[d].SawLatest?
    ensures var t := EnsureWrite(s, d).store; StoreOk(t) && Grows(s.store, t) && SameVerdicts(s.store, t)
  {
    var x := s.dispatchers[d];
    assert DispatcherOk(s.store, x);
    if x.latest.Some? && x.open {
      StartKeeps(s.store, x.item, x.latest.value);
    } else {
      CreateKeeps(s.store, x.sub, x.item, x.latest);
    }
  }

  lemma StoreStep(s: State, a: Action)
    requires Inv(s) && Enabled(s, a)
    ensures var t := After(s, a).store; StoreOk(t) && Grows(s.store, t)
    ensures !a.Deliver? ==> SameVerdicts(s.store, After(s, a).store)
  {
    match a
    case Ensure(d) => EnsureKeeps(s, d);
    case Deliver(m) => CompleteKeeps(s.store, m.attempt, m.verdict);
    case CreateRejudge(targets) => BatchKeeps(s.store, targets);
    case CancelRejudge(batch) => CancelKeeps(s.store, batch);
    case _ =>
      if Plain(a) {
        PlainKeeps(s, a);
      }
  }

  lemma EnsureDispatcher(s: State, d: nat)
    requires Inv(s) && d < |s.dispatchers| && s.dispatchers[d].SawLatest?
    ensures var t := EnsureWrite(s, d); |t.dispatchers| == |s.dispatchers| && DispatcherOk(t.store, t.dispatchers[d])
    ensures forall k | 0 <= k < |s.dispatchers| && k != d :: EnsureWrite(s, d).dispatchers[k] == s.dispatchers[k]
  {
    assert DispatcherOk(s.store, s.dispatchers[d]);
  }

  lemma DispatcherStep(s: State, a: Action)
    requires Inv(s) && Enabled(s, a)
    ensures DispatchersOk(After(s, a))
  {
    StoreStep(s, a);
    DispatchersStay(s, After(s, a).store);
    match a
    case Ensure(d) => EnsureDispatcher(s, d);
    case SeeLatest(d) =>
      assert DispatcherOk(s.store, s.dispatchers[d]);
      LatestIsOne(s.store.attempts, s.dispatchers[d].sub);
    case SeeItem(d, item) =>
      assert DispatcherOk(s.store, s.dispatchers[d]);
    case _ =>
  }

  lemma MessageStep(s: State, a: Action)
    requires Inv(s) && Enabled(s, a)
    ensures MessagesOk(After(s, a))
  {
    StoreStep(s, a);
    if a.Publish? {
      assert DispatcherOk(s.store, s.dispatchers[a.d]);
    }
  }

  lemma LogStep(s: State, a: Action)
    requires Inv(s) && Enabled(s, a)
    ensures LogOk(After(s, a).store, After(s, a).log)
  {
    StoreStep(s, a);
    if a.Deliver? {
      if Accepts(s.store, a.message.attempt) {
        LogGrows(s.store, a.message, s.log);
      }
    } else {
      LogStays(s.store, After(s, a).store, s.log);
    }
  }

  lemma StepKeeps(s: State, a: Action)
    requires Inv(s) && Enabled(s, a)
    ensures Inv(After(s, a))
  {
    StoreStep(s, a);
    DispatcherStep(s, a);
    MessageStep(s, a);
    LogStep(s, a);
  }

  lemma {:induction false} RunKeeps(trace: seq<State>, actions: seq<Action>, n: nat)
    requires Run(trace, actions) && n < |trace|
    ensures Inv(trace[n])
  {
    if n > 0 {
      RunKeeps(trace, actions, n - 1);
      StepKeeps(trace[n - 1], actions[n - 1]);
    }
  }

  // ----- what it means -----

  /** In every run a submission's attempts are numbered 1..n, and only the last may be open. */
  lemma NumberedFromOne(trace: seq<State>, actions: seq<Action>, n: nat, s: nat, m: nat)
    requires Run(trace, actions) && n < |trace|
    ensures var attempts := trace[n].store.attempts;
            (1 <= m <= CountOf(attempts, s)) == (exists i :: 0 <= i < |attempts| && attempts[i].submission == s && attempts[i].number == m)
    ensures var attempts := trace[n].store.attempts;
            forall i, j | 0 <= i < j < |attempts| && attempts[i].submission == attempts[j].submission ::
              attempts[i].number < attempts[j].number && attempts[i].verdict.Some?
  {
    RunKeeps(trace, actions, n);
    var attempts := trace[n].store.attempts;
    assert attempts[..|attempts|] == attempts;
    if 1 <= m <= CountOf(attempts, s) {
      NumberExists(attempts, |attempts|, s, m);
    }
    forall i | 0 <= i < |attempts| && attempts[i].submission == s ensures 1 <= attempts[i].number <= CountOf(attempts, s) {
      CountMonotone(attempts, i, |attempts|, s);
    }
    forall i, j | 0 <= i < j < |attempts| && attempts[i].submission == attempts[j].submission ensures attempts[i].number < attempts[j].number {
      CountMonotone(attempts, i, j, attempts[i].submission);
    }
  }

  lemma {:induction false} VerdictStays(trace: seq<State>, actions: seq<Action>, i: nat, j: nat, a: nat)
    requires Run(trace, actions) && i <= j < |trace|
    requires a < |trace[i].store.attempts|
    ensures a < |trace[j].store.attempts| && trace[j].store.attempts[a].submission == trace[i].store.attempts[a].submission
    ensures trace[i].store.attempts[a].verdict.Some? ==> trace[j].store.attempts[a].verdict == trace[i].store.attempts[a].verdict
  {
    if i < j {
      VerdictStays(trace, actions, i, j - 1, a);
      RunKeeps(trace, actions, j - 1);
      StoreStep(trace[j - 1], actions[j - 1]);
    }
  }

  /** A delivery that is written decides its attempt for good; every other delivery for it, before or after an acknowledgement, changes nothing. */
  lemma WrittenOnce(trace: seq<State>, actions: seq<Action>, i: nat, j: nat, m: Message, again: Message)
    requires Run(trace, actions) && i < j < |actions|
    requires actions[i] == Deliver(m) && Accepts(trace[i].store, m.attempt)
    requires actions[j] == Deliver(again) && again.attempt == m.attempt
    ensures m.attempt < |trace[j].store.attempts| && trace[j].store.attempts[m.attempt].verdict == Some(m.verdict)
    ensures trace[j + 1] == trace[j]
  {
    VerdictStays(trace, actions, i + 1, j, m.attempt);
  }

  /** A result for an attempt that is no longer its submission's last changes nothing, whatever it says. */
  lemma LateResultIgnored(trace: seq<State>, actions: seq<Action>, i: nat, m: Message, later: nat)
    requires Run(trace, actions) && i < |actions| && actions[i] == Deliver(m)
    requires m.attempt < later < |trace[i].store.attempts|
    requires trace[i].store.attempts[later].submission == trace[i].store.attempts[m.attempt].submission
    ensures trace[i + 1] == trace[i]
  {
    RunKeeps(trace, actions, i);
  }

  /** Each attempt has at most one entry in the log of written results, and it has one exactly when it is closed. */
  lemma OneEntryPerAttempt(trace: seq<State>, actions: seq<Action>, n: nat, a: nat, verdict: Status)
    requires Run(trace, actions) && n < |trace|
    ensures Message(a, verdict) in trace[n].log <==> a < |trace[n].store.attempts| && trace[n].store.attempts[a].verdict == Some(verdict)
    ensures |Filter(IsFor(a), trace[n].log)| <= 1
  {
    RunKeeps(trace, actions, n);
    AtMostOne(trace[n].log, a);
  }

  function IsFor(a: nat): Message -> bool {
    (m: Message) => m.attempt == a
  }

  lemma {:induction false} AtMostOne(log: seq<Message>, a: nat)
    requires forall i, j | 0 <= i < j < |log| :: log[i].attempt != log[j].attempt
    ensures |Filter(IsFor(a), log)| <= 1
    ensures (forall i | 0 <= i < |log| :: log[i].attempt != a) ==> Filter(IsFor(a), log) == []
  {
    if log != [] {
      AtMostOne(log[1..], a);
    }
  }

  /** A result is written exactly when its attempt is open and its submission has no verdict: the rejudge item never stands in the way. */
  lemma WrittenIff(trace: seq<State>, actions: seq<Action>, n: nat, a: nat)
    requires Run(trace, actions) && n < |trace| && a < |trace[n].store.attempts|
    ensures var st := trace[n].store;
            st.attempts[a].submission < |st.subs| && (Accepts(st, a) <==> st.attempts[a].verdict.None? && !Terminal(st.subs[st.attempts[a].submission].status))
  {
    RunKeeps(trace, actions, n);
  }

  /** A judged submission shows the verdict of its last closed attempt. */
  lemma ShownVerdict(trace: seq<State>, actions: seq<Action>, n: nat, s: nat)
    requires Run(trace, actions) && n < |trace| && s < |trace[n].store.subs| && Terminal(trace[n].store.subs[s].status)
    ensures var st := trace[n].store;
            exists a :: 0 <= a < |st.attempts| && st.attempts[a].submission == s && st.attempts[a].verdict == Some(st.subs[s].status)
                        && forall b | a < b < |st.attempts| && st.attempts[b].submission == s :: st.attempts[b].verdict.None?
  {
    RunKeeps(trace, actions, n);
    var st := trace[n].store;
    assert ResultOk(st, s);
    var a := st.subs[s].result.value.attempt;
    assert st.attempts[a].submission == s && st.attempts[a].verdict == Some(st.subs[s].status);
  }

  lemma JudgedStep(s: State, a: Action, x: nat)
    requires Inv(s) && Enabled(s, a) && x < |s.store.subs| && Terminal(s.store.subs[x].status)
    requires !(a.CreateRejudge? && x in a.targets)
    ensures var t := After(s, a).store; x < |t.subs| && t.subs[x].status == s.store.subs[x].status && t.subs[x].result == s.store.subs[x].result
  {
    match a
    case Ensure(d) => EnsureKeeps(s, d);
    case _ =>
  }

  /** A verdict stands until its submission is put in a rejudge batch. */
  lemma {:induction false} JudgedUntilReopened(trace: seq<State>, actions: seq<Action>, i: nat, j: nat, x: nat)
    requires Run(trace, actions) && i <= j < |trace|
    requires x < |trace[i].store.subs| && Terminal(trace[i].store.subs[x].status)
    requires forall k | i <= k < j && actions[k].CreateRejudge? :: x !in actions[k].targets
    ensures x < |trace[j].store.subs|
    ensures trace[j].store.subs[x].status == trace[i].store.subs[x].status && trace[j].store.subs[x].result == trace[i].store.subs[x].result
  {
    if i < j {
      JudgedUntilReopened(trace, actions, i, j - 1, x);
      RunKeeps(trace, actions, j - 1);
      JudgedStep(trace[j - 1], actions[j - 1], x);
    }
  }

  /** A queued item is as it was created, and new items belong to new batches. */
  ghost predicate ItemsOnlyLeave(st: Store, after: Store) {
    && st.batches <= after.batches && |st.items| <= |after.items|
    && (forall i | 0 <= i < |st.items| :: after.items[i].batch == st.items[i].batch)
    && (forall i | 0 <= i < |st.items| && after.items[i].status.ItemQueued? :: after.items[i] == st.items[i])
    && (forall i | |st.items| <= i < |after.items| :: after.items[i].batch >= st.batches)
  }

  lemma ItemStep(s: State, a: Action)
    requires Enabled(s, a)
    ensures ItemsOnlyLeave(s.store, After(s, a).store)
  {
  }

  lemma LeaveTwice(a: Store, b: Store, c: Store)
    requires ItemsOnlyLeave(a, b) && ItemsOnlyLeave(b, c)
    ensures ItemsOnlyLeave(a, c)
  {
    forall i | |a.items| <= i < |c.items| ensures c.items[i].batch >= a.batches {
      assert i < |b.items| ==> c.items[i].batch == b.items[i].batch;
    }
  }

  lemma {:induction false} ItemsLeave(trace: seq<State>, actions: seq<Action>, m: nat, n: nat)
    requires Run(trace, actions) && m <= n < |trace|
    ensures ItemsOnlyLeave(trace[m].store, trace[n].store)
  {
    if m < n {
      ItemsLeave(trace, actions, m, n - 1);
      ItemStep(trace[n - 1], actions[n - 1]);
      LeaveTwice(trace[m].store, trace[n - 1].store, trace[n].store);
    }
  }

  /** An item found queued when its batch is cancelled was queued ever since the batch was first read. */
  lemma QueuedWasQueued(trace: seq<State>, actions: seq<Action>, m: nat, n: nat, i: nat)
    requires Run(trace, actions) && m <= n < |trace|
    requires i < |trace[n].store.items| && trace[n].store.items[i].status.ItemQueued? && trace[n].store.items[i].batch < trace[m].store.batches
    ensures i < |trace[m].store.items| && trace[m].store.items[i] == trace[n].store.items[i]
  {
    ItemsLeave(trace, actions, m, n);
  }

  lemma QueuedAfterCreate(st: Store, targets: seq<nat>, s: nat)
    requires ItemsOk(st) && CanRejudge(st, targets)
    ensures QueuedIn(CreateBatch(st, targets).items, st.batches, s) <==> s in targets
  {
    var items := CreateBatch(st, targets).items;
    if s in targets {
      var k :| 0 <= k < |targets| && targets[k] == s;
      assert items[|st.items| + k] == Item(st.batches, s, ItemQueued);
    }
  }

  lemma CanCancelAfterCreate(st: Store, targets: seq<nat>)
    requires StoreOk(st) && CanRejudge(st, targets)
    ensures CanCancel(CreateBatch(st, targets), st.batches)
  {
    var open := CreateBatch(st, targets);
    forall i | 0 <= i < |open.items| && open.items[i].batch == st.batches
      ensures open.items[i].submission < |open.subs|
      ensures var sub := open.subs[open.items[i].submission]; sub.task.Pending? && sub.status.Queued? && sub.result.Some?
    {
      assert i >= |st.items|;
      var s := targets[i - |st.items|];
      assert Rejudgeable(st, s) && ResultOk(st, s);
    }
  }

  /** Cancelling a batch right after creating it restores every status and result. */
  lemma CancelUndoesCreate(trace: seq<State>, actions: seq<Action>, n: nat, targets: seq<nat>, s: nat)
    requires Run(trace, actions) && n < |trace| && CanRejudge(trace[n].store, targets) && s < |trace[n].store.subs|
    ensures var st := trace[n].store; var back := CancelBatch(CreateBatch(st, targets), st.batches);
            && |back.subs| == |st.subs| && back.attempts == st.attempts
            && back.subs[s] == if s in targets then st.subs[s].(task := Done) else st.subs[s]
  {
    RunKeeps(trace, actions, n);
    var st := trace[n].store;
    CanCancelAfterCreate(st, targets);
    QueuedAfterCreate(st, targets, s);
    assert ResultOk(st, s);
    if s in targets {
      var k :| 0 <= k < |targets| && targets[k] == s;
      assert Rejudgeable(st, targets[k]);
    }
  }
}
