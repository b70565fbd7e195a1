/**
 * Runs of the agent judging path: dispatchers that claim tasks and open attempts in several
 * separate reads and writes, agents that may judge a request any number of times, result
 * messages delivered in any order and any number of times, rejudges and cancellations.
 */
module JudgeRuns {
  import opened Wrappers
  import opened Submissions
  import opened RejudgeItems
  import opened JudgeModel

  /** Where a dispatcher is between claiming a task and recording the dispatch. */
  datatype Dispatcher =
    | Free
    | Claimed(sub: nat)
    | SawItem(sub: nat, item: Option<nat>)
    | SawLatest(sub: nat, item: Option<nat>, latest: Option<nat>, open: bool)
    | HasAttempt(sub: nat, attempt: nat)

  datatype Message = Message(attempt: nat, verdict: Status)

  datatype State = State(
    store: Store,
    dispatchers: seq<Dispatcher>,
    requests: set<nat>,      // attempts whose request has been published
    results: set<Message>,   // result messages not yet acknowledged
    log: seq<Message>)       // results written, oldest first

  datatype Action =
    | Submit
    | Claim(d: nat, sub: nat)
    | MarkRunning(sub: nat)
    | SeeItem(d: nat, item: Option<nat>)
    | SeeLatest(d: nat)
    | Ensure(d: nat)
    | Publish(d: nat)
    | MarkDispatched(d: nat)
    | Abandon(d: nat)
    | Retry(sub: nat)
    | ResetStale(sub: nat)
    | Judge(attempt: nat, verdict: Status)
    | Deliver(message: Message)
    | Acknowledge(message: Message)
    | CreateRejudge(targets: seq<nat>)
    | CancelRejudge(batch: nat)

  /** GetQueuedRejudgeBatchItemByTaskID. */
  predicate QueuedItem(items: seq<Item>, sub: nat, item: Option<nat>) {
    match item
    case None => forall i | 0 <= i < |items| && items[i].submission == sub :: !items[i].status.ItemQueued?
    case Some(i) => i < |items| && items[i].submission == sub && items[i].status.ItemQueued?
  }

  predicate Enabled(s: State, a: Action) {
    match a
    case Submit => true
    case Claim(d, sub) =>
      d < |s.dispatchers| && s.dispatchers[d].Free? && sub < |s.store.subs| && s.store.subs[sub].task.Pending?
    case MarkRunning(sub) => sub < |s.store.subs| && s.store.subs[sub].status.Queued?
    case SeeItem(d, item) =>
      && d < |s.dispatchers| && s.dispatchers[d].Claimed?
      && QueuedItem(s.store.items, s.dispatchers[d].sub, item)
    case SeeLatest(d) => d < |s.dispatchers| && s.dispatchers[d].SawItem?
    case Ensure(d) => d < |s.dispatchers| && s.dispatchers[d].SawLatest?
    case Publish(d) => d < |s.dispatchers| && s.dispatchers[d].HasAttempt?
    case MarkDispatched(d) => d < |s.dispatchers| && s.dispatchers[d].HasAttempt? && s.dispatchers[d].sub < |s.store.subs|
    case Abandon(d) => d < |s.dispatchers|
    case Retry(sub) => sub < |s.store.subs| && InFlight(s.store.subs[sub].task)
    case ResetStale(sub) =>
      sub < |s.store.subs| && (s.store.subs[sub].task.Dispatching? || s.store.subs[sub].task.TaskRunning?) && !Terminal(s.store.subs[sub].status)
    case Judge(attempt, verdict) => attempt in s.requests && Terminal(verdict)
    case Deliver(message) => message in s.results
    case Acknowledge(message) => message in s.results
    case CreateRejudge(_) => true
    case CancelRejudge(_) => true
  }

  function NextNumber(st: Store, latest: Option<nat>): nat {
    match latest
    case None => 1
    case Some(a) => if a < |st.attempts| then st.attempts[a].number + 1 else 1
  }

  /** The write half of ensureJudgeAttempt, acting on what was read earlier. */
  function EnsureWrite(s: State, d: nat): State
    requires d < |s.dispatchers| && s.dispatchers[d].SawLatest?
  {
    var x := s.dispatchers[d];
    if x.latest.Some? && x.open then
      if ItemConflict(s.store.items, x.item, x.latest.value) then s.(dispatchers := s.dispatchers[d := Free])
      else s.(store := s.store.(items := StartItem(s.store.items, x.item, x.latest.value)),
         dispatchers := s.dispatchers[d := HasAttempt(x.sub, x.latest.value)])
    else
      var number := NextNumber(s.store, x.latest);
      if CanCreate(s.store, x.sub, x.item, number) then
        s.(store := CreateAttempt(s.store, x.sub, x.item, number),
           dispatchers := s.dispatchers[d := HasAttempt(x.sub, |s.store.attempts|)])
      else s.(dispatchers := s.dispatchers[d := Free])
  }

  function After(s: State, a: Action): State
    requires Enabled(s, a)
  {
    match a
    case Submit => s.(store := s.store.(subs := s.store.subs + [Sub(Queued, Pending, None)]))
    case Claim(d, sub) => s.(store := SetTask(s.store, sub, Dispatching), dispatchers := s.dispatchers[d := Claimed(sub)])
    case MarkRunning(sub) => s.(store := SetStatus(s.store, sub, Running))
    case SeeItem(d, item) => s.(dispatchers := s.dispatchers[d := SawItem(s.dispatchers[d].sub, item)])
    case SeeLatest(d) =>
      var x := s.dispatchers[d];
      var latest := Latest(s.store.attempts, x.sub);
      var open := latest.Some? && latest.value < |s.store.attempts| && s.store.attempts[latest.value].verdict.None?;
      s.(dispatchers := s.dispatchers[d := SawLatest(x.sub, x.item, latest, open)])
    case Ensure(d) => EnsureWrite(s, d)
    case Publish(d) => s.(requests := s.requests + {s.dispatchers[d].attempt})
    case MarkDispatched(d) =>
      var sub := s.dispatchers[d].sub;
      s.(store := if s.store.subs[sub].task.Dispatching? then SetTask(s.store, sub, Dispatched) else s.store,
         dispatchers := s.dispatchers[d := Free])
    case Abandon(d) => s.(dispatchers := s.dispatchers[d := Free])
    case Retry(sub) => s.(store := SetTask(s.store, sub, Pending))
    case ResetStale(sub) =>
      var pending := SetTask(s.store, sub, Pending);
      s.(store := if s.store.subs[sub].status.Running? then SetStatus(pending, sub, Queued) else pending)
    case Judge(attempt, verdict) => s.(results := s.results + {Message(attempt, verdict)})
    case Deliver(m) =>
      s.(store := Complete(s.store, m.attempt, m.verdict),
         log := if Accepts(s.store, m.attempt) then s.log + [m] else s.log)
    case Acknowledge(m) => s.(results := s.results - {m})
    case CreateRejudge(targets) => s.(store := CreateBatch(s.store, targets))
    case CancelRejudge(batch) => s.(store := CancelBatch(s.store, batch))
  }

  ghost predicate Initial(s: State) {
    && s.store == EMPTY_STORE && s.requests == {} && s.results == {} && s.log == []
    && forall d | 0 <= d < |s.dispatchers| :: s.dispatchers[d].Free?
  }

  ghost predicate Run(trace: seq<State>, actions: seq<Action>) {
    && |trace| == |actions| + 1
    && Initial(trace[0])
    && forall i | 0 <= i < |actions| :: Enabled(trace[i], actions[i]) && trace[i + 1] == After(trace[i], actions[i])
  }
}
