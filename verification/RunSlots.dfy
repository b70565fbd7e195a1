/**
 * internal/submission/run_service.go, inline mode: who owns a slot of the run pool, from
 * reserveExecution to releaseExecution, while any number of requests and runs interleave
 * with shutdown. Releasing is two steps: the slot first, then the wait group.
 */
module RunSlots {
  import opened Wrappers
  import opened Sums

  /** Where CreateRun stands. `Undoing` and `HalfReleased` are its deferred release. */
  datatype RequestAt =
    | Validating | Reserved | Uploaded | Recorded | Refused | Admitted | HandedOff | Awaiting | Undoing | HalfReleased | Returned

  /** Where the run started by a request stands. */
  datatype RunAt = NotStarted | Executing | Finalized | SlotFreed | Ended

  /** One CreateRun call: its `reserved` variable, its run, and what has happened to its slot so far. */
  datatype Request = Request(at: RequestAt, reserved: bool, run: RunAt, taken: nat, freed: nat)

  datatype State = State(
    capacity: nat,
    slots: nat,           // len(runSlots)
    waitGroup: nat,
    closing: bool,        // runClosing
    canceled: bool,       // runCtx.Err() != nil
    drained: bool,        // runDone is closed
    requests: seq<Request>)

  datatype Action =
    | Arrive
    | Leave(i: nat)             // an error before the reservation
    | Reserve(i: nat)
    | Upload(i: nat, ok: bool)
    | CreateArtifact(i: nat, ok: bool)
    | Admit(i: nat, ok: bool)
    | DiscardSource(i: nat)
    | Spawn(i: nat)
    | ClearReserved(i: nat)
    | FinishAwait(i: nat)
    | Deferred(i: nat)
    | DeferredDone(i: nat)
    | Finalize(i: nat)
    | FreeSlot(i: nat)
    | RunDone(i: nat)
    | CancelParent
    | BeginShutdown
    | Drain

  /** Whether reserveExecution succeeds. */
  predicate CanReserve(s: State) {
    !s.closing && !s.canceled && s.slots < s.capacity
  }

  /** The actions of no one request. */
  predicate Global(a: Action) {
    a.Arrive? || a.CancelParent? || a.BeginShutdown? || a.Drain?
  }

  /** Whether it is the request's, or its run's, turn to take the action. */
  predicate Ready(r: Request, a: Action) {
    match a
    case Leave(_) => r.at.Validating?
    case Reserve(_) => r.at.Validating?
    case Upload(_, _) => r.at.Reserved?
    case CreateArtifact(_, _) => r.at.Uploaded?
    case Admit(_, _) => r.at.Recorded?
    case DiscardSource(_) => r.at.Refused?
    case Spawn(_) => r.at.Admitted?
    case ClearReserved(_) => r.at.HandedOff?
    case FinishAwait(_) => r.at.Awaiting?
    case Deferred(_) => r.at.Undoing?
    case DeferredDone(_) => r.at.HalfReleased?
    case Finalize(_) => r.run.Executing?
    case FreeSlot(_) => r.run.Finalized?
    case RunDone(_) => r.run.SlotFreed?
    case _ => false
  }

  /** The request afterwards; `room` says whether a reservation would succeed. */
  function Next(r: Request, a: Action, room: bool): Request {
    match a
    case Leave(_) => r.(at := Returned)
    case Reserve(_) => if room then r.(at := Reserved, reserved := true, taken := r.taken + 1) else r.(at := Returned)
    case Upload(_, ok) => r.(at := if ok then Uploaded else Undoing)
    case CreateArtifact(_, ok) => r.(at := if ok then Recorded else Undoing)
    case Admit(_, ok) => r.(at := if ok then Admitted else Refused)
    case DiscardSource(_) => r.(at := Undoing)
    case Spawn(_) => r.(at := HandedOff, run := Executing)
    case ClearReserved(_) => r.(at := Awaiting, reserved := false)
    case FinishAwait(_) => r.(at := Undoing)
    case Deferred(_) => if r.reserved then r.(at := HalfReleased, freed := r.freed + 1) else r.(at := Returned)
    case DeferredDone(_) => r.(at := Returned)
    case Finalize(_) => r.(run := Finalized)
    case FreeSlot(_) => r.(run := SlotFreed, freed := r.freed + 1)
    case RunDone(_) => r.(run := Ended)
    case _ => r
  }

  /** What the action sends into, or receives from, the slot channel. */
  function SlotGain(r: Request, a: Action, room: bool): int {
    if a.Reserve? then (if room then 1 else 0)
    else if a.FreeSlot? || (a.Deferred? && r.reserved) then -1
    else 0
  }

  function WaitGain(a: Action, room: bool): int {
    if a.Reserve? then (if room then 1 else 0)
    else if a.RunDone? || a.DeferredDone? then -1
    else 0
  }

  predicate Enabled(s: State, a: Action) {
    if a.Arrive? || a.CancelParent? || a.BeginShutdown? then true
    else if a.Drain? then s.closing && s.waitGroup == 0
    else
      && a.i < |s.requests| && Ready(s.requests[a.i], a)
      && s.slots + SlotGain(s.requests[a.i], a, CanReserve(s)) >= 0
      && s.waitGroup + WaitGain(a, CanReserve(s)) >= 0
  }

  function After(s: State, a: Action): State
    requires Enabled(s, a)
  {
    match a
    case Arrive => s.(requests := s.requests + [Request(Validating, false, NotStarted, 0, 0)])
    case CancelParent => s.(canceled := true)
    case BeginShutdown => s.(closing := true, canceled := true)
    case Drain => s.(drained := true)
    case _ =>
      var r, room := s.requests[a.i], CanReserve(s);
      s.(slots := s.slots + SlotGain(r, a, room), waitGroup := s.waitGroup + WaitGain(a, room),
         requests := s.requests[a.i := Next(r, a, room)])
  }

  ghost predicate Initial(s: State) {
    s.slots == 0 && s.waitGroup == 0 && !s.closing && !s.drained && s.requests == []
  }

  ghost predicate Run(trace: seq<State>, actions: seq<Action>) {
    && |trace| == |actions| + 1
    && Initial(trace[0])
    && forall n | 0 <= n < |actions| :: Enabled(trace[n], actions[n]) && trace[n + 1] == After(trace[n], actions[n])
  }

  // ----- ownership -----

  /** The request holds the slot from the reservation until the run has it or the defer frees it. */
  predicate RequestOwns(r: Request) {
    r.reserved && !r.at.HandedOff? && !r.at.HalfReleased? && !r.at.Returned?
  }

  predicate RunOwns(r: Request) {
    r.run.Executing? || r.run.Finalized?
  }

  function SlotsOf(r: Request): nat {
    (if RequestOwns(r) then 1 else 0) + if RunOwns(r) then 1 else 0
  }

  /** A slot being held, or a release between its two steps. */
  function WaitsOf(r: Request): nat {
    SlotsOf(r) + (if r.at.HalfReleased? then 1 else 0) + if r.run.SlotFreed? then 1 else 0
  }

  function Slots(): Request -> nat {
    (r: Request) => SlotsOf(r)
  }

  function Waits(): Request -> nat {
    (r: Request) => WaitsOf(r)
  }

  /** A request reserves at most once, hands over at most once, and what was taken is held or freed. */
  ghost predicate RequestOk(r: Request) {
    Shape(r) && r.taken <= 1 && r.taken == r.freed + SlotsOf(r) && WaitsOf(r) <= 1
  }

  /** How the place, the variable and the run go together. */
  predicate Shape(r: Request) {
    if r.at.Validating? then !r.reserved && r.run.NotStarted? && r.taken == 0
    else if r.at.HandedOff? then r.reserved && !r.run.NotStarted?
    else if r.at.Awaiting? then !r.reserved && !r.run.NotStarted?
    else if r.at.Undoing? then r.reserved == r.run.NotStarted?
    else if r.at.Returned? then r.run.NotStarted? ==> r.taken == r.freed
    else r.reserved && r.run.NotStarted?
  }

  ghost predicate AllOk(requests: seq<Request>) {
    forall i | 0 <= i < |requests| :: RequestOk(requests[i])
  }

  ghost predicate Inv(s: State) {
    && AllOk(s.requests)
    && s.slots == Sum(Slots(), s.requests) && s.slots <= s.capacity
    && s.waitGroup == Sum(Waits(), s.requests)
    && (s.drained ==> s.closing && s.waitGroup == 0)
    && (s.closing ==> s.canceled)
  }

  lemma ArriveKeeps(s: State)
    requires Inv(s)
    ensures Inv(After(s, Arrive))
  {
    var arrived := Request(Validating, false, NotStarted, 0, 0);
    SumAppend(Slots(), s.requests, arrived);
    SumAppend(Waits(), s.requests, arrived);
  }

  lemma GlobalKeeps(s: State, a: Action)
    requires Inv(s) && Enabled(s, a) && Global(a)
    ensures Inv(After(s, a))
  {
    if a.Arrive? {
      ArriveKeeps(s);
    }
  }

  lemma NextShape(r: Request, a: Action, room: bool)
    requires RequestOk(r) && Ready(r, a)
    ensures Shape(Next(r, a, room))
  {
  }

  lemma NextSlots(r: Request, a: Action, room: bool)
    requires Shape(r) && Ready(r, a)
    ensures SlotsOf(Next(r, a, room)) == SlotsOf(r) + SlotGain(r, a, room)
  {
  }

  lemma NextWaits(r: Request, a: Action, room: bool)
    requires Shape(r) && Ready(r, a)
    ensures WaitsOf(Next(r, a, room)) == WaitsOf(r) + WaitGain(a, room)
  {
  }

  lemma NextHistory(r: Request, a: Action, room: bool)
    requires Ready(r, a)
    ensures var t := Next(r, a, room);
            t.taken - t.freed == r.taken - r.freed + SlotGain(r, a, room) && t.taken == r.taken + if a.Reserve? && room then 1 else 0
  {
  }

  /** An action keeps its request in order, and the channel and the wait group follow what it holds. */
  lemma NextOk(r: Request, a: Action, room: bool)
    requires RequestOk(r) && Ready(r, a)
    ensures RequestOk(Next(r, a, room))
    ensures SlotsOf(Next(r, a, room)) == SlotsOf(r) + SlotGain(r, a, room)
    ensures WaitsOf(Next(r, a, room)) == WaitsOf(r) + WaitGain(a, room)
  {
    NextShape(r, a, room);
    NextSlots(r, a, room);
    NextWaits(r, a, room);
    NextHistory(r, a, room);
    assert a.Reserve? ==> r.taken == 0 && WaitsOf(r) == 0;
  }

  lemma SumsFollow(requests: seq<Request>, i: nat, y: Request, slotGain: int, waitGain: int)
    requires i < |requests|
    requires SlotsOf(y) == SlotsOf(requests[i]) + slotGain && WaitsOf(y) == WaitsOf(requests[i]) + waitGain
    ensures Sum(Slots(), requests[i := y]) == Sum(Slots(), requests) + slotGain
    ensures Sum(Waits(), requests[i := y]) == Sum(Waits(), requests) + waitGain
  {
    SumUpdate(Slots(), requests, i, y);
    SumUpdate(Waits(), requests, i, y);
  }

  lemma OthersStay(requests: seq<Request>, i: nat, y: Request)
    requires i < |requests| && RequestOk(y) && AllOk(requests)
    ensures AllOk(requests[i := y])
  {
  }

  /** What a request's own step makes of the state. */
  function Stepped(s: State, i: nat, y: Request, slotGain: int, waitGain: int): State
    requires i < |s.requests| && s.slots + slotGain >= 0 && s.waitGroup + waitGain >= 0
  {
    s.(slots := s.slots + slotGain, waitGroup := s.waitGroup + waitGain, requests := s.requests[i := y])
  }

  lemma AfterIsStepped(s: State, a: Action)
    requires Enabled(s, a) && !Global(a)
    ensures var r, room := s.requests[a.i], CanReserve(s);
            After(s, a) == Stepped(s, a.i, Next(r, a, room), SlotGain(r, a, room), WaitGain(a, room))
  {
  }

  lemma LocalKeeps(s: State, a: Action)
    requires Inv(s) && Enabled(s, a) && !Global(a)
    ensures Inv(After(s, a))
  {
    var r, room := s.requests[a.i], CanReserve(s);
    NextOk(r, a, room);
    AfterIsStepped(s, a);
    SteppedKeeps(s, a.i, Next(r, a, room), SlotGain(r, a, room), WaitGain(a, room));
  }

  /** The counters stay within bounds: a slot is taken only with room, and none after shutdown. */
  lemma SteppedKeeps(s: State, i: nat, y: Request, slotGain: int, waitGain: int)
    requires Inv(s) && i < |s.requests| && RequestOk(y)
    requires s.slots + slotGain >= 0 && s.waitGroup + waitGain >= 0
    requires (slotGain > 0 ==> CanReserve(s) && slotGain == 1) && (waitGain > 0 ==> CanReserve(s))
    requires SlotsOf(y) == SlotsOf(s.requests[i]) + slotGain && WaitsOf(y) == WaitsOf(s.requests[i]) + waitGain
    ensures Inv(Stepped(s, i, y, slotGain, waitGain))
  {
    OthersStay(s.requests, i, y);
    SumsFollow(s.requests, i, y, slotGain, waitGain);
  }

  lemma StepKeeps(s: State, a: Action)
    requires Inv(s) && Enabled(s, a)
    ensures Inv(After(s, a))
  {
    if Global(a) {
      GlobalKeeps(s, a);
    } else {
      LocalKeeps(s, a);
    }
  }

  lemma {:induction false} RunKeeps(trace: seq<State>, actions: seq<Action>, n: nat)
    requires Run(trace, actions) && n < |trace|
    ensures Inv(trace[n])
  {
    if n > 0 {
      RunKeeps(trace, actions, n - 1);
      StepKeeps(trace[n - 1], actions[n - 1]);
    }
  }

  // ----- what it means -----

  /** Held slots never exceed the parallelism, and are exactly the slots taken and not yet freed. */
  lemma SlotsAreOwned(trace: seq<State>, actions: seq<Action>, n: nat, i: nat)
    requires Run(trace, actions) && n < |trace| && i < |trace[n].requests|
    ensures trace[n].slots == Sum(Slots(), trace[n].requests) <= trace[n].capacity
    ensures var r := trace[n].requests[i]; r.taken <= 1 && r.freed <= r.taken
    ensures var r := trace[n].requests[i]; r.taken == r.freed <==> !RequestOwns(r) && !RunOwns(r)
    ensures !(RequestOwns(trace[n].requests[i]) && RunOwns(trace[n].requests[i]))
  {
    RunKeeps(trace, actions, n);
    assert RequestOk(trace[n].requests[i]);
  }

  /** On every exit path: once the request has returned and its run, if any, has ended, its slot was freed as often as taken. */
  lemma ReleasedExactlyOnce(trace: seq<State>, actions: seq<Action>, n: nat, i: nat)
    requires Run(trace, actions) && n < |trace| && i < |trace[n].requests|
    requires trace[n].requests[i].at.Returned? && (trace[n].requests[i].run.NotStarted? || trace[n].requests[i].run.Ended?)
    ensures trace[n].requests[i].freed == trace[n].requests[i].taken
  {
    RunKeeps(trace, actions, n);
    assert RequestOk(trace[n].requests[i]);
  }

  function Taken(): Request -> nat {
    (r: Request) => r.taken
  }

  lemma {:induction false} ClosedStays(trace: seq<State>, actions: seq<Action>, m: nat, n: nat)
    requires Run(trace, actions) && m <= n < |trace|
    ensures trace[m].closing ==> trace[n].closing
    ensures trace[m].drained ==> trace[n].drained
    ensures |trace[m].requests| <= |trace[n].requests|
  {
    if m < n {
      ClosedStays(trace, actions, m, n - 1);
    }
  }

  /** No reservation succeeds after shutdown begins. */
  lemma NoneReservedWhileClosing(trace: seq<State>, actions: seq<Action>, m: nat, n: nat)
    requires Run(trace, actions) && m <= n < |actions| && trace[m].closing
    ensures Sum(Taken(), trace[n + 1].requests) == Sum(Taken(), trace[n].requests)
  {
    ClosedStays(trace, actions, m, n);
    var s, a := trace[n], actions[n];
    if a.Arrive? {
      SumAppend(Taken(), s.requests, Request(Validating, false, NotStarted, 0, 0));
    } else if !Global(a) {
      SumUpdate(Taken(), s.requests, a.i, Next(s.requests[a.i], a, false));
    }
  }

  /** A reservation takes one slot and joins the wait group exactly if nobody shut down or cancelled and a slot is free. */
  lemma ReservesIff(s: State, i: nat)
    requires i < |s.requests| && s.requests[i].at == Validating
    ensures Enabled(s, Reserve(i))
    ensures var t := After(s, Reserve(i));
      if !s.closing && !s.canceled && s.slots < s.capacity then
        && t.requests[i].at == Reserved && t.requests[i].reserved && t.slots == s.slots + 1 && t.waitGroup == s.waitGroup + 1
      else
        t == s.(requests := s.requests[i := s.requests[i].(at := Returned)])
  {
  }

  /** A request waits for its run only as long as it likes: it can stop while the run is executing, which keeps the slot. */
  lemma RunOutlivesRequest(s: State, i: nat)
    requires i < |s.requests| && s.requests[i].at == Awaiting && !s.requests[i].reserved
    ensures Enabled(s, FinishAwait(i)) && Enabled(After(s, FinishAwait(i)), Deferred(i))
    ensures After(After(s, FinishAwait(i)), Deferred(i)) == s.(requests := s.requests[i := s.requests[i].(at := Returned)])
  {
    var r := s.requests[i];
    assert s.requests[i := r.(at := Undoing)][i := r.(at := Returned)] == s.requests[i := r.(at := Returned)];
  }

  /** A failed upload or artifact row goes straight to the release of the slot; a refused admission discards its source first. */
  lemma FailuresUndo(s: State, i: nat)
    requires i < |s.requests|
    ensures s.requests[i].at == Reserved ==>
              Enabled(s, Upload(i, false)) && After(s, Upload(i, false)) == s.(requests := s.requests[i := s.requests[i].(at := Undoing)])
    ensures s.requests[i].at == Uploaded ==>
              Enabled(s, CreateArtifact(i, false)) && After(s, CreateArtifact(i, false)) == s.(requests := s.requests[i := s.requests[i].(at := Undoing)])
    ensures s.requests[i].at == Recorded ==>
              Enabled(s, Admit(i, false)) && Enabled(After(s, Admit(i, false)), DiscardSource(i))
              && !Enabled(After(s, Admit(i, false)), Deferred(i))
              && After(After(s, Admit(i, false)), DiscardSource(i)) == s.(requests := s.requests[i := s.requests[i].(at := Undoing)])
  {
    var r := s.requests[i];
    assert s.requests[i := r.(at := Refused)][i := r.(at := Undoing)] == s.requests[i := r.(at := Undoing)];
  }

  /** A request whose run has started and not ended, or that still holds its slot. */
  predicate Outstanding(r: Request) {
    RequestOwns(r) || RunOwns(r) || r.run.SlotFreed? || r.at.HalfReleased?
  }

  /** Once Close can return nil, no inline run is outstanding, then or ever after. */
  lemma CloseMeansDrained(trace: seq<State>, actions: seq<Action>, m: nat, n: nat, i: nat)
    requires Run(trace, actions) && m <= n < |trace| && trace[m].drained && i < |trace[n].requests|
    ensures !Outstanding(trace[n].requests[i])
  {
    ClosedStays(trace, actions, m, n);
    RunKeeps(trace, actions, n);
    SumIncludes(Waits(), trace[n].requests, i);
  }

  /** A release never blocks: while something is outstanding, its owner has a step that does not wait for another. */
  lemma OwnersCanMove(trace: seq<State>, actions: seq<Action>, n: nat, i: nat) returns (a: Action)
    requires Run(trace, actions) && n < |trace| && i < |trace[n].requests| && Outstanding(trace[n].requests[i])
    ensures Enabled(trace[n], a) && !Global(a) && a.i == i
  {
    RunKeeps(trace, actions, n);
    var s := trace[n];
    var r := s.requests[i];
    assert RequestOk(r);
    SumIncludes(Slots(), s.requests, i);
    SumIncludes(Waits(), s.requests, i);
    if r.run.Executing? {
      a := Finalize(i);
    } else if r.run.Finalized? {
      a := FreeSlot(i);
    } else if r.run.SlotFreed? {
      a := RunDone(i);
    } else {
      a := match r.at
        case Reserved => Upload(i, false)
        case Uploaded => CreateArtifact(i, false)
        case Recorded => Admit(i, false)
        case Refused => DiscardSource(i)
        case Admitted => Spawn(i)
        case Undoing => Deferred(i)
        case _ => DeferredDone(i);
    }
  }

  /** Shutdown completes: while the wait group is not empty, somebody can move it on; once empty, Close can return. */
  lemma ShutdownCanFinish(trace: seq<State>, actions: seq<Action>, n: nat) returns (a: Action)
    requires Run(trace, actions) && n < |trace| && trace[n].closing
    ensures Enabled(trace[n], a)
    ensures trace[n].waitGroup == 0 ==> a == Drain
    ensures trace[n].waitGroup > 0 ==> !Global(a) && Outstanding(trace[n].requests[a.i])
  {
    RunKeeps(trace, actions, n);
    if trace[n].waitGroup == 0 {
      a := Drain;
    } else {
      var i := SumWitness(Waits(), trace[n].requests);
      a := OwnersCanMove(trace, actions, n, i);
    }
  }

  // ----- the same methods on the service's fields -----

  datatype RunError = Unavailable | UploadFailed | ArtifactFailed | AdmissionRefused

  class RunService {
    const capacity: nat
    var slots: nat
    var waitGroup: nat
    var closing: bool
    var canceled: bool

    constructor (parallelism: int)
      ensures capacity == (if parallelism <= 0 then 1 else parallelism) && slots == 0 && waitGroup == 0 && !closing && !canceled
    {
      capacity := if parallelism <= 0 then 1 else parallelism;
      slots, waitGroup, closing, canceled := 0, 0, false, false;
    }

    method ReserveExecution() returns (ok: bool)
      modifies this`slots, this`waitGroup
      ensures ok == old(!closing && !canceled && slots < capacity)
      ensures slots == old(slots) + (if ok then 1 else 0) && waitGroup == old(waitGroup) + if ok then 1 else 0
    {
      if closing || canceled {
        return false;
      }
      if slots < capacity {
        slots := slots + 1;
        waitGroup := waitGroup + 1;
        return true;
      }
      return false;
    }

    method ReleaseExecution()
      requires slots > 0 && waitGroup > 0
      modifies this`slots, this`waitGroup
      ensures slots == old(slots) - 1 && waitGroup == old(waitGroup) - 1
    {
      slots := slots - 1;
      waitGroup := waitGroup - 1;
    }

    method BeginShutdown()
      modifies this`closing, this`canceled
      ensures closing && canceled
    {
      closing := true;
      canceled := true;
    }

    /**
     * CreateRun from the reservation on, with the outcome of each fallible call: afterwards
     * one slot more is held if a run was started and none otherwise, on every path.
     */
    method CreateRun(uploadOk: bool, artifactOk: bool, admitOk: bool) returns (error: Option<RunError>, spawned: bool)
      requires slots <= waitGroup
      modifies this`slots, this`waitGroup
      ensures slots == old(slots) + (if spawned then 1 else 0) && waitGroup == old(waitGroup) + if spawned then 1 else 0
      ensures spawned <==> old(!closing && !canceled && slots < capacity) && uploadOk && artifactOk && admitOk
      ensures spawned <==> error.None?
      ensures old(slots <= capacity) ==> slots <= capacity
    {
      var reserved := ReserveExecution();
      error, spawned := None, false;
      if !reserved {
        error := Some(Unavailable);
      } else if !uploadOk {
        error := Some(UploadFailed);
      } else if !artifactOk {
        error := Some(ArtifactFailed);
      } else if !admitOk {
        error := Some(AdmissionRefused);
      } else {
        spawned := true;
        reserved := false;
      }
      if reserved {
        ReleaseExecution();
      }
    }
  }
}
