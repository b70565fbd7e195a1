/**
 * internal/submission/run_repository.go: admission of a run under a per-user cap. AdmitRun is
 * taken apart into its statements, so that any number of replicas interleave with each other
 * and with runs that start, finish, go stale or are deleted.
 */
module RunCap {
  import opened Wrappers
  import opened Sums
  import opened Submissions

  /** A row of runs; a deleted row keeps its place. */
  datatype Row = Row(user: int, status: Status, deleted: bool)

  predicate Active(r: Row) {
    !r.deleted && !Terminal(r.status)
  }

  function ActiveFor(user: int): Row -> nat {
    (r: Row) => if Active(r) && r.user == user then 1 else 0
  }

  /** CountActiveRunsByUser. */
  function CountActive(rows: seq<Row>, user: int): nat {
    Sum(ActiveFor(user), rows)
  }

  /** The places of a user's queued and running rows. */
  function QueuedOrRunning(rows: seq<Row>, user: int): (r: set<nat>)
    ensures forall i: nat :: i in r <==>
              i < |rows| && rows[i].user == user && !rows[i].deleted && (rows[i].status == Queued || rows[i].status == Running)
  {
    set i: nat | i < |rows| && rows[i].user == user && !rows[i].deleted && (rows[i].status.Queued? || rows[i].status.Running?)
  }

  lemma OneMoreRow(rows: seq<Row>, r: Row, user: int)
    ensures CountActive(rows + [r], user) == CountActive(rows, user) + if r.user == user && Active(r) then 1 else 0
    ensures QueuedOrRunning(rows + [r], user) == QueuedOrRunning(rows, user) + if r.user == user && Active(r) then {|rows|} else {}
  {
    SumAppend(ActiveFor(user), rows, r);
    assert forall i: nat | i < |rows| :: (rows + [r])[i] == rows[i];
  }

  /** What is counted are the user's queued and running rows. */
  lemma {:induction false} CountIsExact(rows: seq<Row>, user: int)
    ensures CountActive(rows, user) == |QueuedOrRunning(rows, user)|
  {
    if rows == [] {
      assert QueuedOrRunning(rows, user) == {};
    } else {
      var front, r := rows[..|rows| - 1], rows[|rows| - 1];
      CountIsExact(front, user);
      OneMoreRow(front, r, user);
      assert rows == front + [r];
    }
  }

  /** An admission: waiting for the user's row, holding it, having counted, having inserted. */
  datatype Admission =
    | Waiting(user: int, status: Status)
    | Locked(user: int, status: Status)
    | Counted(user: int, status: Status)
    | Inserted(user: int, status: Status)
    | Ended

  predicate HoldsUser(a: Admission, user: int) {
    (a.Locked? || a.Counted? || a.Inserted?) && a.user == user
  }

  datatype State = State(rows: seq<Row>, admissions: seq<Admission>)

  datatype Action =
    | Begin(user: int, status: Status)
    | Lock(i: nat)
    | Count(i: nat)
    | Insert(i: nat)
    | Commit(i: nat)
    | Abort(i: nat)
    | MarkRunning(run: nat)
    | Finish(run: nat, verdict: Status)
    | MarkStale(run: nat)
    | Delete(run: nat)

  predicate Enabled(s: State, a: Action) {
    match a
    case Begin(_, status) => !Terminal(status)
    case Lock(i) =>
      && i < |s.admissions| && s.admissions[i].Waiting?
      && forall j | 0 <= j < |s.admissions| :: !HoldsUser(s.admissions[j], s.admissions[i].user)
    case Count(i) => i < |s.admissions| && s.admissions[i].Locked?
    case Insert(i) => i < |s.admissions| && s.admissions[i].Counted?
    case Commit(i) => i < |s.admissions| && s.admissions[i].Inserted?
    case Abort(i) => i < |s.admissions|
    case MarkRunning(run) => run < |s.rows|
    case Finish(run, verdict) => run < |s.rows| && Terminal(verdict)
    case MarkStale(run) => run < |s.rows|
    case Delete(run) => run < |s.rows| && Terminal(s.rows[run].status)
  }

  /** MarkRunRunning, UpdateRunStatus and MarkStaleRunsSystemError, each with its status guard. */
  function Started(r: Row): Row {
    if !r.deleted && r.status.Queued? then r.(status := Running) else r
  }

  function Finished(r: Row, verdict: Status): Row {
    if !r.deleted && !Terminal(r.status) then r.(status := verdict) else r
  }

  function After(s: State, a: Action, max: nat): State
    requires Enabled(s, a)
  {
    match a
    case Begin(user, status) => s.(admissions := s.admissions + [Waiting(user, status)])
    case Lock(i) => s.(admissions := s.admissions[i := Locked(s.admissions[i].user, s.admissions[i].status)])
    case Count(i) =>
      var x := s.admissions[i];
      s.(admissions := s.admissions[i := if CountActive(s.rows, x.user) >= max then Ended else Counted(x.user, x.status)])
    case Insert(i) => s.(admissions := s.admissions[i := Inserted(s.admissions[i].user, s.admissions[i].status)])
    case Commit(i) =>
      State(s.rows + [Row(s.admissions[i].user, s.admissions[i].status, false)], s.admissions[i := Ended])
    case Abort(i) => s.(admissions := s.admissions[i := Ended])
    case MarkRunning(run) => s.(rows := s.rows[run := Started(s.rows[run])])
    case Finish(run, verdict) => s.(rows := s.rows[run := Finished(s.rows[run], verdict)])
    case MarkStale(run) => s.(rows := s.rows[run := Finished(s.rows[run], SystemError)])
    case Delete(run) => s.(rows := s.rows[run := s.rows[run].(deleted := true)])
  }

  ghost predicate Run(trace: seq<State>, actions: seq<Action>, max: nat) {
    && |trace| == |actions| + 1
    && trace[0] == State([], [])
    && forall n | 0 <= n < |actions| :: Enabled(trace[n], actions[n]) && trace[n + 1] == After(trace[n], actions[n], max)
  }

  /** One admission per user at a time, and one that has counted still has room. */
  ghost predicate Inv(s: State, max: nat) {
    && (forall i, j, user | 0 <= i < j < |s.admissions| && HoldsUser(s.admissions[i], user) :: !HoldsUser(s.admissions[j], user))
    && (forall i | 0 <= i < |s.admissions| && !s.admissions[i].Ended? :: !Terminal(s.admissions[i].status))
    && (forall i | 0 <= i < |s.admissions| && (s.admissions[i].Counted? || s.admissions[i].Inserted?) ::
          CountActive(s.rows, s.admissions[i].user) < max)
    && (forall user :: CountActive(s.rows, user) <= max)
  }

  /** Changing one row without activating it can only lower the counts. */
  lemma RowChangeKeeps(s: State, run: nat, r: Row, max: nat)
    requires Inv(s, max) && run < |s.rows|
    requires r.user == s.rows[run].user && (Active(r) ==> Active(s.rows[run]))
    ensures Inv(s.(rows := s.rows[run := r]), max)
  {
    forall user ensures CountActive(s.rows[run := r], user) <= CountActive(s.rows, user) {
      SumUpdate(ActiveFor(user), s.rows, run, r);
    }
    var t := s.(rows := s.rows[run := r]);
    forall user ensures CountActive(t.rows, user) <= max {
      assert CountActive(s.rows, user) <= max;
    }
    forall i | 0 <= i < |t.admissions| && (t.admissions[i].Counted? || t.admissions[i].Inserted?)
      ensures CountActive(t.rows, t.admissions[i].user) < max
    {
      assert CountActive(s.rows, s.admissions[i].user) < max;
    }
  }

  lemma AdmissionChangeKeeps(s: State, i: nat, x: Admission, max: nat)
    requires Inv(s, max) && i < |s.admissions|
    requires !x.Ended? ==> !Terminal(x.status)
    requires forall user | HoldsUser(x, user) ::
               HoldsUser(s.admissions[i], user) || forall j | 0 <= j < |s.admissions| :: !HoldsUser(s.admissions[j], user)
    requires x.Counted? || x.Inserted? ==> CountActive(s.rows, x.user) < max
    ensures Inv(s.(admissions := s.admissions[i := x]), max)
  {
    var admissions := s.admissions[i := x];
    forall j, k, user | 0 <= j < k < |admissions| && HoldsUser(admissions[j], user) ensures !HoldsUser(admissions[k], user) {
      if j == i {
        assert !HoldsUser(s.admissions[k], user);
      }
      if k == i && HoldsUser(x, user) {
        assert false;
      }
    }
  }

  lemma CommitKeeps(s: State, i: nat, max: nat)
    requires Inv(s, max) && Enabled(s, Commit(i))
    ensures Inv(After(s, Commit(i), max), max)
  {
    var x := s.admissions[i];
    var row := Row(x.user, x.status, false);
    forall user ensures CountActive(s.rows + [row], user) == CountActive(s.rows, user) + if user == x.user then 1 else 0 {
      SumAppend(ActiveFor(user), s.rows, row);
    }
    forall j | 0 <= j < |s.admissions| && j != i && (s.admissions[j].Counted? || s.admissions[j].Inserted?)
      ensures s.admissions[j].user != x.user
    {
      assert HoldsUser(s.admissions[j], s.admissions[j].user) && HoldsUser(x, x.user);
    }
    AdmissionChangeKeeps(s, i, Ended, max);
  }

  lemma StepKeeps(s: State, a: Action, max: nat)
    requires Inv(s, max) && Enabled(s, a)
    ensures Inv(After(s, a, max), max)
  {
    match a
    case Begin(user, status) =>
    case Lock(i) => AdmissionChangeKeeps(s, i, Locked(s.admissions[i].user, s.admissions[i].status), max);
    case Count(i) =>
      var x := s.admissions[i];
      AdmissionChangeKeeps(s, i, if CountActive(s.rows, x.user) >= max then Ended else Counted(x.user, x.status), max);
    case Insert(i) => AdmissionChangeKeeps(s, i, Inserted(s.admissions[i].user, s.admissions[i].status), max);
    case Commit(i) => CommitKeeps(s, i, max);
    case Abort(i) => AdmissionChangeKeeps(s, i, Ended, max);
    case MarkRunning(run) => RowChangeKeeps(s, run, Started(s.rows[run]), max);
    case Finish(run, verdict) => RowChangeKeeps(s, run, Finished(s.rows[run], verdict), max);
    case MarkStale(run) => RowChangeKeeps(s, run, Finished(s.rows[run], SystemError), max);
    case Delete(run) => RowChangeKeeps(s, run, s.rows[run].(deleted := true), max);
  }

  lemma {:induction false} RunKeeps(trace: seq<State>, actions: seq<Action>, max: nat, n: nat)
    requires Run(trace, actions, max) && n < |trace|
    ensures Inv(trace[n], max)
  {
    if n > 0 {
      RunKeeps(trace, actions, max, n - 1);
      StepKeeps(trace[n - 1], actions[n - 1], max);
    } else {
      assert forall user :: CountActive([], user) == 0;
    }
  }

  /** In every run, no user ever has more runs queued or running than the cap. */
  lemma CapHolds(trace: seq<State>, actions: seq<Action>, max: nat, n: nat, user: int)
    requires Run(trace, actions, max) && n < |trace|
    ensures |QueuedOrRunning(trace[n].rows, user)| <= max
  {
    RunKeeps(trace, actions, max, n);
    CountIsExact(trace[n].rows, user);
    assert CountActive(trace[n].rows, user) <= max;
  }

  /** A user's places change only when a run is committed, or ends with its verdict or as stale. */
  lemma PlacesMove(s: State, a: Action, max: nat, user: int)
    requires Enabled(s, a)
    ensures var before, after := QueuedOrRunning(s.rows, user), QueuedOrRunning(After(s, a, max).rows, user);
      match a
      case Commit(i) => after == before + if s.admissions[i].user == user && !Terminal(s.admissions[i].status) then {|s.rows|} else {}
      case Finish(run, verdict) => after == before - {run} && (run in before ==> After(s, a, max).rows[run].status == verdict)
      case MarkStale(run) => after == before - {run} && (run in before ==> After(s, a, max).rows[run].status == SystemError)
      case _ => after == before
  {
    if a.Commit? {
      OneMoreRow(s.rows, Row(s.admissions[a.i].user, s.admissions[a.i].status, false), user);
    }
  }

  /** A finished run keeps its verdict for good. */
  lemma {:induction false} FinishedStays(trace: seq<State>, actions: seq<Action>, max: nat, m: nat, n: nat, run: nat)
    requires Run(trace, actions, max) && m <= n < |trace| && run < |trace[m].rows| && Terminal(trace[m].rows[run].status)
    ensures run < |trace[n].rows| && trace[n].rows[run].status == trace[m].rows[run].status
    ensures !Active(trace[n].rows[run])
  {
    if m < n {
      FinishedStays(trace, actions, max, m, n - 1, run);
    }
  }

  /** The cap is exact: an admission that holds the user is refused exactly when the cap is reached. */
  lemma RefusedIff(trace: seq<State>, actions: seq<Action>, max: nat, n: nat, i: nat)
    requires Run(trace, actions, max) && n < |actions| && actions[n] == Count(i)
    ensures i < |trace[n].admissions| && i < |trace[n + 1].admissions|
    ensures trace[n + 1].admissions[i].Ended? <==> |QueuedOrRunning(trace[n].rows, trace[n].admissions[i].user)| == max
  {
    RunKeeps(trace, actions, max, n);
    CountIsExact(trace[n].rows, trace[n].admissions[i].user);
    assert CountActive(trace[n].rows, trace[n].admissions[i].user) <= max;
  }

  // ----- the same on a table -----

  datatype Refusal = UserNotFound | LimitExceeded

  class RunTable {
    const users: set<int>
    var rows: seq<Row>
    var tasks: seq<nat>   // the runs of the judge tasks

    /** No run has two tasks, and no task is without its run. */
    ghost predicate TasksOk()
      reads this
    {
      && (forall i | 0 <= i < |tasks| :: tasks[i] < |rows|)
      && forall i, j | 0 <= i < j < |tasks| :: tasks[i] != tasks[j]
    }

    constructor (users: set<int>)
      ensures this.users == users && rows == [] && tasks == [] && TasksOk()
    {
      this.users, rows, tasks := users, [], [];
    }

    method CountActiveRunsByUser(user: int) returns (n: nat)
      ensures n == CountActive(rows, user)
    {
      n := 0;
      for i := 0 to |rows|
        invariant n == CountActive(rows[..i], user)
      {
        assert rows[..i + 1] == rows[..i] + [rows[i]];
        SumAppend(ActiveFor(user), rows[..i], rows[i]);
        if Active(rows[i]) && rows[i].user == user {
          n := n + 1;
        }
      }
      assert rows[..|rows|] == rows;
    }

    /** One whole transaction; a cap of zero or less switches the check off. */
    method AdmitRun(user: int, status: Status, maxActive: int, enqueue: bool) returns (r: Result<nat, Refusal>)
      requires !Terminal(status) && TasksOk()
      modifies this
      ensures TasksOk() && tasks == if r.Ok? && enqueue then old(tasks) + [r.value] else old(tasks)
      ensures r.Ok? <==> maxActive <= 0 || (user in users && |QueuedOrRunning(old(rows), user)| < maxActive)
      ensures r == Err(UserNotFound) <==> maxActive > 0 && user !in users
      ensures rows == if r.Ok? then old(rows) + [Row(user, status, false)] else old(rows)
      ensures r.Ok? ==> r.value == |old(rows)|
      ensures QueuedOrRunning(rows, user) == QueuedOrRunning(old(rows), user) + if r.Ok? then {r.value} else {}
      ensures maxActive > 0 && |QueuedOrRunning(old(rows), user)| <= maxActive ==> |QueuedOrRunning(rows, user)| <= maxActive
    {
      if maxActive > 0 {
        if user !in users {
          return Err(UserNotFound);
        }
        var active := CountActiveRunsByUser(user);
        CountIsExact(rows, user);
        if active >= maxActive {
          return Err(LimitExceeded);
        }
      }
      OneMoreRow(rows, Row(user, status, false), user);
      rows := rows + [Row(user, status, false)];
      if enqueue {
        tasks := tasks + [|rows| - 1];
      }
      return Ok(|rows| - 1);
    }

    /** A run is started at most once; a redelivery changes nothing. */
    method MarkRunRunning(run: nat) returns (found: bool)
      modifies this`rows
      ensures found == (run < |old(rows)|)
      ensures rows == if found && !old(rows)[run].deleted && old(rows)[run].status == Queued
                      then old(rows)[run := old(rows)[run].(status := Running)] else old(rows)
      ensures found ==> rows[run] == Started(old(rows)[run])
    {
      found := run < |rows|;
      if found && !rows[run].deleted && rows[run].status == Queued {
        rows := rows[run := rows[run].(status := Running)];
      }
    }
  }
}
