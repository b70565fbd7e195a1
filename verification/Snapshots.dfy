/**
 * The final-snapshot worker against concurrent verdict transactions. The worker lists the
 * contests that are due together with their score revision, then for each one reads the
 * results and inserts a snapshot stamped with the listed revision unless that revision has
 * one. Transactions may commit between any two of these steps.
 */
module Snapshots {
  import opened Wrappers
  import opened Sorting
  import opened FirstRows
  import opened Submissions
  import opened Projection
  import opened Ranking
  import opened Scoreboard
  import opened ContestIndex

  /** What the board of a contest is computed from, besides its results. Held fixed. */
  datatype Fixed = Fixed(contest: Contest, problems: seq<ContestProblem>, registrations: seq<Registration>)

  type Contests = map<int, Fixed>

  datatype ContestState = ContestState(
    revision: nat,
    results: Results,
    freezeAt: Time,
    endAt: Time,
    listed: bool,    // status published, running or ended
    busy: bool)      // a queued or running submission, an open task, or an active rejudge batch

  datatype Kind = FrozenKind | FinalKind

  datatype Snapshot = Snapshot(contest: int, kind: Kind, rows: seq<Row>, sourceRevision: nat, generatedAt: int)

  datatype Candidate = Candidate(contest: int, kind: Kind, revision: nat)

  datatype Worker =
    | Idle
    | Working(pending: seq<Candidate>)
    | HasRead(candidate: Candidate, rows: seq<Row>, rest: seq<Candidate>)

  /** Snapshots are listed in id order. */
  datatype State = State(contests: map<int, ContestState>, snapshots: seq<Snapshot>, worker: Worker, clock: int)

  function FinalBoard(f: Fixed, results: Results): seq<Row> {
    Board(f.problems, f.registrations, MapResultCells(f.contest, Final, results))
  }

  // ----- the candidate query -----

  predicate HasKind(s: State, c: int, kind: Kind) {
    exists i :: 0 <= i < |s.snapshots| && s.snapshots[i].contest == c && s.snapshots[i].kind == kind
  }

  /** The largest source revision among a contest's final snapshots is below `r`. */
  predicate AllFinalsBelow(s: State, c: int, r: nat) {
    forall i | 0 <= i < |s.snapshots| && s.snapshots[i].contest == c && s.snapshots[i].kind.FinalKind? ::
      s.snapshots[i].sourceRevision < r
  }

  predicate FrozenDue(s: State, c: int, now: Time)
    requires c in s.contests
  {
    s.contests[c].listed && s.contests[c].freezeAt <= now && !HasKind(s, c, FrozenKind)
  }

  predicate FinalDue(k: Contests, s: State, c: int, now: Time)
    requires c in s.contests
  {
    var x := s.contests[c];
    && x.listed && x.endAt <= now && !x.busy
    && (!HasKind(s, c, FinalKind) || (c in k && k[c].registrations != [] && AllFinalsBelow(s, c, x.revision)))
  }

  /** What the query orders its rows by. */
  datatype Due = Due(at: Time, contest: int, kind: Kind)

  /** ORDER BY due_at, id, snapshot_kind, where 'final' comes before 'frozen'. */
  predicate Sooner(a: Due, b: Due) {
    if a.at != b.at then a.at < b.at
    else if a.contest != b.contest then a.contest < b.contest
    else a.kind.FinalKind? && b.kind.FrozenKind?
  }

  lemma SoonerIsLinear()
    ensures Linear(Sooner)
  {
  }

  function FrozenKey(s: State, c: int): Due
    requires c in s.contests
  {
    Due(s.contests[c].freezeAt, c, FrozenKind)
  }

  function FinalKey(s: State, c: int): Due
    requires c in s.contests
  {
    Due(s.contests[c].endAt, c, FinalKind)
  }

  function DueRows(k: Contests, s: State, now: Time): set<Due> {
    (set c | c in s.contests && FrozenDue(s, c, now) :: FrozenKey(s, c))
    + (set c | c in s.contests && FinalDue(k, s, c, now) :: FinalKey(s, c))
  }

  function KeyOf(s: State, x: Candidate): Due
    requires x.contest in s.contests
  {
    if x.kind.FinalKind? then FinalKey(s, x.contest) else FrozenKey(s, x.contest)
  }

  predicate Known(s: State, rows: seq<Candidate>) {
    forall i | 0 <= i < |rows| :: rows[i].contest in s.contests
  }

  function KeysOf(s: State, rows: seq<Candidate>): (keys: seq<Due>)
    requires Known(s, rows)
    ensures |keys| == |rows| && forall i | 0 <= i < |rows| :: keys[i] == KeyOf(s, rows[i])
  {
    seq(|rows|, i requires 0 <= i < |rows| => KeyOf(s, rows[i]))
  }

  /** The first `limit` due rows, each with its contest's current revision. */
  ghost predicate QueryReturns(k: Contests, s: State, now: Time, limit: nat, rows: seq<Candidate>) {
    && Known(s, rows)
    && (forall i | 0 <= i < |rows| :: rows[i].revision == s.contests[rows[i].contest].revision)
    && FirstOf(Sooner, DueRows(k, s, now), limit, KeysOf(s, rows))
  }

  lemma DueRowIs(k: Contests, s: State, now: Time, d: Due)
    requires d in DueRows(k, s, now)
    ensures d.contest in s.contests && d == if d.kind.FinalKind? then FinalKey(s, d.contest) else FrozenKey(s, d.contest)
  {
  }

  lemma RowsOfKeys(k: Contests, s: State, now: Time, limit: nat, keys: seq<Due>) returns (rows: seq<Candidate>)
    requires FirstOf(Sooner, DueRows(k, s, now), limit, keys)
    ensures QueryReturns(k, s, now, limit, rows)
  {
    forall i | 0 <= i < |keys|
      ensures keys[i].contest in s.contests
      ensures keys[i] == if keys[i].kind.FinalKind? then FinalKey(s, keys[i].contest) else FrozenKey(s, keys[i].contest)
    {
      DueRowIs(k, s, now, keys[i]);
    }
    rows := seq(|keys|, i requires 0 <= i < |keys| && keys[i].contest in s.contests =>
      Candidate(keys[i].contest, keys[i].kind, s.contests[keys[i].contest].revision));
    assert KeysOf(s, rows) == keys;
  }

  /** The query has an answer in every state: the due rows sorted, and cut at the limit. */
  lemma AnswerExists(k: Contests, s: State, now: Time, limit: nat) returns (rows: seq<Candidate>)
    ensures QueryReturns(k, s, now, limit, rows)
  {
    var listed := Listing(DueRows(k, s, now));
    SoonerIsLinear();
    SortedAndCut(Sooner, DueRows(k, s, now), limit, listed);
    rows := RowsOfKeys(k, s, now, limit, Take(Sort(AtMost(Sooner), listed), limit));
  }

  /** And only one. */
  lemma AnswerIsUnique(k: Contests, s: State, now: Time, limit: nat, a: seq<Candidate>, b: seq<Candidate>)
    requires QueryReturns(k, s, now, limit, a) && QueryReturns(k, s, now, limit, b)
    ensures a == b
  {
    SoonerIsLinear();
    FirstIsUnique(Sooner, DueRows(k, s, now), limit, KeysOf(s, a), KeysOf(s, b));
    forall i | 0 <= i < |a| ensures a[i] == b[i] {
      assert KeysOf(s, a)[i] == KeysOf(s, b)[i];
    }
  }

  // ----- the steps -----

  datatype Action =
    | Rebuild(contest: int, results: Results)
    | EnsureRow(contest: int, user: int, problem: int)
    | ChangeStatus(contest: int, freezeAt: Time, endAt: Time, listed: bool, busy: bool)
    | Tick(now: int)
    | ListCandidates(now: Time, limit: nat, found: seq<Candidate>)
    | ReadResults(frozenRows: seq<Row>)
    | InsertSnapshot
    | StopWorker

  /** ON CONFLICT (contest_id, kind, source_revision) DO NOTHING. */
  function Insert(snapshots: seq<Snapshot>, x: Snapshot): seq<Snapshot> {
    if exists i :: 0 <= i < |snapshots| && snapshots[i].contest == x.contest && snapshots[i].kind == x.kind
                   && snapshots[i].sourceRevision == x.sourceRevision
    then snapshots
    else snapshots + [x]
  }

  predicate Enabled(s: State, a: Action) {
    match a
    case Rebuild(c, _) => c in s.contests
    case EnsureRow(c, u, p) => c in s.contests && (u, p) !in s.contests[c].results
    case ChangeStatus(c, _, _, _, _) => c in s.contests
    case Tick(now) => now >= s.clock
    case ListCandidates(_, _, _) => s.worker.Idle?
    case ReadResults(_) => s.worker.Working? && s.worker.pending != [] && s.worker.pending[0].contest in s.contests
    case InsertSnapshot => s.worker.HasRead?
    case StopWorker => true
  }

  function After(k: Contests, s: State, a: Action): State
    requires Enabled(s, a) && s.contests.Keys <= k.Keys
  {
    match a
    case Rebuild(c, results) =>
      s.(contests := s.contests[c := s.contests[c].(revision := s.contests[c].revision + 1, results := results)])
    case EnsureRow(c, u, p) =>
      s.(contests := s.contests[c := s.contests[c].(results := s.contests[c].results[(u, p) := EMPTY_RESULT])])
    case ChangeStatus(c, freezeAt, endAt, listed, busy) =>
      s.(contests := s.contests[c := s.contests[c].(freezeAt := freezeAt, endAt := endAt, listed := listed, busy := busy)])
    case Tick(now) => s.(clock := now)
    case ListCandidates(_, _, found) => s.(worker := Working(found))
    case ReadResults(frozenRows) =>
      var next := s.worker.pending[0];
      var rows := if next.kind.FinalKind? then FinalBoard(k[next.contest], s.contests[next.contest].results) else frozenRows;
      s.(worker := HasRead(next, rows, s.worker.pending[1..]))
    case InsertSnapshot =>
      var w := s.worker;
      s.(snapshots := Insert(s.snapshots, Snapshot(w.candidate.contest, w.candidate.kind, w.rows, w.candidate.revision, s.clock)),
         worker := Working(w.rest))
    case StopWorker => s.(worker := Idle)
  }

  ghost predicate Step(k: Contests, s: State, a: Action, t: State) {
    && s.contests.Keys <= k.Keys
    && Enabled(s, a)
    && (a.ListCandidates? ==> QueryReturns(k, s, a.now, a.limit, a.found))
    && t == After(k, s, a)
  }

  ghost predicate Initial(k: Contests, s: State) {
    && s.contests.Keys <= k.Keys
    && s.snapshots == [] && s.worker.Idle?
  }

  /** `trace` is a run from an initial state. */
  ghost predicate Run(k: Contests, trace: seq<State>, actions: seq<Action>) {
    && |trace| == |actions| + 1
    && Initial(k, trace[0])
    && forall i | 0 <= i < |actions| :: Step(k, trace[i], actions[i], trace[i + 1])
  }

  // ----- the invariant -----

  /** Rows stamped with a revision: never from the future, and current while the revision is. */
  ghost predicate Stamped(k: Contests, s: State, c: int, rows: seq<Row>, revision: nat) {
    && c in k && c in s.contests
    && revision <= s.contests[c].revision
    && (revision == s.contests[c].revision ==> rows == FinalBoard(k[c], s.contests[c].results))
    && (k[c].registrations == [] ==> rows == [])
  }

  ghost predicate SnapshotsOk(k: Contests, s: State) {
    && (forall i | 0 <= i < |s.snapshots| && s.snapshots[i].kind.FinalKind? ::
          Stamped(k, s, s.snapshots[i].contest, s.snapshots[i].rows, s.snapshots[i].sourceRevision))
    && (forall i | 0 <= i < |s.snapshots| :: s.snapshots[i].generatedAt <= s.clock)
    && (forall i, j | 0 <= i < j < |s.snapshots| :: s.snapshots[i].generatedAt <= s.snapshots[j].generatedAt)
    && (forall i, j | 0 <= i < j < |s.snapshots| && s.snapshots[i].contest == s.snapshots[j].contest
                      && s.snapshots[i].kind.FinalKind? && s.snapshots[j].kind.FinalKind? ::
          s.snapshots[i].sourceRevision < s.snapshots[j].sourceRevision)
  }

  /** A candidate still to be inserted: listed no earlier than any final snapshot of its contest. */
  ghost predicate CandidateOk(k: Contests, s: State, x: Candidate) {
    && x.contest in k && x.contest in s.contests
    && x.revision <= s.contests[x.contest].revision
    && forall i | 0 <= i < |s.snapshots| && s.snapshots[i].contest == x.contest && s.snapshots[i].kind.FinalKind? ::
         s.snapshots[i].sourceRevision <= x.revision
  }

  ghost predicate PendingOk(k: Contests, s: State, pending: seq<Candidate>) {
    && (forall i | 0 <= i < |pending| && pending[i].kind.FinalKind? :: CandidateOk(k, s, pending[i]))
    && (forall i, j | 0 <= i < j < |pending| :: pending[i].contest != pending[j].contest || pending[i].kind != pending[j].kind)
  }

  ghost predicate WorkerOk(k: Contests, s: State) {
    match s.worker
    case Idle => true
    case Working(pending) => PendingOk(k, s, pending)
    case HasRead(x, rows, rest) =>
      && PendingOk(k, s, rest)
      && (forall i | 0 <= i < |rest| :: rest[i].contest != x.contest || rest[i].kind != x.kind)
      && (x.kind.FinalKind? ==> CandidateOk(k, s, x) && Stamped(k, s, x.contest, rows, x.revision))
  }

  ghost predicate Inv(k: Contests, s: State) {
    s.contests.Keys <= k.Keys && SnapshotsOk(k, s) && WorkerOk(k, s)
  }

  /** A projection row that exists but is empty shows the same cell as no row at all. */
  lemma EmptyRowInvisible(f: Fixed, results: Results, user: int, problem: int)
    requires (user, problem) !in results
    ensures FinalBoard(f, results[(user, problem) := EMPTY_RESULT]) == FinalBoard(f, results)
  {
    RowsOfSame(f.problems, f.registrations, MapResultCells(f.contest, Final, results[(user, problem) := EMPTY_RESULT]),
               MapResultCells(f.contest, Final, results));
  }

  /** A change of contest `c` keeps stamps when it bumps the revision or leaves the board. */
  lemma StampKept(k: Contests, s: State, c: int, x: ContestState, b: int, rows: seq<Row>, revision: nat)
    requires c in k && c in s.contests && Stamped(k, s, b, rows, revision)
    requires x.revision > s.contests[c].revision
          || (x.revision == s.contests[c].revision && FinalBoard(k[c], x.results) == FinalBoard(k[c], s.contests[c].results))
    ensures Stamped(k, s.(contests := s.contests[c := x]), b, rows, revision)
  {
  }

  lemma ContestChangeKeeps(k: Contests, s: State, c: int, x: ContestState)
    requires Inv(k, s) && c in k && c in s.contests
    requires x.revision > s.contests[c].revision
          || (x.revision == s.contests[c].revision && FinalBoard(k[c], x.results) == FinalBoard(k[c], s.contests[c].results))
    ensures Inv(k, s.(contests := s.contests[c := x]))
  {
    var t := s.(contests := s.contests[c := x]);
    forall i | 0 <= i < |s.snapshots| && s.snapshots[i].kind.FinalKind?
      ensures Stamped(k, t, s.snapshots[i].contest, s.snapshots[i].rows, s.snapshots[i].sourceRevision)
    {
      StampKept(k, s, c, x, s.snapshots[i].contest, s.snapshots[i].rows, s.snapshots[i].sourceRevision);
    }
    if s.worker.HasRead? && s.worker.candidate.kind.FinalKind? {
      StampKept(k, s, c, x, s.worker.candidate.contest, s.worker.rows, s.worker.candidate.revision);
    }
  }

  lemma ListKeeps(k: Contests, s: State, a: Action)
    requires Inv(k, s) && a.ListCandidates? && Enabled(s, a) && QueryReturns(k, s, a.now, a.limit, a.found)
    ensures Inv(k, After(k, s, a))
  {
    var keys := KeysOf(s, a.found);
    forall i, j | 0 <= i < j < |a.found| ensures a.found[i].contest != a.found[j].contest || a.found[i].kind != a.found[j].kind {
      assert Sooner(keys[i], keys[j]);
    }
    forall i | 0 <= i < |a.found| && a.found[i].kind.FinalKind? ensures CandidateOk(k, s, a.found[i]) {
      forall j | 0 <= j < |s.snapshots| && s.snapshots[j].contest == a.found[i].contest && s.snapshots[j].kind.FinalKind?
        ensures s.snapshots[j].sourceRevision <= a.found[i].revision
      {
        assert Stamped(k, s, s.snapshots[j].contest, s.snapshots[j].rows, s.snapshots[j].sourceRevision);
      }
    }
  }

  lemma ReadKeeps(k: Contests, s: State, a: Action)
    requires Inv(k, s) && a.ReadResults? && Enabled(s, a)
    ensures Inv(k, After(k, s, a))
  {
    var next := s.worker.pending[0];
    assert next.kind.FinalKind? ==> CandidateOk(k, s, next);
  }

  lemma InsertKeepsSnapshots(k: Contests, s: State, x: Candidate, rows: seq<Row>)
    requires SnapshotsOk(k, s)
    requires x.kind.FinalKind? ==> CandidateOk(k, s, x) && Stamped(k, s, x.contest, rows, x.revision)
    ensures SnapshotsOk(k, s.(snapshots := Insert(s.snapshots, Snapshot(x.contest, x.kind, rows, x.revision, s.clock))))
  {
  }

  lemma InsertKeepsCandidate(k: Contests, s: State, x: Candidate, rows: seq<Row>, y: Candidate)
    requires CandidateOk(k, s, y) && y.kind.FinalKind? && (y.contest != x.contest || y.kind != x.kind)
    ensures CandidateOk(k, s.(snapshots := Insert(s.snapshots, Snapshot(x.contest, x.kind, rows, x.revision, s.clock))), y)
  {
  }

  lemma InsertKeeps(k: Contests, s: State)
    requires Inv(k, s) && s.worker.HasRead?
    ensures Inv(k, After(k, s, InsertSnapshot))
  {
    var w := s.worker;
    InsertKeepsSnapshots(k, s, w.candidate, w.rows);
    forall i | 0 <= i < |w.rest| && w.rest[i].kind.FinalKind?
      ensures CandidateOk(k, After(k, s, InsertSnapshot), w.rest[i])
    {
      InsertKeepsCandidate(k, s, w.candidate, w.rows, w.rest[i]);
    }
  }

  /** Every step of the worker and of the transactions keeps the invariant. */
  lemma StepKeeps(k: Contests, s: State, a: Action, t: State)
    requires Inv(k, s) && Step(k, s, a, t)
    ensures Inv(k, t)
  {
    match a
    case Rebuild(c, results) =>
      ContestChangeKeeps(k, s, c, t.contests[c]);
    case EnsureRow(c, u, p) =>
      EmptyRowInvisible(k[c], s.contests[c].results, u, p);
      ContestChangeKeeps(k, s, c, t.contests[c]);
    case ChangeStatus(c, _, _, _, _) =>
      ContestChangeKeeps(k, s, c, t.contests[c]);
    case Tick(_) =>
    case ListCandidates(_, _, _) => ListKeeps(k, s, a);
    case ReadResults(_) => ReadKeeps(k, s, a);
    case InsertSnapshot => InsertKeeps(k, s);
    case StopWorker =>
  }

  lemma {:induction false} RunKeeps(k: Contests, trace: seq<State>, actions: seq<Action>, n: nat)
    requires Run(k, trace, actions) && n < |trace|
    ensures Inv(k, trace[n])
  {
    if n > 0 {
      RunKeeps(k, trace, actions, n - 1);
      StepKeeps(k, trace[n - 1], actions[n - 1], trace[n]);
    }
  }

  // ----- freshness -----

  /** ORDER BY generated_at DESC, id DESC LIMIT 1. */
  ghost predicate IsLatestFinal(s: State, c: int, i: int) {
    && 0 <= i < |s.snapshots| && s.snapshots[i].contest == c && s.snapshots[i].kind.FinalKind?
    && forall j | 0 <= j < |s.snapshots| && s.snapshots[j].contest == c && s.snapshots[j].kind.FinalKind? ::
         s.snapshots[j].generatedAt < s.snapshots[i].generatedAt
         || (s.snapshots[j].generatedAt == s.snapshots[i].generatedAt && j <= i)
  }

  lemma {:induction false} SomeLast(s: State, c: int, n: nat) returns (i: int)
    requires n <= |s.snapshots|
    requires exists j :: 0 <= j < n && s.snapshots[j].contest == c && s.snapshots[j].kind.FinalKind?
    ensures 0 <= i < n && s.snapshots[i].contest == c && s.snapshots[i].kind.FinalKind?
    ensures forall j | i < j < n :: s.snapshots[j].contest != c || !s.snapshots[j].kind.FinalKind?
  {
    if s.snapshots[n - 1].contest == c && s.snapshots[n - 1].kind.FinalKind? {
      i := n - 1;
    } else {
      i := SomeLast(s, c, n - 1);
    }
  }

  /** The newest final snapshot shows the board of the current results. */
  ghost predicate UpToDate(k: Contests, s: State, c: int) {
    && c in k && c in s.contests
    && (exists i :: IsLatestFinal(s, c, i))
    && forall i | IsLatestFinal(s, c, i) :: s.snapshots[i].rows == FinalBoard(k[c], s.contests[c].results)
  }

  /** Listed, ended by `now`, and nothing in flight. */
  predicate Settled(s: State, c: int, now: Time) {
    c in s.contests && s.contests[c].listed && s.contests[c].endAt <= now && !s.contests[c].busy
  }

  lemma LastShows(k: Contests, s: State, c: int, now: Time, last: int)
    requires Inv(k, s) && Settled(s, c, now) && !FinalDue(k, s, c, now) && IsLatestFinal(s, c, last)
    ensures c in k && s.snapshots[last].rows == FinalBoard(k[c], s.contests[c].results)
  {
    assert Stamped(k, s, c, s.snapshots[last].rows, s.snapshots[last].sourceRevision);
    if k[c].registrations != [] {
      var j :| 0 <= j < |s.snapshots| && s.snapshots[j].contest == c && s.snapshots[j].kind.FinalKind?
               && s.snapshots[j].sourceRevision >= s.contests[c].revision;
    }
  }

  lemma NotDueIsUpToDate(k: Contests, s: State, c: int, now: Time)
    requires Inv(k, s) && Settled(s, c, now) && !FinalDue(k, s, c, now)
    ensures UpToDate(k, s, c)
  {
    var last := SomeLast(s, c, |s.snapshots|);
    assert IsLatestFinal(s, c, last);
    LastShows(k, s, c, now, last);
    forall i | IsLatestFinal(s, c, i) ensures i == last {
    }
  }

  lemma FinalKeyIsDue(k: Contests, s: State, c: int, now: Time)
    requires c in s.contests
    ensures FinalKey(s, c) in DueRows(k, s, now) <==> FinalDue(k, s, c, now)
  {
  }

  predicate OffersFinal(rows: seq<Candidate>, c: int) {
    exists i :: 0 <= i < |rows| && rows[i].contest == c && rows[i].kind.FinalKind?
  }

  lemma OfferedIsKey(s: State, rows: seq<Candidate>, c: int)
    requires Known(s, rows) && c in s.contests
    ensures OffersFinal(rows, c) <==> FinalKey(s, c) in KeysOf(s, rows)
  {
    var keys := KeysOf(s, rows);
    if i :| 0 <= i < |rows| && rows[i].contest == c && rows[i].kind.FinalKind? {
      assert keys[i] == FinalKey(s, c);
    }
    if FinalKey(s, c) in keys {
      var i :| 0 <= i < |keys| && keys[i] == FinalKey(s, c);
      assert rows[i].contest == c && rows[i].kind.FinalKind?;
    }
  }

  /** A contest's final row is returned exactly if it is due and fewer than `limit` due rows sort before it. */
  lemma OfferedIff(k: Contests, s: State, now: Time, limit: nat, rows: seq<Candidate>, c: int)
    requires QueryReturns(k, s, now, limit, rows) && c in s.contests
    ensures OffersFinal(rows, c) <==>
              FinalDue(k, s, c, now) && |Preceding(Sooner, DueRows(k, s, now), FinalKey(s, c))| < limit
  {
    SoonerIsLinear();
    OfferedIsKey(s, rows, c);
    FinalKeyIsDue(k, s, c, now);
    if FinalDue(k, s, c, now) {
      ListedIff(Sooner, DueRows(k, s, now), limit, KeysOf(s, rows), FinalKey(s, c));
    }
  }

  // ----- the query on the columns of its tables -----

  predicate NoneOf(s: State, c: int, kind: Kind)
    ensures NoneOf(s, c, kind) <==> forall i | 0 <= i < |s.snapshots| :: s.snapshots[i].contest != c || s.snapshots[i].kind != kind
  {
    !HasKind(s, c, kind)
  }

  function DueTime(s: State, x: Candidate): Time
    requires x.contest in s.contests
  {
    if x.kind == FinalKind then s.contests[x.contest].endAt else s.contests[x.contest].freezeAt
  }

  /** Every row returned carries the current revision, is listed, and lacks its snapshot or an up to date one. */
  lemma OfferedRow(k: Contests, s: State, now: Time, limit: nat, rows: seq<Candidate>, i: nat)
    requires QueryReturns(k, s, now, limit, rows) && i < |rows|
    ensures var x := rows[i];
      && x.contest in s.contests && x.revision == s.contests[x.contest].revision
      && s.contests[x.contest].listed && DueTime(s, x) <= now
      && (x.kind == FrozenKind ==> NoneOf(s, x.contest, FrozenKind))
      && (x.kind == FinalKind ==>
            && !s.contests[x.contest].busy
            && (NoneOf(s, x.contest, FinalKind)
                || (x.contest in k && k[x.contest].registrations != []
                    && forall j | 0 <= j < |s.snapshots| && s.snapshots[j].contest == x.contest && s.snapshots[j].kind == FinalKind ::
                         s.snapshots[j].sourceRevision < x.revision)))
  {
    assert KeysOf(s, rows)[i] in DueRows(k, s, now);
  }

  /** By due time, then contest, then final before frozen; no row is returned twice. */
  lemma OfferedOrder(k: Contests, s: State, now: Time, limit: nat, rows: seq<Candidate>, i: nat, j: nat)
    requires QueryReturns(k, s, now, limit, rows) && i < j < |rows|
    ensures || DueTime(s, rows[i]) < DueTime(s, rows[j])
            || (DueTime(s, rows[i]) == DueTime(s, rows[j])
                && (rows[i].contest < rows[j].contest
                    || (rows[i].contest == rows[j].contest && rows[i].kind == FinalKind && rows[j].kind == FrozenKind)))
  {
    assert Sooner(KeysOf(s, rows)[i], KeysOf(s, rows)[j]);
  }

  /** A listed contest past its freeze without a frozen snapshot is returned, unless the answer is full of rows due no later. */
  lemma FrozenIsOffered(k: Contests, s: State, now: Time, limit: nat, rows: seq<Candidate>, c: int)
    requires QueryReturns(k, s, now, limit, rows) && c in s.contests
    requires s.contests[c].listed && s.contests[c].freezeAt <= now && NoneOf(s, c, FrozenKind)
    ensures Candidate(c, FrozenKind, s.contests[c].revision) in rows
            || (|rows| == limit && forall i | 0 <= i < limit :: DueTime(s, rows[i]) <= s.contests[c].freezeAt)
  {
    var keys, key := KeysOf(s, rows), FrozenKey(s, c);
    assert key in DueRows(k, s, now);
    if key in keys {
      var i :| 0 <= i < |keys| && keys[i] == key;
      assert rows[i] == Candidate(c, FrozenKind, s.contests[c].revision);
    } else {
      forall i | 0 <= i < limit ensures |rows| == limit && DueTime(s, rows[i]) <= s.contests[c].freezeAt {
        assert Sooner(keys[i], key);
      }
    }
  }

  /** Likewise an ended, idle contest whose final snapshots, if any, are of earlier revisions. */
  lemma FinalIsOffered(k: Contests, s: State, now: Time, limit: nat, rows: seq<Candidate>, c: int)
    requires QueryReturns(k, s, now, limit, rows) && c in s.contests
    requires s.contests[c].listed && s.contests[c].endAt <= now && !s.contests[c].busy
    requires NoneOf(s, c, FinalKind)
             || (c in k && k[c].registrations != []
                 && forall j | 0 <= j < |s.snapshots| && s.snapshots[j].contest == c && s.snapshots[j].kind == FinalKind ::
                      s.snapshots[j].sourceRevision < s.contests[c].revision)
    ensures Candidate(c, FinalKind, s.contests[c].revision) in rows
            || (|rows| == limit && forall i | 0 <= i < limit :: DueTime(s, rows[i]) <= s.contests[c].endAt)
  {
    var keys, key := KeysOf(s, rows), FinalKey(s, c);
    FinalKeyIsDue(k, s, c, now);
    if key in keys {
      var i :| 0 <= i < |keys| && keys[i] == key;
      assert rows[i] == Candidate(c, FinalKind, s.contests[c].revision);
    } else {
      forall i | 0 <= i < limit ensures |rows| == limit && DueTime(s, rows[i]) <= s.contests[c].endAt {
        assert Sooner(keys[i], key);
      }
    }
  }

  /** The answer has room left, or its last row sorts after the contest's final row would. */
  predicate Covers(s: State, limit: nat, rows: seq<Candidate>, c: int)
    requires Known(s, rows) && c in s.contests
  {
    |rows| < limit || (rows != [] && Sooner(FinalKey(s, c), KeyOf(s, rows[|rows| - 1])))
  }

  /** Where the same answer is given in another state, a key it covers and does not list is not due. */
  lemma CoveredIsNotDue(k: Contests, now: Time, t: State, limit: nat, keys: seq<Due>, c: int)
    requires c in t.contests && FirstOf(Sooner, DueRows(k, t, now), limit, keys) && FinalKey(t, c) !in keys
    requires |keys| < limit || (keys != [] && Sooner(FinalKey(t, c), keys[|keys| - 1]))
    ensures !FinalDue(k, t, c, now)
  {
    FinalKeyIsDue(k, t, c, now);
  }

  /**
   * In every reachable state: if the answer of the candidate query covers a listed, ended, idle
   * contest and offers no final row for it, its newest final snapshot shows the board of its
   * current results.
   */
  lemma SnapshotFreshness(k: Contests, trace: seq<State>, actions: seq<Action>, n: nat, c: int, now: Time, limit: nat, rows: seq<Candidate>)
    requires Run(k, trace, actions) && n < |trace| && Settled(trace[n], c, now)
    requires QueryReturns(k, trace[n], now, limit, rows) && Covers(trace[n], limit, rows, c) && !OffersFinal(rows, c)
    ensures UpToDate(k, trace[n], c)
  {
    var s := trace[n];
    RunKeeps(k, trace, actions, n);
    OfferedIsKey(s, rows, c);
    CoveredIsNotDue(k, now, s, limit, KeysOf(s, rows), c);
    NotDueIsUpToDate(k, s, c, now);
  }

  // ----- nothing less will do -----

  ghost predicate Reachable(k: Contests, s: State) {
    exists trace: seq<State>, actions :: Run(k, trace, actions) && trace[|trace| - 1] == s
  }

  lemma ReachStep(k: Contests, s: State, a: Action, t: State)
    requires Reachable(k, s) && Step(k, s, a, t)
    ensures Reachable(k, t)
  {
    var trace: seq<State>, actions :| Run(k, trace, actions) && trace[|trace| - 1] == s;
    var longer, more := trace + [t], actions + [a];
    assert Run(k, longer, more) && longer[|longer| - 1] == t;
  }

  lemma ReachableOk(k: Contests, s: State)
    requires Reachable(k, s)
    ensures Inv(k, s)
  {
    var trace: seq<State>, actions :| Run(k, trace, actions) && trace[|trace| - 1] == s;
    RunKeeps(k, trace, actions, |trace| - 1);
  }

  /** A state in which the query answers with the same keys and the contest ends at the same time. */
  ghost predicate SameAnswer(k: Contests, s: State, t: State, now: Time, limit: nat, rows: seq<Candidate>, c: int)
    requires Known(s, rows) && c in s.contests
  {
    && Reachable(k, t) && Settled(t, c, now) && FinalKey(t, c) == FinalKey(s, c)
    && FirstOf(Sooner, DueRows(k, t, now), limit, KeysOf(s, rows))
  }

  lemma BoardNeedsRegistrations(f: Fixed, one: Results, other: Results)
    requires FinalBoard(f, one) != FinalBoard(f, other)
    ensures f.registrations != []
  {
  }

  /** A verdict that arrives makes the contest's final row due and changes no other. */
  lemma RebuildMakesDue(k: Contests, s: State, now: Time, c: int, results: Results)
    requires Inv(k, s) && Settled(s, c, now) && k[c].registrations != []
    ensures var t := After(k, s, Rebuild(c, results)); DueRows(k, t, now) == DueRows(k, s, now) + {FinalKey(s, c)}
  {
    var t := After(k, s, Rebuild(c, results));
    forall i | 0 <= i < |t.snapshots| && t.snapshots[i].contest == c && t.snapshots[i].kind.FinalKind?
      ensures t.snapshots[i].sourceRevision < t.contests[c].revision
    {
      assert Stamped(k, s, c, s.snapshots[i].rows, s.snapshots[i].sourceRevision);
    }
    assert FinalDue(k, t, c, now);
    forall b | b in s.contests
      ensures b in t.contests && (FrozenDue(t, b, now) <==> FrozenDue(s, b, now)) && FrozenKey(t, b) == FrozenKey(s, b)
      ensures FinalKey(t, b) == FinalKey(s, b) && (b != c ==> (FinalDue(k, t, b, now) <==> FinalDue(k, s, b, now)))
    {
    }
  }

  /** One more due row beyond a full answer leaves the answer as it is. */
  lemma BeyondTheCut(all: set<Due>, limit: nat, keys: seq<Due>, key: Due)
    requires FirstOf(Sooner, all, limit, keys) && key !in keys && |keys| == limit
    requires keys != [] ==> !Sooner(key, keys[|keys| - 1])
    ensures FirstOf(Sooner, all + {key}, limit, keys)
  {
    SoonerIsLinear();
    forall i | 0 <= i < |keys| ensures Sooner(keys[i], key) {
      var last := keys[|keys| - 1];
      assert last in keys && Sooner(last, key);
      assert i < |keys| - 1 ==> Sooner(keys[i], last);
    }
  }

  lemma RebuiltAnswer(k: Contests, s: State, now: Time, limit: nat, keys: seq<Due>, c: int, results: Results, t: State)
    requires Inv(k, s) && Settled(s, c, now) && k[c].registrations != [] && t == After(k, s, Rebuild(c, results))
    requires FirstOf(Sooner, DueRows(k, s, now), limit, keys) && FinalKey(s, c) !in keys && |keys| == limit
    requires keys != [] ==> !Sooner(FinalKey(s, c), keys[|keys| - 1])
    ensures FirstOf(Sooner, DueRows(k, t, now), limit, keys)
  {
    RebuildMakesDue(k, s, now, c, results);
    BeyondTheCut(DueRows(k, s, now), limit, keys, FinalKey(s, c));
  }

  lemma RebuiltSettled(k: Contests, s: State, now: Time, c: int, results: Results, t: State)
    requires s.contests.Keys <= k.Keys && Reachable(k, s) && Settled(s, c, now) && t == After(k, s, Rebuild(c, results))
    ensures Reachable(k, t) && Settled(t, c, now) && FinalKey(t, c) == FinalKey(s, c)
  {
    ReachStep(k, s, Rebuild(c, results), t);
  }

  lemma UncoveredAnswer(k: Contests, s: State, now: Time, limit: nat, rows: seq<Candidate>, keys: seq<Due>, c: int, results: Results, t: State)
    requires Inv(k, s) && Settled(s, c, now) && k[c].registrations != [] && t == After(k, s, Rebuild(c, results))
    requires QueryReturns(k, s, now, limit, rows) && !OffersFinal(rows, c) && !Covers(s, limit, rows, c) && keys == KeysOf(s, rows)
    ensures FirstOf(Sooner, DueRows(k, t, now), limit, keys)
  {
    OfferedIsKey(s, rows, c);
    RebuiltAnswer(k, s, now, limit, keys, c, results, t);
  }

  lemma UncoveredSameAnswer(k: Contests, s: State, now: Time, limit: nat, rows: seq<Candidate>, c: int, results: Results, t: State)
    requires Inv(k, s) && Reachable(k, s) && Settled(s, c, now) && QueryReturns(k, s, now, limit, rows)
    requires !OffersFinal(rows, c) && !Covers(s, limit, rows, c) && c in k && k[c].registrations != []
    requires t == After(k, s, Rebuild(c, results))
    ensures SameAnswer(k, s, t, now, limit, rows, c)
  {
    UncoveredAnswer(k, s, now, limit, rows, KeysOf(s, rows), c, results, t);
    RebuiltSettled(k, s, now, c, results, t);
  }

  lemma RebuiltIsStale(k: Contests, s: State, c: int, results: Results, t: State)
    requires s.contests.Keys <= k.Keys && c in s.contests && t == After(k, s, Rebuild(c, results))
    requires forall i | IsLatestFinal(s, c, i) :: s.snapshots[i].rows != FinalBoard(k[c], results)
    ensures !UpToDate(k, t, c)
  {
    if i :| IsLatestFinal(t, c, i) {
      assert IsLatestFinal(s, c, i);
    }
  }

  lemma AnotherBoard(k: Contests, s: State, c: int, one: Results, other: Results) returns (results: Results)
    requires c in k && FinalBoard(k[c], one) != FinalBoard(k[c], other)
    ensures forall i | IsLatestFinal(s, c, i) :: s.snapshots[i].rows != FinalBoard(k[c], results)
  {
    results := other;
    if i :| IsLatestFinal(s, c, i) && s.snapshots[i].rows == FinalBoard(k[c], other) {
      results := one;
      forall j | IsLatestFinal(s, c, j) ensures j == i {
      }
    }
  }

  lemma CoveredIsUpToDate(k: Contests, s: State, now: Time, limit: nat, rows: seq<Candidate>, c: int, t: State)
    requires Known(s, rows) && c in s.contests && !OffersFinal(rows, c) && Covers(s, limit, rows, c)
    requires SameAnswer(k, s, t, now, limit, rows, c)
    ensures UpToDate(k, t, c)
  {
    OfferedIsKey(s, rows, c);
    ReachableOk(k, t);
    CoveredIsNotDue(k, now, t, limit, KeysOf(s, rows), c);
    NotDueIsUpToDate(k, t, c, now);
  }

  lemma UncoveredMayBeStale(k: Contests, s: State, now: Time, limit: nat, rows: seq<Candidate>, c: int, one: Results, other: Results) returns (t: State)
    requires Reachable(k, s) && Settled(s, c, now) && QueryReturns(k, s, now, limit, rows) && !OffersFinal(rows, c)
    requires !Covers(s, limit, rows, c) && c in k && FinalBoard(k[c], one) != FinalBoard(k[c], other)
    ensures SameAnswer(k, s, t, now, limit, rows, c) && !UpToDate(k, t, c)
  {
    ReachableOk(k, s);
    BoardNeedsRegistrations(k[c], one, other);
    var results := AnotherBoard(k, s, c, one, other);
    t := After(k, s, Rebuild(c, results));
    UncoveredSameAnswer(k, s, now, limit, rows, c, results, t);
    RebuiltIsStale(k, s, c, results, t);
  }

  /**
   * An answer without a final row for a contest shows its snapshot to be up to date, in whatever
   * state it is given, exactly if it covers the contest; as long as the contest's board can change
   * at all.
   */
  lemma FreshnessIff(k: Contests, s: State, now: Time, limit: nat, rows: seq<Candidate>, c: int, one: Results, other: Results)
    requires Reachable(k, s) && Settled(s, c, now) && QueryReturns(k, s, now, limit, rows) && !OffersFinal(rows, c)
    requires c in k && FinalBoard(k[c], one) != FinalBoard(k[c], other)
    ensures Covers(s, limit, rows, c) <==> forall t | SameAnswer(k, s, t, now, limit, rows, c) :: UpToDate(k, t, c)
  {
    if Covers(s, limit, rows, c) {
      forall t | SameAnswer(k, s, t, now, limit, rows, c) ensures UpToDate(k, t, c) {
        CoveredIsUpToDate(k, s, now, limit, rows, c, t);
      }
    } else {
      var t := UncoveredMayBeStale(k, s, now, limit, rows, c, one, other);
    }
  }

  /** Two ended, idle contests without a snapshot. */
  function TwoEnded(): State {
    var ended := ContestState(0, map[], 5, 5, true, false);
    State(map[1 := ended, 2 := ended], [], Idle, 0)
  }

  lemma TwoEndedDue(k: Contests)
    ensures DueRows(k, TwoEnded(), 5) == {Due(5, 1, FinalKind), Due(5, 1, FrozenKind), Due(5, 2, FinalKind), Due(5, 2, FrozenKind)}
  {
    var s := TwoEnded();
    assert s.contests.Keys == {1, 2};
    forall c | c in s.contests ensures FrozenDue(s, c, 5) && FinalDue(k, s, c, 5) {
    }
    forall d | d in {Due(5, 1, FinalKind), Due(5, 1, FrozenKind), Due(5, 2, FinalKind), Due(5, 2, FrozenKind)} ensures d in DueRows(k, s, 5) {
      assert d == FinalKey(s, d.contest) || d == FrozenKey(s, d.contest);
    }
  }

  /** An answer cut off by its limit: it offers no final row for contest 2, which has no final snapshot. */
  lemma CutAnswerMisses(k: Contests, f: Fixed)
    requires k == map[1 := f, 2 := f]
    ensures Reachable(k, TwoEnded()) && Settled(TwoEnded(), 2, 5)
    ensures var rows := [Candidate(1, FinalKind, 0)];
            QueryReturns(k, TwoEnded(), 5, 1, rows) && !OffersFinal(rows, 2) && !UpToDate(k, TwoEnded(), 2)
  {
    var s, rows := TwoEnded(), [Candidate(1, FinalKind, 0)];
    assert Initial(k, s);
    assert Run(k, [s], []) && [s][|[s]| - 1] == s;
    TwoEndedDue(k);
    assert KeysOf(s, rows) == [Due(5, 1, FinalKind)];
  }
}
