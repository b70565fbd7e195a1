/**
 * One contest's tables as the judging transactions maintain them: submissions with their
 * task and stored result, the per-(user, problem) projections, the running totals on the
 * registrations, and the score revision. What the index has to equal is stated here.
 */
module ContestIndex {
  import opened Wrappers
  import opened Sorting
  import opened Submissions
  import opened Projection

  datatype Totals = Totals(accepted: int, penalty: int)

  /** The projection query's WHERE clause: terminal submissions of one cell. */
  function Counted(user: int, problem: int): Submission -> bool {
    (s: Submission) => s.user == user && s.problem == problem && Terminal(s.status)
  }

  function CellResult(start: Time, rows: seq<Submission>, user: int, problem: int): ProblemResult {
    ProjectionOf(start, Filter(Counted(user, problem), rows))
  }

  function Add(t: Totals, r: ProblemResult): Totals {
    if r.status.AcceptedResult? then Totals(t.accepted + 1, t.penalty + r.penalty) else t
  }

  /** A user's totals, computed from the submissions and nothing else. */
  function ScratchTotals(start: Time, problems: seq<int>, rows: seq<Submission>, user: int): Totals {
    if problems == [] then Totals(0, 0)
    else
      Add(ScratchTotals(start, problems[..|problems| - 1], rows, user), CellResult(start, rows, user, problems[|problems| - 1]))
  }

  type Results = map<(int, int), ProblemResult>

  /** The stored row of a cell, or what an absent row stands for. */
  function Stored(results: Results, user: int, problem: int): ProblemResult {
    if (user, problem) in results then results[(user, problem)] else EMPTY_RESULT
  }

  /** A user's result rows, in problem order. */
  function ListResults(results: Results, problems: seq<int>, user: int): seq<ProblemResult> {
    if problems == [] then []
    else
      var before := ListResults(results, problems[..|problems| - 1], user);
      var p := problems[|problems| - 1];
      if (user, p) in results then before + [results[(user, p)]] else before
  }

  function Total(list: seq<ProblemResult>): Totals {
    if list == [] then Totals(0, 0) else Add(Total(list[..|list| - 1]), list[|list| - 1])
  }

  ghost predicate CellCurrent(start: Time, rows: seq<Submission>, results: Results, user: int, problem: int) {
    Stored(results, user, problem) == CellResult(start, rows, user, problem)
  }

  ghost predicate UserCurrent(start: Time, problems: seq<int>, rows: seq<Submission>, results: Results,
                              totals: map<int, Totals>, user: int)
  {
    && (forall p | p in problems :: CellCurrent(start, rows, results, user, p))
    && user in totals
    && totals[user] == ScratchTotals(start, problems, rows, user)
  }

  lemma {:induction false} TotalIsScratch(start: Time, problems: seq<int>, rows: seq<Submission>, results: Results, user: int)
    requires forall p | p in problems :: CellCurrent(start, rows, results, user, p)
    ensures Total(ListResults(results, problems, user)) == ScratchTotals(start, problems, rows, user)
  {
    if problems != [] {
      var init, p := problems[..|problems| - 1], problems[|problems| - 1];
      TotalIsScratch(start, init, rows, results, user);
      var before := ListResults(results, init, user);
      assert p in problems && CellCurrent(start, rows, results, user, p);
      assert (before + [Stored(results, user, p)])[..|before|] == before;
    }
  }

  /** Replacing one row leaves every other cell's submissions alone. */
  lemma {:induction false} OtherCellsKept(rows: seq<Submission>, i: nat, row: Submission, user: int, problem: int)
    requires i < |rows| && rows[i].user == row.user && rows[i].problem == row.problem
    requires (user, problem) != (row.user, row.problem)
    ensures Filter(Counted(user, problem), rows[i := row]) == Filter(Counted(user, problem), rows)
  {
    var keep := Counted(user, problem);
    assert rows == rows[..i] + ([rows[i]] + rows[i + 1..]);
    assert rows[i := row] == rows[..i] + ([row] + rows[i + 1..]);
    FilterConcat(keep, rows[..i], [rows[i]] + rows[i + 1..]);
    FilterConcat(keep, rows[..i], [row] + rows[i + 1..]);
    FilterConcat(keep, [rows[i]], rows[i + 1..]);
    FilterConcat(keep, [row], rows[i + 1..]);
  }

  /** Status changes between queued and running are invisible to the index. */
  lemma {:induction false} UncountedRowsKept(rows: seq<Submission>, i: nat, row: Submission, user: int, problem: int)
    requires i < |rows| && !Terminal(rows[i].status) && !Terminal(row.status)
    ensures Filter(Counted(user, problem), rows[i := row]) == Filter(Counted(user, problem), rows)
  {
    var keep := Counted(user, problem);
    assert rows == rows[..i] + ([rows[i]] + rows[i + 1..]);
    assert rows[i := row] == rows[..i] + ([row] + rows[i + 1..]);
    FilterConcat(keep, rows[..i], [rows[i]] + rows[i + 1..]);
    FilterConcat(keep, rows[..i], [row] + rows[i + 1..]);
    FilterConcat(keep, [rows[i]], rows[i + 1..]);
    FilterConcat(keep, [row], rows[i + 1..]);
  }

  lemma {:induction false} ScratchDependsOnCells(start: Time, problems: seq<int>, a: seq<Submission>, b: seq<Submission>, user: int)
    requires forall p | p in problems :: Filter(Counted(user, p), a) == Filter(Counted(user, p), b)
    ensures ScratchTotals(start, problems, a, user) == ScratchTotals(start, problems, b, user)
  {
    if problems != [] {
      var p := problems[|problems| - 1];
      assert p in problems;
      ScratchDependsOnCells(start, problems[..|problems| - 1], a, b, user);
    }
  }

  /** A user none of whose cells changed is as current as before. */
  lemma UserKept(start: Time, problems: seq<int>, a: seq<Submission>, b: seq<Submission>, results: Results,
                 totals: map<int, Totals>, user: int)
    requires UserCurrent(start, problems, a, results, totals, user)
    requires forall p | p in problems :: Filter(Counted(user, p), a) == Filter(Counted(user, p), b)
    ensures UserCurrent(start, problems, b, results, totals, user)
  {
    ScratchDependsOnCells(start, problems, a, b, user);
    forall p | p in problems ensures CellCurrent(start, b, results, user, p) {
      assert CellCurrent(start, a, results, user, p);
    }
  }

  /** A row outside the contest's problems is in nobody's index. */
  lemma RowChangeKeeps(start: Time, problems: seq<int>, rows: seq<Submission>, i: nat, row: Submission, results: Results,
                       totals: map<int, Totals>, user: int)
    requires i < |rows| && rows[i].user == row.user && rows[i].problem == row.problem
    requires user != row.user || row.problem !in problems
    requires UserCurrent(start, problems, rows, results, totals, user)
    ensures UserCurrent(start, problems, rows[i := row], results, totals, user)
  {
    forall p | p in problems ensures Filter(Counted(user, p), rows) == Filter(Counted(user, p), rows[i := row]) {
      OtherCellsKept(rows, i, row, user, p);
    }
    UserKept(start, problems, rows, rows[i := row], results, totals, user);
  }

  // ----- the whole index -----

  datatype Index = Index(results: Results, totals: map<int, Totals>)

  datatype Setting = Setting(start: Time, problems: seq<int>, registered: set<int>)

  ghost predicate Shaped(c: Setting, x: Index) {
    && x.totals.Keys == c.registered
    && forall k | k in x.results :: k.0 in c.registered && k.1 in c.problems
  }

  /** Every registered user's results and totals equal what recomputing them would give. */
  ghost predicate Current(c: Setting, rows: seq<Submission>, x: Index) {
    && Shaped(c, x)
    && forall u | u in c.registered :: UserCurrent(c.start, c.problems, rows, x.results, x.totals, u)
  }

  /** Between a row change and its rebuild, one cell and its user's totals may be stale. */
  ghost predicate StaleAt(c: Setting, rows: seq<Submission>, x: Index, user: int, problem: int) {
    && Shaped(c, x) && user in c.registered && problem in c.problems
    && (forall u | u in c.registered && u != user :: UserCurrent(c.start, c.problems, rows, x.results, x.totals, u))
    && (forall p | p in c.problems && p != problem :: CellCurrent(c.start, rows, x.results, user, p))
  }

  /** The index after EnsureContestProblemResultProjection. */
  function Ensured(x: Index, user: int, problem: int): Index {
    if (user, problem) in x.results then x else x.(results := x.results[(user, problem) := EMPTY_RESULT])
  }

  lemma EnsuredIsCurrent(c: Setting, rows: seq<Submission>, x: Index, user: int, problem: int)
    requires Current(c, rows, x) && user in c.registered && problem in c.problems
    ensures Current(c, rows, Ensured(x, user, problem))
  {
    forall u | u in c.registered ensures UserCurrent(c.start, c.problems, rows, Ensured(x, user, problem).results, x.totals, u) {
      assert UserCurrent(c.start, c.problems, rows, x.results, x.totals, u);
      forall p | p in c.problems ensures CellCurrent(c.start, rows, Ensured(x, user, problem).results, u, p) {
        assert CellCurrent(c.start, rows, x.results, u, p);
      }
    }
  }

  /** Replacing one row's verdict leaves at most its own cell stale. */
  lemma ChangeMakesStale(c: Setting, rows: seq<Submission>, i: nat, row: Submission, x: Index)
    requires i < |rows| && rows[i].user == row.user && rows[i].problem == row.problem
    requires Current(c, rows, x)
    ensures row.user in c.registered && row.problem in c.problems ==> StaleAt(c, rows[i := row], x, row.user, row.problem)
    ensures row.user !in c.registered || row.problem !in c.problems ==> Current(c, rows[i := row], x)
  {
    forall u | u in c.registered && (u != row.user || row.problem !in c.problems)
      ensures UserCurrent(c.start, c.problems, rows[i := row], x.results, x.totals, u)
    {
      RowChangeKeeps(c.start, c.problems, rows, i, row, x.results, x.totals, u);
    }
    if row.user in c.registered {
      assert UserCurrent(c.start, c.problems, rows, x.results, x.totals, row.user);
      forall p | p in c.problems && p != row.problem ensures CellCurrent(c.start, rows[i := row], x.results, row.user, p) {
        OtherCellsKept(rows, i, row, row.user, p);
        assert CellCurrent(c.start, rows, x.results, row.user, p);
      }
    }
  }

  /** The index after the projection and the totals of one user are written. */
  function Rebuilt(c: Setting, rows: seq<Submission>, x: Index, user: int, problem: int): Index {
    var results := x.results[(user, problem) := CellResult(c.start, rows, user, problem)];
    Index(results, x.totals[user := Total(ListResults(results, c.problems, user))])
  }

  /** Writing the recomputed cell makes its user's cells current and touches nobody else's. */
  lemma RebuiltCells(c: Setting, rows: seq<Submission>, x: Index, user: int, problem: int)
    requires StaleAt(c, rows, x, user, problem)
    ensures UserCurrent(c.start, c.problems, rows, Rebuilt(c, rows, x, user, problem).results,
                        Rebuilt(c, rows, x, user, problem).totals, user)
  {
    var rebuilt := Rebuilt(c, rows, x, user, problem).results;
    forall p | p in c.problems ensures CellCurrent(c.start, rows, rebuilt, user, p) {
      assert p != problem ==> CellCurrent(c.start, rows, x.results, user, p);
    }
    TotalIsScratch(c.start, c.problems, rows, rebuilt, user);
  }

  lemma OtherUserRebuilt(c: Setting, rows: seq<Submission>, x: Index, user: int, problem: int, u: int)
    requires u != user && UserCurrent(c.start, c.problems, rows, x.results, x.totals, u)
    ensures UserCurrent(c.start, c.problems, rows, Rebuilt(c, rows, x, user, problem).results,
                        Rebuilt(c, rows, x, user, problem).totals, u)
  {
    forall p | p in c.problems ensures CellCurrent(c.start, rows, Rebuilt(c, rows, x, user, problem).results, u, p) {
      assert CellCurrent(c.start, rows, x.results, u, p);
    }
  }

  lemma RebuiltIsCurrent(c: Setting, rows: seq<Submission>, x: Index, user: int, problem: int)
    requires StaleAt(c, rows, x, user, problem)
    ensures Current(c, rows, Rebuilt(c, rows, x, user, problem))
  {
    RebuiltCells(c, rows, x, user, problem);
    var y := Rebuilt(c, rows, x, user, problem);
    forall u | u in c.registered ensures UserCurrent(c.start, c.problems, rows, y.results, y.totals, u) {
      if u != user {
        OtherUserRebuilt(c, rows, x, user, problem, u);
      }
    }
  }

  /** A current index is determined by the submissions alone, up to absent empty rows. */
  lemma CurrentIsUnique(c: Setting, rows: seq<Submission>, x: Index, y: Index)
    requires Current(c, rows, x) && Current(c, rows, y)
    ensures x.totals == y.totals
    ensures forall u, p | u in c.registered && p in c.problems :: Stored(x.results, u, p) == Stored(y.results, u, p)
  {
    forall u, p | u in c.registered && p in c.problems ensures Stored(x.results, u, p) == Stored(y.results, u, p) {
      assert UserCurrent(c.start, c.problems, rows, x.results, x.totals, u);
      assert CellCurrent(c.start, rows, x.results, u, p);
      assert UserCurrent(c.start, c.problems, rows, y.results, y.totals, u);
      assert CellCurrent(c.start, rows, y.results, u, p);
    }
    forall u | u in x.totals ensures x.totals[u] == y.totals[u] {
      assert UserCurrent(c.start, c.problems, rows, x.results, x.totals, u);
      assert UserCurrent(c.start, c.problems, rows, y.results, y.totals, u);
    }
  }

  lemma {:induction false} NoRowsScratch(start: Time, problems: seq<int>, user: int)
    ensures ScratchTotals(start, problems, [], user) == Totals(0, 0)
  {
    if problems != [] {
      NoRowsScratch(start, problems[..|problems| - 1], user);
    }
  }

  lemma NoRowsIsCurrent(c: Setting)
    ensures Current(c, [], Index(map[], map u | u in c.registered :: Totals(0, 0)))
  {
    forall u | u in c.registered ensures UserCurrent(c.start, c.problems, [], map[], map v | v in c.registered :: Totals(0, 0), u) {
      NoRowsScratch(c.start, c.problems, u);
    }
  }

  /** A new submission is queued, so it is not counted yet. */
  lemma NewRowKeeps(c: Setting, rows: seq<Submission>, row: Submission, x: Index)
    requires Current(c, rows, x) && !Terminal(row.status)
    ensures Current(c, rows + [row], x)
  {
    forall u | u in c.registered ensures UserCurrent(c.start, c.problems, rows + [row], x.results, x.totals, u) {
      forall p ensures Filter(Counted(u, p), rows) == Filter(Counted(u, p), rows + [row]) {
        FilterOneMore(Counted(u, p), rows, row);
      }
      UserKept(c.start, c.problems, rows, rows + [row], x.results, x.totals, u);
    }
  }

  lemma UncountedChangeKeeps(c: Setting, rows: seq<Submission>, i: nat, row: Submission, x: Index)
    requires i < |rows| && !Terminal(rows[i].status) && !Terminal(row.status)
    requires Current(c, rows, x)
    ensures Current(c, rows[i := row], x)
  {
    forall u | u in c.registered ensures UserCurrent(c.start, c.problems, rows[i := row], x.results, x.totals, u) {
      forall p ensures Filter(Counted(u, p), rows) == Filter(Counted(u, p), rows[i := row]) {
        UncountedRowsKept(rows, i, row, u, p);
      }
      UserKept(c.start, c.problems, rows, rows[i := row], x.results, x.totals, u);
    }
  }

  // ----- a current index in numbers -----

  /** A user's judged submissions to a problem. */
  function JudgedOf(rows: seq<Submission>, user: int, problem: int): (r: set<Submission>)
    ensures forall x :: x in r <==>
              x in rows && x.user == user && x.problem == problem && x.status != Queued && x.status != Running
  {
    set x | x in rows && x.user == user && x.problem == problem && x.status != Queued && x.status != Running
  }

  /** A stored cell is accepted exactly if one of its submissions is, and empty exactly if none has been judged. */
  lemma CellShows(c: Setting, rows: seq<Submission>, x: Index, user: int, problem: int)
    requires Current(c, rows, x) && user in c.registered && problem in c.problems
    ensures var cell := Stored(x.results, user, problem);
      && (cell.status.AcceptedResult? <==> exists s :: s in JudgedOf(rows, user, problem) && s.status == Accepted)
      && (cell.status.NoResult? <==> JudgedOf(rows, user, problem) == {})
  {
    assert UserCurrent(c.start, c.problems, rows, x.results, x.totals, user);
    assert CellCurrent(c.start, rows, x.results, user, problem);
    var counted := Filter(Counted(user, problem), rows);
    assert forall s :: s in counted <==> s in JudgedOf(rows, user, problem);
    AcceptedIff(c.start, counted);
    if counted != [] {
      assert counted[0] in JudgedOf(rows, user, problem);
    }
  }

  /** What an accepted cell says is read off the judged submissions: the first acceptance and those before it. */
  lemma AcceptedCellShows(c: Setting, rows: seq<Submission>, x: Index, user: int, problem: int) returns (best: Submission)
    requires Current(c, rows, x) && user in c.registered && problem in c.problems && DistinctIds(rows)
    requires Stored(x.results, user, problem).status.AcceptedResult?
    ensures var cell, judged := Stored(x.results, user, problem), JudgedOf(rows, user, problem);
      && IsFirst(best, judged)
      && cell.acceptedAt == Some(best.submittedAt) && cell.bestSubmission == Some(best.id) && cell.bestAttempt == best.attempt
      && cell.attempts == |Earlier(judged, best)| + 1
      && PenaltyIs(cell.penalty, best.submittedAt - c.start, |Earlier(judged, best)|)
  {
    assert UserCurrent(c.start, c.problems, rows, x.results, x.totals, user);
    assert CellCurrent(c.start, rows, x.results, user, problem);
    FilterKeyed((s: Submission) => s.id, Counted(user, problem), rows);
    best := AcceptedInNumbers(c.start, Filter(Counted(user, problem), rows), JudgedOf(rows, user, problem));
  }
}
