/**
 * The same standings, however they are computed: while the index is current, the live board
 * read page by page, the board built from the projections and the board folded from the raw
 * terminal submissions show the same rows.
 */
module Agreement {
  import opened Wrappers
  import opened Sorting
  import opened Submissions
  import opened Projection
  import opened Ranking
  import opened Scoreboard
  import opened Standings
  import opened Paging
  import opened PagedWalk
  import opened ContestIndex

  function IsTerminal(): Submission -> bool {
    (s: Submission) => Terminal(s.status)
  }

  /** A contest as the scoreboard reads it, over an index kept by the judging transactions. */
  datatype Tables = Tables(
    c: Setting,
    contest: Contest,
    problems: seq<ContestProblem>,
    rows: seq<Submission>,
    index: Index,
    results: seq<ResultRow>,
    table: seq<Entry>)

  ghost predicate Reads(t: Tables) {
    && t.contest.startAt == t.c.start
    && |t.problems| == |t.c.problems| && (forall i | 0 <= i < |t.problems| :: t.problems[i].id == t.c.problems[i])
    && (forall u, p :: LastResult(t.results, u, p) == if (u, p) in t.index.results then Some(t.index.results[(u, p)]) else None)
    && DistinctUsers(t.table)
    && (forall e | e in t.table ::
          && e.registration.user in t.c.registered && e.registration.user in t.index.totals
          && t.index.totals[e.registration.user] == ContestIndex.Totals(e.accepted, e.penalty))
    && DistinctIds(t.rows)
    && Current(t.c, t.rows, t.index)
  }

  function SourceOf(t: Tables): Source {
    Source(t.contest, t.problems, t.results)
  }

  lemma {:induction false} TerminalThenMatching(rows: seq<Submission>, user: int, problem: int)
    ensures Filter(Matching(user, problem), Filter(IsTerminal(), rows)) == Filter(Counted(user, problem), rows)
  {
    if rows != [] {
      TerminalThenMatching(rows[1..], user, problem);
    }
  }

  /** One stored cell, against the submissions it summarises. */
  lemma StoredCell(t: Tables, e: Entry, i: nat)
    requires Reads(t) && e in t.table && i < |t.problems|
    ensures var u := e.registration.user; var p := t.problems[i];
      && Stored(t.index.results, u, p.id) == CellResult(t.c.start, t.rows, u, p.id)
      && CellResult(t.c.start, t.rows, u, p.id) == ProjectionOf(t.contest.startAt, Filter(Matching(u, p.id), Filter(IsTerminal(), t.rows)))
  {
    var u, p := e.registration.user, t.problems[i];
    assert UserCurrent(t.c.start, t.c.problems, t.rows, t.index.results, t.index.totals, u);
    assert t.c.problems[i] in t.c.problems;
    assert CellCurrent(t.c.start, t.rows, t.index.results, u, p.id);
    TerminalThenMatching(t.rows, u, p.id);
  }

  lemma ProjectionOfNothing(start: Time, s: seq<Submission>)
    ensures ProjectionOf(start, s) == EMPTY_RESULT <==> s == []
  {
  }

  lemma ResultsAreProjections(t: Tables)
    requires Reads(t)
    ensures ResultsProject(t.contest, t.problems, Registrations(t.table), Filter(IsTerminal(), t.rows), t.results)
  {
    forall r, p | r in Registrations(t.table) && p in t.problems
      ensures var mine := Filter(Matching(r.user, p.id), Filter(IsTerminal(), t.rows));
        match LastResult(t.results, r.user, p.id)
        case None => mine == []
        case Some(result) => result == ProjectionOf(t.contest.startAt, mine)
    {
      var j :| 0 <= j < |t.table| && Registrations(t.table)[j] == r;
      var i :| 0 <= i < |t.problems| && t.problems[i] == p;
      assert t.table[j] in t.table;
      StoredCell(t, t.table[j], i);
      ProjectionOfNothing(t.contest.startAt, Filter(Matching(r.user, p.id), Filter(IsTerminal(), t.rows)));
    }
  }

  function OrEmpty(result: Option<ProblemResult>): ProblemResult {
    match result
    case None => EMPTY_RESULT
    case Some(r) => r
  }

  function CellAccepted(c: Cell): int {
    if c.status.AcceptedCell? then 1 else 0
  }

  function CellPenalty(c: Cell): int {
    if c.status.AcceptedCell? then c.penalty else 0
  }

  /** What a stored result adds to the totals is what its cell adds to the row. */
  lemma ResultAdds(contest: Contest, p: ContestProblem, result: Option<ProblemResult>, sum: ContestIndex.Totals)
    ensures var cell := ResultCell(contest, Live, p, result);
      Add(sum, OrEmpty(result)) == ContestIndex.Totals(sum.accepted + CellAccepted(cell), sum.penalty + CellPenalty(cell))
  {
  }

  lemma CellAdds(t: Tables, e: Entry, i: nat)
    requires Reads(t) && e in t.table && i < |t.problems|
    ensures OrEmpty(LastResult(t.results, e.registration.user, t.problems[i].id))
         == CellResult(t.c.start, t.rows, e.registration.user, t.c.problems[i])
  {
    StoredCell(t, e, i);
    assert LastResult(t.results, e.registration.user, t.problems[i].id)
        == if (e.registration.user, t.problems[i].id) in t.index.results
           then Some(t.index.results[(e.registration.user, t.problems[i].id)]) else None;
  }

  /** The running totals are the sums over the cells the board shows. */
  lemma {:induction false} CellsAddUp(s: Source, start: Time, ids: seq<int>, rows: seq<Submission>, user: int, n: nat)
    requires n <= |s.problems| == |ids|
    requires forall i | 0 <= i < n :: OrEmpty(LastResult(s.results, user, s.problems[i].id)) == CellResult(start, rows, user, ids[i])
    ensures var cells := CellsFor(s.problems, user, ResultCells(s.contest, Live, s.results));
      ScratchTotals(start, ids[..n], rows, user) == ContestIndex.Totals(AcceptedIn(cells[..n]), PenaltyIn(cells[..n]))
  {
    if n > 0 {
      CellsAddUp(s, start, ids, rows, user, n - 1);
      OneMoreCell(s, start, ids, rows, user, n);
    }
  }

  lemma ScratchOneMore(start: Time, ids: seq<int>, rows: seq<Submission>, user: int, n: nat)
    requires 0 < n <= |ids|
    ensures ScratchTotals(start, ids[..n], rows, user) == Add(ScratchTotals(start, ids[..n - 1], rows, user), CellResult(start, rows, user, ids[n - 1]))
  {
    assert ids[..n][..n - 1] == ids[..n - 1];
  }

  lemma CellTotalsGrow(cells: seq<Cell>, n: nat, contest: Contest, p: ContestProblem, result: Option<ProblemResult>, sum: ContestIndex.Totals)
    requires n < |cells| && cells[n] == ResultCell(contest, Live, p, result)
    requires sum == ContestIndex.Totals(AcceptedIn(cells[..n]), PenaltyIn(cells[..n]))
    ensures Add(sum, OrEmpty(result)) == ContestIndex.Totals(AcceptedIn(cells[..n + 1]), PenaltyIn(cells[..n + 1]))
  {
    TotalsGrow(cells, n);
    ResultAdds(contest, p, result, sum);
  }

  lemma OneMoreCell(s: Source, start: Time, ids: seq<int>, rows: seq<Submission>, user: int, n: nat)
    requires 0 < n <= |s.problems| == |ids|
    requires OrEmpty(LastResult(s.results, user, s.problems[n - 1].id)) == CellResult(start, rows, user, ids[n - 1])
    requires var cells := CellsFor(s.problems, user, ResultCells(s.contest, Live, s.results));
      ScratchTotals(start, ids[..n - 1], rows, user) == ContestIndex.Totals(AcceptedIn(cells[..n - 1]), PenaltyIn(cells[..n - 1]))
    ensures var cells := CellsFor(s.problems, user, ResultCells(s.contest, Live, s.results));
      ScratchTotals(start, ids[..n], rows, user) == ContestIndex.Totals(AcceptedIn(cells[..n]), PenaltyIn(cells[..n]))
  {
    var p := s.problems[n - 1];
    var cells := CellsFor(s.problems, user, ResultCells(s.contest, Live, s.results));
    var result, sum := LastResult(s.results, user, p.id), ScratchTotals(start, ids[..n - 1], rows, user);
    CellTotalsGrow(cells, n - 1, s.contest, p, result, sum);
    ScratchOneMore(start, ids, rows, user, n);
  }

  lemma EntryIsScratch(t: Tables, e: Entry)
    requires Reads(t) && e in t.table
    ensures ContestIndex.Totals(e.accepted, e.penalty) == ScratchTotals(t.c.start, t.c.problems, t.rows, e.registration.user)
    ensures |t.problems| == |t.c.problems|
    ensures forall i | 0 <= i < |t.problems| ::
      OrEmpty(LastResult(t.results, e.registration.user, t.problems[i].id))
      == CellResult(t.c.start, t.rows, e.registration.user, t.c.problems[i])
  {
    assert UserCurrent(t.c.start, t.c.problems, t.rows, t.index.results, t.index.totals, e.registration.user);
    forall i | 0 <= i < |t.problems|
      ensures OrEmpty(LastResult(t.results, e.registration.user, t.problems[i].id))
           == CellResult(t.c.start, t.rows, e.registration.user, t.c.problems[i])
    {
      CellAdds(t, e, i);
    }
  }

  lemma TotalsAreCurrent(t: Tables)
    requires Reads(t)
    ensures TotalsCurrent(SourceOf(t), t.table)
  {
    forall e | e in t.table
      ensures var cells := CellsFor(t.problems, e.registration.user, ResultCells(t.contest, Live, t.results));
        e.accepted == AcceptedIn(cells) && e.penalty == PenaltyIn(cells)
    {
      EntryIsScratch(t, e);
      EntryAddsUp(SourceOf(t), t.c.start, t.c.problems, t.rows, e);
    }
  }

  lemma EntryAddsUp(s: Source, start: Time, ids: seq<int>, rows: seq<Submission>, e: Entry)
    requires |s.problems| == |ids|
    requires ContestIndex.Totals(e.accepted, e.penalty) == ScratchTotals(start, ids, rows, e.registration.user)
    requires forall i | 0 <= i < |ids| ::
      OrEmpty(LastResult(s.results, e.registration.user, s.problems[i].id)) == CellResult(start, rows, e.registration.user, ids[i])
    ensures var cells := CellsFor(s.problems, e.registration.user, ResultCells(s.contest, Live, s.results));
      e.accepted == AcceptedIn(cells) && e.penalty == PenaltyIn(cells)
  {
    var cells := CellsFor(s.problems, e.registration.user, ResultCells(s.contest, Live, s.results));
    CellsAddUp(s, start, ids, rows, e.registration.user, |ids|);
    assert cells[..|ids|] == cells && ids[..|ids|] == ids;
  }

  /**
   * The pages of the live board, followed to the end with any page sizes, hold exactly the
   * rows of the board built from the projections; and that board is, cell for cell, the one
   * folded from the terminal submissions.
   */
  lemma StandingsAgree(t: Tables, sizes: seq<nat>)
    requires Reads(t) && Positive(sizes) && sizes != [] && |sizes| >= |Standing(t.table)|
    ensures var walk := Walk(SourceOf(t), t.table, sizes);
            var fromResults := Board(t.problems, Registrations(t.table), ResultCells(t.contest, Live, t.results));
            var fromSubmissions := Board(t.problems, Registrations(t.table), FoldCells(t.contest, Live, Filter(IsTerminal(), t.rows)));
      && walk.done
      && multiset(walk.rows) == multiset(fromResults)
      && ComparableRows(fromResults) == ComparableRows(fromSubmissions)
  {
    WalkTerminates(SourceOf(t), t.table, sizes);
    TotalsAreCurrent(t);
    PagedRowsAreBoardRows(SourceOf(t), t.table);
    ResultsAreProjections(t);
    FilterKeepsDistinct(IsTerminal(), t.rows);
    TwoScoringsAgree(t.contest, Live, t.problems, Registrations(t.table), Filter(IsTerminal(), t.rows), t.results);
  }
}
