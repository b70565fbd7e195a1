/**
 * internal/contest/scoreboard.go: a board built from the per-problem projections, and a
 * board folded from the raw submissions, each against one definition of a cell.
 */
module Scoreboard {
  import opened Wrappers
  import opened Sorting
  import opened Submissions
  import opened Projection
  import opened Ranking

  datatype View = Live | FrozenView | Final

  datatype Contest = Contest(startAt: Time, freezeAt: Time)

  datatype ContestProblem = ContestProblem(id: int, alias: string)

  datatype Registration = Registration(user: int, name: string, active: bool)

  datatype ResultRow = ResultRow(user: int, problem: int, result: ProblemResult)

  // ----- rows common to every board -----

  function BlankCell(p: ContestProblem): Cell {
    Cell(p.id, p.alias, NoCell, 0, 0, None, 0, None)
  }

  function CellsFor(problems: seq<ContestProblem>, user: int, cell: (int, ContestProblem) -> Cell): (cells: seq<Cell>)
    ensures |cells| == |problems|
    ensures forall j | 0 <= j < |problems| :: cells[j] == cell(user, problems[j])
  {
    seq(|problems|, j requires 0 <= j < |problems| => cell(user, problems[j]))
  }

  function AcceptedIn(cells: seq<Cell>): nat {
    if cells == [] then 0
    else AcceptedIn(cells[..|cells| - 1]) + if cells[|cells| - 1].status.AcceptedCell? then 1 else 0
  }

  function PenaltyIn(cells: seq<Cell>): int {
    if cells == [] then 0
    else PenaltyIn(cells[..|cells| - 1]) + if cells[|cells| - 1].status.AcceptedCell? then cells[|cells| - 1].penalty else 0
  }

  function RowOf(user: int, name: string, cells: seq<Cell>): Row {
    Row(0, user, name, AcceptedIn(cells), PenaltyIn(cells), cells)
  }

  /** One unranked row per active registration, given what each cell shows. */
  function RowsOf(problems: seq<ContestProblem>, registrations: seq<Registration>,
                  cell: (int, ContestProblem) -> Cell): seq<Row>
  {
    if registrations == [] then []
    else
      var r := registrations[0];
      (if r.active then [RowOf(r.user, r.name, CellsFor(problems, r.user, cell))] else [])
      + RowsOf(problems, registrations[1..], cell)
  }

  function Board(problems: seq<ContestProblem>, registrations: seq<Registration>,
                 cell: (int, ContestProblem) -> Cell): seq<Row>
  {
    Ranked(RowsOf(problems, registrations, cell))
  }

  function BlankCells(): (int, ContestProblem) -> Cell {
    (user: int, p: ContestProblem) => BlankCell(p)
  }

  lemma {:induction false} BlankTotals(cells: seq<Cell>)
    requires forall c | c in cells :: !c.status.AcceptedCell?
    ensures AcceptedIn(cells) == 0 && PenaltyIn(cells) == 0
  {
    if cells != [] {
      BlankTotals(cells[..|cells| - 1]);
    }
  }

  lemma {:induction false} RowsOfShape(problems: seq<ContestProblem>, registrations: seq<Registration>,
                                       a: (int, ContestProblem) -> Cell, b: (int, ContestProblem) -> Cell)
    ensures var s, t := RowsOf(problems, registrations, a), RowsOf(problems, registrations, b);
      && |s| == |t|
      && forall i | 0 <= i < |s| ::
           && s[i] == RowOf(s[i].user, s[i].name, CellsFor(problems, s[i].user, a))
           && t[i] == RowOf(s[i].user, s[i].name, CellsFor(problems, s[i].user, b))
           && exists r :: r in registrations && r.active && r.user == s[i].user && r.name == s[i].name
  {
    if registrations != [] {
      RowsOfShape(problems, registrations[1..], a, b);
      assert registrations[0] in registrations;
    }
  }

  lemma TotalsGrow(goal: seq<Cell>, j: nat)
    requires j < |goal|
    ensures AcceptedIn(goal[..j + 1]) == AcceptedIn(goal[..j]) + if goal[j].status.AcceptedCell? then 1 else 0
    ensures PenaltyIn(goal[..j + 1]) == PenaltyIn(goal[..j]) + if goal[j].status.AcceptedCell? then goal[j].penalty else 0
  {
    assert goal[..j + 1][..j] == goal[..j];
  }

  lemma BlankRow(problems: seq<ContestProblem>, user: int, name: string)
    ensures var blank := CellsFor(problems, user, BlankCells());
      RowOf(user, name, blank) == Row(0, user, name, 0, 0, blank)
  {
    BlankTotals(CellsFor(problems, user, BlankCells()));
  }

  /** Fills the cells of one blank row in place and adds up the accepted ones. */
  method FillRow(problems: seq<ContestProblem>, cell: (int, ContestProblem) -> Cell,
                 rows: array<Row>, i: nat, ghost user: int, ghost name: string)
    requires i < rows.Length
    requires rows[i] == RowOf(user, name, CellsFor(problems, user, BlankCells()))
    modifies rows
    ensures rows[i] == RowOf(user, name, CellsFor(problems, user, cell))
    ensures forall k | 0 <= k < rows.Length && k != i :: rows[k] == old(rows[k])
  {
    ghost var goal := CellsFor(problems, user, cell);
    BlankRow(problems, user, name);
    for j := 0 to |problems|
      invariant forall k | 0 <= k < rows.Length && k != i :: rows[k] == old(rows[k])
      invariant rows[i] == Row(0, user, name, AcceptedIn(goal[..j]), PenaltyIn(goal[..j]), rows[i].cells)
      invariant |rows[i].cells| == |problems| && forall k | 0 <= k < j :: rows[i].cells[k] == goal[k]
    {
      var c := cell(rows[i].user, problems[j]);
      TotalsGrow(goal, j);
      rows[i] := rows[i].(cells := rows[i].cells[j := c]);
      if c.status.AcceptedCell? {
        rows[i] := rows[i].(accepted := rows[i].accepted + 1, penalty := rows[i].penalty + c.penalty);
      }
    }
    assert rows[i].cells == goal == goal[..|problems|];
  }

  method FillRows(problems: seq<ContestProblem>, registrations: seq<Registration>,
                  cell: (int, ContestProblem) -> Cell) returns (rows: array<Row>)
    ensures fresh(rows)
    ensures rows[..] == RowsOf(problems, registrations, cell)
  {
    ghost var goal := RowsOf(problems, registrations, cell);
    var blank := RowsOf(problems, registrations, BlankCells());
    RowsOfShape(problems, registrations, cell, BlankCells());
    rows := new Row[|blank|](i requires 0 <= i < |blank| => blank[i]);
    for i := 0 to rows.Length
      invariant forall k | 0 <= k < i :: rows[k] == goal[k]
      invariant forall k | i <= k < rows.Length :: rows[k] == blank[k]
    {
      FillRow(problems, cell, rows, i, goal[i].user, goal[i].name);
    }
  }

  // ----- the board from projections -----

  /** The last row for the key, as filling a Go map in input order leaves it. */
  function LastResult(results: seq<ResultRow>, user: int, problem: int): Option<ProblemResult> {
    if results == [] then None
    else
      var last := results[|results| - 1];
      if last.user == user && last.problem == problem then Some(last.result)
      else LastResult(results[..|results| - 1], user, problem)
  }

  function ResultStatusCell(status: ResultStatus): CellStatus {
    match status
    case NoResult => NoCell
    case AttemptedResult => AttemptedCell
    case AcceptedResult => AcceptedCell
  }

  function ResultCell(contest: Contest, view: View, p: ContestProblem, result: Option<ProblemResult>): Cell {
    match result
    case None => BlankCell(p)
    case Some(r) =>
      if view.FrozenView? && r.acceptedAt.Some? && r.acceptedAt.value > contest.freezeAt then
        Cell(p.id, p.alias, FrozenCell, 0, r.attempts, None, 0, None)
      else
        var attempts := if r.status.AcceptedResult? && r.attempts > 0 then r.attempts - 1 else r.attempts;
        Cell(p.id, p.alias, ResultStatusCell(r.status), attempts, 0, r.acceptedAt, r.penalty, r.lastSubmission)
  }

  function ResultCells(contest: Contest, view: View, results: seq<ResultRow>): (int, ContestProblem) -> Cell {
    (user: int, p: ContestProblem) => ResultCell(contest, view, p, LastResult(results, user, p.id))
  }

  function MapResultCells(contest: Contest, view: View, byUserProblem: map<(int, int), ProblemResult>):
    (int, ContestProblem) -> Cell
  {
    (user: int, p: ContestProblem) =>
      ResultCell(contest, view, p, if (user, p.id) in byUserProblem then Some(byUserProblem[(user, p.id)]) else None)
  }

  /** On the frozen board a result accepted after the freeze shows how often was tried, and nothing else of it. */
  lemma FrozenResultHides(contest: Contest, p: ContestProblem, r: ProblemResult)
    ensures r.acceptedAt.Some? && r.acceptedAt.value > contest.freezeAt ==>
              ResultCell(contest, FrozenView, p, Some(r)) == Cell(p.id, p.alias, FrozenCell, 0, r.attempts, None, 0, None)
    ensures r.acceptedAt.None? || r.acceptedAt.value <= contest.freezeAt ==>
              ResultCell(contest, FrozenView, p, Some(r)) == ResultCell(contest, Live, p, Some(r))
    ensures ResultCell(contest, Live, p, Some(r)) == ResultCell(contest, Final, p, Some(r))
  {
  }

  lemma RowsOfSame(problems: seq<ContestProblem>, registrations: seq<Registration>,
                   a: (int, ContestProblem) -> Cell, b: (int, ContestProblem) -> Cell)
    requires forall r, p | r in registrations && r.active && p in problems :: a(r.user, p) == b(r.user, p)
    ensures RowsOf(problems, registrations, a) == RowsOf(problems, registrations, b)
  {
    RowsOfShape(problems, registrations, a, b);
    var s, t := RowsOf(problems, registrations, a), RowsOf(problems, registrations, b);
    forall i | 0 <= i < |s| ensures s[i] == t[i] {
      var r :| r in registrations && r.active && r.user == s[i].user;
      assert forall j | 0 <= j < |problems| :: problems[j] in problems;
      assert CellsFor(problems, r.user, a) == CellsFor(problems, r.user, b);
    }
  }

  method BuildBoardFromResults(contest: Contest, view: View, problems: seq<ContestProblem>,
                               registrations: seq<Registration>, results: seq<ResultRow>)
    returns (rows: array<Row>)
    ensures fresh(rows)
    ensures rows[..] == Board(problems, registrations, ResultCells(contest, view, results))
  {
    var byUserProblem: map<(int, int), ProblemResult> := map[];
    for i := 0 to |results|
      invariant forall u, p :: LastResult(results[..i], u, p) ==
                               if (u, p) in byUserProblem then Some(byUserProblem[(u, p)]) else None
    {
      assert results[..i + 1][..i] == results[..i];
      byUserProblem := byUserProblem[(results[i].user, results[i].problem) := results[i].result];
    }
    assert results[..|results|] == results;
    RowsOfSame(problems, registrations, MapResultCells(contest, view, byUserProblem), ResultCells(contest, view, results));
    rows := FillRows(problems, registrations, MapResultCells(contest, view, byUserProblem));
    RankRows(rows);
  }

  // ----- the board from submissions -----

  /** Submitted before the freeze and first judged by then. */
  predicate Visible(contest: Contest, s: Submission) {
    var judgedAt := match s.firstJudgedAt case Some(t) => t case None => s.judgedAt;
    s.submittedAt < contest.freezeAt && judgedAt <= contest.freezeAt
  }

  function Shown(contest: Contest, view: View): Submission -> bool {
    (s: Submission) => !view.FrozenView? || Visible(contest, s)
  }

  /** The value of a `submissionCellState`. */
  datatype CellState = CellState(
    wrongAttempts: nat,
    wrongBeforeAccepted: nat,
    hiddenAttempts: nat,
    acceptedAt: Option<Time>,
    penalty: int,
    lastSubmission: Option<int>)

  const NEW_STATE := CellState(0, 0, 0, None, 0, None)

  function AfterSubmission(contest: Contest, view: View, state: CellState, s: Submission): CellState {
    if !Shown(contest, view)(s) then state.(hiddenAttempts := state.hiddenAttempts + 1)
    else if state.acceptedAt.Some? then state
    else if s.status.Accepted? then
      state.(
        acceptedAt := Some(s.submittedAt),
        wrongBeforeAccepted := state.wrongAttempts,
        penalty := WholeMinutes(s.submittedAt - contest.startAt) + state.wrongAttempts * 20,
        lastSubmission := Some(s.id))
    else state.(wrongAttempts := state.wrongAttempts + 1)
  }

  function Fold(contest: Contest, view: View, s: seq<Submission>): CellState {
    if s == [] then NEW_STATE
    else AfterSubmission(contest, view, Fold(contest, view, s[..|s| - 1]), s[|s| - 1])
  }

  class SubmissionCellState {
    var wrongAttempts: nat
    var wrongBeforeAccepted: nat
    var hiddenAttempts: nat
    var acceptedAt: Option<Time>
    var penalty: int
    var lastSubmission: Option<int>

    function Value(): CellState
      reads this
    {
      CellState(wrongAttempts, wrongBeforeAccepted, hiddenAttempts, acceptedAt, penalty, lastSubmission)
    }

    constructor ()
      ensures Value() == NEW_STATE
    {
      wrongAttempts, wrongBeforeAccepted, hiddenAttempts := 0, 0, 0;
      acceptedAt, penalty, lastSubmission := None, 0, None;
    }
  }

  method ApplyVisibleSubmission(contest: Contest, state: SubmissionCellState, s: Submission)
    modifies state
    ensures state.Value() == AfterSubmission(contest, Live, old(state.Value()), s)
  {
    if state.acceptedAt.Some? {
      return;
    }
    if s.status.Accepted? {
      state.acceptedAt := Some(s.submittedAt);
      state.wrongBeforeAccepted := state.wrongAttempts;
      state.penalty := WholeMinutes(s.submittedAt - contest.startAt) + state.wrongAttempts * 20;
      state.lastSubmission := Some(s.id);
      return;
    }
    state.wrongAttempts := state.wrongAttempts + 1;
  }

  function StateCell(p: ContestProblem, state: CellState): Cell {
    if state.acceptedAt.Some? then
      Cell(p.id, p.alias, AcceptedCell, state.wrongBeforeAccepted, 0, state.acceptedAt, state.penalty, state.lastSubmission)
    else if state.hiddenAttempts > 0 then
      Cell(p.id, p.alias, FrozenCell, 0, state.hiddenAttempts, None, 0, None)
    else if state.wrongAttempts > 0 then
      Cell(p.id, p.alias, AttemptedCell, state.wrongAttempts, 0, None, 0, None)
    else BlankCell(p)
  }

  function FoldCells(contest: Contest, view: View, submissions: seq<Submission>): (int, ContestProblem) -> Cell {
    (user: int, p: ContestProblem) =>
      StateCell(p, CellFold(contest, view, Sort(SubmittedBefore, submissions), user, p.id))
  }

  function MapStateCells(states: map<(int, int), CellState>): (int, ContestProblem) -> Cell {
    (user: int, p: ContestProblem) =>
      if (user, p.id) in states then StateCell(p, states[(user, p.id)]) else BlankCell(p)
  }

  function ValueAt(states: map<(int, int), SubmissionCellState>, u: int, p: int): CellState
    reads states.Values
  {
    if (u, p) in states then states[(u, p)].Value() else NEW_STATE
  }

  function CellFold(contest: Contest, view: View, ordered: seq<Submission>, u: int, p: int): CellState {
    Fold(contest, view, Filter(Matching(u, p), ordered))
  }

  /** The running states: one object per key, holding the fold of what it has seen. */
  ghost predicate StatesFold(contest: Contest, view: View, seen: seq<Submission>,
                             states: map<(int, int), SubmissionCellState>)
    reads states.Values
  {
    && (forall k, l | k in states && l in states && k != l :: states[k] != states[l])
    && (forall u, p :: ValueAt(states, u, p) == CellFold(contest, view, seen, u, p))
  }

  lemma FoldOneMore(contest: Contest, view: View, seen: seq<Submission>, s: Submission, u: int, p: int)
    ensures CellFold(contest, view, seen + [s], u, p) ==
            if (s.user, s.problem) == (u, p) then AfterSubmission(contest, view, CellFold(contest, view, seen, u, p), s)
            else CellFold(contest, view, seen, u, p)
  {
    var before := Filter(Matching(u, p), seen);
    FilterOneMore(Matching(u, p), seen, s);
    assert (before + [s])[..|before|] == before;
  }

  method Observe(contest: Contest, view: View, ghost seen: seq<Submission>,
                 states: map<(int, int), SubmissionCellState>, s: Submission)
    returns (after: map<(int, int), SubmissionCellState>)
    requires StatesFold(contest, view, seen, states)
    modifies states.Values
    ensures StatesFold(contest, view, seen + [s], after)
    ensures forall k | k in after :: (k in states && after[k] == states[k]) || fresh(after[k])
  {
    var key := (s.user, s.problem);
    after := states;
    if key !in after {
      var state := new SubmissionCellState();
      after := after[key := state];
    }
    label found:
    assert forall u, p :: ValueAt(after, u, p) == CellFold(contest, view, seen, u, p);
    if Shown(contest, view)(s) {
      ApplyVisibleSubmission(contest, after[key], s);
    } else {
      after[key].hiddenAttempts := after[key].hiddenAttempts + 1;
    }
    forall u, p ensures ValueAt(after, u, p) == CellFold(contest, view, seen + [s], u, p) {
      FoldOneMore(contest, view, seen, s, u, p);
      assert old@found(ValueAt(after, u, p)) == CellFold(contest, view, seen, u, p);
    }
  }

  method FoldSubmissions(contest: Contest, view: View, ordered: seq<Submission>)
    returns (states: map<(int, int), SubmissionCellState>)
    ensures StatesFold(contest, view, ordered, states)
  {
    states := map[];
    for i := 0 to |ordered|
      invariant StatesFold(contest, view, ordered[..i], states)
      invariant forall k | k in states :: fresh(states[k])
    {
      assert ordered[..i + 1] == ordered[..i] + [ordered[i]];
      states := Observe(contest, view, ordered[..i], states, ordered[i]);
    }
    assert ordered[..|ordered|] == ordered;
  }

  method BuildBoardFromSubmissions(contest: Contest, view: View, problems: seq<ContestProblem>,
                                   registrations: seq<Registration>, submissions: seq<Submission>)
    returns (rows: array<Row>)
    ensures fresh(rows)
    ensures rows[..] == Board(problems, registrations, FoldCells(contest, view, submissions))
  {
    var ordered := Sort(SubmittedBefore, submissions);
    var states := FoldSubmissions(contest, view, ordered);
    var values := map k | k in states :: states[k].Value();
    RowsOfSame(problems, registrations, MapStateCells(values), FoldCells(contest, view, submissions));
    rows := FillRows(problems, registrations, MapStateCells(values));
    RankRows(rows);
  }
}
