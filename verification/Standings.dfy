/**
 * What the two scoring algorithms and the frozen board promise. A cell is first given one
 * definition on the set of its submissions; each algorithm is then compared with it.
 */
module Standings {
  import opened Wrappers
  import opened Sorting
  import opened Submissions
  import opened Projection
  import opened Ranking
  import opened Scoreboard

  /** The cell for shown submissions in scoring order, with `hidden` more not shown. */
  function VerdictCell(contest: Contest, p: ContestProblem, shown: seq<Submission>, hidden: nat): Cell {
    var k := FirstAccepted(shown);
    if k < |shown| then
      Cell(p.id, p.alias, AcceptedCell, k, 0, Some(shown[k].submittedAt),
           WholeMinutes(shown[k].submittedAt - contest.startAt) + k * 20, Some(shown[k].id))
    else if hidden > 0 then Cell(p.id, p.alias, FrozenCell, 0, hidden, None, 0, None)
    else if shown != [] then Cell(p.id, p.alias, AttemptedCell, |shown|, 0, None, 0, None)
    else BlankCell(p)
  }

  function Hidden(contest: Contest, view: View): Submission -> bool {
    (s: Submission) => !Shown(contest, view)(s)
  }

  lemma {:induction false} FirstAcceptedOneMore(s: seq<Submission>, x: Submission)
    ensures FirstAccepted(s + [x]) ==
            if FirstAccepted(s) < |s| then FirstAccepted(s) else if x.status.Accepted? then |s| else |s| + 1
  {
    if s != [] && !s[0].status.Accepted? {
      assert (s + [x])[1..] == s[1..] + [x];
      FirstAcceptedOneMore(s[1..], x);
    } else if s == [] {
      assert s + [x] == [x];
    }
  }

  /** The running state, read off the shown submissions and the number hidden. */
  function StateOf(contest: Contest, shown: seq<Submission>, hidden: nat): CellState {
    var k := FirstAccepted(shown);
    if k < |shown| then
      CellState(k, k, hidden, Some(shown[k].submittedAt),
                WholeMinutes(shown[k].submittedAt - contest.startAt) + k * 20, Some(shown[k].id))
    else CellState(k, 0, hidden, None, 0, None)
  }

  lemma StateOneMore(contest: Contest, view: View, shown: seq<Submission>, hidden: nat, x: Submission)
    ensures AfterSubmission(contest, view, StateOf(contest, shown, hidden), x) ==
            if Shown(contest, view)(x) then StateOf(contest, shown + [x], hidden) else StateOf(contest, shown, hidden + 1)
  {
    FirstAcceptedOneMore(shown, x);
  }

  lemma {:induction false} FoldMeaning(contest: Contest, view: View, s: seq<Submission>)
    ensures Fold(contest, view, s) ==
            StateOf(contest, Filter(Shown(contest, view), s), |Filter(Hidden(contest, view), s)|)
  {
    if s != [] {
      var before, x := s[..|s| - 1], s[|s| - 1];
      FoldMeaning(contest, view, before);
      assert s == before + [x];
      FilterOneMore(Shown(contest, view), before, x);
      FilterOneMore(Hidden(contest, view), before, x);
      StateOneMore(contest, view, Filter(Shown(contest, view), before), |Filter(Hidden(contest, view), before)|, x);
      assert Hidden(contest, view)(x) <==> !Shown(contest, view)(x);
    }
  }

  lemma StateCellMeaning(contest: Contest, view: View, p: ContestProblem, s: seq<Submission>)
    ensures StateCell(p, Fold(contest, view, s)) ==
            VerdictCell(contest, p, Filter(Shown(contest, view), s), |Filter(Hidden(contest, view), s)|)
  {
    FoldMeaning(contest, view, s);
  }

  lemma FilterKeepsDistinct(keep: Submission -> bool, s: seq<Submission>)
    requires DistinctIds(s)
    ensures DistinctIds(Filter(keep, s))
  {
    FilterKeyed((x: Submission) => x.id, keep, s);
  }

  /** The folded cell, as a function of the unordered submissions of that cell. */
  lemma FoldedCell(contest: Contest, view: View, submissions: seq<Submission>, user: int, p: ContestProblem)
    requires DistinctIds(submissions)
    ensures var mine := Filter(Matching(user, p.id), submissions);
      FoldCells(contest, view, submissions)(user, p) ==
      VerdictCell(contest, p, Sort(SubmittedBefore, Filter(Shown(contest, view), mine)),
                  |Filter(Hidden(contest, view), mine)|)
  {
    var mine := Filter(Matching(user, p.id), submissions);
    SubmittedBeforeIsLinear(submissions);
    FilterSort(SubmittedBefore, Matching(user, p.id), submissions);
    FilterKeepsDistinct(Matching(user, p.id), submissions);
    SubmittedBeforeIsLinear(mine);
    FilterSort(SubmittedBefore, Shown(contest, view), mine);
    FilterSort(SubmittedBefore, Hidden(contest, view), mine);
    StateCellMeaning(contest, view, p, Sort(SubmittedBefore, mine));
  }

  // ----- the two scoring algorithms -----

  /** The results table holds exactly the projection of every cell with submissions. */
  ghost predicate ResultsProject(contest: Contest, problems: seq<ContestProblem>, registrations: seq<Registration>,
                                 submissions: seq<Submission>, results: seq<ResultRow>)
  {
    forall r, p | r in registrations && p in problems ::
      var mine := Filter(Matching(r.user, p.id), submissions);
      match LastResult(results, r.user, p.id)
      case None => mine == []
      case Some(result) => result == ProjectionOf(contest.startAt, mine)
  }

  /** A cell without the id the two algorithms record differently on unsolved problems. */
  function Comparable(c: Cell): Cell {
    if c.status.AcceptedCell? then c else c.(lastSubmission := None)
  }

  function ComparableCells(cell: (int, ContestProblem) -> Cell): (int, ContestProblem) -> Cell {
    (user: int, p: ContestProblem) => Comparable(cell(user, p))
  }

  function ComparableRow(r: Row): Row {
    r.(cells := seq(|r.cells|, i requires 0 <= i < |r.cells| => Comparable(r.cells[i])))
  }

  function ComparableRows(rows: seq<Row>): (r: seq<Row>)
    ensures |r| == |rows|
    ensures forall i | 0 <= i < |rows| :: r[i] == ComparableRow(rows[i])
  {
    if rows == [] then [] else [ComparableRow(rows[0])] + ComparableRows(rows[1..])
  }

  lemma CellsAgree(contest: Contest, view: View, submissions: seq<Submission>, user: int, p: ContestProblem,
                   result: Option<ProblemResult>)
    requires !view.FrozenView? && DistinctIds(submissions)
    requires var mine := Filter(Matching(user, p.id), submissions);
      result == (if mine == [] then None else Some(ProjectionOf(contest.startAt, mine)))
      || result == Some(ProjectionOf(contest.startAt, mine))
    ensures Comparable(ResultCell(contest, view, p, result)) == Comparable(FoldCells(contest, view, submissions)(user, p))
  {
    var mine := Filter(Matching(user, p.id), submissions);
    FoldedCell(contest, view, submissions, user, p);
    FilterAll(Shown(contest, view), mine);
    FilterNothing(Hidden(contest, view), mine);
  }

  lemma {:induction false} ComparableTotals(cells: seq<Cell>, other: seq<Cell>)
    requires |cells| == |other| && forall i | 0 <= i < |cells| :: other[i] == Comparable(cells[i])
    ensures AcceptedIn(cells) == AcceptedIn(other) && PenaltyIn(cells) == PenaltyIn(other)
  {
    if cells != [] {
      ComparableTotals(cells[..|cells| - 1], other[..|other| - 1]);
    }
  }

  lemma ComparableRowsOf(problems: seq<ContestProblem>, registrations: seq<Registration>,
                         cell: (int, ContestProblem) -> Cell)
    ensures ComparableRows(RowsOf(problems, registrations, cell)) == RowsOf(problems, registrations, ComparableCells(cell))
  {
    RowsOfShape(problems, registrations, cell, ComparableCells(cell));
    var s, t := RowsOf(problems, registrations, cell), RowsOf(problems, registrations, ComparableCells(cell));
    forall i | 0 <= i < |s| ensures ComparableRow(s[i]) == t[i] {
      var a, b := CellsFor(problems, s[i].user, cell), CellsFor(problems, s[i].user, ComparableCells(cell));
      assert s[i].cells == a;
      ComparableTotals(a, b);
      assert ComparableRow(s[i]).cells == b;
    }
  }

  lemma {:induction false} ComparableInsert(x: Row, s: seq<Row>)
    ensures ComparableRows(Insert(RowLeq, x, s)) == Insert(RowLeq, ComparableRow(x), ComparableRows(s))
  {
    if s != [] && !RowLeq(x, s[0]) {
      ComparableInsert(x, s[1..]);
      assert ComparableRows(s)[1..] == ComparableRows(s[1..]);
    }
  }

  lemma {:induction false} ComparableSort(s: seq<Row>)
    ensures ComparableRows(Sort(RowLeq, s)) == Sort(RowLeq, ComparableRows(s))
  {
    if s != [] {
      ComparableSort(s[1..]);
      ComparableInsert(s[0], Sort(RowLeq, s[1..]));
      assert ComparableRows(s)[1..] == ComparableRows(s[1..]);
    }
  }

  lemma ComparableAppend(s: seq<Row>, x: Row)
    ensures ComparableRows(s + [x]) == ComparableRows(s) + [ComparableRow(x)]
  {
  }

  lemma {:induction false} ComparableRanks(s: seq<Row>)
    ensures ComparableRows(AssignRanks(s)) == AssignRanks(ComparableRows(s))
  {
    if s != [] {
      var n := |s| - 1;
      ComparableRanks(s[..n]);
      assert ComparableRows(s)[..n] == ComparableRows(s[..n]);
      var before := AssignRanks(s[..n]);
      ComparableAppend(before, s[n].(rank := if n > 0 && SameScore(s[n], s[n - 1]) then before[n - 1].rank else n + 1));
    }
  }

  lemma ComparableBoard(problems: seq<ContestProblem>, registrations: seq<Registration>, cell: (int, ContestProblem) -> Cell)
    ensures ComparableRows(Board(problems, registrations, cell)) == Board(problems, registrations, ComparableCells(cell))
  {
    ComparableRowsOf(problems, registrations, cell);
    ComparableSort(RowsOf(problems, registrations, cell));
    ComparableRanks(Sort(RowLeq, RowsOf(problems, registrations, cell)));
  }

  /**
   * Outside the frozen view, the board folded from raw submissions and the board built
   * from their projections are the same board: same rows in the same order, same ranks,
   * totals and cells, whatever order the submissions came in.
   */
  lemma TwoScoringsAgree(contest: Contest, view: View, problems: seq<ContestProblem>, registrations: seq<Registration>,
                         submissions: seq<Submission>, results: seq<ResultRow>)
    requires !view.FrozenView? && DistinctIds(submissions)
    requires ResultsProject(contest, problems, registrations, submissions, results)
    ensures ComparableRows(Board(problems, registrations, ResultCells(contest, view, results)))
         == ComparableRows(Board(problems, registrations, FoldCells(contest, view, submissions)))
  {
    var fromResults := ResultCells(contest, view, results);
    var fromSubmissions := FoldCells(contest, view, submissions);
    ComparableBoard(problems, registrations, fromResults);
    ComparableBoard(problems, registrations, fromSubmissions);
    forall r, p | r in registrations && r.active && p in problems
      ensures ComparableCells(fromResults)(r.user, p) == ComparableCells(fromSubmissions)(r.user, p)
    {
      CellsAgree(contest, view, submissions, r.user, p, LastResult(results, r.user, p.id));
    }
    RowsOfSame(problems, registrations, ComparableCells(fromResults), ComparableCells(fromSubmissions));
  }

  /** The folded board does not depend on the order of its input. */
  lemma BoardForgetsOrder(contest: Contest, view: View, problems: seq<ContestProblem>, registrations: seq<Registration>,
                          a: seq<Submission>, b: seq<Submission>)
    requires DistinctIds(a) && multiset(a) == multiset(b)
    ensures Board(problems, registrations, FoldCells(contest, view, a)) == Board(problems, registrations, FoldCells(contest, view, b))
  {
    SubmittedBeforeIsLinear(a);
    SortForgetsOrder(SubmittedBefore, a, b);
    RowsOfSame(problems, registrations, FoldCells(contest, view, a), FoldCells(contest, view, b));
  }

  // ----- the frozen board -----

  function HiddenCount(contest: Contest, submissions: seq<Submission>, user: int, problem: int): nat {
    |Filter(Matching(user, problem), Filter(Hidden(contest, FrozenView), submissions))|
  }

  /**
   * The frozen board reveals the visible submissions and how many are hidden per cell,
   * and nothing else about the hidden ones.
   */
  lemma FrozenNonInterference(contest: Contest, problems: seq<ContestProblem>, registrations: seq<Registration>,
                              a: seq<Submission>, b: seq<Submission>)
    requires DistinctIds(a) && DistinctIds(b)
    requires multiset(Filter(Shown(contest, FrozenView), a)) == multiset(Filter(Shown(contest, FrozenView), b))
    requires forall u, p :: HiddenCount(contest, a, u, p) == HiddenCount(contest, b, u, p)
    ensures Board(problems, registrations, FoldCells(contest, FrozenView, a))
         == Board(problems, registrations, FoldCells(contest, FrozenView, b))
  {
    var shown, hidden := Shown(contest, FrozenView), Hidden(contest, FrozenView);
    forall r, p | r in registrations && r.active && p in problems
      ensures FoldCells(contest, FrozenView, a)(r.user, p) == FoldCells(contest, FrozenView, b)(r.user, p)
    {
      var mine := Matching(r.user, p.id);
      FoldedCell(contest, FrozenView, a, r.user, p);
      FoldedCell(contest, FrozenView, b, r.user, p);
      FilterCommutes(shown, mine, a);
      FilterCommutes(shown, mine, b);
      FilterCommutes(hidden, mine, a);
      FilterCommutes(hidden, mine, b);
      FilterPermuted(mine, Filter(shown, a), Filter(shown, b));
      FilterKeepsDistinct(shown, a);
      FilterKeepsDistinct(mine, Filter(shown, a));
      SubmittedBeforeIsLinear(Filter(mine, Filter(shown, a)));
      SortForgetsOrder(SubmittedBefore, Filter(mine, Filter(shown, a)), Filter(mine, Filter(shown, b)));
      assert HiddenCount(contest, a, r.user, p.id) == HiddenCount(contest, b, r.user, p.id);
    }
    RowsOfSame(problems, registrations, FoldCells(contest, FrozenView, a), FoldCells(contest, FrozenView, b));
  }

  /** A cell is accepted exactly when one of its shown submissions is. */
  lemma AcceptedCellMeaning(contest: Contest, view: View, submissions: seq<Submission>, user: int, p: ContestProblem)
    requires DistinctIds(submissions)
    ensures FoldCells(contest, view, submissions)(user, p).status.AcceptedCell? <==>
            exists x :: x in submissions && Matching(user, p.id)(x) && Shown(contest, view)(x) && x.status.Accepted?
  {
    var mine := Filter(Matching(user, p.id), submissions);
    var shown := Filter(Shown(contest, view), mine);
    FoldedCell(contest, view, submissions, user, p);
    FilterKeepsDistinct(Matching(user, p.id), submissions);
    FilterKeepsDistinct(Shown(contest, view), mine);
    SortedFirstAccepted(shown);
  }

  lemma {:induction false} AcceptedInGrows(a: seq<Cell>, b: seq<Cell>)
    requires |a| == |b| && forall i | 0 <= i < |a| && a[i].status.AcceptedCell? :: b[i].status.AcceptedCell?
    ensures AcceptedIn(a) <= AcceptedIn(b)
  {
    if a != [] {
      AcceptedInGrows(a[..|a| - 1], b[..|b| - 1]);
    }
  }

  /** Nothing is accepted on the frozen board that is not accepted on the full board. */
  lemma FrozenIsSound(contest: Contest, problems: seq<ContestProblem>, registrations: seq<Registration>,
                      submissions: seq<Submission>)
    requires DistinctIds(submissions)
    ensures var frozen := RowsOf(problems, registrations, FoldCells(contest, FrozenView, submissions));
            var full := RowsOf(problems, registrations, FoldCells(contest, Final, submissions));
      && |frozen| == |full|
      && forall i | 0 <= i < |frozen| ::
           && frozen[i].user == full[i].user
           && frozen[i].accepted <= full[i].accepted
           && |frozen[i].cells| == |full[i].cells| == |problems|
           && forall j | 0 <= j < |problems| && frozen[i].cells[j].status.AcceptedCell? :: full[i].cells[j].status.AcceptedCell?
  {
    var frozenCell, fullCell := FoldCells(contest, FrozenView, submissions), FoldCells(contest, Final, submissions);
    RowsOfShape(problems, registrations, frozenCell, fullCell);
    var frozen, full := RowsOf(problems, registrations, frozenCell), RowsOf(problems, registrations, fullCell);
    forall i | 0 <= i < |frozen|
      ensures frozen[i].accepted <= full[i].accepted
      ensures forall j | 0 <= j < |problems| && frozen[i].cells[j].status.AcceptedCell? :: full[i].cells[j].status.AcceptedCell?
    {
      var user := frozen[i].user;
      var a, b := CellsFor(problems, user, frozenCell), CellsFor(problems, user, fullCell);
      forall j | 0 <= j < |problems| && a[j].status.AcceptedCell? ensures b[j].status.AcceptedCell? {
        AcceptedCellMeaning(contest, FrozenView, submissions, user, problems[j]);
        AcceptedCellMeaning(contest, Final, submissions, user, problems[j]);
      }
      AcceptedInGrows(a, b);
    }
  }

  /** Two earliest accepted submissions are one. */
  lemma EarliestIsUnique(a: Submission, b: Submission, s: seq<Submission>)
    requires DistinctIds(s) && EarliestAccepted(a, s) && EarliestAccepted(b, s)
    ensures a == b
  {
    assert SubmittedBefore(a, b) && SubmittedBefore(b, a);
  }

  /** No hidden submission of the cell was made at or before `best`. */
  ghost predicate NoneHiddenBefore(contest: Contest, mine: seq<Submission>, best: Submission) {
    forall h | h in mine && Hidden(contest, FrozenView)(h) :: !SubmittedBefore(h, best)
  }

  lemma UpToSplits(contest: Contest, mine: seq<Submission>, best: Submission)
    ensures |Filter(UpTo(best), mine)| ==
            |Filter(UpTo(best), Filter(Shown(contest, FrozenView), mine))|
            + |Filter(UpTo(best), Filter(Hidden(contest, FrozenView), mine))|
    ensures NoneHiddenBefore(contest, mine, best) <==> Filter(UpTo(best), Filter(Hidden(contest, FrozenView), mine)) == []
  {
    var shown, hidden := Shown(contest, FrozenView), Hidden(contest, FrozenView);
    FilterCommutes(UpTo(best), shown, mine);
    FilterCommutes(UpTo(best), hidden, mine);
    FilterSplits(shown, hidden, Filter(UpTo(best), mine));
    if NoneHiddenBefore(contest, mine, best) {
      FilterNothing(UpTo(best), Filter(hidden, mine));
    } else {
      var h :| h in mine && hidden(h) && SubmittedBefore(h, best);
      assert h in Filter(UpTo(best), Filter(hidden, mine));
    }
  }

  /** As many are shown up to `best` as there are exactly if none of them is hidden. */
  lemma FewerShown(contest: Contest, mine: seq<Submission>, shown: seq<Submission>, best: Submission)
    requires shown == Filter(Shown(contest, FrozenView), mine)
    ensures |Filter(UpTo(best), shown)| == |Filter(UpTo(best), mine)| <==> NoneHiddenBefore(contest, mine, best)
  {
    UpToSplits(contest, mine, best);
  }

  function WonCell(contest: Contest, p: ContestProblem, best: Submission, wrong: nat): Cell {
    Cell(p.id, p.alias, AcceptedCell, wrong, 0, Some(best.submittedAt),
         WholeMinutes(best.submittedAt - contest.startAt) + wrong * 20, Some(best.id))
  }

  /** The earliest accepted shown submission decides the whole cell. */
  lemma CellOfEarliest(contest: Contest, p: ContestProblem, shown: seq<Submission>, hidden: nat, best: Submission)
    requires DistinctIds(shown) && EarliestAccepted(best, shown)
    ensures |Filter(UpTo(best), shown)| >= 1
    ensures VerdictCell(contest, p, Sort(SubmittedBefore, shown), hidden)
         == WonCell(contest, p, best, |Filter(UpTo(best), shown)| - 1)
  {
    SortedFirstAccepted(shown);
    var t := Sort(SubmittedBefore, shown);
    EarliestIsUnique(best, t[FirstAccepted(t)], shown);
  }

  lemma EarliestIfNoneHidden(contest: Contest, mine: seq<Submission>, best: Submission)
    requires EarliestAccepted(best, Filter(Shown(contest, FrozenView), mine)) && NoneHiddenBefore(contest, mine, best)
    ensures EarliestAccepted(best, mine)
  {
    forall x | x in mine && x.status.Accepted? ensures SubmittedBefore(best, x) {
      if !Hidden(contest, FrozenView)(x) {
        assert x in Filter(Shown(contest, FrozenView), mine);
      }
    }
  }

  lemma SomeEarliest(mine: seq<Submission>, x: Submission) returns (best: Submission)
    requires DistinctIds(mine) && x in mine && x.status.Accepted?
    ensures EarliestAccepted(best, mine)
  {
    SortedFirstAccepted(mine);
    var t := Sort(SubmittedBefore, mine);
    best := t[FirstAccepted(t)];
  }

  lemma SameId(s: seq<Submission>, a: Submission, b: Submission)
    requires DistinctIds(s) && a in s && b in s && a.id == b.id
    ensures a == b
  {
  }

  /** A cell with an earliest acceptance, in terms of the submissions it is made of. */
  lemma CellIsWon(contest: Contest, p: ContestProblem, cell: Cell, shown: seq<Submission>, sorted: seq<Submission>, hidden: nat,
                  wrong: int, best: Submission)
    requires DistinctIds(shown) && EarliestAccepted(best, shown)
    requires sorted == Sort(SubmittedBefore, shown) && wrong == |Filter(UpTo(best), shown)| - 1
    requires cell == VerdictCell(contest, p, sorted, hidden)
    ensures wrong >= 0 && cell == WonCell(contest, p, best, wrong)
  {
    CellOfEarliest(contest, p, shown, hidden, best);
  }

  lemma WonCellsCompare(contest: Contest, p: ContestProblem, mine: seq<Submission>, shown: seq<Submission>, best: Submission, last: Submission,
                        wrong: nat, more: nat)
    requires DistinctIds(mine) && EarliestAccepted(last, mine) && EarliestAccepted(best, shown)
    requires shown == Filter(Shown(contest, FrozenView), mine)
    requires wrong == |Filter(UpTo(best), shown)| - 1 && more == |Filter(UpTo(last), mine)| - 1
    ensures WonCell(contest, p, best, wrong) == WonCell(contest, p, last, more) <==> NoneHiddenBefore(contest, mine, best)
  {
    FewerShown(contest, mine, shown, best);
    assert best in mine;
    if NoneHiddenBefore(contest, mine, best) {
      EarliestIfNoneHidden(contest, mine, best);
      EarliestIsUnique(best, last, mine);
    } else if last.id == best.id {
      SameId(mine, last, best);
    }
  }

  /**
   * When a cell shows accepted on the frozen board, it is the cell of the full board
   * exactly if no hidden submission precedes the accepted one.
   */
  lemma FrozenCellIsFinal(contest: Contest, submissions: seq<Submission>, user: int, p: ContestProblem, best: Submission)
    requires DistinctIds(submissions)
    requires var mine := Filter(Matching(user, p.id), submissions);
      EarliestAccepted(best, Filter(Shown(contest, FrozenView), mine))
    ensures FoldCells(contest, FrozenView, submissions)(user, p).status.AcceptedCell?
    ensures FoldCells(contest, FrozenView, submissions)(user, p).lastSubmission == Some(best.id)
    ensures FoldCells(contest, FrozenView, submissions)(user, p) == FoldCells(contest, Final, submissions)(user, p)
       <==> NoneHiddenBefore(contest, Filter(Matching(user, p.id), submissions), best)
  {
    var mine := Filter(Matching(user, p.id), submissions);
    FilterKeepsDistinct(Matching(user, p.id), submissions);
    assert best in Filter(Shown(contest, FrozenView), mine) && best in mine;
    var last := SomeEarliest(mine, best);
    FilterKeepsDistinct(Shown(contest, FrozenView), mine);
    FilterAll(Shown(contest, Final), mine);
    FoldedCell(contest, FrozenView, submissions, user, p);
    FoldedCell(contest, Final, submissions, user, p);
    var shown, hidden, none := Filter(Shown(contest, FrozenView), mine), |Filter(Hidden(contest, FrozenView), mine)|, |Filter(Hidden(contest, Final), mine)|;
    var frozen, final := FoldCells(contest, FrozenView, submissions)(user, p), FoldCells(contest, Final, submissions)(user, p);
    var wrong, more := |Filter(UpTo(best), shown)| - 1, |Filter(UpTo(last), mine)| - 1;
    var shownSorted, mineSorted := Sort(SubmittedBefore, shown), Sort(SubmittedBefore, mine);
    CellIsWon(contest, p, frozen, shown, shownSorted, hidden, wrong, best);
    CellIsWon(contest, p, final, mine, mineSorted, none, more, last);
    WonCellsCompare(contest, p, mine, shown, best, last, wrong, more);
  }

  // ----- a folded cell in numbers -----

  /** The submissions that make up a cell. */
  function OfCell(submissions: seq<Submission>, user: int, problem: int): (r: set<Submission>)
    ensures forall x :: x in r <==> x in submissions && x.user == user && x.problem == problem
  {
    set x | x in submissions && x.user == user && x.problem == problem
  }

  /** Those the view shows: on the frozen board, what was submitted and first judged in time. */
  function Revealed(contest: Contest, view: View, mine: set<Submission>): (r: set<Submission>)
    ensures forall x :: x in r <==>
              && x in mine
              && (view == FrozenView ==>
                    && x.submittedAt < contest.freezeAt
                    && (if x.firstJudgedAt.Some? then x.firstJudgedAt.value <= contest.freezeAt else x.judgedAt <= contest.freezeAt))
  {
    set x | x in mine && (view == FrozenView ==>
              && x.submittedAt < contest.freezeAt
              && (if x.firstJudgedAt.Some? then x.firstJudgedAt.value <= contest.freezeAt else x.judgedAt <= contest.freezeAt))
  }

  lemma CountCell(contest: Contest, view: View, submissions: seq<Submission>, user: int, problem: int)
    requires DistinctIds(submissions)
    ensures var mine := Filter(Matching(user, problem), submissions);
            var all := OfCell(submissions, user, problem);
      && (forall x :: x in all <==> x in mine)
      && (forall x :: x in Revealed(contest, view, all) <==> x in Filter(Shown(contest, view), mine))
      && |Filter(Shown(contest, view), mine)| == |Revealed(contest, view, all)|
      && |Filter(Hidden(contest, view), mine)| == |all| - |Revealed(contest, view, all)|
  {
    var id := (x: Submission) => x.id;
    var mine, all := Filter(Matching(user, problem), submissions), OfCell(submissions, user, problem);
    FilterCounts(id, Matching(user, problem), submissions, all);
    FilterKeepsDistinct(Matching(user, problem), submissions);
    FilterCounts(id, Shown(contest, view), mine, Revealed(contest, view, all));
    FilterSplits(Shown(contest, view), Hidden(contest, view), mine);
  }

  /** An accepted cell shows the first acceptance the view reveals, and charges for what it reveals before that. */
  lemma AcceptedCellInNumbers(contest: Contest, view: View, submissions: seq<Submission>, user: int, p: ContestProblem) returns (best: Submission)
    requires DistinctIds(submissions) && FoldCells(contest, view, submissions)(user, p).status.AcceptedCell?
    ensures var cell := FoldCells(contest, view, submissions)(user, p);
            var shown := Revealed(contest, view, OfCell(submissions, user, p.id));
      && IsFirst(best, shown)
      && cell == Cell(p.id, p.alias, AcceptedCell, |Earlier(shown, best)|, 0, Some(best.submittedAt), cell.penalty, Some(best.id))
      && PenaltyIs(cell.penalty, best.submittedAt - contest.startAt, |Earlier(shown, best)|)
  {
    var mine := Filter(Matching(user, p.id), submissions);
    var shown := Filter(Shown(contest, view), mine);
    CountCell(contest, view, submissions, user, p.id);
    FoldedCell(contest, view, submissions, user, p);
    FilterKeepsDistinct(Matching(user, p.id), submissions);
    FilterKeepsDistinct(Shown(contest, view), mine);
    SortedFirstAccepted(shown);
    var t := Sort(SubmittedBefore, shown);
    best := t[FirstAccepted(t)];
    EarlierCount(shown, Revealed(contest, view, OfCell(submissions, user, p.id)), best);
  }

  /** Any other cell only counts: what the view hides, or else all its submissions. */
  lemma OpenCellInNumbers(contest: Contest, view: View, submissions: seq<Submission>, user: int, p: ContestProblem)
    requires DistinctIds(submissions)
    ensures var cell := FoldCells(contest, view, submissions)(user, p);
            var mine := OfCell(submissions, user, p.id);
            var shown := Revealed(contest, view, mine);
      && (cell.status.AcceptedCell? <==> exists x :: x in shown && x.status == Accepted)
      && (!cell.status.AcceptedCell? ==>
            cell == if |mine| > |shown| then Cell(p.id, p.alias, FrozenCell, 0, |mine| - |shown|, None, 0, None)
                    else if |mine| > 0 then Cell(p.id, p.alias, AttemptedCell, |mine|, 0, None, 0, None)
                    else Cell(p.id, p.alias, NoCell, 0, 0, None, 0, None))
  {
    var mine := Filter(Matching(user, p.id), submissions);
    CountCell(contest, view, submissions, user, p.id);
    FoldedCell(contest, view, submissions, user, p);
    AcceptedCellMeaning(contest, view, submissions, user, p);
  }


  /** Accepted at the given minutes; the judge was slower than the freeze on the first. */
  function LateVerdict(): Submission {
    Submission(1, 7, 3, Accepted, 1 * NANOS_PER_MINUTE, 11 * NANOS_PER_MINUTE, Some(11 * NANOS_PER_MINUTE), Some(1))
  }

  function QuickVerdict(): Submission {
    Submission(2, 7, 3, Accepted, 2 * NANOS_PER_MINUTE, 3 * NANOS_PER_MINUTE, Some(3 * NANOS_PER_MINUTE), Some(2))
  }

  lemma LateVerdictHidden(contest: Contest, mine: seq<Submission>)
    requires contest == Contest(0, 10 * NANOS_PER_MINUTE) && mine == [LateVerdict(), QuickVerdict()]
    ensures Filter(Shown(contest, FrozenView), mine) == [QuickVerdict()]
    ensures EarliestAccepted(QuickVerdict(), [QuickVerdict()]) && !NoneHiddenBefore(contest, mine, QuickVerdict())
  {
    assert mine[1..] == [QuickVerdict()] && mine[1..][1..] == [];
    assert LateVerdict() == mine[0] && LateVerdict() in mine;
    assert !Visible(contest, LateVerdict()) && !Shown(contest, FrozenView)(LateVerdict());
    assert Hidden(contest, FrozenView)(LateVerdict()) && SubmittedBefore(LateVerdict(), QuickVerdict());
  }

  /** A frozen accepted cell that is not the final one: the earlier acceptance was judged after the freeze. */
  lemma FrozenCellChanges(contest: Contest, submissions: seq<Submission>, p: ContestProblem)
    requires contest == Contest(0, 10 * NANOS_PER_MINUTE) && p.id == 3
    requires submissions == [LateVerdict(), QuickVerdict()]
    ensures FoldCells(contest, FrozenView, submissions)(7, p).status.AcceptedCell?
    ensures FoldCells(contest, FrozenView, submissions)(7, p).lastSubmission == Some(2)
    ensures FoldCells(contest, FrozenView, submissions)(7, p) != FoldCells(contest, Final, submissions)(7, p)
  {
    FilterAll(Matching(7, 3), submissions);
    LateVerdictHidden(contest, submissions);
    FrozenCellIsFinal(contest, submissions, 7, p, QuickVerdict());
  }
}
