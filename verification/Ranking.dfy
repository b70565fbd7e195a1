/** internal/contest/scoreboard.go: rows, their order and their ranks. */
module Ranking {
  import opened Wrappers
  import opened Sorting
  import opened Submissions
  import opened TextOrder

  datatype CellStatus = NoCell | AttemptedCell | AcceptedCell | FrozenCell

  datatype Cell = Cell(
    problem: int,
    alias: string,
    status: CellStatus,
    attempts: int,
    frozenAttempts: int,
    acceptedAt: Option<Time>,
    penalty: int,
    lastSubmission: Option<int>)

  datatype Row = Row(rank: int, user: int, name: string, accepted: int, penalty: int, cells: seq<Cell>)

  predicate RowLess(a: Row, b: Row) {
    if a.accepted != b.accepted then a.accepted > b.accepted
    else if a.penalty != b.penalty then a.penalty < b.penalty
    else Compare(a.name, b.name) < 0
  }

  predicate RowLeq(a: Row, b: Row) {
    !RowLess(b, a)
  }

  predicate SameScore(a: Row, b: Row) {
    a.accepted == b.accepted && a.penalty == b.penalty
  }

  lemma RowLeqIsPreorder()
    ensures Preorder(RowLeq)
  {
    forall a, b ensures RowLeq(a, b) || RowLeq(b, a) {
      CompareFlips(a.name, b.name);
    }
    forall a, b, c | RowLeq(a, b) && RowLeq(b, c) ensures RowLeq(a, c) {
      CompareFlips(a.name, b.name);
      CompareFlips(b.name, c.name);
      CompareFlips(a.name, c.name);
      if SameScore(a, b) && SameScore(b, c) {
        CompareTransitive(a.name, b.name, c.name);
      }
    }
  }

  /** The rank loop: a row that ties with the row before it shares its rank. */
  function AssignRanks(s: seq<Row>): (r: seq<Row>)
    ensures |r| == |s|
    ensures forall i | 0 <= i < |s| :: r[i] == s[i].(rank := r[i].rank)
  {
    if s == [] then []
    else
      var n := |s| - 1;
      var before := AssignRanks(s[..n]);
      before + [s[n].(rank := if n > 0 && SameScore(s[n], s[n - 1]) then before[n - 1].rank else n + 1)]
  }

  lemma {:induction false} AssignRanksStep(s: seq<Row>, i: nat)
    requires i < |s|
    ensures AssignRanks(s)[i].rank ==
            if i > 0 && SameScore(s[i], s[i - 1]) then AssignRanks(s)[i - 1].rank else i + 1
    decreases |s|
  {
    if i < |s| - 1 {
      AssignRanksStep(s[..|s| - 1], i);
    }
  }

  function Ranked(rows: seq<Row>): (r: seq<Row>)
    ensures |r| == |rows|
  {
    AssignRanks(Sort(RowLeq, rows))
  }

  /** The first `i` rows have their ranks. */
  ghost predicate RankedUpTo(rows: seq<Row>, sorted: seq<Row>, i: nat) {
    && |rows| == |sorted| && i <= |sorted|
    && (forall k | 0 <= k < i :: rows[k] == AssignRanks(sorted)[k])
    && (forall k | i <= k < |rows| :: rows[k] == sorted[k])
  }

  lemma RankOne(rows: seq<Row>, sorted: seq<Row>, i: nat)
    requires RankedUpTo(rows, sorted, i) && i < |sorted|
    ensures var rank := if i > 0 && SameScore(rows[i], rows[i - 1]) then rows[i - 1].rank else i + 1;
            RankedUpTo(rows[i := rows[i].(rank := rank)], sorted, i + 1)
  {
    AssignRanksStep(sorted, i);
  }

  lemma RankedAll(rows: seq<Row>, sorted: seq<Row>)
    requires RankedUpTo(rows, sorted, |sorted|)
    ensures rows == AssignRanks(sorted)
  {
  }

  method RankRows(rows: array<Row>)
    modifies rows
    ensures rows[..] == Ranked(old(rows[..]))
  {
    SortInPlace(rows, RowLeq);
    ghost var sorted := rows[..];
    for i := 0 to rows.Length
      invariant RankedUpTo(rows[..], sorted, i)
    {
      RankOne(rows[..], sorted, i);
      var rank := i + 1;
      if i > 0 && SameScore(rows[i], rows[i - 1]) {
        rank := rows[i - 1].rank;
      }
      ghost var next := rows[..][i := rows[i].(rank := rank)];
      rows[i] := rows[i].(rank := rank);
      assert rows[..] == next;
    }
    RankedAll(rows[..], sorted);
  }

  function Better(x: Row): Row -> bool {
    (r: Row) => r.accepted > x.accepted || (r.accepted == x.accepted && r.penalty < x.penalty)
  }

  /** The definition of rank every view has to agree with. */
  function ScoreRank(rows: seq<Row>, x: Row): nat {
    1 + |Filter(Better(x), rows)|
  }

  lemma ScoreRankForgetsOrder(a: seq<Row>, b: seq<Row>, x: Row)
    requires multiset(a) == multiset(b)
    ensures ScoreRank(a, x) == ScoreRank(b, x)
  {
    FilterPermuted(Better(x), a, b);
    assert |Filter(Better(x), a)| == |multiset(Filter(Better(x), a))| == |multiset(Filter(Better(x), b))|;
  }

  function FirstTie(s: seq<Row>, i: nat): (j: nat)
    requires i < |s|
    ensures j <= i && SameScore(s[j], s[i])
  {
    if i > 0 && SameScore(s[i], s[i - 1]) then FirstTie(s, i - 1) else i
  }

  /** Row `i`'s rank is the place of the first row it ties with. */
  lemma {:induction false} RankIsFirstTie(s: seq<Row>, i: nat)
    requires i < |s|
    ensures AssignRanks(s)[i].rank == FirstTie(s, i) + 1
  {
    AssignRanksStep(s, i);
    if i > 0 {
      RankIsFirstTie(s, i - 1);
    }
  }

  lemma {:induction false} FirstTieIsBeaten(s: seq<Row>, i: nat)
    requires Ordered(RowLeq, s) && i < |s|
    ensures forall k | 0 <= k < FirstTie(s, i) :: Better(s[i])(s[k])
  {
    if i > 0 {
      if SameScore(s[i], s[i - 1]) {
        FirstTieIsBeaten(s, i - 1);
      } else {
        forall k | 0 <= k < i ensures Better(s[i])(s[k]) {
          assert RowLeq(s[i - 1], s[i]);
          assert k == i - 1 || RowLeq(s[k], s[i - 1]);
        }
      }
    }
  }

  lemma NotBeatenAfter(s: seq<Row>, i: nat, k: nat)
    requires Ordered(RowLeq, s) && i < |s| && FirstTie(s, i) <= k < |s|
    ensures !Better(s[i])(s[k])
  {
    var j := FirstTie(s, i);
    if j < k {
      assert RowLeq(s[j], s[k]);
    }
  }

  lemma CountPrefix(keep: Row -> bool, s: seq<Row>, j: nat)
    requires j <= |s|
    requires forall k | 0 <= k < j :: keep(s[k])
    requires forall k | j <= k < |s| :: !keep(s[k])
    ensures |Filter(keep, s)| == j
  {
    assert s == s[..j] + s[j..];
    FilterConcat(keep, s[..j], s[j..]);
    FilterAll(keep, s[..j]);
    FilterNothing(keep, s[j..]);
  }

  /** In ranked order, a row's rank is one more than the number of better rows. */
  lemma RankMeaning(s: seq<Row>, i: nat)
    requires Ordered(RowLeq, s) && i < |s|
    ensures AssignRanks(s)[i].rank == ScoreRank(s, s[i])
  {
    var j := FirstTie(s, i);
    RankIsFirstTie(s, i);
    FirstTieIsBeaten(s, i);
    forall k | j <= k < |s| ensures !Better(s[i])(s[k]) {
      NotBeatenAfter(s, i, k);
    }
    CountPrefix(Better(s[i]), s, j);
  }

  /**
   * The ranked board holds the rows it was given, in score order, rows that compare equal
   * in the order they came, each ranked by how many rows are strictly better.
   */
  lemma RankedMeaning(rows: seq<Row>)
    ensures var board := Ranked(rows); var sorted := Sort(RowLeq, rows);
      && multiset(sorted) == multiset(rows)
      && Ordered(RowLeq, sorted)
      && (forall i | 0 <= i < |rows| :: board[i] == sorted[i].(rank := ScoreRank(rows, sorted[i])))
  {
    RowLeqIsPreorder();
    SortOrdered(RowLeq, rows);
    var sorted := Sort(RowLeq, rows);
    forall i | 0 <= i < |rows| ensures AssignRanks(sorted)[i].rank == ScoreRank(rows, sorted[i]) {
      RankMeaning(sorted, i);
      ScoreRankForgetsOrder(sorted, rows, sorted[i]);
    }
  }

  lemma NotLess(a: Row, b: Row)
    requires RowLeq(a, b)
    ensures a.accepted > b.accepted
            || (a.accepted == b.accepted && (a.penalty < b.penalty || (a.penalty == b.penalty && !ComesFirst(b.name, a.name))))
  {
    CompareMeaning(b.name, a.name);
  }

  /** Down the board the accepted count falls, then the penalty rises, then no name comes before one above it. */
  lemma RankedOrder(rows: seq<Row>)
    ensures var board := Ranked(rows);
      forall i, j | 0 <= i < j < |board| ::
        || board[i].accepted > board[j].accepted
        || (board[i].accepted == board[j].accepted
            && (board[i].penalty < board[j].penalty
                || (board[i].penalty == board[j].penalty && !ComesFirst(board[j].name, board[i].name))))
  {
    RowLeqIsPreorder();
    SortOrdered(RowLeq, rows);
    var board, sorted := Ranked(rows), Sort(RowLeq, rows);
    forall i, j | 0 <= i < j < |board|
      ensures board[i].accepted > board[j].accepted
              || (board[i].accepted == board[j].accepted
                  && (board[i].penalty < board[j].penalty
                      || (board[i].penalty == board[j].penalty && !ComesFirst(board[j].name, board[i].name))))
    {
      NotLess(sorted[i], sorted[j]);
    }
  }

  /** Rows with the same score and name as `x`. */
  function Tied(x: Row): Row -> bool {
    (r: Row) => SameScore(r, x) && r.name == x.name
  }

  lemma TiesKeepOrder(rows: seq<Row>, x: Row)
    ensures Filter(Tied(x), Sort(RowLeq, rows)) == Filter(Tied(x), rows)
  {
    forall a, b | Tied(x)(a) && Tied(x)(b) ensures RowLeq(a, b) {
      CompareZero(b.name, a.name);
    }
    SortStable(RowLeq, Tied(x), rows);
  }
}
