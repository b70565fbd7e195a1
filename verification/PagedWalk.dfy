/** Following the live board's cursor from page to page yields the whole board. */
module PagedWalk {
  import opened Wrappers
  import opened Sorting
  import opened Sums
  import opened TextOrder
  import opened Submissions
  import opened Ranking
  import opened Scoreboard
  import opened Paging

  /** The cursor after `k` rows makes the query continue with row `k`. */
  lemma QueryAt(source: Source, table: seq<Entry>, k: nat, limit: nat)
    requires DistinctUsers(table) && k <= |Standing(table)|
    ensures ListScoreboardRegistrations(table, CursorAt(source, table, k), limit) == Take(Standing(table)[k..], limit)
  {
    if k > 0 {
      var cursor := CursorAt(source, table, k);
      var active := Filter(Selected(None), table);
      var all := Standing(table);
      StandingIsStrict(table);
      forall i | 0 <= i < |all| ensures Selected(cursor)(all[i]) <==> k <= i {
        CursorSelectsAfter(all[k - 1], all[i], cursor.value);
        CompareFlips(all[k - 1].registration.name, all[i].registration.name);
      }
      FilterSuffix(Selected(cursor), all, k);
      FilterNarrower(Selected(cursor), Selected(None), table);
      KeyLeqIsPreorder();
      FilterDistinctUsers(Selected(None), table);
      KeyHasNoTies(active);
      FilterSort(KeyLeq, Selected(cursor), active);
    }
  }

  lemma WholeRankStep(source: Source, table: seq<Entry>, j: nat)
    requires j < |Standing(table)|
    ensures var whole := WholeBoard(source, table);
      whole[j].rank == if j > 0 && SameScore(whole[j], whole[j - 1]) then whole[j - 1].rank else j + 1
  {
    AssignRanksStep(LiveRows(source, Standing(table)), j);
  }

  lemma PageRowScore(source: Source, table: seq<Entry>, k: nat, m: nat, i: nat)
    requires k + i < m <= |Standing(table)|
    ensures SameScore(LiveRows(source, Standing(table)[k..m])[i], WholeBoard(source, table)[k + i])
  {
    assert WholeBoard(source, table)[k + i] == LiveRows(source, Standing(table))[k + i].(rank := WholeBoard(source, table)[k + i].rank);
  }

  /** Rows scored like a ranked board from row `k` on, and a cursor that stands there. */
  ghost predicate Continues(rows: seq<Row>, cursor: Option<Cursor>, whole: seq<Row>, k: nat) {
    && k + |rows| <= |whole|
    && (forall i | 0 <= i < |rows| ::
          && SameScore(rows[i], whole[k + i])
          && whole[k + i].rank == if k + i > 0 && SameScore(whole[k + i], whole[k + i - 1]) then whole[k + i - 1].rank else k + i + 1)
    && match cursor
       case None => k == 0
       case Some(c) =>
         k > 0 && c.rowsSeen == k && c.afterAccepted == whole[k - 1].accepted && c.afterPenalty == whole[k - 1].penalty && c.lastRank == whole[k - 1].rank
  }

  lemma {:induction false} RankContinues(rows: seq<Row>, cursor: Option<Cursor>, whole: seq<Row>, k: nat, i: nat)
    requires Continues(rows, cursor, whole, k) && i < |rows|
    ensures PageRank(rows, cursor, i) == whole[k + i].rank
  {
    assert SameScore(rows[i], whole[k + i]);
    if i > 0 {
      RankContinues(rows, cursor, whole, k, i - 1);
      assert SameScore(rows[i - 1], whole[k + (i - 1)]);
    }
  }

  lemma PageContinues(source: Source, table: seq<Entry>, k: nat, m: nat)
    requires k <= m <= |Standing(table)|
    ensures Continues(LiveRows(source, Standing(table)[k..m]), CursorAt(source, table, k), WholeBoard(source, table), k)
  {
    var rows, whole := LiveRows(source, Standing(table)[k..m]), WholeBoard(source, table);
    forall i | 0 <= i < |rows|
      ensures SameScore(rows[i], whole[k + i])
      ensures whole[k + i].rank == if k + i > 0 && SameScore(whole[k + i], whole[k + i - 1]) then whole[k + i - 1].rank else k + i + 1
    {
      WholeRankStep(source, table, k + i);
      PageRowScore(source, table, k, m, i);
    }
  }

  lemma RankAt(source: Source, table: seq<Entry>, k: nat, m: nat, i: nat)
    requires k + i < m <= |Standing(table)|
    ensures PageRank(LiveRows(source, Standing(table)[k..m]), CursorAt(source, table, k), i)
         == WholeBoard(source, table)[k + i].rank
  {
    PageContinues(source, table, k, m);
    RankContinues(LiveRows(source, Standing(table)[k..m]), CursorAt(source, table, k), WholeBoard(source, table), k, i);
  }

  lemma PageRowsAt(source: Source, table: seq<Entry>, k: nat, m: nat)
    requires k <= m <= |Standing(table)|
    ensures PageRows(source, Standing(table)[k..m], CursorAt(source, table, k)) == WholeBoard(source, table)[k..m]
  {
    var rows := PageRows(source, Standing(table)[k..m], CursorAt(source, table, k));
    forall i | 0 <= i < m - k ensures rows[i] == WholeBoard(source, table)[k..m][i] {
      RankAt(source, table, k, m, i);
    }
  }

  lemma TakePage<T>(all: seq<T>, k: nat, pageSize: nat)
    requires k <= |all|
    ensures var fetched := Take(all[k..], pageSize + 1); var m := if k + pageSize < |all| then k + pageSize else |all|;
      Take(fetched, pageSize) == all[k..m] && (|fetched| > pageSize <==> m < |all|)
  {
  }

  lemma NextCursorAt(source: Source, table: seq<Entry>, k: nat, m: nat)
    requires k < m <= |Standing(table)|
    ensures NextCursor(WholeBoard(source, table)[k..m], CursorAt(source, table, k)) == CursorAt(source, table, m)
  {
    assert WholeBoard(source, table)[k..m][m - k - 1] == WholeBoard(source, table)[m - 1];
  }

  lemma PageFromAt(source: Source, table: seq<Entry>, k: nat, pageSize: nat)
    requires k <= |Standing(table)| && pageSize >= 1
    ensures var n := |Standing(table)|; var m := if k + pageSize < n then k + pageSize else n;
      PageFrom(source, Take(Standing(table)[k..], pageSize + 1), pageSize, CursorAt(source, table, k)) ==
      Page(WholeBoard(source, table)[k..m], if m < n then CursorAt(source, table, m) else None)
  {
    var all := Standing(table);
    var m := if k + pageSize < |all| then k + pageSize else |all|;
    TakePage(all, k, pageSize);
    PageRowsAt(source, table, k, m);
    if m < |all| {
      NextCursorAt(source, table, k, m);
    }
  }

  /** The slice of the whole board that starts at row `k`, with the cursor before it and the one after it. */
  ghost predicate SliceAt(source: Source, table: seq<Entry>, k: nat, pageSize: nat, cursor: Option<Cursor>, page: Page) {
    && DistinctUsers(table) && k <= |Standing(table)| && pageSize >= 1 && cursor == CursorAt(source, table, k)
    && var n := |Standing(table)|; var m := if k + pageSize < n then k + pageSize else n;
       page == Page(WholeBoard(source, table)[k..m], if m < n then CursorAt(source, table, m) else None)
  }

  lemma PageFromSlice(source: Source, table: seq<Entry>, k: nat, pageSize: nat, cursor: Option<Cursor>, page: Page)
    requires SliceAt(source, table, k, pageSize, cursor, page)
    ensures PageFrom(source, Take(Standing(table)[k..], pageSize + 1), pageSize, cursor) == page
  {
    PageFromAt(source, table, k, pageSize);
  }

  lemma LivePageFrom(source: Source, table: seq<Entry>, pageSize: nat, cursor: Option<Cursor>, fetched: seq<Entry>, page: Page)
    requires ListScoreboardRegistrations(table, cursor, pageSize + 1) == fetched && PageFrom(source, fetched, pageSize, cursor) == page
    ensures LivePage(source, table, pageSize, cursor) == page
  {
  }

  lemma PageFromQuery(source: Source, table: seq<Entry>, k: nat, pageSize: nat, cursor: Option<Cursor>, fetched: seq<Entry>, page: Page)
    requires DistinctUsers(table) && k <= |Standing(table)| && cursor == CursorAt(source, table, k)
    requires fetched == Take(Standing(table)[k..], pageSize + 1) && PageFrom(source, fetched, pageSize, cursor) == page
    ensures LivePage(source, table, pageSize, cursor) == page
  {
    QueryAt(source, table, k, pageSize + 1);
    LivePageFrom(source, table, pageSize, cursor, fetched, page);
  }

  lemma PageIsSlice(source: Source, table: seq<Entry>, k: nat, pageSize: nat, cursor: Option<Cursor>, page: Page)
    requires SliceAt(source, table, k, pageSize, cursor, page)
    ensures LivePage(source, table, pageSize, cursor) == page
  {
    PageFromSlice(source, table, k, pageSize, cursor, page);
    PageFromQuery(source, table, k, pageSize, cursor, Take(Standing(table)[k..], pageSize + 1), page);
  }

  /** The page at row `k` is a slice of the whole board, and its cursor is the one after it. */
  lemma PageAt(source: Source, table: seq<Entry>, k: nat, pageSize: nat)
    requires DistinctUsers(table) && k <= |Standing(table)| && pageSize >= 1
    ensures var n := |Standing(table)|; var m := if k + pageSize < n then k + pageSize else n;
      LivePage(source, table, pageSize, CursorAt(source, table, k)) ==
      Page(WholeBoard(source, table)[k..m], if m < n then CursorAt(source, table, m) else None)
  {
    var n := |Standing(table)|;
    var m := if k + pageSize < n then k + pageSize else n;
    PageIsSlice(source, table, k, pageSize, CursorAt(source, table, k),
                Page(WholeBoard(source, table)[k..m], if m < n then CursorAt(source, table, m) else None));
  }

  // ----- following the cursor -----

  datatype Progress = Progress(rows: seq<Row>, done: bool, cursor: Option<Cursor>)

  type Reader = (nat, Progress) -> Progress

  /** Reads one more page, from the cursor of the page before. */
  function Advance(source: Source, table: seq<Entry>, pageSize: nat, before: Progress): Progress {
    var page := LivePage(source, table, pageSize, before.cursor);
    Progress(before.rows + page.rows, page.next.None?, page.next)
  }

  function ReaderOf(source: Source, table: seq<Entry>): Reader {
    (pageSize: nat, before: Progress) => Advance(source, table, pageSize, before)
  }

  function WalkWith(reader: Reader, sizes: seq<nat>): Progress {
    if sizes == [] then Progress([], false, None)
    else
      var before := WalkWith(reader, sizes[..|sizes| - 1]);
      if before.done then before else reader(sizes[|sizes| - 1], before)
  }

  /** Reads one page per size until there is no cursor. */
  function Walk(source: Source, table: seq<Entry>, sizes: seq<nat>): Progress {
    WalkWith(ReaderOf(source, table), sizes)
  }

  predicate Positive(sizes: seq<nat>) {
    forall i | 0 <= i < |sizes| :: sizes[i] >= 1
  }

  lemma {:induction false} SumOfAtLeastLength(sizes: seq<nat>)
    requires Positive(sizes)
    ensures SumOf(sizes) >= |sizes|
  {
    if sizes != [] {
      SumOfAtLeastLength(sizes[1..]);
    }
  }

  lemma TakeMore<T>(all: seq<T>, k: nat, more: nat)
    requires k <= |all|
    ensures Take(all, k) + all[k..if k + more < |all| then k + more else |all|] == Take(all, k + more)
  {
  }

  /** Where a walk stands that has read the first `k` rows. */
  function ReadUpTo(source: Source, table: seq<Entry>, k: nat): Progress
    requires k <= |Standing(table)|
  {
    Progress(Take(WholeBoard(source, table), k), false, CursorAt(source, table, k))
  }

  lemma AdvanceAt(source: Source, table: seq<Entry>, k: nat, pageSize: nat)
    requires DistinctUsers(table) && k <= |Standing(table)| && pageSize >= 1
    ensures Advance(source, table, pageSize, ReadUpTo(source, table, k)) ==
            if k + pageSize < |Standing(table)| then ReadUpTo(source, table, k + pageSize)
            else Progress(WholeBoard(source, table), true, None)
  {
    PageAt(source, table, k, pageSize);
    TakeMore(WholeBoard(source, table), k, pageSize);
  }

  /** If each page leads from one place to the next, a walk is a function of the sum of its sizes. */
  lemma {:induction false} WalkSums(reader: Reader, at: nat -> Progress, end: Progress, n: nat, sizes: seq<nat>)
    requires Positive(sizes) && end.done && at(0) == Progress([], false, None)
    requires forall k: nat, size: nat | k + size < n && size >= 1 :: reader(size, at(k)) == at(k + size)
    requires forall k: nat, size: nat | k <= n <= k + size && size >= 1 :: reader(size, at(k)) == end
    requires forall k: nat | k <= n :: !at(k).done
    ensures WalkWith(reader, sizes) == if sizes == [] || SumOf(sizes) < n then at(SumOf(sizes)) else end
  {
    if sizes != [] {
      SumOfMore(sizes[..|sizes| - 1], sizes[|sizes| - 1]);
      assert sizes == sizes[..|sizes| - 1] + [sizes[|sizes| - 1]];
      WalkSums(reader, at, end, n, sizes[..|sizes| - 1]);
    }
  }

  function Places(source: Source, table: seq<Entry>): nat -> Progress {
    (k: nat) => if k <= |Standing(table)| then ReadUpTo(source, table, k) else Progress([], false, None)
  }

  lemma NextPlace(source: Source, table: seq<Entry>, k: nat, size: nat, here: Progress, there: Progress)
    requires DistinctUsers(table) && k <= |Standing(table)| && size >= 1
    requires here == ReadUpTo(source, table, k)
    requires there == if k + size < |Standing(table)| then ReadUpTo(source, table, k + size) else Progress(WholeBoard(source, table), true, None)
    ensures Advance(source, table, size, here) == there
  {
    AdvanceAt(source, table, k, size);
  }

  lemma StepWithin(source: Source, table: seq<Entry>, k: nat, size: nat, here: Progress, there: Progress)
    requires DistinctUsers(table) && size >= 1 && k + size < |Standing(table)|
    requires here == Places(source, table)(k) && there == Places(source, table)(k + size)
    ensures ReaderOf(source, table)(size, here) == there
  {
    NextPlace(source, table, k, size, here, there);
  }

  lemma StepToEnd(source: Source, table: seq<Entry>, k: nat, size: nat, here: Progress, end: Progress)
    requires DistinctUsers(table) && size >= 1 && k <= |Standing(table)| <= k + size
    requires here == Places(source, table)(k) && end == Progress(WholeBoard(source, table), true, None)
    ensures ReaderOf(source, table)(size, here) == end
  {
    NextPlace(source, table, k, size, here, end);
  }

  lemma OneStepWithin(source: Source, table: seq<Entry>, reader: Reader, at: nat -> Progress, n: nat, k: nat, size: nat)
    requires DistinctUsers(table) && reader == ReaderOf(source, table) && at == Places(source, table) && n == |Standing(table)|
    requires k + size < n && size >= 1
    ensures reader(size, at(k)) == at(k + size)
  {
    StepWithin(source, table, k, size, at(k), at(k + size));
  }

  lemma StepsWithin(source: Source, table: seq<Entry>, reader: Reader, at: nat -> Progress, n: nat)
    requires DistinctUsers(table) && reader == ReaderOf(source, table) && at == Places(source, table) && n == |Standing(table)|
    ensures forall k: nat, size: nat | k + size < n && size >= 1 :: reader(size, at(k)) == at(k + size)
  {
    forall k: nat, size: nat | k + size < n && size >= 1 ensures reader(size, at(k)) == at(k + size) {
      OneStepWithin(source, table, reader, at, n, k, size);
    }
  }

  lemma StepsToEnd(source: Source, table: seq<Entry>, reader: Reader, at: nat -> Progress, end: Progress, n: nat)
    requires DistinctUsers(table) && reader == ReaderOf(source, table) && at == Places(source, table) && n == |Standing(table)|
    requires end == Progress(WholeBoard(source, table), true, None)
    ensures forall k: nat, size: nat | k <= n <= k + size && size >= 1 :: reader(size, at(k)) == end
  {
    forall k: nat, size: nat | k <= n <= k + size && size >= 1 ensures reader(size, at(k)) == end {
      var here := at(k);
      StepToEnd(source, table, k, size, here, end);
    }
  }

  /** A walk is a function of how many rows it was allowed to read. */
  lemma WalkReads(source: Source, table: seq<Entry>, sizes: seq<nat>)
    requires DistinctUsers(table) && Positive(sizes)
    ensures sizes == [] || SumOf(sizes) < |Standing(table)| ==>
              SumOf(sizes) <= |Standing(table)| && Walk(source, table, sizes) == ReadUpTo(source, table, SumOf(sizes))
    ensures sizes != [] && SumOf(sizes) >= |Standing(table)| ==>
              Walk(source, table, sizes) == Progress(WholeBoard(source, table), true, None)
  {
    var n, reader, at, end := |Standing(table)|, ReaderOf(source, table), Places(source, table), Progress(WholeBoard(source, table), true, None);
    StepsWithin(source, table, reader, at, n);
    StepsToEnd(source, table, reader, at, end, n);
    WalkSums(reader, at, end, n, sizes);
  }

  /**
   * Whatever page size is asked for at each step, what has been read so far is a prefix of
   * the whole board, and the walk is over exactly when that prefix is all of it.
   */
  lemma WalkIsPrefix(source: Source, table: seq<Entry>, sizes: seq<nat>)
    requires DistinctUsers(table) && Positive(sizes)
    ensures var n := |Standing(table)|; var walk := Walk(source, table, sizes);
      && walk.rows == Take(WholeBoard(source, table), SumOf(sizes))
      && (walk.done <==> sizes != [] && n <= SumOf(sizes))
      && (!walk.done ==> SumOf(sizes) <= n && walk.cursor == CursorAt(source, table, SumOf(sizes)))
  {
    WalkReads(source, table, sizes);
  }

  /** The walk ends within one page per registration, having read the whole board once. */
  lemma WalkTerminates(source: Source, table: seq<Entry>, sizes: seq<nat>)
    requires DistinctUsers(table) && Positive(sizes)
    requires |sizes| >= |Standing(table)| && sizes != []
    ensures Walk(source, table, sizes) == Progress(WholeBoard(source, table), true, None)
  {
    WalkReads(source, table, sizes);
    SumOfAtLeastLength(sizes);
  }

  // ----- the whole board is the ranking -----

  lemma LiveRowsOrdered(source: Source, table: seq<Entry>)
    requires DistinctUsers(table)
    ensures Ordered(RowLeq, LiveRows(source, Standing(table)))
  {
    StandingIsStrict(table);
    var all := Standing(table);
    var rows := LiveRows(source, all);
    forall i, j | 0 <= i < j < |rows| ensures RowLeq(rows[i], rows[j]) {
      assert KeyLess(all[i], all[j]);
      CompareFlips(all[i].registration.name, all[j].registration.name);
    }
  }

  /**
   * The whole board lists every active registration once, in key order, and ranks each by
   * how many registrations are strictly better.
   */
  lemma WholeBoardMeaning(source: Source, table: seq<Entry>)
    requires DistinctUsers(table)
    ensures var all := Standing(table); var rows := LiveRows(source, all);
      && multiset(all) == multiset(Filter(Selected(None), table))
      && (forall i, j | 0 <= i < j < |all| :: KeyLess(all[i], all[j]))
      && (forall i | 0 <= i < |all| :: WholeBoard(source, table)[i] == rows[i].(rank := ScoreRank(rows, rows[i])))
  {
    StandingIsStrict(table);
    LiveRowsOrdered(source, table);
    var rows := LiveRows(source, Standing(table));
    forall i | 0 <= i < |rows| ensures AssignRanks(rows)[i].rank == ScoreRank(rows, rows[i]) {
      RankMeaning(rows, i);
    }
  }

  // ----- agreement with the ranked board -----

  function Registrations(table: seq<Entry>): (r: seq<Registration>)
    ensures |r| == |table|
    ensures forall i | 0 <= i < |table| :: r[i] == table[i].registration
  {
    seq(|table|, i requires 0 <= i < |table| => table[i].registration)
  }

  /** The running totals agree with the results they summarise. */
  ghost predicate TotalsCurrent(source: Source, table: seq<Entry>) {
    forall e | e in table && e.registration.active ::
      var cells := CellsFor(source.problems, e.registration.user, ResultCells(source.contest, Live, source.results));
      e.accepted == AcceptedIn(cells) && e.penalty == PenaltyIn(cells)
  }

  lemma LiveRowsSplit(source: Source, table: seq<Entry>)
    requires table != []
    ensures LiveRows(source, Filter(Selected(None), table)) ==
            (if table[0].registration.active then [LiveRow(source, table[0])] else [])
            + LiveRows(source, Filter(Selected(None), table[1..]))
  {
  }

  lemma {:induction false} LiveRowsAreBoardRows(source: Source, table: seq<Entry>)
    requires TotalsCurrent(source, table)
    ensures LiveRows(source, Filter(Selected(None), table))
         == RowsOf(source.problems, Registrations(table), ResultCells(source.contest, Live, source.results))
  {
    if table != [] {
      assert TotalsCurrent(source, table[1..]) by {
        assert forall e | e in table[1..] :: e in table;
      }
      LiveRowsAreBoardRows(source, table[1..]);
      assert Registrations(table)[1..] == Registrations(table[1..]);
      assert table[0] in table;
      LiveRowsSplit(source, table);
    }
  }

  function WithRank(all: seq<Row>): Row -> Row {
    (r: Row) => r.(rank := ScoreRank(all, r))
  }

  /**
   * While the running totals are current, the rows read page by page are the rows of the
   * board built from the results: the same users, totals, cells and ranks.
   */
  lemma PagedRowsAreBoardRows(source: Source, table: seq<Entry>)
    requires DistinctUsers(table) && TotalsCurrent(source, table)
    ensures multiset(WholeBoard(source, table))
         == multiset(Board(source.problems, Registrations(table), ResultCells(source.contest, Live, source.results)))
  {
    var active := Filter(Selected(None), table);
    var rows := RowsOf(source.problems, Registrations(table), ResultCells(source.contest, Live, source.results));
    var live := LiveRows(source, Standing(table));
    LiveRowsAreBoardRows(source, table);
    MapPermuted(ToLiveRow(source), Standing(table), active);
    WholeBoardMeaning(source, table);
    RankedMeaning(rows);
    forall r | r in live ensures ScoreRank(live, r) == ScoreRank(rows, r) {
      ScoreRankForgetsOrder(live, rows, r);
    }
    assert WholeBoard(source, table) == MapSeq(WithRank(rows), live);
    assert Ranked(rows) == MapSeq(WithRank(rows), Sort(RowLeq, rows));
    MapPermuted(WithRank(rows), live, Sort(RowLeq, rows));
  }
}
