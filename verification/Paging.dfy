/**
 * internal/contest/scoreboard.go and ListScoreboardRegistrations: the live board, read
 * page by page from a cursor that carries the last row's key, its rank and how many rows
 * came before.
 */
module Paging {
  import opened Wrappers
  import opened Sorting
  import opened TextOrder
  import opened Submissions
  import opened Projection
  import opened Ranking
  import opened Scoreboard

  /** A contest_registrations row with its running totals. */
  datatype Entry = Entry(registration: Registration, accepted: int, penalty: int)

  /** What the live view reads besides the registrations. */
  datatype Source = Source(contest: Contest, problems: seq<ContestProblem>, results: seq<ResultRow>)

  datatype Cursor = Cursor(
    afterAccepted: int,
    afterPenalty: int,
    afterName: string,
    afterUser: int,
    rowsSeen: nat,
    lastRank: int)

  // ----- the query -----

  predicate KeyLess(a: Entry, b: Entry) {
    || a.accepted > b.accepted
    || (a.accepted == b.accepted &&
        (|| a.penalty < b.penalty
         || (a.penalty == b.penalty &&
             (|| Compare(a.registration.name, b.registration.name) < 0
              || (Compare(a.registration.name, b.registration.name) == 0 && a.registration.user < b.registration.user)))))
  }

  predicate KeyLeq(a: Entry, b: Entry) {
    !KeyLess(b, a)
  }

  /** The WHERE clause, with its keyset predicate when there is a cursor. */
  function Selected(cursor: Option<Cursor>): Entry -> bool {
    (e: Entry) =>
      && e.registration.active
      && match cursor
         case None => true
         case Some(c) =>
           || e.accepted < c.afterAccepted
           || (e.accepted == c.afterAccepted &&
               (|| e.penalty > c.afterPenalty
                || (e.penalty == c.afterPenalty &&
                    (|| Compare(e.registration.name, c.afterName) > 0
                     || (e.registration.name == c.afterName && e.registration.user > c.afterUser)))))
  }

  function ListScoreboardRegistrations(table: seq<Entry>, cursor: Option<Cursor>, limit: nat): seq<Entry> {
    Take(Sort(KeyLeq, Filter(Selected(cursor), table)), limit)
  }

  // ----- one page -----

  function LiveRow(source: Source, e: Entry): Row {
    Row(0, e.registration.user, e.registration.name, e.accepted, e.penalty,
        CellsFor(source.problems, e.registration.user, ResultCells(source.contest, Live, source.results)))
  }

  function ToLiveRow(source: Source): Entry -> Row {
    (e: Entry) => LiveRow(source, e)
  }

  function LiveRows(source: Source, entries: seq<Entry>): (rows: seq<Row>)
    ensures |rows| == |entries|
    ensures forall i | 0 <= i < |entries| :: rows[i] == LiveRow(source, entries[i])
  {
    MapSeq(ToLiveRow(source), entries)
  }

  function PageRank(rows: seq<Row>, cursor: Option<Cursor>, i: nat): int
    requires i < |rows|
  {
    if i == 0 && cursor.Some? && rows[0].accepted == cursor.value.afterAccepted && rows[0].penalty == cursor.value.afterPenalty then
      cursor.value.lastRank
    else if i > 0 && SameScore(rows[i], rows[i - 1]) then PageRank(rows, cursor, i - 1)
    else (if cursor.Some? then cursor.value.rowsSeen else 0) + i + 1
  }

  function PageRows(source: Source, entries: seq<Entry>, cursor: Option<Cursor>): (rows: seq<Row>)
    ensures |rows| == |entries|
  {
    var rows := LiveRows(source, entries);
    seq(|rows|, i requires 0 <= i < |rows| => rows[i].(rank := PageRank(rows, cursor, i)))
  }

  datatype Page = Page(rows: seq<Row>, next: Option<Cursor>)

  /** The cursor a page hands on: its last row, and how many rows have been seen. */
  function NextCursor(rows: seq<Row>, cursor: Option<Cursor>): Option<Cursor> {
    if rows == [] then None
    else
      var last := rows[|rows| - 1];
      Some(Cursor(last.accepted, last.penalty, last.name, last.user,
                  (if cursor.Some? then cursor.value.rowsSeen else 0) + |rows|, last.rank))
  }

  function LivePage(source: Source, table: seq<Entry>, pageSize: nat, cursor: Option<Cursor>): Page {
    PageFrom(source, ListScoreboardRegistrations(table, cursor, pageSize + 1), pageSize, cursor)
  }

  /** The page cut from one row more than it shows. */
  function PageFrom(source: Source, fetched: seq<Entry>, pageSize: nat, cursor: Option<Cursor>): Page {
    var rows := PageRows(source, Take(fetched, pageSize), cursor);
    Page(rows, if |fetched| > pageSize then NextCursor(rows, cursor) else None)
  }

  method ApplyPageRanks(rows: array<Row>, cursor: Option<Cursor>)
    modifies rows
    ensures forall i | 0 <= i < rows.Length :: rows[i] == old(rows[i]).(rank := PageRank(old(rows[..]), cursor, i))
  {
    ghost var before := rows[..];
    for i := 0 to rows.Length
      invariant forall k | 0 <= k < i :: rows[k] == before[k].(rank := PageRank(before, cursor, k))
      invariant forall k | i <= k < rows.Length :: rows[k] == before[k]
    {
      if i == 0 && cursor.Some? && rows[i].accepted == cursor.value.afterAccepted && rows[i].penalty == cursor.value.afterPenalty {
        rows[i] := rows[i].(rank := cursor.value.lastRank);
        continue;
      }
      if i > 0 && SameScore(rows[i], rows[i - 1]) {
        rows[i] := rows[i].(rank := rows[i - 1].rank);
        continue;
      }
      rows[i] := rows[i].(rank := (if cursor.Some? then cursor.value.rowsSeen else 0) + i + 1);
    }
  }

  /** Looks up each cell of a page in the users' results and overwrites it in place. */
  method PopulateRowsWithResults(source: Source, rows: array<Row>)
    requires forall i | 0 <= i < rows.Length :: rows[i].cells == CellsFor(source.problems, rows[i].user, BlankCells())
    modifies rows
    ensures forall i | 0 <= i < rows.Length ::
      rows[i] == old(rows[i]).(cells := CellsFor(source.problems, old(rows[i]).user, ResultCells(source.contest, Live, source.results)))
  {
    ghost var before := rows[..];
    for i := 0 to rows.Length
      invariant forall k | 0 <= k < i ::
        rows[k] == before[k].(cells := CellsFor(source.problems, before[k].user, ResultCells(source.contest, Live, source.results)))
      invariant forall k | i <= k < rows.Length :: rows[k] == before[k]
    {
      ghost var goal := CellsFor(source.problems, rows[i].user, ResultCells(source.contest, Live, source.results));
      var cells := rows[i].cells;
      for j := 0 to |cells|
        invariant |cells| == |source.problems|
        invariant forall k | 0 <= k < j :: cells[k] == goal[k]
        invariant forall k | j <= k < |cells| :: cells[k] == BlankCell(source.problems[k])
      {
        var result := LastResult(source.results, rows[i].user, source.problems[j].id);
        if result.Some? {
          cells := cells[j := ResultCell(source.contest, Live, source.problems[j], result)];
        }
      }
      assert cells == goal;
      rows[i] := rows[i].(cells := cells);
    }
  }

  function BlankRows(source: Source, entries: seq<Entry>): (rows: seq<Row>)
    ensures |rows| == |entries|
    ensures forall i | 0 <= i < |entries| ::
      rows[i] == LiveRow(source, entries[i]).(cells := CellsFor(source.problems, entries[i].registration.user, BlankCells()))
  {
    seq(|entries|, i requires 0 <= i < |entries| =>
      LiveRow(source, entries[i]).(cells := CellsFor(source.problems, entries[i].registration.user, BlankCells())))
  }

  method RowsForPage(source: Source, entries: seq<Entry>, cursor: Option<Cursor>) returns (rows: array<Row>)
    ensures fresh(rows)
    ensures rows[..] == PageRows(source, entries, cursor)
  {
    var blank := BlankRows(source, entries);
    rows := new Row[|blank|](i requires 0 <= i < |blank| => blank[i]);
    PopulateRowsWithResults(source, rows);
    assert rows[..] == LiveRows(source, entries);
    ApplyPageRanks(rows, cursor);
    assert rows[..] == PageRows(source, entries, cursor);
  }

  method LiveScoreboardPage(source: Source, table: seq<Entry>, pageSize: nat, cursor: Option<Cursor>)
    returns (rows: array<Row>, next: Option<Cursor>)
    ensures fresh(rows)
    ensures Page(rows[..], next) == LivePage(source, table, pageSize, cursor)
  {
    var registrations := ListScoreboardRegistrations(table, cursor, pageSize + 1);
    var hasMore := |registrations| > pageSize;
    if hasMore {
      registrations := registrations[..pageSize];
    }
    rows := RowsForPage(source, registrations, cursor);
    next := None;
    if hasMore && rows.Length > 0 {
      next := CursorAfterPage(source, registrations, rows, cursor);
    }
  }

  method CursorAfterPage(source: Source, registrations: seq<Entry>, rows: array<Row>, cursor: Option<Cursor>)
    returns (next: Option<Cursor>)
    requires rows[..] == PageRows(source, registrations, cursor) && rows.Length > 0
    ensures next == NextCursor(rows[..], cursor)
  {
    var last := rows[rows.Length - 1];
    var lastRegistration := registrations[|registrations| - 1];
    assert last == rows[..][rows.Length - 1];
    var seen := if cursor.Some? then cursor.value.rowsSeen else 0;
    next := Some(Cursor(last.accepted, last.penalty, last.name, lastRegistration.registration.user,
                        seen + rows.Length, last.rank));
  }

  // ----- the whole table, in one piece -----

  ghost predicate DistinctUsers(table: seq<Entry>) {
    forall i, j | 0 <= i < j < |table| :: table[i].registration.user != table[j].registration.user
  }

  /** Every active entry in key order. */
  function Standing(table: seq<Entry>): seq<Entry> {
    Sort(KeyLeq, Filter(Selected(None), table))
  }

  /** The board the pages have to add up to. */
  function WholeBoard(source: Source, table: seq<Entry>): seq<Row> {
    AssignRanks(LiveRows(source, Standing(table)))
  }

  lemma KeyLeqIsPreorder()
    ensures Preorder(KeyLeq)
  {
    forall a, b ensures KeyLeq(a, b) || KeyLeq(b, a) {
      CompareFlips(a.registration.name, b.registration.name);
    }
    forall a, b, c | KeyLeq(a, b) && KeyLeq(b, c) ensures KeyLeq(a, c) {
      CompareFlips(a.registration.name, b.registration.name);
      CompareFlips(b.registration.name, c.registration.name);
      CompareFlips(a.registration.name, c.registration.name);
      if Compare(a.registration.name, b.registration.name) <= 0 && Compare(b.registration.name, c.registration.name) <= 0 {
        CompareTransitive(a.registration.name, b.registration.name, c.registration.name);
      }
    }
  }

  lemma KeyTieIsSameUser(a: Entry, b: Entry)
    requires KeyLeq(a, b) && KeyLeq(b, a)
    ensures a.registration.user == b.registration.user
  {
    CompareFlips(a.registration.name, b.registration.name);
  }

  lemma KeyHasNoTies(table: seq<Entry>)
    requires DistinctUsers(table)
    ensures NoTies(KeyLeq, table)
  {
    forall i, j | 0 <= i < |table| && 0 <= j < |table| && KeyLeq(table[i], table[j]) && KeyLeq(table[j], table[i])
      ensures table[i] == table[j]
    {
      KeyTieIsSameUser(table[i], table[j]);
    }
  }

  /** The keyset predicate selects exactly what comes after the cursor's row. */
  lemma CursorSelectsAfter(x: Entry, e: Entry, c: Cursor)
    requires c.afterAccepted == x.accepted && c.afterPenalty == x.penalty
    requires c.afterName == x.registration.name && c.afterUser == x.registration.user
    ensures Selected(Some(c))(e) <==> e.registration.active && KeyLess(x, e)
    ensures KeyLess(x, e) <==>
              || e.accepted < x.accepted
              || (e.accepted == x.accepted && e.penalty > x.penalty)
              || (e.accepted == x.accepted && e.penalty == x.penalty && ComesFirst(x.registration.name, e.registration.name))
              || (e.accepted == x.accepted && e.penalty == x.penalty && x.registration.name == e.registration.name
                  && x.registration.user < e.registration.user)
  {
    CompareFlips(x.registration.name, e.registration.name);
    CompareZero(x.registration.name, e.registration.name);
    CompareMeaning(x.registration.name, e.registration.name);
  }

  // ----- the cursor after k rows -----

  function CursorAt(source: Source, table: seq<Entry>, k: nat): Option<Cursor>
    requires k <= |Standing(table)|
  {
    if k == 0 then None
    else
      var x := Standing(table)[k - 1];
      Some(Cursor(x.accepted, x.penalty, x.registration.name, x.registration.user, k, WholeBoard(source, table)[k - 1].rank))
  }

  lemma FilterDistinctUsers(keep: Entry -> bool, table: seq<Entry>)
    requires DistinctUsers(table)
    ensures DistinctUsers(Filter(keep, table))
  {
    FilterKeyed((e: Entry) => e.registration.user, keep, table);
  }

  /** In key order, later entries are strictly after. */
  lemma StandingIsStrict(table: seq<Entry>)
    requires DistinctUsers(table)
    ensures var all := Standing(table);
      && (forall e | e in all :: e.registration.active)
      && (forall i, j | 0 <= i < j < |all| :: KeyLess(all[i], all[j]) && KeyLeq(all[i], all[j]))
  {
    var active := Filter(Selected(None), table);
    var all := Standing(table);
    KeyLeqIsPreorder();
    SortOrdered(KeyLeq, active);
    SameMembers(active, all);
    FilterDistinctUsers(Selected(None), table);
    KeyHasNoTies(active);
    NoTiesSubset(KeyLeq, active, all);
    PermutedKeyed((e: Entry) => e.registration.user, active, all);
    forall i, j | 0 <= i < j < |all| ensures KeyLess(all[i], all[j]) {
      if KeyLeq(all[j], all[i]) {
        KeyTieIsSameUser(all[i], all[j]);
        assert false;
      }
    }
  }
}
