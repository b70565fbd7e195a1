/**
 * internal/contest/repository.go and scoreSnapshotPage: how a snapshot is stored as a header
 * and numbered rows, and read back page by page with a cursor that names its snapshot.
 */
module SnapshotPages {
  import opened Wrappers
  import opened Sorting
  import opened Sums
  import opened Ranking
  import Snapshots

  /** A row of contest_score_snapshots; snapshots are numbered by position. */
  datatype Header = Header(contest: int, kind: Snapshots.Kind, sourceRevision: nat, generatedAt: int)

  datatype StoredRow = StoredRow(snapshot: nat, ordinal: nat, row: Row)

  datatype Tables = Tables(headers: seq<Header>, rows: seq<StoredRow>)

  // ----- writing -----

  predicate SameKey(h: Header, contest: int, kind: Snapshots.Kind, revision: nat) {
    h.contest == contest && h.kind == kind && h.sourceRevision == revision
  }

  predicate KeyTaken(headers: seq<Header>, contest: int, kind: Snapshots.Kind, revision: nat) {
    exists i :: 0 <= i < |headers| && SameKey(headers[i], contest, kind, revision)
  }

  /** The rows of a board, in board order with ordinals from 1. */
  function Numbered(id: nat, board: seq<Row>): (r: seq<StoredRow>)
    ensures |r| == |board| && forall i | 0 <= i < |board| :: r[i] == StoredRow(id, i + 1, board[i])
  {
    seq(|board|, i requires 0 <= i < |board| => StoredRow(id, i + 1, board[i]))
  }

  function Created(t: Tables, h: Header, board: seq<Row>): Tables {
    if KeyTaken(t.headers, h.contest, h.kind, h.sourceRevision) then t
    else Tables(t.headers + [h], t.rows + Numbered(|t.headers|, board))
  }

  // ----- reading -----

  function OfSnapshot(id: nat): StoredRow -> bool {
    (r: StoredRow) => r.snapshot == id
  }

  function OfSnapshotAfter(id: nat, after: nat): StoredRow -> bool {
    (r: StoredRow) => r.snapshot == id && r.ordinal > after
  }

  predicate ByOrdinal(a: StoredRow, b: StoredRow) {
    a.ordinal <= b.ordinal
  }

  /** ListContestScoreSnapshotRows. */
  function ListRows(rows: seq<StoredRow>, id: nat, after: nat, limit: nat): seq<StoredRow> {
    Take(Sort(ByOrdinal, Filter(OfSnapshotAfter(id, after), rows)), limit)
  }

  function RowOf(): StoredRow -> Row {
    (r: StoredRow) => r.row
  }

  /** GetLatestContestScoreSnapshot: the latest generation time, then the highest id. */
  function Latest(headers: seq<Header>, contest: int, kind: Snapshots.Kind): (r: Option<nat>)
    ensures r.Some? ==> r.value < |headers| && headers[r.value].contest == contest && headers[r.value].kind == kind
    ensures r.Some? ==> forall i | 0 <= i < |headers| && headers[i].contest == contest && headers[i].kind == kind ::
                          || headers[i].generatedAt < headers[r.value].generatedAt
                          || (headers[i].generatedAt == headers[r.value].generatedAt && i <= r.value)
    ensures r.None? ==> forall i | 0 <= i < |headers| :: headers[i].contest != contest || headers[i].kind != kind
  {
    if headers == [] then None
    else
      var last, rest := headers[|headers| - 1], Latest(headers[..|headers| - 1], contest, kind);
      if last.contest == contest && last.kind == kind && (rest.None? || headers[rest.value].generatedAt <= last.generatedAt)
      then Some(|headers| - 1) else rest
  }

  datatype Cursor = Cursor(snapshot: nat, afterOrdinal: nat)

  datatype Page = Page(snapshot: nat, rows: seq<Row>, next: Option<Cursor>)

  datatype PageError = NotReady | StaleCursor

  /** The rows after an ordinal, as many as a page and one more. */
  function Fetched(rows: seq<StoredRow>, id: nat, after: nat, limit: nat): seq<Row> {
    MapSeq(RowOf(), ListRows(rows, id, after, limit))
  }

  function Cut(id: nat, fetched: seq<Row>, pageSize: nat, after: nat): Page {
    var rows := Take(fetched, pageSize);
    Page(id, rows, if |fetched| > pageSize && |rows| > 0 then Some(Cursor(id, |rows| + after)) else None)
  }

  function PageOf(t: Tables, contest: int, kind: Snapshots.Kind, pageSize: nat, cursor: Option<Cursor>): Result<Page, PageError> {
    var latest := Latest(t.headers, contest, kind);
    if latest.None? then Err(NotReady)
    else if cursor.Some? && cursor.value.snapshot != latest.value then Err(StaleCursor)
    else
      var after := if cursor.Some? then cursor.value.afterOrdinal else 0;
      Ok(Cut(latest.value, Fetched(t.rows, latest.value, after, pageSize + 1), pageSize, after))
  }

  // ----- the same on the tables -----

  method PageResponse(id: nat, fetched: seq<Row>, pageSize: nat, afterOrdinal: nat) returns (page: Page)
    ensures page == Cut(id, fetched, pageSize, afterOrdinal)
  {
    var hasMore := |fetched| > pageSize;
    var rows := fetched;
    if hasMore {
      rows := rows[..pageSize];
    }
    var next: Option<Cursor> := None;
    if hasMore && |rows| > 0 {
      next := Some(Cursor(id, |rows| + afterOrdinal));
    }
    return Page(id, rows, next);
  }

  class SnapshotStore {
    var headers: seq<Header>
    var rows: seq<StoredRow>

    function Contents(): Tables
      reads this
    {
      Tables(headers, rows)
    }

    constructor ()
      ensures Contents() == Tables([], [])
    {
      headers, rows := [], [];
    }

    /** The header unless its key is taken, then one row after the other. */
    method CreateScoreSnapshot(h: Header, board: seq<Row>) returns (created: bool)
      modifies this
      ensures Contents() == Created(old(Contents()), h, board)
      ensures created == !KeyTaken(old(headers), h.contest, h.kind, h.sourceRevision)
    {
      created := !KeyTaken(headers, h.contest, h.kind, h.sourceRevision);
      if !created {
        return;
      }
      var id := |headers|;
      headers := headers + [h];
      ghost var before := rows;
      for i := 0 to |board|
        invariant headers == old(headers) + [h]
        invariant rows == before + Numbered(id, board)[..i]
      {
        rows := rows + [StoredRow(id, i + 1, board[i])];
      }
    }

    method ScoreSnapshotPage(contest: int, kind: Snapshots.Kind, pageSize: nat, cursor: Option<Cursor>) returns (r: Result<Page, PageError>)
      ensures r == PageOf(Contents(), contest, kind, pageSize, cursor)
    {
      var afterOrdinal := 0;
      if cursor.Some? {
        afterOrdinal := cursor.value.afterOrdinal;
      }
      var latest := Latest(headers, contest, kind);
      if latest.None? {
        return Err(NotReady);
      }
      var page := Fetched(rows, latest.value, afterOrdinal, pageSize + 1);
      if cursor.Some? && cursor.value.snapshot != latest.value {
        return Err(StaleCursor);
      }
      var response := PageResponse(latest.value, page, pageSize, afterOrdinal);
      return Ok(response);
    }
  }

  // ----- every board is filed whole -----

  /** Snapshot `i` holds board `i`, numbered. */
  ghost predicate Filed(t: Tables, boards: seq<seq<Row>>) {
    && |boards| == |t.headers|
    && (forall i | 0 <= i < |t.rows| :: t.rows[i].snapshot < |t.headers|)
    && (forall i | 0 <= i < |boards| :: Filter(OfSnapshot(i), t.rows) == Numbered(i, boards[i]))
  }

  lemma NumberedIsOwn(id: nat, board: seq<Row>, other: nat)
    ensures Filter(OfSnapshot(other), Numbered(id, board)) == if other == id then Numbered(id, board) else []
  {
    if other == id {
      FilterAll(OfSnapshot(other), Numbered(id, board));
    } else {
      FilterNothing(OfSnapshot(other), Numbered(id, board));
    }
  }

  lemma CreateFiles(t: Tables, boards: seq<seq<Row>>, h: Header, board: seq<Row>)
    requires Filed(t, boards)
    ensures Filed(Created(t, h, board), if KeyTaken(t.headers, h.contest, h.kind, h.sourceRevision) then boards else boards + [board])
  {
    if !KeyTaken(t.headers, h.contest, h.kind, h.sourceRevision) {
      var id := |t.headers|;
      var more := boards + [board];
      forall i | 0 <= i < |more| ensures Filter(OfSnapshot(i), t.rows + Numbered(id, board)) == Numbered(i, more[i]) {
        FilterConcat(OfSnapshot(i), t.rows, Numbered(id, board));
        NumberedIsOwn(id, board, i);
        if i == id {
          FilterNothing(OfSnapshot(i), t.rows);
        }
      }
    }
  }

  /** The tables as the snapshot worker sees them. */
  function Seen(t: Tables, boards: seq<seq<Row>>): (r: seq<Snapshots.Snapshot>)
    requires |boards| == |t.headers|
    ensures |r| == |boards|
    ensures forall i | 0 <= i < |r| ::
              r[i] == Snapshots.Snapshot(t.headers[i].contest, t.headers[i].kind, boards[i], t.headers[i].sourceRevision, t.headers[i].generatedAt)
  {
    seq(|boards|, i requires 0 <= i < |boards| =>
      Snapshots.Snapshot(t.headers[i].contest, t.headers[i].kind, boards[i], t.headers[i].sourceRevision, t.headers[i].generatedAt))
  }

  /** Creating a snapshot in the tables is the worker's insert-if-absent. */
  lemma CreateIsInsert(t: Tables, boards: seq<seq<Row>>, h: Header, board: seq<Row>)
    requires Filed(t, boards)
    ensures var after := if KeyTaken(t.headers, h.contest, h.kind, h.sourceRevision) then boards else boards + [board];
            Filed(Created(t, h, board), after)
            && Seen(Created(t, h, board), after)
               == Snapshots.Insert(Seen(t, boards), Snapshots.Snapshot(h.contest, h.kind, board, h.sourceRevision, h.generatedAt))
  {
    CreateFiles(t, boards, h, board);
    var seen := Seen(t, boards);
    if KeyTaken(t.headers, h.contest, h.kind, h.sourceRevision) {
      var i :| 0 <= i < |t.headers| && SameKey(t.headers[i], h.contest, h.kind, h.sourceRevision);
      assert seen[i].contest == h.contest && seen[i].kind == h.kind && seen[i].sourceRevision == h.sourceRevision;
    } else {
      forall i | 0 <= i < |seen| ensures !(seen[i].contest == h.contest && seen[i].kind == h.kind && seen[i].sourceRevision == h.sourceRevision) {
        assert !SameKey(t.headers[i], h.contest, h.kind, h.sourceRevision);
      }
    }
  }

  // ----- pages of one board -----

  lemma SortOfNumbered(id: nat, board: seq<Row>, after: nat)
    requires after <= |board|
    ensures Sort(ByOrdinal, Numbered(id, board)[after..]) == Numbered(id, board)[after..]
  {
    var s := Numbered(id, board)[after..];
    SortOrdered(ByOrdinal, s);
    SortedUnique(ByOrdinal, s, Sort(ByOrdinal, s));
  }

  lemma SuffixOfNumbered(id: nat, board: seq<Row>, after: nat)
    requires after <= |board|
    ensures Filter(OfSnapshotAfter(id, after), Numbered(id, board)) == Numbered(id, board)[after..]
  {
    FilterSuffix(OfSnapshotAfter(id, after), Numbered(id, board), after);
  }

  lemma RowsOfSuffix(id: nat, board: seq<Row>, after: nat, limit: nat)
    requires after <= |board|
    ensures MapSeq(RowOf(), Take(Numbered(id, board)[after..], limit)) == Take(board[after..], limit)
  {
  }

  lemma ListedRows(t: Tables, boards: seq<seq<Row>>, id: nat, after: nat, limit: nat)
    requires Filed(t, boards) && id < |boards| && after <= |boards[id]|
    ensures Fetched(t.rows, id, after, limit) == Take(boards[id][after..], limit)
  {
    FilterNarrower(OfSnapshotAfter(id, after), OfSnapshot(id), t.rows);
    SuffixOfNumbered(id, boards[id], after);
    SortOfNumbered(id, boards[id], after);
    RowsOfSuffix(id, boards[id], after, limit);
  }

  lemma CutIs(id: nat, board: seq<Row>, from: nat, pageSize: nat)
    requires from <= |board| && pageSize > 0
    ensures var to := Least(from + pageSize, |board|);
            Cut(id, Take(board[from..], pageSize + 1), pageSize, from)
            == Page(id, board[from..to], if to < |board| then Some(Cursor(id, to)) else None)
  {
    var fetched := Take(board[from..], pageSize + 1);
    var to := Least(from + pageSize, |board|);
    assert Take(fetched, pageSize) == board[from..to];
  }

  /** A page is the next slice of the latest board; a cursor of any other snapshot is refused. */
  lemma PageIs(t: Tables, boards: seq<seq<Row>>, contest: int, kind: Snapshots.Kind, pageSize: nat, cursor: Option<Cursor>)
    requires Filed(t, boards) && pageSize > 0
    requires cursor.Some? ==> cursor.value.snapshot < |boards| && cursor.value.afterOrdinal <= |boards[cursor.value.snapshot]|
    ensures var latest := Latest(t.headers, contest, kind);
            PageOf(t, contest, kind, pageSize, cursor) ==
            if latest.None? then Err(NotReady)
            else if cursor.Some? && cursor.value.snapshot != latest.value then Err(StaleCursor)
            else
              var board := boards[latest.value];
              var from := if cursor.Some? then cursor.value.afterOrdinal else 0;
              var to := Least(from + pageSize, |board|);
              Ok(Page(latest.value, board[from..to], if to < |board| then Some(Cursor(latest.value, to)) else None))
  {
    var latest := Latest(t.headers, contest, kind);
    if latest.Some? && (cursor.Some? ==> cursor.value.snapshot == latest.value) {
      var from := if cursor.Some? then cursor.value.afterOrdinal else 0;
      ListedRows(t, boards, latest.value, from, pageSize + 1);
      CutIs(latest.value, boards[latest.value], from, pageSize);
    }
  }

  function Least(a: nat, b: nat): nat {
    if a < b then a else b
  }

  type Server = Option<Cursor> -> Result<Page, PageError>

  function PageAt(t: Tables, contest: int, kind: Snapshots.Kind, pageSize: nat): Server {
    (cursor: Option<Cursor>) => PageOf(t, contest, kind, pageSize, cursor)
  }

  /** Following next_cursor; `pages[n]` answers request n. */
  function Follow(pages: seq<Server>, cursor: Option<Cursor>): Result<seq<Row>, PageError> {
    if pages == [] then Ok([])
    else
      match pages[0](cursor)
      case Err(e) => Err(e)
      case Ok(page) =>
        if page.next.None? then Ok(page.rows)
        else
          match Follow(pages[1..], page.next)
          case Err(e) => Err(e)
          case Ok(rows) => Ok(page.rows + rows)
  }

  /** Answers a cursor of snapshot `id` with the next slice of its board, or refuses it. */
  ghost predicate Serves(page: Server, size: nat, id: nat, board: seq<Row>) {
    forall from: nat | from <= |board| && page(Some(Cursor(id, from))).Ok? ::
      var to := Least(from + size, |board|);
      page(Some(Cursor(id, from))).value == Page(id, board[from..to], if to < |board| then Some(Cursor(id, to)) else None)
  }

  lemma SliceJoin(board: seq<Row>, from: nat, to: nat, more: nat)
    requires from <= to <= |board|
    ensures board[from..to] + board[to..Least(to + more, |board|)] == board[from..Least(to + more, |board|)]
  {
  }

  lemma {:induction false} FollowServed(pages: seq<Server>, sizes: seq<nat>, id: nat, board: seq<Row>, from: nat)
    requires |pages| == |sizes| && from <= |board|
    requires forall n | 0 <= n < |pages| :: sizes[n] > 0 && Serves(pages[n], sizes[n], id, board)
    ensures var r := Follow(pages, Some(Cursor(id, from))); r.Ok? ==> r.value == board[from..Least(from + SumOf(sizes), |board|)]
  {
    if pages != [] {
      var to := Least(from + sizes[0], |board|);
      assert Serves(pages[0], sizes[0], id, board);
      FollowServed(pages[1..], sizes[1..], id, board, to);
      SliceJoin(board, from, to, SumOf(sizes[1..]));
    }
  }

  /** Boards only get added. */
  ghost predicate Grow(tables: seq<Tables>, filed: seq<seq<seq<Row>>>) {
    && |tables| == |filed|
    && (forall n | 0 <= n < |tables| :: Filed(tables[n], filed[n]))
    && (forall m, n | 0 <= m < n < |tables| :: filed[m] <= filed[n])
  }

  lemma ServedAt(t: Tables, boards: seq<seq<Row>>, contest: int, kind: Snapshots.Kind, pageSize: nat, id: nat, from: nat, to: nat, r: Result<Page, PageError>)
    requires Filed(t, boards) && pageSize > 0 && id < |boards| && from <= |boards[id]| && to == Least(from + pageSize, |boards[id]|)
    requires r == PageOf(t, contest, kind, pageSize, Some(Cursor(id, from))) && r.Ok?
    ensures r.value == Page(id, boards[id][from..to], if to < |boards[id]| then Some(Cursor(id, to)) else None)
  {
    PageIs(t, boards, contest, kind, pageSize, Some(Cursor(id, from)));
  }

  lemma FiledServes(t: Tables, boards: seq<seq<Row>>, contest: int, kind: Snapshots.Kind, pageSize: nat, id: nat)
    requires Filed(t, boards) && pageSize > 0 && id < |boards|
    ensures Serves(PageAt(t, contest, kind, pageSize), pageSize, id, boards[id])
  {
    forall from: nat | from <= |boards[id]| && PageOf(t, contest, kind, pageSize, Some(Cursor(id, from))).Ok?
      ensures var to := Least(from + pageSize, |boards[id]|);
              PageOf(t, contest, kind, pageSize, Some(Cursor(id, from))).value
              == Page(id, boards[id][from..to], if to < |boards[id]| then Some(Cursor(id, to)) else None)
    {
      ServedAt(t, boards, contest, kind, pageSize, id, from, Least(from + pageSize, |boards[id]|),
               PageOf(t, contest, kind, pageSize, Some(Cursor(id, from))));
    }
  }

  function Servers(tables: seq<Tables>, sizes: seq<nat>, contest: int, kind: Snapshots.Kind): (r: seq<Server>)
    requires |tables| == |sizes|
    ensures |r| == |tables|
  {
    seq(|tables|, n requires 0 <= n < |tables| => PageAt(tables[n], contest, kind, sizes[n]))
  }

  /**
   * Whatever snapshots are created between the pages, a reader who follows the cursor from
   * `from` gets the rows of the board it started on, in order and without a gap, or is told
   * that its cursor is stale; it never gets rows of two boards.
   */
  lemma FollowIsOneBoard(tables: seq<Tables>, filed: seq<seq<seq<Row>>>, sizes: seq<nat>, contest: int, kind: Snapshots.Kind, id: nat, from: nat)
    requires Grow(tables, filed) && |tables| == |sizes| && tables != [] && forall n | 0 <= n < |sizes| :: sizes[n] > 0
    requires id < |filed[0]| && from <= |filed[0][id]|
    ensures var r := Follow(Servers(tables, sizes, contest, kind), Some(Cursor(id, from)));
            r.Ok? ==> r.value == filed[0][id][from..Least(from + SumOf(sizes), |filed[0][id]|)]
  {
    var pages := Servers(tables, sizes, contest, kind);
    forall n | 0 <= n < |pages| ensures Serves(pages[n], sizes[n], id, filed[0][id]) {
      assert n > 0 ==> filed[0] <= filed[n];
      assert filed[n][id] == filed[0][id];
      FiledServes(tables[n], filed[n], contest, kind, sizes[n], id);
    }
    FollowServed(pages, sizes, id, filed[0][id], from);
  }
}
