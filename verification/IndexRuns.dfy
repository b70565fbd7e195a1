/**
 * The contest index under concurrent transactions (internal/submission/contest_projection_repository.go):
 * each locks a submission and the user's registration, changes the row, and rebuilds the cell and the
 * totals, in separate steps that interleave with those of any other transactions. A transaction sees
 * what is committed and what it wrote itself.
 */
module IndexRuns {
  import opened Wrappers
  import opened Sorting
  import opened Submissions
  import opened Projection
  import opened ContestIndex

  /** Where a transaction is with the submission it is working on. */
  datatype Phase = Idle | RowLocked(row: nat) | Locked(row: nat) | Written(row: nat)

  datatype Tx = Tx(phase: Phase, live: bool, held: set<nat>, users: set<int>,
                   writes: map<nat, Submission>, results: Results, totals: map<int, Totals>)

  /** The committed tables and the transactions. */
  datatype State = State(rows: seq<Submission>, index: Index, txs: seq<Tx>)

  datatype Action =
    | Begin
    | LockRow(t: nat, i: nat)
    | LockUser(t: nat)
    | Write(t: nat, row: Submission)
    | Rebuild(t: nat)
    | Commit(t: nat)
    | Abort(t: nat)
    | Insert(row: Submission)
    | Touch(i: nat, row: Submission)

  predicate InCells(c: Setting, row: Submission) {
    row.user in c.registered && row.problem in c.problems
  }

  // ----- what a transaction sees -----

  function RowsSeen(rows: seq<Submission>, writes: map<nat, Submission>): (r: seq<Submission>)
    ensures |r| == |rows| && forall i | 0 <= i < |r| :: r[i] == if i in writes then writes[i] else rows[i]
  {
    seq(|rows|, i requires 0 <= i < |rows| => if i in writes then writes[i] else rows[i])
  }

  function IndexSeen(x: Index, t: Tx): Index {
    Index(x.results + t.results, x.totals + t.totals)
  }

  function EnsuredBy(t: Tx, x: Index, user: int, problem: int): Tx {
    if (user, problem) in IndexSeen(x, t).results then t else t.(results := t.results[(user, problem) := EMPTY_RESULT])
  }

  /** UpsertContestProblemResult and UpdateContestRegistrationScore, from the rows and results it sees. */
  function RebuiltBy(c: Setting, t: Tx, rows: seq<Submission>, x: Index, user: int, problem: int): Tx {
    var cells := t.results[(user, problem) := CellResult(c.start, RowsSeen(rows, t.writes), user, problem)];
    t.(results := cells, totals := t.totals[user := Total(ListResults(x.results + cells, c.problems, user))])
  }

  // ----- steps -----

  predicate RowFree(txs: seq<Tx>, t: nat, i: nat) {
    forall k | 0 <= k < |txs| && k != t && txs[k].live :: i !in txs[k].held
  }

  predicate UserFree(txs: seq<Tx>, t: nat, user: int) {
    forall k | 0 <= k < |txs| && k != t && txs[k].live :: user !in txs[k].users
  }

  predicate Running(s: State, t: nat) {
    t < |s.txs| && s.txs[t].live
  }

  predicate SameCell(a: Submission, b: Submission) {
    a.user == b.user && a.problem == b.problem
  }

  predicate Enabled(c: Setting, s: State, a: Action) {
    match a
    case Begin => true
    case LockRow(t, i) => Running(s, t) && s.txs[t].phase.Idle? && i < |s.rows| && RowFree(s.txs, t, i)
    case LockUser(t) =>
      && Running(s, t) && s.txs[t].phase.RowLocked? && s.txs[t].phase.row < |s.rows|
      && var row := s.rows[s.txs[t].phase.row];
         InCells(c, row) ==> UserFree(s.txs, t, row.user)
    case Write(t, row) =>
      && Running(s, t) && s.txs[t].phase.Locked? && s.txs[t].phase.row < |s.rows|
      && SameCell(row, s.rows[s.txs[t].phase.row])
    case Rebuild(t) => Running(s, t) && s.txs[t].phase.Written? && s.txs[t].phase.row < |s.rows|
    case Commit(t) => Running(s, t) && !s.txs[t].phase.Written?
    case Abort(t) => Running(s, t)
    case Insert(row) => row.status.Queued?
    case Touch(i, row) =>
      && i < |s.rows| && RowFree(s.txs, |s.txs|, i)
      && SameCell(row, s.rows[i]) && !Terminal(row.status) && !Terminal(s.rows[i].status)
  }

  function WithTx(s: State, t: nat, tx: Tx): State
    requires t < |s.txs|
  {
    s.(txs := s.txs[t := tx])
  }

  const FRESH_TX := Tx(Idle, true, {}, {}, map[], map[], map[])

  function Closed(t: Tx): Tx {
    t.(live := false)
  }

  /** A row of a registered user and a contest problem needs that user's lock; any other is in nobody's index. */
  function UserLocked(c: Setting, t: Tx, x: Index, i: nat, row: Submission): Tx {
    var locked := t.(phase := Locked(i));
    if InCells(c, row) then EnsuredBy(locked.(users := t.users + {row.user}), x, row.user, row.problem) else locked
  }

  function After(c: Setting, s: State, a: Action): State
    requires Enabled(c, s, a)
  {
    match a
    case Begin => s.(txs := s.txs + [FRESH_TX])
    case LockRow(t, i) => WithTx(s, t, s.txs[t].(phase := RowLocked(i), held := s.txs[t].held + {i}))
    case LockUser(t) => WithTx(s, t, UserLocked(c, s.txs[t], s.index, s.txs[t].phase.row, s.rows[s.txs[t].phase.row]))
    case Write(t, row) =>
      var i := s.txs[t].phase.row;
      WithTx(s, t, s.txs[t].(phase := Written(i), writes := s.txs[t].writes[i := row]))
    case Rebuild(t) =>
      var row := s.rows[s.txs[t].phase.row];
      var idle := s.txs[t].(phase := Idle);
      WithTx(s, t, if InCells(c, row) then RebuiltBy(c, idle, s.rows, s.index, row.user, row.problem) else idle)
    case Commit(t) =>
      State(RowsSeen(s.rows, s.txs[t].writes), IndexSeen(s.index, s.txs[t]), s.txs[t := Closed(s.txs[t])])
    case Abort(t) => WithTx(s, t, Closed(s.txs[t]))
    case Insert(row) => s.(rows := s.rows + [row])
    case Touch(i, row) => s.(rows := s.rows[i := row])
  }

  ghost predicate Run(c: Setting, trace: seq<State>, actions: seq<Action>) {
    && |trace| == |actions| + 1
    && trace[0] == State([], Index(map[], map u | u in c.registered :: Totals(0, 0)), [])
    && forall n | 0 <= n < |actions| :: Enabled(c, trace[n], actions[n]) && trace[n + 1] == After(c, trace[n], actions[n])
  }

  // ----- one user's part of the index -----

  /** The user's cells and totals are what recomputing gives, but for one cell between its write and its rebuild. */
  ghost predicate UserOk(c: Setting, rows: seq<Submission>, x: Index, user: int, stale: Option<int>) {
    match stale
    case None => UserCurrent(c.start, c.problems, rows, x.results, x.totals, user)
    case Some(problem) => user in x.totals && forall p | p in c.problems && p != problem :: CellCurrent(c.start, rows, x.results, user, p)
  }

  /** The same rows count and the same results are stored, for one user. */
  ghost predicate SameForUser(c: Setting, rows: seq<Submission>, x: Index, more: seq<Submission>, y: Index, user: int) {
    && (forall p | p in c.problems :: Filter(Counted(user, p), rows) == Filter(Counted(user, p), more))
    && (forall p | p in c.problems :: Stored(x.results, user, p) == Stored(y.results, user, p))
    && user in x.totals && user in y.totals && x.totals[user] == y.totals[user]
  }

  lemma UserOkSame(c: Setting, rows: seq<Submission>, x: Index, more: seq<Submission>, y: Index, user: int, stale: Option<int>)
    requires UserOk(c, rows, x, user, stale) && SameForUser(c, rows, x, more, y, user)
    ensures UserOk(c, more, y, user, stale)
  {
    forall p | p in c.problems && stale != Some(p) ensures CellCurrent(c.start, more, y.results, user, p) {
      assert CellCurrent(c.start, rows, x.results, user, p);
      assert Filter(Counted(user, p), rows) == Filter(Counted(user, p), more);
    }
    if stale.None? {
      ScratchDependsOnCells(c.start, c.problems, rows, more, user);
    }
  }

  /** Rows may change freely where neither the old nor the new one counts. */
  lemma {:induction false} FilterAgrees(keep: Submission -> bool, a: seq<Submission>, b: seq<Submission>)
    requires |a| == |b| && forall i | 0 <= i < |a| :: a[i] == b[i] || (!keep(a[i]) && !keep(b[i]))
    ensures Filter(keep, a) == Filter(keep, b)
  {
    if a != [] {
      FilterAgrees(keep, a[1..], b[1..]);
    }
  }

  // ----- what every step keeps -----

  ghost predicate PhaseOk(c: Setting, rows: seq<Submission>, t: Tx) {
    match t.phase
    case Idle => true
    case RowLocked(i) => i < |rows| && i in t.held
    case Locked(i) => i < |rows| && i in t.held && (InCells(c, rows[i]) ==> rows[i].user in t.users)
    case Written(i) => i < |rows| && i in t.held && (InCells(c, rows[i]) ==> rows[i].user in t.users)
  }

  /** A transaction has written only what its locks cover. */
  ghost predicate Covered(c: Setting, rows: seq<Submission>, t: Tx) {
    && t.users <= c.registered
    && (forall i | i in t.writes ::
          i < |rows| && i in t.held && SameCell(t.writes[i], rows[i]) && (InCells(c, rows[i]) ==> rows[i].user in t.users))
    && (forall k | k in t.results :: k.0 in t.users && k.1 in c.problems)
    && (forall u | u in t.totals :: u in t.users)
    && PhaseOk(c, rows, t)
  }

  function StaleFor(c: Setting, rows: seq<Submission>, t: Tx, user: int): Option<int> {
    if t.phase.Written? && t.phase.row < |rows| && InCells(c, rows[t.phase.row]) && rows[t.phase.row].user == user
    then Some(rows[t.phase.row].problem) else None
  }

  /** For every user it has locked, a transaction sees a current index. */
  ghost predicate SeesCurrent(c: Setting, rows: seq<Submission>, x: Index, t: Tx) {
    forall u | u in t.users :: UserOk(c, RowsSeen(rows, t.writes), IndexSeen(x, t), u, StaleFor(c, rows, t, u))
  }

  ghost predicate Apart(a: Tx, b: Tx) {
    a.live && b.live ==> a.users !! b.users && a.held !! b.held
  }

  ghost predicate Inv(c: Setting, s: State) {
    && Current(c, s.rows, s.index)
    && (forall k | 0 <= k < |s.txs| && s.txs[k].live :: Covered(c, s.rows, s.txs[k]) && SeesCurrent(c, s.rows, s.index, s.txs[k]))
    && (forall j, k | 0 <= j < k < |s.txs| :: Apart(s.txs[j], s.txs[k]))
  }

  /** Replacing one transaction, with the tables as they are. */
  lemma TxReplaced(c: Setting, s: State, t: nat, tx: Tx)
    requires Inv(c, s) && t < |s.txs|
    requires tx.live ==> Covered(c, s.rows, tx) && SeesCurrent(c, s.rows, s.index, tx)
    requires forall k | 0 <= k < |s.txs| && k != t :: Apart(tx, s.txs[k])
    ensures Inv(c, WithTx(s, t, tx))
  {
    var after := WithTx(s, t, tx);
    forall j, k | 0 <= j < k < |after.txs| ensures Apart(after.txs[j], after.txs[k]) {
      assert j != t && k != t ==> Apart(s.txs[j], s.txs[k]);
    }
  }

  lemma ApartStays(s: State, t: nat, tx: Tx)
    requires t < |s.txs| && s.txs[t].live && forall j, k | 0 <= j < k < |s.txs| :: Apart(s.txs[j], s.txs[k])
    requires forall i | i in tx.held :: i in s.txs[t].held || RowFree(s.txs, t, i)
    requires forall u | u in tx.users :: u in s.txs[t].users || UserFree(s.txs, t, u)
    ensures forall k | 0 <= k < |s.txs| && k != t :: Apart(tx, s.txs[k])
  {
    forall k | 0 <= k < |s.txs| && k != t ensures Apart(tx, s.txs[k]) {
      assert Apart(s.txs[if t < k then t else k], s.txs[if t < k then k else t]);
      if s.txs[k].live {
        forall u | u in tx.users ensures u !in s.txs[k].users {
          assert u in s.txs[t].users || UserFree(s.txs, t, u);
        }
        forall i | i in tx.held ensures i !in s.txs[k].held {
          assert i in s.txs[t].held || RowFree(s.txs, t, i);
        }
      }
    }
  }

  // ----- one transaction's own steps -----

  lemma RowLockKeeps(c: Setting, s: State, t: nat, i: nat)
    requires Inv(c, s) && Enabled(c, s, LockRow(t, i))
    ensures Inv(c, After(c, s, LockRow(t, i)))
  {
    var mine := s.txs[t];
    var tx := mine.(phase := RowLocked(i), held := mine.held + {i});
    ApartStays(s, t, tx);
    forall u | u in tx.users ensures UserOk(c, RowsSeen(s.rows, tx.writes), IndexSeen(s.index, tx), u, None) {
      assert UserOk(c, RowsSeen(s.rows, mine.writes), IndexSeen(s.index, mine), u, StaleFor(c, s.rows, mine, u));
    }
    TxReplaced(c, s, t, tx);
  }

  /** What a transaction wrote elsewhere does not count for a user it has not locked. */
  lemma UnlockedUserSeen(c: Setting, rows: seq<Submission>, x: Index, t: Tx, user: int)
    requires Covered(c, rows, t) && user in c.registered && user !in t.users && user in x.totals
    ensures SameForUser(c, rows, x, RowsSeen(rows, t.writes), IndexSeen(x, t), user)
  {
    forall p | p in c.problems ensures Filter(Counted(user, p), rows) == Filter(Counted(user, p), RowsSeen(rows, t.writes)) {
      FilterAgrees(Counted(user, p), rows, RowsSeen(rows, t.writes));
    }
  }

  lemma EnsuredSeesSame(c: Setting, rows: seq<Submission>, x: Index, t: Tx, user: int, problem: int, u: int)
    requires u in IndexSeen(x, t).totals
    ensures SameForUser(c, rows, IndexSeen(x, t), rows, IndexSeen(x, EnsuredBy(t, x, user, problem)), u)
  {
  }

  lemma NewUserSeen(c: Setting, s: State, t: Tx, tx: Tx, i: nat, u: int)
    requires Current(c, s.rows, s.index) && Covered(c, s.rows, t) && SeesCurrent(c, s.rows, s.index, t)
    requires i < |s.rows| && t.phase == RowLocked(i) && InCells(c, s.rows[i]) && tx == t.(phase := Locked(i), users := t.users + {s.rows[i].user})
    requires u in tx.users
    ensures UserOk(c, RowsSeen(s.rows, tx.writes), IndexSeen(s.index, tx), u, None)
  {
    if u in t.users {
      assert UserOk(c, RowsSeen(s.rows, t.writes), IndexSeen(s.index, t), u, StaleFor(c, s.rows, t, u));
    } else {
      assert UserCurrent(c.start, c.problems, s.rows, s.index.results, s.index.totals, u);
      UnlockedUserSeen(c, s.rows, s.index, t, u);
      UserOkSame(c, s.rows, s.index, RowsSeen(s.rows, t.writes), IndexSeen(s.index, t), u, None);
    }
  }

  lemma LockedUserSees(c: Setting, s: State, t: Tx, i: nat, row: Submission, locked: Tx, tx: Tx, u: int)
    requires Current(c, s.rows, s.index) && Covered(c, s.rows, t) && SeesCurrent(c, s.rows, s.index, t)
    requires i < |s.rows| && t.phase == RowLocked(i) && row == s.rows[i] && InCells(c, row)
    requires locked == t.(phase := Locked(i), users := t.users + {row.user})
    requires tx == EnsuredBy(locked, s.index, row.user, row.problem) && u in locked.users
    ensures UserOk(c, RowsSeen(s.rows, t.writes), IndexSeen(s.index, tx), u, None)
  {
    var seen := RowsSeen(s.rows, t.writes);
    NewUserSeen(c, s, t, locked, i, u);
    EnsuredSeesSame(c, seen, s.index, locked, row.user, row.problem, u);
    UserOkSame(c, seen, IndexSeen(s.index, locked), seen, IndexSeen(s.index, tx), u, None);
  }

  lemma EnsuredKeeps(c: Setting, rows: seq<Submission>, x: Index, t: Tx, user: int, problem: int)
    requires Covered(c, rows, t) && user in t.users && problem in c.problems
    ensures var tx := EnsuredBy(t, x, user, problem);
            Covered(c, rows, tx) && tx.writes == t.writes && tx.phase == t.phase && tx.held == t.held && tx.users == t.users
  {
  }

  lemma UserLockCovered(c: Setting, s: State, t: Tx, i: nat)
    requires Covered(c, s.rows, t) && i < |s.rows| && t.phase == RowLocked(i)
    ensures var tx := UserLocked(c, t, s.index, i, s.rows[i]);
            Covered(c, s.rows, tx) && tx.writes == t.writes && tx.phase == Locked(i) && tx.held == t.held
    ensures var tx := UserLocked(c, t, s.index, i, s.rows[i]); tx.users == if InCells(c, s.rows[i]) then t.users + {s.rows[i].user} else t.users
  {
    if InCells(c, s.rows[i]) {
      EnsuredKeeps(c, s.rows, s.index, t.(phase := Locked(i), users := t.users + {s.rows[i].user}), s.rows[i].user, s.rows[i].problem);
    }
  }

  lemma UserLockSees(c: Setting, s: State, t: Tx, i: nat, tx: Tx)
    requires Current(c, s.rows, s.index) && Covered(c, s.rows, t) && SeesCurrent(c, s.rows, s.index, t)
    requires i < |s.rows| && t.phase == RowLocked(i) && tx == UserLocked(c, t, s.index, i, s.rows[i])
    ensures SeesCurrent(c, s.rows, s.index, tx)
  {
    UserLockCovered(c, s, t, i);
    forall u | u in tx.users ensures UserOk(c, RowsSeen(s.rows, tx.writes), IndexSeen(s.index, tx), u, StaleFor(c, s.rows, tx, u)) {
      if InCells(c, s.rows[i]) {
        LockedUserSees(c, s, t, i, s.rows[i], t.(phase := Locked(i), users := t.users + {s.rows[i].user}), tx, u);
      } else {
        assert UserOk(c, RowsSeen(s.rows, t.writes), IndexSeen(s.index, t), u, StaleFor(c, s.rows, t, u));
      }
    }
  }

  lemma UserLockKeeps(c: Setting, s: State, t: nat)
    requires Inv(c, s) && Enabled(c, s, LockUser(t))
    ensures Inv(c, After(c, s, LockUser(t)))
  {
    var i := s.txs[t].phase.row;
    var tx := UserLocked(c, s.txs[t], s.index, i, s.rows[i]);
    UserLockSees(c, s, s.txs[t], i, tx);
    UserLockCovered(c, s, s.txs[t], i);
    ApartStays(s, t, tx);
    TxReplaced(c, s, t, tx);
  }

  /** Changing one row leaves at most its own cell stale. */
  lemma OneRowSeen(c: Setting, before: seq<Submission>, after: seq<Submission>, x: Index, i: nat, u: int)
    requires i < |before| == |after| && SameCell(before[i], after[i]) && forall k | 0 <= k < |before| && k != i :: after[k] == before[k]
    requires u in c.registered && UserOk(c, before, x, u, None)
    ensures UserOk(c, after, x, u, if InCells(c, before[i]) && before[i].user == u then Some(before[i].problem) else None)
  {
    forall p | p in c.problems && (u, p) != (before[i].user, before[i].problem) ensures Filter(Counted(u, p), before) == Filter(Counted(u, p), after) {
      FilterAgrees(Counted(u, p), before, after);
    }
    if InCells(c, before[i]) && before[i].user == u {
      forall p | p in c.problems && p != before[i].problem ensures CellCurrent(c.start, after, x.results, u, p) {
        assert CellCurrent(c.start, before, x.results, u, p);
      }
    } else {
      UserOkSame(c, before, x, after, x, u, None);
    }
  }

  lemma WriteSees(c: Setting, rows: seq<Submission>, x: Index, t: Tx, tx: Tx, i: nat, row: Submission, u: int)
    requires Covered(c, rows, t) && SeesCurrent(c, rows, x, t) && u in t.users
    requires i < |rows| && t.phase == Locked(i) && SameCell(row, rows[i])
    requires tx == t.(phase := Written(i), writes := t.writes[i := row])
    ensures UserOk(c, RowsSeen(rows, tx.writes), IndexSeen(x, tx), u, StaleFor(c, rows, tx, u))
  {
    assert UserOk(c, RowsSeen(rows, t.writes), IndexSeen(x, t), u, StaleFor(c, rows, t, u));
    OneRowSeen(c, RowsSeen(rows, t.writes), RowsSeen(rows, tx.writes), IndexSeen(x, t), i, u);
  }

  lemma WriteKeeps(c: Setting, s: State, t: nat, row: Submission)
    requires Inv(c, s) && Enabled(c, s, Write(t, row))
    ensures Inv(c, After(c, s, Write(t, row)))
  {
    var i := s.txs[t].phase.row;
    var tx := s.txs[t].(phase := Written(i), writes := s.txs[t].writes[i := row]);
    forall u | u in tx.users ensures UserOk(c, RowsSeen(s.rows, tx.writes), IndexSeen(s.index, tx), u, StaleFor(c, s.rows, tx, u)) {
      WriteSees(c, s.rows, s.index, s.txs[t], tx, i, row, u);
    }
    ApartStays(s, t, tx);
    TxReplaced(c, s, t, tx);
  }

  lemma RebuildSeesOwn(c: Setting, seen: seq<Submission>, before: Index, after: Index, user: int, problem: int)
    requires user in before.totals && UserOk(c, seen, before, user, Some(problem))
    requires after.results == before.results[(user, problem) := CellResult(c.start, seen, user, problem)]
    requires after.totals == before.totals[user := Total(ListResults(after.results, c.problems, user))]
    ensures UserOk(c, seen, after, user, None)
  {
    forall p | p in c.problems ensures CellCurrent(c.start, seen, after.results, user, p) {
      assert p != problem ==> CellCurrent(c.start, seen, before.results, user, p);
    }
    TotalIsScratch(c.start, c.problems, seen, after.results, user);
  }

  lemma RebuildSparesOthers(c: Setting, seen: seq<Submission>, before: Index, after: Index, user: int, problem: int, u: int)
    requires u != user && UserOk(c, seen, before, u, None)
    requires after.results == before.results[(user, problem) := CellResult(c.start, seen, user, problem)]
    requires after.totals == before.totals[user := Total(ListResults(after.results, c.problems, user))]
    ensures UserOk(c, seen, after, u, None)
  {
    UserOkSame(c, seen, before, seen, after, u, None);
  }

  lemma PutOver<K, V>(base: map<K, V>, over: map<K, V>, k: K, v: V)
    ensures base + over[k := v] == (base + over)[k := v]
  {
  }

  lemma RebuildWrites(c: Setting, t: Tx, rows: seq<Submission>, x: Index, user: int, problem: int, tx: Tx)
    requires tx == RebuiltBy(c, t, rows, x, user, problem)
    ensures IndexSeen(x, tx).results == IndexSeen(x, t).results[(user, problem) := CellResult(c.start, RowsSeen(rows, t.writes), user, problem)]
    ensures IndexSeen(x, tx).totals == IndexSeen(x, t).totals[user := Total(ListResults(IndexSeen(x, tx).results, c.problems, user))]
  {
    PutOver(x.results, t.results, (user, problem), CellResult(c.start, RowsSeen(rows, t.writes), user, problem));
    PutOver(x.totals, t.totals, user, Total(ListResults(x.results + tx.results, c.problems, user)));
  }

  lemma RebuildSees(c: Setting, rows: seq<Submission>, x: Index, t: Tx, tx: Tx, row: Submission, u: int)
    requires UserOk(c, RowsSeen(rows, t.writes), IndexSeen(x, t), u, if u == row.user then Some(row.problem) else None)
    requires row.user in x.totals && tx == RebuiltBy(c, t, rows, x, row.user, row.problem)
    ensures UserOk(c, RowsSeen(rows, t.writes), IndexSeen(x, tx), u, None)
  {
    RebuildWrites(c, t, rows, x, row.user, row.problem, tx);
    if u == row.user {
      RebuildSeesOwn(c, RowsSeen(rows, t.writes), IndexSeen(x, t), IndexSeen(x, tx), u, row.problem);
    } else {
      RebuildSparesOthers(c, RowsSeen(rows, t.writes), IndexSeen(x, t), IndexSeen(x, tx), row.user, row.problem, u);
    }
  }

  lemma RebuildKeeps(c: Setting, s: State, t: nat)
    requires Inv(c, s) && Enabled(c, s, Rebuild(t))
    ensures Inv(c, After(c, s, Rebuild(t)))
  {
    var i := s.txs[t].phase.row;
    var row, idle := s.rows[i], s.txs[t].(phase := Idle);
    var tx := if InCells(c, row) then RebuiltBy(c, idle, s.rows, s.index, row.user, row.problem) else idle;
    forall u | u in tx.users ensures UserOk(c, RowsSeen(s.rows, tx.writes), IndexSeen(s.index, tx), u, StaleFor(c, s.rows, tx, u)) {
      if InCells(c, row) {
        assert UserOk(c, RowsSeen(s.rows, idle.writes), IndexSeen(s.index, idle), u, StaleFor(c, s.rows, s.txs[t], u));
        RebuildSees(c, s.rows, s.index, idle, tx, row, u);
      } else {
        assert UserOk(c, RowsSeen(s.rows, idle.writes), IndexSeen(s.index, idle), u, StaleFor(c, s.rows, s.txs[t], u));
      }
    }
    ApartStays(s, t, tx);
    TxReplaced(c, s, t, tx);
  }

  // ----- steps that change what is committed -----

  /** A transaction goes on seeing a current index when nothing that counts for its users changes. */
  lemma OthersStay(c: Setting, rows: seq<Submission>, x: Index, more: seq<Submission>, y: Index, t: Tx)
    requires Covered(c, rows, t) && SeesCurrent(c, rows, x, t)
    requires |rows| <= |more| && forall i | 0 <= i < |rows| :: SameCell(more[i], rows[i])
    requires forall u | u in t.users ::
               SameForUser(c, RowsSeen(rows, t.writes), IndexSeen(x, t), RowsSeen(more, t.writes), IndexSeen(y, t), u)
    ensures Covered(c, more, t) && SeesCurrent(c, more, y, t)
  {
    forall u | u in t.users ensures UserOk(c, RowsSeen(more, t.writes), IndexSeen(y, t), u, StaleFor(c, more, t, u)) {
      assert StaleFor(c, more, t, u) == StaleFor(c, rows, t, u);
      UserOkSame(c, RowsSeen(rows, t.writes), IndexSeen(x, t), RowsSeen(more, t.writes), IndexSeen(y, t), u, StaleFor(c, rows, t, u));
    }
  }

  /** What one transaction commits is invisible to another's users. */
  lemma CommitUnseen(c: Setting, rows: seq<Submission>, x: Index, t: Tx, other: Tx, u: int)
    requires Shaped(c, x) && Covered(c, rows, t) && Covered(c, rows, other) && u in other.users && u !in t.users
    ensures SameForUser(c, RowsSeen(rows, other.writes), IndexSeen(x, other),
                        RowsSeen(RowsSeen(rows, t.writes), other.writes), IndexSeen(IndexSeen(x, t), other), u)
  {
    var before, after := RowsSeen(rows, other.writes), RowsSeen(RowsSeen(rows, t.writes), other.writes);
    forall p | p in c.problems ensures Filter(Counted(u, p), before) == Filter(Counted(u, p), after) {
      FilterAgrees(Counted(u, p), before, after);
    }
  }

  lemma CommitIsCurrent(c: Setting, rows: seq<Submission>, x: Index, t: Tx)
    requires Current(c, rows, x) && Covered(c, rows, t) && SeesCurrent(c, rows, x, t) && !t.phase.Written?
    ensures Current(c, RowsSeen(rows, t.writes), IndexSeen(x, t))
  {
    var after, y := RowsSeen(rows, t.writes), IndexSeen(x, t);
    assert y.totals.Keys == x.totals.Keys + t.totals.Keys;
    forall u | u in t.totals.Keys ensures u in c.registered {
      assert u in t.totals && u in t.users;
    }
    forall u | u in c.registered ensures UserCurrent(c.start, c.problems, after, y.results, y.totals, u) {
      if u in t.users {
        assert UserOk(c, after, y, u, StaleFor(c, rows, t, u));
      } else {
        assert UserCurrent(c.start, c.problems, rows, x.results, x.totals, u);
        UnlockedUserSeen(c, rows, x, t, u);
        UserOkSame(c, rows, x, after, y, u, None);
      }
    }
  }

  lemma CommitKeeps(c: Setting, s: State, t: nat)
    requires Inv(c, s) && Enabled(c, s, Commit(t))
    ensures Inv(c, After(c, s, Commit(t)))
  {
    var tx, after := s.txs[t], After(c, s, Commit(t));
    CommitIsCurrent(c, s.rows, s.index, tx);
    forall k | 0 <= k < |after.txs| && after.txs[k].live
      ensures Covered(c, after.rows, after.txs[k]) && SeesCurrent(c, after.rows, after.index, after.txs[k])
    {
      assert Apart(s.txs[if t < k then t else k], s.txs[if t < k then k else t]);
      forall u | u in s.txs[k].users
        ensures SameForUser(c, RowsSeen(s.rows, s.txs[k].writes), IndexSeen(s.index, s.txs[k]),
                            RowsSeen(after.rows, s.txs[k].writes), IndexSeen(after.index, s.txs[k]), u)
      {
        CommitUnseen(c, s.rows, s.index, tx, s.txs[k], u);
      }
      OthersStay(c, s.rows, s.index, after.rows, after.index, s.txs[k]);
    }
    ClosedApart(s.txs, t);
  }

  lemma ClosedApart(txs: seq<Tx>, t: nat)
    requires t < |txs| && forall j, k | 0 <= j < k < |txs| :: Apart(txs[j], txs[k])
    ensures var after := txs[t := Closed(txs[t])]; forall j, k | 0 <= j < k < |after| :: Apart(after[j], after[k])
  {
    var after := txs[t := Closed(txs[t])];
    forall j, k | 0 <= j < k < |after| ensures Apart(after[j], after[k]) {
      assert Apart(txs[j], txs[k]);
    }
  }

  lemma InsertKeeps(c: Setting, s: State, row: Submission)
    requires Inv(c, s) && row.status.Queued?
    ensures Inv(c, s.(rows := s.rows + [row]))
  {
    var more := s.rows + [row];
    NewRowKeeps(c, s.rows, row, s.index);
    forall k | 0 <= k < |s.txs| && s.txs[k].live ensures Covered(c, more, s.txs[k]) && SeesCurrent(c, more, s.index, s.txs[k]) {
      var t := s.txs[k];
      assert RowsSeen(more, t.writes) == RowsSeen(s.rows, t.writes) + [row];
      forall u | u in t.users ensures SameForUser(c, RowsSeen(s.rows, t.writes), IndexSeen(s.index, t), RowsSeen(more, t.writes), IndexSeen(s.index, t), u) {
        forall p | p in c.problems ensures Filter(Counted(u, p), RowsSeen(s.rows, t.writes)) == Filter(Counted(u, p), RowsSeen(more, t.writes)) {
          FilterOneMore(Counted(u, p), RowsSeen(s.rows, t.writes), row);
        }
      }
      OthersStay(c, s.rows, s.index, more, s.index, t);
    }
  }

  lemma TouchUnseen(c: Setting, rows: seq<Submission>, x: Index, t: Tx, i: nat, row: Submission, u: int)
    requires i < |rows| && i !in t.writes && !Terminal(row.status) && !Terminal(rows[i].status) && u in IndexSeen(x, t).totals
    ensures SameForUser(c, RowsSeen(rows, t.writes), IndexSeen(x, t), RowsSeen(rows[i := row], t.writes), IndexSeen(x, t), u)
  {
    var before, after := RowsSeen(rows, t.writes), RowsSeen(rows[i := row], t.writes);
    forall p | p in c.problems ensures Filter(Counted(u, p), before) == Filter(Counted(u, p), after) {
      FilterAgrees(Counted(u, p), before, after);
    }
  }

  lemma TouchKeeps(c: Setting, s: State, i: nat, row: Submission)
    requires Inv(c, s) && Enabled(c, s, Touch(i, row))
    ensures Inv(c, s.(rows := s.rows[i := row]))
  {
    var more := s.rows[i := row];
    UncountedChangeKeeps(c, s.rows, i, row, s.index);
    forall k | 0 <= k < |s.txs| && s.txs[k].live ensures Covered(c, more, s.txs[k]) && SeesCurrent(c, more, s.index, s.txs[k]) {
      var t := s.txs[k];
      assert i !in t.held;
      forall u | u in t.users ensures SameForUser(c, RowsSeen(s.rows, t.writes), IndexSeen(s.index, t), RowsSeen(more, t.writes), IndexSeen(s.index, t), u) {
        TouchUnseen(c, s.rows, s.index, t, i, row, u);
      }
      OthersStay(c, s.rows, s.index, more, s.index, t);
    }
  }

  lemma BeginKeeps(c: Setting, s: State)
    requires Inv(c, s)
    ensures Inv(c, After(c, s, Begin))
  {
    var txs := s.txs + [FRESH_TX];
    forall j, k | 0 <= j < k < |txs| ensures Apart(txs[j], txs[k]) {
      assert k < |s.txs| ==> Apart(s.txs[j], s.txs[k]);
    }
  }

  lemma StepKeeps(c: Setting, s: State, a: Action)
    requires Inv(c, s) && Enabled(c, s, a)
    ensures Inv(c, After(c, s, a))
  {
    match a
    case Begin => BeginKeeps(c, s);
    case LockRow(t, i) => RowLockKeeps(c, s, t, i);
    case LockUser(t) => UserLockKeeps(c, s, t);
    case Write(t, row) => WriteKeeps(c, s, t, row);
    case Rebuild(t) => RebuildKeeps(c, s, t);
    case Commit(t) => CommitKeeps(c, s, t);
    case Abort(t) =>
      ClosedApart(s.txs, t);
    case Insert(row) => InsertKeeps(c, s, row);
    case Touch(i, row) => TouchKeeps(c, s, i, row);
  }

  lemma {:induction false} RunKeeps(c: Setting, trace: seq<State>, actions: seq<Action>, n: nat)
    requires Run(c, trace, actions) && n < |trace|
    ensures Inv(c, trace[n])
  {
    if n > 0 {
      RunKeeps(c, trace, actions, n - 1);
      StepKeeps(c, trace[n - 1], actions[n - 1]);
    } else {
      NoRowsIsCurrent(c);
    }
  }

  // ----- what it means -----

  /** Under any interleaving, every committed cell and total equals recomputation from the committed submissions. */
  lemma CommittedIsCurrent(c: Setting, trace: seq<State>, actions: seq<Action>, n: nat)
    requires Run(c, trace, actions) && n < |trace|
    ensures Current(c, trace[n].rows, trace[n].index)
  {
    RunKeeps(c, trace, actions, n);
  }

  /** A user's registration is locked by one transaction at most, which sees that user's cells and totals current but for the cell it is about to rebuild. */
  lemma LockedIsCurrent(c: Setting, trace: seq<State>, actions: seq<Action>, n: nat, t: nat, u: int)
    requires Run(c, trace, actions) && n < |trace| && Running(trace[n], t) && u in trace[n].txs[t].users
    ensures UserFree(trace[n].txs, t, u)
    ensures var s, tx := trace[n], trace[n].txs[t];
            UserOk(c, RowsSeen(s.rows, tx.writes), IndexSeen(s.index, tx), u, StaleFor(c, s.rows, tx, u))
  {
    RunKeeps(c, trace, actions, n);
    forall k | 0 <= k < |trace[n].txs| && k != t && trace[n].txs[k].live ensures u !in trace[n].txs[k].users {
      assert Apart(trace[n].txs[if t < k then t else k], trace[n].txs[if t < k then k else t]);
    }
  }

  // ----- a transaction alone -----

  /** The state after some actions, if each of them can be taken. */
  function Played(c: Setting, s: State, actions: seq<Action>): Option<State> {
    if actions == [] then Some(s)
    else
      var last := actions[|actions| - 1];
      match Played(c, s, actions[..|actions| - 1])
      case None => None
      case Some(t) => if Enabled(c, t, last) then Some(After(c, t, last)) else None
  }

  lemma PlayMore(c: Setting, s: State, actions: seq<Action>, t: State, a: Action)
    requires Inv(c, t) && Played(c, s, actions) == Some(t) && Enabled(c, t, a)
    ensures Played(c, s, actions + [a]) == Some(After(c, t, a)) && Inv(c, After(c, t, a))
  {
    assert (actions + [a])[..|actions|] == actions;
    StepKeeps(c, t, a);
  }

  /** The transaction has locked the row and, for a contest cell, the registration; nothing is committed yet. */
  lemma AloneLocks(c: Setting, s: State, i: nat) returns (u: State, actions: seq<Action>)
    requires Inv(c, s) && i < |s.rows| && forall k | 0 <= k < |s.txs| :: !s.txs[k].live
    ensures Played(c, s, actions) == Some(u) && Inv(c, u) && u.rows == s.rows && |u.txs| == |s.txs| + 1
    ensures var x := u.txs[|s.txs|]; x.live && x.phase == Locked(i) && x.writes == map[]
  {
    var t := |s.txs|;
    actions, u := [], s;
    PlayMore(c, s, actions, u, Begin);
    actions, u := actions + [Begin], After(c, u, Begin);
    PlayMore(c, s, actions, u, LockRow(t, i));
    actions, u := actions + [LockRow(t, i)], After(c, u, LockRow(t, i));
    PlayMore(c, s, actions, u, LockUser(t));
    actions, u := actions + [LockUser(t)], After(c, u, LockUser(t));
  }

  /**
   * While no other transaction is open, one can give any row any status and times and commit, which changes
   * that row alone and leaves the index current for it.
   */
  lemma AloneCommits(c: Setting, s: State, i: nat, row: Submission) returns (u: State, actions: seq<Action>)
    requires Inv(c, s) && i < |s.rows| && SameCell(row, s.rows[i]) && forall k | 0 <= k < |s.txs| :: !s.txs[k].live
    ensures Played(c, s, actions) == Some(u)
    ensures u.rows == s.rows[i := row] && Current(c, u.rows, u.index)
  {
    var t := |s.txs|;
    u, actions := AloneLocks(c, s, i);
    PlayMore(c, s, actions, u, Write(t, row));
    actions, u := actions + [Write(t, row)], After(c, u, Write(t, row));
    PlayMore(c, s, actions, u, Rebuild(t));
    actions, u := actions + [Rebuild(t)], After(c, u, Rebuild(t));
    assert u.rows == s.rows && u.txs[t].writes == map[i := row];
    PlayMore(c, s, actions, u, Commit(t));
    actions, u := actions + [Commit(t)], After(c, u, Commit(t));
  }
}
