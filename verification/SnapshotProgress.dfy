/**
 * The snapshot worker catches up: one pass over a large enough answer brings every settled
 * contest up to date, from whatever state earlier passes left.
 */
module SnapshotProgress {
  import opened Wrappers
  import opened Sorting
  import opened FirstRows
  import opened Submissions
  import opened Ranking
  import opened Scoreboard
  import opened Snapshots

  /** A stretch of a run from `s` to `t`. */
  ghost predicate Path(k: Contests, trace: seq<State>, actions: seq<Action>, s: State, t: State) {
    && |trace| == |actions| + 1 && trace[0] == s && trace[|trace| - 1] == t
    && forall i | 0 <= i < |actions| :: Step(k, trace[i], actions[i], trace[i + 1])
  }

  ghost predicate CanReach(k: Contests, s: State, t: State) {
    exists trace: seq<State>, actions :: Path(k, trace, actions, s, t)
  }

  lemma StartHere(k: Contests, s: State)
    ensures CanReach(k, s, s)
  {
    assert Path(k, [s], [], s, s);
  }

  lemma Onward(k: Contests, s: State, t: State, a: Action, u: State)
    requires CanReach(k, s, t) && Step(k, t, a, u)
    ensures CanReach(k, s, u)
  {
    var trace: seq<State>, actions :| Path(k, trace, actions, s, t);
    var longer, more := trace + [u], actions + [a];
    forall i | 0 <= i < |more| ensures Step(k, longer[i], more[i], longer[i + 1]) {
      if i < |actions| {
        assert longer[i] == trace[i] && longer[i + 1] == trace[i + 1];
      }
    }
    assert Path(k, longer, more, s, u);
  }

  lemma {:induction false} PathKeeps(k: Contests, trace: seq<State>, actions: seq<Action>, s: State, t: State)
    requires Path(k, trace, actions, s, t) && Inv(k, s)
    ensures Inv(k, t)
  {
    if actions != [] {
      var m := |actions| - 1;
      PathKeeps(k, trace[..m + 1], actions[..m], s, trace[m]);
      StepKeeps(k, trace[m], actions[m], t);
    }
  }

  /** Some snapshot has the key of a candidate. */
  predicate Stored(snapshots: seq<Snapshot>, x: Candidate) {
    exists i :: 0 <= i < |snapshots| && snapshots[i].contest == x.contest && snapshots[i].kind == x.kind && snapshots[i].sourceRevision == x.revision
  }

  lemma StoredStays(before: seq<Snapshot>, after: seq<Snapshot>, x: Candidate)
    requires Stored(before, x) && before <= after
    ensures Stored(after, x)
  {
    var i :| 0 <= i < |before| && before[i].contest == x.contest && before[i].kind == x.kind && before[i].sourceRevision == x.revision;
    assert after[i] == before[i];
  }

  /** Reading and inserting for the first candidate: its board goes in unless its key is there already. */
  lemma OneCandidate(k: Contests, s: State, frozenRows: seq<Row>) returns (t: State)
    requires s.contests.Keys <= k.Keys && s.worker.Working? && s.worker.pending != [] && s.worker.pending[0].contest in s.contests
    ensures CanReach(k, s, t)
    ensures t.contests == s.contests && s.snapshots <= t.snapshots && t.worker == Working(s.worker.pending[1..])
    ensures Stored(t.snapshots, s.worker.pending[0])
    ensures var x := s.worker.pending[0];
            if Stored(s.snapshots, x) then t.snapshots == s.snapshots
            else t.snapshots == s.snapshots + [Snapshot(x.contest, x.kind,
                                                        if x.kind == FinalKind then FinalBoard(k[x.contest], s.contests[x.contest].results) else frozenRows,
                                                        x.revision, s.clock)]
  {
    var next := s.worker.pending[0];
    StartHere(k, s);
    var read := After(k, s, ReadResults(frozenRows));
    Onward(k, s, s, ReadResults(frozenRows), read);
    t := After(k, read, InsertSnapshot);
    Onward(k, s, read, InsertSnapshot, t);
    if !Stored(s.snapshots, next) {
      assert t.snapshots[|s.snapshots|].contest == next.contest;
    }
  }

  lemma CanReachThrough(k: Contests, s: State, t: State, trace: seq<State>, actions: seq<Action>, u: State)
    requires CanReach(k, s, t) && Path(k, trace, actions, t, u)
    ensures CanReach(k, s, u)
    decreases |actions|
  {
    if actions != [] {
      var m := |actions| - 1;
      CanReachThrough(k, s, t, trace[..m + 1], actions[..m], trace[m]);
      Onward(k, s, trace[m], actions[m], u);
    }
  }

  /** The rest of the list, one after the other. */
  lemma {:induction false} AllCandidates(k: Contests, s: State) returns (t: State)
    requires s.contests.Keys <= k.Keys && s.worker.Working?
    requires forall i | 0 <= i < |s.worker.pending| :: s.worker.pending[i].contest in s.contests
    ensures CanReach(k, s, t)
    ensures t.contests == s.contests && s.snapshots <= t.snapshots && t.worker == Working([])
    ensures forall i | 0 <= i < |s.worker.pending| :: Stored(t.snapshots, s.worker.pending[i])
    decreases |s.worker.pending|
  {
    var pending := s.worker.pending;
    if pending == [] {
      StartHere(k, s);
      t := s;
    } else {
      var u := OneCandidate(k, s, []);
      t := AllCandidates(k, u);
      var trace: seq<State>, actions :| Path(k, trace, actions, u, t);
      CanReachThrough(k, s, u, trace, actions, t);
      StoredStays(u.snapshots, t.snapshots, pending[0]);
      forall i | 0 <= i < |pending| ensures Stored(t.snapshots, pending[i]) {
        assert i > 0 ==> pending[i] == pending[1..][i - 1];
      }
    }
  }

  /** A final row stored at the current revision is no longer due. */
  lemma StoredIsNotDue(k: Contests, s: State, c: int, now: Time)
    requires c in s.contests && Stored(s.snapshots, Candidate(c, FinalKind, s.contests[c].revision))
    ensures !FinalDue(k, s, c, now)
  {
    var i :| 0 <= i < |s.snapshots| && s.snapshots[i].contest == c && s.snapshots[i].kind == FinalKind
             && s.snapshots[i].sourceRevision == s.contests[c].revision;
    assert HasKind(s, c, FinalKind);
  }

  /** Nor was a contest's row due if the answer had room for it and left it out. */
  lemma NotOfferedIsNotDue(k: Contests, s: State, c: int, now: Time, limit: nat, rows: seq<Candidate>)
    requires QueryReturns(k, s, now, limit, rows) && |rows| < limit && c in s.contests && !OffersFinal(rows, c)
    ensures !FinalDue(k, s, c, now)
  {
    OfferedIsKey(s, rows, c);
    CoveredIsNotDue(k, now, s, limit, KeysOf(s, rows), c);
  }

  /** What is due depends on the contests and on the snapshots of that contest, and only falls while snapshots are added. */
  lemma StaysNotDue(k: Contests, s: State, t: State, c: int, now: Time)
    requires c in s.contests && t.contests == s.contests && s.snapshots <= t.snapshots && !FinalDue(k, s, c, now)
    ensures !FinalDue(k, t, c, now)
  {
    if HasKind(s, c, FinalKind) {
      var i :| 0 <= i < |s.snapshots| && s.snapshots[i].contest == c && s.snapshots[i].kind == FinalKind;
      assert t.snapshots[i] == s.snapshots[i];
      assert HasKind(t, c, FinalKind);
      if !AllFinalsBelow(s, c, s.contests[c].revision) {
        var j :| 0 <= j < |s.snapshots| && s.snapshots[j].contest == c && s.snapshots[j].kind.FinalKind?
                 && s.snapshots[j].sourceRevision >= s.contests[c].revision;
        assert t.snapshots[j] == s.snapshots[j];
      }
    }
  }

  /**
   * From every reachable state: if the worker starts over and the answer is not cut, one pass over it
   * leaves every listed, ended, idle contest with a newest final snapshot that shows its current results.
   */
  lemma WorkerCatchesUp(k: Contests, s: State, now: Time, limit: nat, rows: seq<Candidate>) returns (t: State)
    requires Reachable(k, s) && QueryReturns(k, s, now, limit, rows) && |rows| < limit
    ensures CanReach(k, s, t) && t.contests == s.contests && s.snapshots <= t.snapshots
    ensures forall c | Settled(s, c, now) :: UpToDate(k, t, c)
  {
    ReachableOk(k, s);
    StartHere(k, s);
    var idle := After(k, s, StopWorker);
    Onward(k, s, s, StopWorker, idle);
    var listed := After(k, idle, ListCandidates(now, limit, rows));
    assert QueryReturns(k, idle, now, limit, rows) by {
      SameQuery(k, s, idle, now, limit, rows);
    }
    Onward(k, s, idle, ListCandidates(now, limit, rows), listed);
    t := AllCandidates(k, listed);
    var trace: seq<State>, actions :| Path(k, trace, actions, listed, t);
    CanReachThrough(k, s, listed, trace, actions, t);
    var whole: seq<State>, all :| Path(k, whole, all, s, t);
    PathKeeps(k, whole, all, s, t);
    forall c | Settled(s, c, now) ensures UpToDate(k, t, c) {
      PassSettles(k, s, t, c, now, limit, rows);
      NotDueIsUpToDate(k, t, c, now);
    }
  }

  lemma SameQuery(k: Contests, s: State, t: State, now: Time, limit: nat, rows: seq<Candidate>)
    requires QueryReturns(k, s, now, limit, rows) && t.contests == s.contests && t.snapshots == s.snapshots
    ensures QueryReturns(k, t, now, limit, rows)
  {
    assert DueRows(k, t, now) == DueRows(k, s, now) by {
      forall c | c in s.contests ensures FrozenDue(t, c, now) == FrozenDue(s, c, now) && FinalDue(k, t, c, now) == FinalDue(k, s, c, now) {
      }
    }
    assert KeysOf(t, rows) == KeysOf(s, rows);
  }

  lemma PassSettles(k: Contests, s: State, t: State, c: int, now: Time, limit: nat, rows: seq<Candidate>)
    requires QueryReturns(k, s, now, limit, rows) && |rows| < limit && c in s.contests
    requires t.contests == s.contests && s.snapshots <= t.snapshots && forall i | 0 <= i < |rows| :: Stored(t.snapshots, rows[i])
    ensures !FinalDue(k, t, c, now)
  {
    if OffersFinal(rows, c) {
      var i :| 0 <= i < |rows| && rows[i].contest == c && rows[i].kind.FinalKind?;
      assert rows[i] == Candidate(c, FinalKind, s.contests[c].revision);
      StoredIsNotDue(k, t, c, now);
    } else {
      NotOfferedIsNotDue(k, s, c, now, limit, rows);
      StaysNotDue(k, s, t, c, now);
    }
  }
}
