/** The sweep: its two loops, what any failures leave behind, and how many sweeps empty the backlog. */
module RetentionSweep {
  import opened Wrappers
  import opened Sorting
  import opened Retention

  /**
   * How the calls of one sweep turn out: the outcome of each object and row deletion by
   * position, and before which position the context is found cancelled.
   */
  datatype Faults = Faults(
    listFails: bool, blob: nat -> Outcome, rows: nat -> Outcome, canceledAt: nat,
    orphanListFails: bool, orphanBlob: nat -> Outcome, orphanRow: nat -> Outcome, orphansCanceledAt: nat)

  datatype Swept = Swept(db: Db, deleted: nat, failed: nat)

  /** The loop over the expired runs, after its first `k` rounds. */
  function RunLoop(db: Db, listed: seq<ExpiredRun>, f: Faults, k: nat): Swept
    requires k <= |listed|
  {
    if k == 0 then Swept(db, 0, 0)
    else
      var s := RunLoop(db, listed, f, k - 1);
      var x := listed[k - 1];
      var after := DeleteRun(s.db, x, f.blob(k - 1), f.rows(k - 1));
      if DeleteRunSucceeds(s.db, x, f.blob(k - 1), f.rows(k - 1)) then Swept(after, s.deleted + 1, s.failed)
      else Swept(after, s.deleted, s.failed + 1)
  }

  function OrphanLoop(db: Db, listed: seq<ArtifactRow>, f: Faults, k: nat): Swept
    requires k <= |listed|
  {
    if k == 0 then Swept(db, 0, 0)
    else
      var s := OrphanLoop(db, listed, f, k - 1);
      var a := listed[k - 1];
      var after := DeleteOrphan(s.db, a, f.orphanBlob(k - 1), f.orphanRow(k - 1));
      if DeleteOrphanSucceeds(s.db, a, f.orphanBlob(k - 1), f.orphanRow(k - 1)) then Swept(after, s.deleted + 1, s.failed)
      else Swept(after, s.deleted, s.failed + 1)
  }

  function Listed(db: Db, before: int, batch: nat): seq<ExpiredRun> {
    MapSeq(Record(db.artifacts), ListExpired(db, before, batch))
  }

  function Rounds(n: nat, canceledAt: nat): nat {
    if canceledAt < n then canceledAt else n
  }

  /** The database after one sweep. */
  function AfterRuns(db: Db, before: int, batch: nat, f: Faults): Db {
    var listed := Listed(db, before, batch);
    if f.listFails then db else RunLoop(db, listed, f, Rounds(|listed|, f.canceledAt)).db
  }

  function AfterOrphans(db: Db, before: int, batch: nat, f: Faults): Db {
    var listed := ListOrphans(db, before, batch);
    if f.orphanListFails then db else OrphanLoop(db, listed, f, Rounds(|listed|, f.orphansCanceledAt)).db
  }

  predicate ReachesOrphans(db: Db, before: int, batch: nat, f: Faults) {
    !f.listFails && |Listed(db, before, batch)| <= f.canceledAt
  }

  function AfterSweep(db: Db, before: int, batch: nat, f: Faults): Db {
    var middle := AfterRuns(db, before, batch, f);
    if ReachesOrphans(db, before, batch, f) then AfterOrphans(middle, before, batch, f) else middle
  }

  // ----- the loops -----

  datatype SweepResult = SweepResult(scanned: nat, deleted: nat, failed: nat, orphanedArtifacts: nat)

  class Store {
    var db: Db

    constructor (db: Db)
      ensures this.db == db
    {
      this.db := db;
    }

    method DeleteObjectOf(key: string, o: Outcome) returns (ok: bool)
      modifies this
      ensures db == DeleteObject(old(db), key, o) && ok == o.Succeeds?
    {
      if o != FailsBefore {
        db := db.(objects := db.objects - {key});
      }
      ok := o == Succeeds;
    }

    /** One transaction: the run first, then its artifact unless another run refers to it. */
    method DeleteExpiredRun(x: ExpiredRun, o: Outcome) returns (ok: bool)
      modifies this
      ensures db == DeleteRows(old(db), x, o) && ok == (o.Succeeds? && CanDeleteRun(old(db), x))
    {
      if o == FailsBefore {
        return false;
      }
      var saved := db;
      db := db.(runs := Filter(OtherRun(x.run), db.runs));
      if x.artifact.Some? {
        if Referenced(db.runs, x.artifact.value) {
          db := saved;
          return false;
        }
        db := db.(artifacts := Filter(OtherArtifact(x.artifact.value), db.artifacts));
      }
      ok := o == Succeeds;
    }

    method DeleteArtifactRow(id: int, o: Outcome) returns (ok: bool)
      modifies this
      ensures db == DeleteArtifact(old(db), id, o) && ok == (o.Succeeds? && !Referenced(old(db.runs), id))
    {
      if o == FailsBefore || Referenced(db.runs, id) {
        return false;
      }
      db := db.(artifacts := Filter(OtherArtifact(id), db.artifacts));
      ok := o == Succeeds;
    }

    /** deleteRun. */
    method DeleteOne(x: ExpiredRun, blob: Outcome, rows: Outcome) returns (ok: bool)
      modifies this
      ensures db == DeleteRun(old(db), x, blob, rows) && ok == DeleteRunSucceeds(old(db), x, blob, rows)
    {
      if x.key != "" {
        var gone := DeleteObjectOf(x.key, blob);
        if !gone {
          return false;
        }
      }
      ok := DeleteExpiredRun(x, rows);
    }

    method SweepOrphanedArtifacts(before: int, batch: nat, f: Faults) returns (removed: nat, error: bool)
      modifies this
      ensures db == AfterOrphans(old(db), before, batch, f)
      ensures error == (f.orphanListFails || f.orphansCanceledAt < |ListOrphans(old(db), before, batch)|)
      ensures !error ==> removed == OrphanLoop(old(db), ListOrphans(old(db), before, batch), f, |ListOrphans(old(db), before, batch)|).deleted
    {
      removed, error := 0, f.orphanListFails;
      if error {
        return;
      }
      var orphans := ListOrphans(db, before, batch);
      for k := 0 to |orphans|
        invariant k <= f.orphansCanceledAt
        invariant db == OrphanLoop(old(db), orphans, f, k).db && removed == OrphanLoop(old(db), orphans, f, k).deleted
      {
        if k == f.orphansCanceledAt {
          return removed, true;
        }
        if orphans[k].key != "" {
          var gone := DeleteObjectOf(orphans[k].key, f.orphanBlob(k));
          if !gone {
            continue;
          }
        }
        var ok := DeleteArtifactRow(orphans[k].id, f.orphanRow(k));
        if !ok {
          continue;
        }
        removed := removed + 1;
      }
    }

    /** The loop over the expired runs; one failure does not stop it. */
    method SweepExpiredRuns(expired: seq<ExpiredRun>, f: Faults) returns (deleted: nat, failed: nat, error: bool)
      modifies this
      ensures Swept(db, deleted, failed) == RunLoop(old(db), expired, f, Rounds(|expired|, f.canceledAt))
      ensures deleted + failed == Rounds(|expired|, f.canceledAt)
      ensures error == (f.canceledAt < |expired|)
    {
      deleted, failed, error := 0, 0, false;
      for k := 0 to |expired|
        invariant k <= f.canceledAt && !error
        invariant Swept(db, deleted, failed) == RunLoop(old(db), expired, f, k)
        invariant deleted + failed == k
      {
        if k == f.canceledAt {
          error := true;
          return;
        }
        var ok := DeleteOne(expired[k], f.blob(k), f.rows(k));
        if !ok {
          failed := failed + 1;
          continue;
        }
        deleted := deleted + 1;
      }
    }

    method Sweep(enabled: bool, before: int, batch: nat, f: Faults) returns (result: SweepResult, error: bool)
      modifies this
      ensures db == if enabled then AfterSweep(old(db), before, batch, f) else old(db)
      ensures !enabled ==> result == SweepResult(0, 0, 0, 0) && !error
      ensures enabled ==> result.scanned == if f.listFails then 0 else |Listed(old(db), before, batch)|
      ensures enabled && ReachesOrphans(old(db), before, batch, f) ==> result.scanned == result.deleted + result.failed
      ensures enabled && !ReachesOrphans(old(db), before, batch, f) ==> error
      ensures result.deleted + result.failed <= result.scanned
      ensures DistinctRuns(old(db.runs)) ==>
                forall r | r in old(db.runs) && (!r.finished || r.createdAt >= before) :: r in db.runs
      ensures forall a, r | a in old(db.artifacts) && r in db.runs && r.artifact == Some(a.id) :: a in db.artifacts
      ensures DistinctArtifacts(old(db.artifacts)) ==>
                forall a | a in old(db.artifacts) && (!a.runSource || a.createdAt >= before)
                           && (forall r | r in old(db.runs) && r.artifact == Some(a.id) :: !r.finished || r.createdAt >= before) ::
                  a in db.artifacts
    {
      SweepSpares(db, before, batch, f);
      result, error := SweepResult(0, 0, 0, 0), false;
      if !enabled {
        return;
      }
      if f.listFails {
        return result, true;
      }
      var expired := Listed(db, before, batch);
      var deleted, failed, stopped := SweepExpiredRuns(expired, f);
      if stopped {
        return SweepResult(|expired|, deleted, failed, 0), true;
      }
      var orphans;
      orphans, error := SweepOrphanedArtifacts(before, batch, f);
      result := SweepResult(|expired|, deleted, failed, if error then 0 else orphans);
    }
  }

  // ----- whatever fails -----

  /** What one database keeps of another from which rows were only removed. */
  ghost predicate Shrinks(before: Db, after: Db) {
    && NoneStranded(before, after)
    && (Linked(before) ==> Linked(after))
    && (forall id, key | KeyKnown(before.artifacts, id, key) :: KeyKnown(after.artifacts, id, key))
  }

  lemma ShrinksTwice(a: Db, b: Db, c: Db)
    requires Shrinks(a, b) && Shrinks(b, c)
    ensures Shrinks(a, c)
  {
    NoneStrandedTwice(a, b, c);
  }

  lemma DeleteRunShrinks(db: Db, x: ExpiredRun, blob: Outcome, rows: Outcome)
    requires x.artifact.Some? ==> KeyKnown(db.artifacts, x.artifact.value, x.key)
    ensures Shrinks(db, DeleteRun(db, x, blob, rows))
  {
    DeleteRunStrandsNothing(db, x, blob, rows);
    if Linked(db) {
      DeleteRunKeepsLinks(db, x, blob, rows);
    }
    forall id, key | KeyKnown(db.artifacts, id, key) ensures KeyKnown(DeleteRun(db, x, blob, rows).artifacts, id, key) {
      if x.artifact.Some? {
        KeyStaysKnown(db.artifacts, id, key, OtherArtifact(x.artifact.value));
      }
    }
  }

  lemma DeleteOrphanShrinks(db: Db, a: ArtifactRow, blob: Outcome, row: Outcome)
    requires KeyKnown(db.artifacts, a.id, a.key)
    ensures Shrinks(db, DeleteOrphan(db, a, blob, row))
  {
    DeleteOrphanStrandsNothing(db, a, blob, row);
    if Linked(db) {
      DeleteOrphanKeepsLinks(db, a, blob, row);
    }
    forall id, key | KeyKnown(db.artifacts, id, key) ensures KeyKnown(DeleteOrphan(db, a, blob, row).artifacts, id, key) {
      KeyStaysKnown(db.artifacts, id, key, OtherArtifact(a.id));
    }
  }

  lemma {:induction false} RunLoopShrinks(db: Db, listed: seq<ExpiredRun>, f: Faults, k: nat)
    requires k <= |listed|
    requires forall j | 0 <= j < |listed| && listed[j].artifact.Some? :: KeyKnown(db.artifacts, listed[j].artifact.value, listed[j].key)
    ensures Shrinks(db, RunLoop(db, listed, f, k).db)
  {
    if k > 0 {
      RunLoopShrinks(db, listed, f, k - 1);
      var s := RunLoop(db, listed, f, k - 1);
      DeleteRunShrinks(s.db, listed[k - 1], f.blob(k - 1), f.rows(k - 1));
      ShrinksTwice(db, s.db, RunLoop(db, listed, f, k).db);
    }
  }

  lemma {:induction false} OrphanLoopShrinks(db: Db, listed: seq<ArtifactRow>, f: Faults, k: nat)
    requires k <= |listed|
    requires forall j | 0 <= j < |listed| :: KeyKnown(db.artifacts, listed[j].id, listed[j].key)
    ensures Shrinks(db, OrphanLoop(db, listed, f, k).db)
  {
    if k > 0 {
      OrphanLoopShrinks(db, listed, f, k - 1);
      var s := OrphanLoop(db, listed, f, k - 1);
      DeleteOrphanShrinks(s.db, listed[k - 1], f.orphanBlob(k - 1), f.orphanRow(k - 1));
      ShrinksTwice(db, s.db, OrphanLoop(db, listed, f, k).db);
    }
  }

  lemma ListedKeysKnown(db: Db, before: int, batch: nat)
    requires DistinctArtifacts(db.artifacts)
    ensures var listed := Listed(db, before, batch);
            forall j | 0 <= j < |listed| && listed[j].artifact.Some? :: KeyKnown(db.artifacts, listed[j].artifact.value, listed[j].key)
  {
    var listed := Listed(db, before, batch);
    forall j | 0 <= j < |listed| && listed[j].artifact.Some? ensures KeyKnown(db.artifacts, listed[j].artifact.value, listed[j].key) {
      KeyOfIsKnown(db.artifacts, listed[j].artifact.value);
    }
  }

  lemma OrphanKeysKnown(db: Db, before: int, batch: nat)
    requires DistinctArtifacts(db.artifacts)
    ensures var listed := ListOrphans(db, before, batch); forall j | 0 <= j < |listed| :: KeyKnown(db.artifacts, listed[j].id, listed[j].key)
  {
    var listed := ListOrphans(db, before, batch);
    var all := Filter(Orphaned(db.runs, before), db.artifacts);
    SameMembers(Sort(ArtifactBefore, all), all);
    forall j | 0 <= j < |listed| ensures KeyKnown(db.artifacts, listed[j].id, listed[j].key) {
      assert listed[j] == Sort(ArtifactBefore, all)[j] && listed[j] in Sort(ArtifactBefore, all);
      assert listed[j] in db.artifacts;
    }
  }

  lemma DistinctKept(artifacts: seq<ArtifactRow>, keep: ArtifactRow -> bool)
    requires DistinctArtifacts(artifacts)
    ensures DistinctArtifacts(Filter(keep, artifacts))
  {
    FilterKeyed((a: ArtifactRow) => a.id, keep, artifacts);
  }

  lemma {:induction false} DistinctAfterRuns(db: Db, listed: seq<ExpiredRun>, f: Faults, k: nat)
    requires DistinctArtifacts(db.artifacts) && k <= |listed|
    ensures DistinctArtifacts(RunLoop(db, listed, f, k).db.artifacts)
  {
    if k > 0 {
      DistinctAfterRuns(db, listed, f, k - 1);
      if listed[k - 1].artifact.Some? {
        DistinctKept(RunLoop(db, listed, f, k - 1).db.artifacts, OtherArtifact(listed[k - 1].artifact.value));
      }
    }
  }

  /**
   * Whatever calls fail, and however far the sweep gets: no object loses its row while it
   * exists, and no run outlives its artifact's row.
   */
  lemma SweepStrandsNothing(db: Db, before: int, batch: nat, f: Faults)
    requires DistinctArtifacts(db.artifacts)
    ensures NoneStranded(db, AfterSweep(db, before, batch, f))
    ensures Linked(db) ==> Linked(AfterSweep(db, before, batch, f))
  {
    var listed := Listed(db, before, batch);
    var middle := AfterRuns(db, before, batch, f);
    ListedKeysKnown(db, before, batch);
    RunLoopShrinks(db, listed, f, Rounds(|listed|, f.canceledAt));
    DistinctAfterRuns(db, listed, f, Rounds(|listed|, f.canceledAt));
    assert Shrinks(db, middle) && DistinctArtifacts(middle.artifacts);
    if ReachesOrphans(db, before, batch, f) {
      OrphanKeysKnown(middle, before, batch);
      var orphans := ListOrphans(middle, before, batch);
      OrphanLoopShrinks(middle, orphans, f, Rounds(|orphans|, f.orphansCanceledAt));
      ShrinksTwice(db, middle, AfterOrphans(middle, before, batch, f));
    }
  }

  // ----- what no sweep touches -----

  lemma {:induction false} RunLoopSpares(db: Db, listed: seq<ExpiredRun>, f: Faults, k: nat, r: RunRow)
    requires k <= |listed| && r in db.runs && forall j | 0 <= j < |listed| :: listed[j].run != r.id
    ensures r in RunLoop(db, listed, f, k).db.runs
  {
    if k > 0 {
      RunLoopSpares(db, listed, f, k - 1, r);
    }
  }

  lemma {:induction false} OrphanLoopKeepsRuns(db: Db, listed: seq<ArtifactRow>, f: Faults, k: nat)
    requires k <= |listed|
    ensures OrphanLoop(db, listed, f, k).db.runs == db.runs
  {
    if k > 0 {
      OrphanLoopKeepsRuns(db, listed, f, k - 1);
    }
  }

  lemma SameRun(runs: seq<RunRow>, a: RunRow, b: RunRow)
    requires DistinctRuns(runs) && a in runs && b in runs && a.id == b.id
    ensures a == b
  {
  }

  /** Whatever fails, a run that is unfinished or not old enough stays. */
  lemma SweepSparesRun(db: Db, before: int, batch: nat, f: Faults, r: RunRow)
    requires DistinctRuns(db.runs) && r in db.runs && (!r.finished || r.createdAt >= before)
    ensures r in AfterSweep(db, before, batch, f).runs
  {
    var listed := Listed(db, before, batch);
    ExpiredAreOldest(db, before, batch);
    forall j | 0 <= j < |listed| ensures listed[j].run != r.id {
      if ListExpired(db, before, batch)[j].id == r.id {
        SameRun(db.runs, r, ListExpired(db, before, batch)[j]);
      }
    }
    RunLoopSpares(db, listed, f, Rounds(|listed|, f.canceledAt), r);
    var middle := AfterRuns(db, before, batch, f);
    var orphans := ListOrphans(middle, before, batch);
    OrphanLoopKeepsRuns(middle, orphans, f, Rounds(|orphans|, f.orphansCanceledAt));
  }

  lemma ReferredBy(runs: seq<RunRow>, r: RunRow, id: int)
    requires r in runs && r.artifact == Some(id)
    ensures Referenced(runs, id)
  {
  }

  lemma DeleteRunKeepsReferred(db: Db, x: ExpiredRun, blob: Outcome, rows: Outcome, a: ArtifactRow, r: RunRow)
    requires a in db.artifacts && r in DeleteRun(db, x, blob, rows).runs && r.artifact == Some(a.id)
    ensures a in DeleteRun(db, x, blob, rows).artifacts
  {
    ReferredBy(DeleteRun(db, x, blob, rows).runs, r, a.id);
  }

  lemma {:induction false} RunLoopKeepsReferred(db: Db, listed: seq<ExpiredRun>, f: Faults, k: nat, a: ArtifactRow, r: RunRow)
    requires k <= |listed| && a in db.artifacts && r in RunLoop(db, listed, f, k).db.runs && r.artifact == Some(a.id)
    ensures a in RunLoop(db, listed, f, k).db.artifacts
  {
    if k > 0 {
      RunLoopKeepsReferred(db, listed, f, k - 1, a, r);
      DeleteRunKeepsReferred(RunLoop(db, listed, f, k - 1).db, listed[k - 1], f.blob(k - 1), f.rows(k - 1), a, r);
    }
  }

  lemma DeleteOrphanKeepsReferred(db: Db, x: ArtifactRow, blob: Outcome, row: Outcome, a: ArtifactRow, r: RunRow)
    requires a in db.artifacts && r in db.runs && r.artifact == Some(a.id)
    ensures a in DeleteOrphan(db, x, blob, row).artifacts
  {
    ReferredBy(db.runs, r, a.id);
  }

  lemma {:induction false} OrphanLoopKeepsReferred(db: Db, listed: seq<ArtifactRow>, f: Faults, k: nat, a: ArtifactRow, r: RunRow)
    requires k <= |listed| && a in db.artifacts && r in db.runs && r.artifact == Some(a.id)
    ensures a in OrphanLoop(db, listed, f, k).db.artifacts
  {
    if k > 0 {
      OrphanLoopKeepsReferred(db, listed, f, k - 1, a, r);
      OrphanLoopKeepsRuns(db, listed, f, k - 1);
      var before := OrphanLoop(db, listed, f, k - 1).db;
      DeleteOrphanKeepsReferred(before, listed[k - 1], f.orphanBlob(k - 1), f.orphanRow(k - 1), a, r);
    }
  }

  /** Nor does an artifact row go while a run that is left refers to it. */
  lemma SweepKeepsReferred(db: Db, before: int, batch: nat, f: Faults, a: ArtifactRow, r: RunRow)
    requires a in db.artifacts && r in AfterSweep(db, before, batch, f).runs && r.artifact == Some(a.id)
    ensures a in AfterSweep(db, before, batch, f).artifacts
  {
    var listed, middle := Listed(db, before, batch), AfterRuns(db, before, batch, f);
    var orphans := ListOrphans(middle, before, batch);
    OrphanLoopKeepsRuns(middle, orphans, f, Rounds(|orphans|, f.orphansCanceledAt));
    if !f.listFails {
      RunLoopKeepsReferred(db, listed, f, Rounds(|listed|, f.canceledAt), a, r);
    }
    OrphanLoopKeepsReferred(middle, orphans, f, Rounds(|orphans|, f.orphansCanceledAt), a, r);
  }

  lemma {:induction false} RunLoopSparesArtifact(db: Db, listed: seq<ExpiredRun>, f: Faults, k: nat, a: ArtifactRow)
    requires k <= |listed| && a in db.artifacts && forall j | 0 <= j < |listed| :: listed[j].artifact != Some(a.id)
    ensures a in RunLoop(db, listed, f, k).db.artifacts
  {
    if k > 0 {
      RunLoopSparesArtifact(db, listed, f, k - 1, a);
    }
  }

  lemma {:induction false} OrphanLoopSpares(db: Db, listed: seq<ArtifactRow>, f: Faults, k: nat, a: ArtifactRow)
    requires k <= |listed| && a in db.artifacts && forall j | 0 <= j < |listed| :: listed[j].id != a.id
    ensures a in OrphanLoop(db, listed, f, k).db.artifacts
  {
    if k > 0 {
      OrphanLoopSpares(db, listed, f, k - 1, a);
    }
  }

  lemma SameArtifact(artifacts: seq<ArtifactRow>, a: ArtifactRow, b: ArtifactRow)
    requires DistinctArtifacts(artifacts) && a in artifacts && b in artifacts && a.id == b.id
    ensures a == b
  {
  }

  /** Besides the artifacts of expired runs, only run sources that are old enough go. */
  lemma SweepSparesArtifact(db: Db, before: int, batch: nat, f: Faults, a: ArtifactRow)
    requires DistinctArtifacts(db.artifacts) && a in db.artifacts && (!a.runSource || a.createdAt >= before)
    requires forall r | r in db.runs && r.artifact == Some(a.id) :: !r.finished || r.createdAt >= before
    ensures a in AfterSweep(db, before, batch, f).artifacts
  {
    var listed, middle := Listed(db, before, batch), AfterRuns(db, before, batch, f);
    ExpiredAreOldest(db, before, batch);
    forall j | 0 <= j < |listed| ensures listed[j].artifact != Some(a.id) {
      assert listed[j].artifact == ListExpired(db, before, batch)[j].artifact;
    }
    RunLoopSparesArtifact(db, listed, f, Rounds(|listed|, f.canceledAt), a);
    DistinctAfterRuns(db, listed, f, Rounds(|listed|, f.canceledAt));
    var orphans := ListOrphans(middle, before, batch);
    OrphansAreOldest(middle, before, batch);
    forall j | 0 <= j < |orphans| ensures orphans[j].id != a.id {
      if orphans[j].id == a.id {
        SameArtifact(middle.artifacts, a, orphans[j]);
      }
    }
    OrphanLoopSpares(middle, orphans, f, Rounds(|orphans|, f.orphansCanceledAt), a);
  }

  /** The same for all rows at once. */
  lemma SweepSpares(db: Db, before: int, batch: nat, f: Faults)
    ensures var after := AfterSweep(db, before, batch, f);
      && (DistinctRuns(db.runs) ==> forall r | r in db.runs && (!r.finished || r.createdAt >= before) :: r in after.runs)
      && (forall a, r | a in db.artifacts && r in after.runs && r.artifact == Some(a.id) :: a in after.artifacts)
      && (DistinctArtifacts(db.artifacts) ==>
            forall a | a in db.artifacts && (!a.runSource || a.createdAt >= before)
                       && (forall r | r in db.runs && r.artifact == Some(a.id) :: !r.finished || r.createdAt >= before) ::
              a in after.artifacts)
  {
    forall r | DistinctRuns(db.runs) && r in db.runs && (!r.finished || r.createdAt >= before)
      ensures r in AfterSweep(db, before, batch, f).runs
    {
      SweepSparesRun(db, before, batch, f, r);
    }
    forall a, r | a in db.artifacts && r in AfterSweep(db, before, batch, f).runs && r.artifact == Some(a.id)
      ensures a in AfterSweep(db, before, batch, f).artifacts
    {
      SweepKeepsReferred(db, before, batch, f, a, r);
    }
    forall a | DistinctArtifacts(db.artifacts) && a in db.artifacts && (!a.runSource || a.createdAt >= before)
               && (forall r | r in db.runs && r.artifact == Some(a.id) :: !r.finished || r.createdAt >= before)
      ensures a in AfterSweep(db, before, batch, f).artifacts
    {
      SweepSparesArtifact(db, before, batch, f, a);
    }
  }

  // ----- the backlog -----

  ghost predicate DistinctRuns(runs: seq<RunRow>) {
    forall i, j | 0 <= i < j < |runs| :: runs[i].id != runs[j].id
  }

  /** No two runs share an artifact. */
  ghost predicate Unshared(runs: seq<RunRow>) {
    forall i, j | 0 <= i < |runs| && 0 <= j < |runs| && runs[i].artifact.Some? && runs[i].artifact == runs[j].artifact :: runs[i] == runs[j]
  }

  ghost predicate AllSucceed(f: Faults, batch: nat) {
    !f.listFails && f.canceledAt >= batch && forall k: nat :: f.blob(k).Succeeds? && f.rows(k).Succeeds?
  }

  lemma {:induction false} OneLess(runs: seq<RunRow>, r: RunRow)
    requires DistinctRuns(runs) && r in runs
    ensures |Filter(OtherRun(r.id), runs)| == |runs| - 1
  {
    if runs[0] == r {
      forall x | x in runs[1..] ensures OtherRun(r.id)(x) {
      }
      FilterAll(OtherRun(r.id), runs[1..]);
    } else {
      OneLess(runs[1..], r);
    }
  }

  lemma RunsKept(runs: seq<RunRow>, keep: RunRow -> bool)
    requires DistinctRuns(runs)
    ensures DistinctRuns(Filter(keep, runs))
    ensures Unshared(runs) ==> Unshared(Filter(keep, runs))
  {
    FilterKeyed((r: RunRow) => r.id, keep, runs);
    var rest := Filter(keep, runs);
    if Unshared(runs) {
      forall i, j | 0 <= i < |rest| && 0 <= j < |rest| && rest[i].artifact.Some? && rest[i].artifact == rest[j].artifact ensures rest[i] == rest[j] {
        var m := FilteredFrom(keep, runs, i);
        var n := FilteredFrom(keep, runs, j);
      }
    }
  }

  function Ones(b: bool): nat {
    if b then 1 else 0
  }

  /** Deleting one run without a fault takes it off every backlog it is on, and nothing else. */
  lemma OneRunGone(db: Db, r: RunRow, key: string, before: int)
    requires DistinctRuns(db.runs) && Unshared(db.runs) && r in db.runs
    ensures var x := ExpiredRun(r.id, r.artifact, key);
            DeleteRunSucceeds(db, x, Succeeds, Succeeds) && DeleteRun(db, x, Succeeds, Succeeds).runs == Filter(OtherRun(r.id), db.runs)
    ensures |Filter(Expired(before), Filter(OtherRun(r.id), db.runs))| + Ones(Expired(before)(r)) == |Filter(Expired(before), db.runs)|
  {
    if r.artifact.Some? {
      var rest := Filter(OtherRun(r.id), db.runs);
      forall i | 0 <= i < |rest| ensures rest[i].artifact != r.artifact {
        var n := FilteredFrom(OtherRun(r.id), db.runs, i);
      }
    }
    FilterCommutes(Expired(before), OtherRun(r.id), db.runs);
    FilterKeyed((x: RunRow) => x.id, Expired(before), db.runs);
    if Expired(before)(r) {
      OneLess(Filter(Expired(before), db.runs), r);
    } else {
      NoneLess(db.runs, r, Filter(Expired(before), db.runs));
    }
  }

  lemma NoneLess(runs: seq<RunRow>, r: RunRow, some: seq<RunRow>)
    requires DistinctRuns(runs) && r in runs && r !in some && forall x | x in some :: x in runs
    ensures Filter(OtherRun(r.id), some) == some
  {
    FilterAll(OtherRun(r.id), some);
  }

  function Backlog(db: Db, before: int): nat {
    |Filter(Expired(before), db.runs)|
  }

  ghost predicate Tidy(db: Db, before: int, n: nat) {
    DistinctRuns(db.runs) && Unshared(db.runs) && Backlog(db, before) == n
  }

  ghost predicate StillThere(runs: seq<RunRow>, rows: seq<RunRow>, k: nat) {
    forall j | k <= j < |rows| :: rows[j] in runs
  }

  lemma DrainStep(db: Db, rows: seq<RunRow>, k: nat, key: string, before: int, n: nat)
    requires Tidy(db, before, n) && DistinctRuns(rows) && k < |rows| && StillThere(db.runs, rows, k)
    ensures var x := ExpiredRun(rows[k].id, rows[k].artifact, key);
            && DeleteRunSucceeds(db, x, Succeeds, Succeeds) && n >= Ones(Expired(before)(rows[k]))
            && Tidy(DeleteRun(db, x, Succeeds, Succeeds), before, n - Ones(Expired(before)(rows[k])))
            && StillThere(DeleteRun(db, x, Succeeds, Succeeds).runs, rows, k + 1)
  {
    OneRunGone(db, rows[k], key, before);
    RunsKept(db.runs, OtherRun(rows[k].id));
  }

  /** One round of the loop without a fault. */
  lemma DrainRound(s: Swept, t: Swept, rows: seq<RunRow>, k: nat, x: ExpiredRun, before: int, n: nat) returns (left: nat)
    requires Tidy(s.db, before, n) && DistinctRuns(rows) && k < |rows| && StillThere(s.db.runs, rows, k)
    requires x == ExpiredRun(rows[k].id, rows[k].artifact, x.key)
    requires DeleteRunSucceeds(s.db, x, Succeeds, Succeeds) ==> t == Swept(DeleteRun(s.db, x, Succeeds, Succeeds), s.deleted + 1, s.failed)
    ensures t.deleted == s.deleted + 1 && t.failed == s.failed && left + Ones(Expired(before)(rows[k])) == n
    ensures Tidy(t.db, before, left) && StillThere(t.db.runs, rows, k + 1)
  {
    DrainStep(s.db, rows, k, x.key, before, n);
    left := n - Ones(Expired(before)(rows[k]));
  }

  /** The rows listed are distinct runs, the first `c` of them those expired by `before`. */
  ghost predicate ListedAs(rows: seq<RunRow>, listed: seq<ExpiredRun>, before: int, c: nat) {
    && DistinctRuns(rows) && |rows| == |listed| && c <= |rows|
    && (forall j | 0 <= j < |rows| :: Expired(before)(rows[j]) <==> j < c)
    && (forall j | 0 <= j < |rows| :: listed[j].run == rows[j].id && listed[j].artifact == rows[j].artifact)
  }

  /** The state of the loop after `k` rounds without a fault, when `left` of `n` runs expired by `before` are left. */
  ghost predicate Drained(s: Swept, rows: seq<RunRow>, before: int, c: nat, k: nat, n: nat, left: nat) {
    && s.deleted == k && s.failed == 0 && left + (if k < c then k else c) == n
    && Tidy(s.db, before, left) && StillThere(s.db.runs, rows, k)
  }

  /** Round `i` of the loop, if its deletion goes through. */
  ghost predicate RoundOk(states: seq<Swept>, listed: seq<ExpiredRun>, i: nat)
    requires i < |listed| < |states|
  {
    DeleteRunSucceeds(states[i].db, listed[i], Succeeds, Succeeds) ==>
      states[i + 1] == Swept(DeleteRun(states[i].db, listed[i], Succeeds, Succeeds), states[i].deleted + 1, states[i].failed)
  }

  lemma DrainOne(rows: seq<RunRow>, listed: seq<ExpiredRun>, before: int, c: nat, k: nat, n: nat, s: Swept, left: nat, t: Swept)
    returns (rest: nat)
    requires ListedAs(rows, listed, before, c) && k < |rows| && Drained(s, rows, before, c, k, n, left)
    requires DeleteRunSucceeds(s.db, listed[k], Succeeds, Succeeds) ==>
               t == Swept(DeleteRun(s.db, listed[k], Succeeds, Succeeds), s.deleted + 1, s.failed)
    ensures Drained(t, rows, before, c, k + 1, n, rest)
  {
    rest := DrainRound(s, t, rows, k, listed[k], before, left);
  }

  lemma {:induction false} RoundsDrain(states: seq<Swept>, rows: seq<RunRow>, listed: seq<ExpiredRun>, before: int, c: nat, k: nat, n: nat)
    returns (left: nat)
    requires ListedAs(rows, listed, before, c) && k <= |rows| && |states| == |rows| + 1
    requires forall i: nat | i < |rows| :: RoundOk(states, listed, i)
    requires Drained(states[0], rows, before, c, 0, n, n)
    ensures Drained(states[k], rows, before, c, k, n, left)
  {
    if k == 0 {
      left := n;
    } else {
      left := RoundsDrain(states, rows, listed, before, c, k - 1, n);
      assert RoundOk(states, listed, k - 1);
      left := DrainOne(rows, listed, before, c, k - 1, n, states[k - 1], left, states[k]);
    }
  }

  lemma OneMoreRound(db: Db, listed: seq<ExpiredRun>, f: Faults, k: nat, states: seq<Swept>)
    requires 0 < k <= |listed| && f.blob(k - 1).Succeeds? && f.rows(k - 1).Succeeds?
    requires |states| == |listed| + 1 && states[k - 1] == RunLoop(db, listed, f, k - 1) && states[k] == RunLoop(db, listed, f, k)
    ensures RoundOk(states, listed, k - 1)
  {
  }

  /** The states of the loop, round by round. */
  lemma LoopStates(db: Db, listed: seq<ExpiredRun>, f: Faults) returns (states: seq<Swept>)
    requires forall j: nat :: f.blob(j).Succeeds? && f.rows(j).Succeeds?
    ensures |states| == |listed| + 1 && states[0] == Swept(db, 0, 0) && states[|listed|] == RunLoop(db, listed, f, |listed|)
    ensures forall i: nat | i < |listed| :: RoundOk(states, listed, i)
  {
    states := seq(|listed| + 1, i requires 0 <= i <= |listed| => RunLoop(db, listed, f, i));
    forall i: nat | i < |listed| ensures RoundOk(states, listed, i) {
      OneMoreRound(db, listed, f, i + 1, states);
    }
  }

  /** Without faults every listed run goes, and nothing else; the first `c` of them are those expired by `before`. */
  lemma LoopDrains(db: Db, rows: seq<RunRow>, listed: seq<ExpiredRun>, f: Faults, before: int, c: nat, n: nat)
    returns (s: Swept, left: nat)
    requires Drained(Swept(db, 0, 0), rows, before, c, 0, n, n) && ListedAs(rows, listed, before, c)
    requires forall j: nat :: f.blob(j).Succeeds? && f.rows(j).Succeeds?
    ensures s == RunLoop(db, listed, f, |listed|) && Drained(s, rows, before, c, |listed|, n, left)
  {
    var states := LoopStates(db, listed, f);
    s := states[|listed|];
    left := RoundsDrain(states, rows, listed, before, c, |listed|, n);
  }

  /** Where the members that are kept come first, they are as many as the filter leaves. */
  lemma {:induction false} KeptFirst(keep: RunRow -> bool, s: seq<RunRow>)
    requires forall i, j | 0 <= i < j < |s| && keep(s[j]) :: keep(s[i])
    ensures forall j | 0 <= j < |s| :: keep(s[j]) <==> j < |Filter(keep, s)|
  {
    if s != [] {
      KeptFirst(keep, s[1..]);
      if !keep(s[0]) {
        FilterNothing(keep, s);
      }
      forall j | 0 <= j < |s| ensures keep(s[j]) <==> j < |Filter(keep, s)| {
        assert j > 0 ==> s[1..][j - 1] == s[j];
      }
    }
  }

  /** Sorted by creation, the runs expired by an earlier cutoff come first. */
  lemma EarlierFirst(db: Db, before: int, cut: int)
    requires before <= cut
    ensures var sorted := Sort(RunBefore, Filter(Expired(cut), db.runs));
            Backlog(db, before) <= |sorted| && forall j | 0 <= j < |sorted| :: Expired(before)(sorted[j]) <==> j < Backlog(db, before)
  {
    var all := Filter(Expired(cut), db.runs);
    var sorted := Sort(RunBefore, all);
    RunBeforeIsPreorder();
    SortOrdered(RunBefore, all);
    SameMembers(sorted, all);
    forall i, j | 0 <= i < j < |sorted| && Expired(before)(sorted[j]) ensures Expired(before)(sorted[i]) {
      assert sorted[i] in all && RunBefore(sorted[i], sorted[j]);
    }
    KeptFirst(Expired(before), sorted);
    FilterPermuted(Expired(before), sorted, all);
    assert |Filter(Expired(before), sorted)| == |multiset(Filter(Expired(before), sorted))| == |multiset(Filter(Expired(before), all))|;
    FilterNarrower(Expired(before), Expired(cut), db.runs);
  }

  lemma SortedExpired(db: Db, cut: int, sorted: seq<RunRow>)
    requires DistinctRuns(db.runs) && sorted == Sort(RunBefore, Filter(Expired(cut), db.runs))
    ensures DistinctRuns(sorted) && StillThere(db.runs, sorted, 0)
  {
    var all := Filter(Expired(cut), db.runs);
    FilterKeyed((r: RunRow) => r.id, Expired(cut), db.runs);
    PermutedKeyed((r: RunRow) => r.id, all, sorted);
    SameMembers(sorted, all);
    forall j | 0 <= j < |sorted| ensures sorted[j] in db.runs {
      assert sorted[j] in sorted && sorted[j] in all;
    }
  }

  lemma SortedRuns(db: Db, before: int, cut: int, batch: nat) returns (c: nat)
    requires DistinctRuns(db.runs) && before <= cut
    ensures c == if Backlog(db, before) <= batch then Backlog(db, before) else batch
    ensures var rows := ListExpired(db, cut, batch);
            && DistinctRuns(rows) && |rows| <= batch && c <= |rows| && StillThere(db.runs, rows, 0)
            && forall j | 0 <= j < |rows| :: Expired(before)(rows[j]) <==> j < c
  {
    var sorted, n := Sort(RunBefore, Filter(Expired(cut), db.runs)), Backlog(db, before);
    SortedExpired(db, cut, sorted);
    EarlierFirst(db, before, cut);
    c := FirstBatch(db.runs, sorted, Expired(before), n, batch);
  }

  lemma FirstBatch(runs: seq<RunRow>, sorted: seq<RunRow>, early: RunRow -> bool, n: nat, batch: nat) returns (c: nat)
    requires DistinctRuns(sorted) && StillThere(runs, sorted, 0) && n <= |sorted|
    requires forall j | 0 <= j < |sorted| :: early(sorted[j]) <==> j < n
    ensures c == if n <= batch then n else batch
    ensures var rows := Take(sorted, batch);
            && DistinctRuns(rows) && |rows| <= batch && c <= |rows| && StillThere(runs, rows, 0)
            && forall j | 0 <= j < |rows| :: early(rows[j]) <==> j < c
  {
    c := if n <= batch then n else batch;
  }

  /** What a backlog of n is after one sweep, and after m of them. */
  function Left(n: nat, batch: nat): nat {
    if n <= batch then 0 else n - batch
  }

  function LeftAfter(n: nat, batch: nat, m: nat): nat {
    if m == 0 then n else Left(LeftAfter(n, batch, m - 1), batch)
  }

  lemma RunsTakeABatch(db: Db, before: int, cut: int, batch: nat, f: Faults, n: nat)
    requires Tidy(db, before, n) && before <= cut && AllSucceed(f, batch)
    ensures Tidy(AfterRuns(db, cut, batch, f), before, Left(n, batch)) && ReachesOrphans(db, cut, batch, f)
  {
    var c := SortedRuns(db, before, cut, batch);
    var rows, listed := ListExpired(db, cut, batch), Listed(db, cut, batch);
    var s, left := LoopDrains(db, rows, listed, f, before, c, n);
  }

  lemma TidyRuns(a: Db, b: Db, before: int, n: nat)
    requires Tidy(a, before, n) && a.runs == b.runs
    ensures Tidy(b, before, n)
  {
  }

  /** A sweep without faults takes a whole batch off the backlog of any cutoff up to its own, or all of it. */
  lemma SweepTakesABatch(db: Db, before: int, cut: int, batch: nat, f: Faults, n: nat)
    requires Tidy(db, before, n) && before <= cut && AllSucceed(f, batch)
    ensures Tidy(AfterSweep(db, cut, batch, f), before, Left(n, batch))
  {
    RunsTakeABatch(db, before, cut, batch, f, n);
    var middle := AfterRuns(db, cut, batch, f);
    var orphans := ListOrphans(middle, cut, batch);
    OrphanLoopKeepsRuns(middle, orphans, f, Rounds(|orphans|, f.orphansCanceledAt));
    TidyRuns(middle, AfterOrphans(middle, cut, batch, f), before, Left(n, batch));
  }

  /** One sweep after the other, each with its own cutoff and its own faults. */
  function Sweeps(db: Db, cuts: seq<int>, batch: nat, faults: seq<Faults>): Db
    requires |cuts| == |faults|
  {
    if cuts == [] then db
    else
      var m := |cuts| - 1;
      AfterSweep(Sweeps(db, cuts[..m], batch, faults[..m]), cuts[m], batch, faults[m])
  }

  lemma {:induction false} LeftMeaning(n: nat, batch: nat, m: nat)
    ensures LeftAfter(n, batch, m) == if n <= m * batch then 0 else n - m * batch
  {
    if m > 0 {
      LeftMeaning(n, batch, m - 1);
      assert m * batch == (m - 1) * batch + batch;
    }
  }

  /** The least m with n <= m * batch is ceil(n / batch). */
  lemma CeilingCovers(n: nat, batch: nat)
    requires batch > 0
    ensures var m := (n + batch - 1) / batch; n <= m * batch && (m > 0 ==> (m - 1) * batch < n)
  {
    var m := (n + batch - 1) / batch;
    assert m * batch <= n + batch - 1 < m * batch + batch;
    assert (m - 1) * batch == m * batch - batch;
  }

  lemma {:induction false} SweepsTakeBatches(db: Db, before: int, batch: nat, cuts: seq<int>, faults: seq<Faults>, n: nat)
    requires Tidy(db, before, n) && |cuts| == |faults|
    requires forall i | 0 <= i < |cuts| :: before <= cuts[i] && AllSucceed(faults[i], batch)
    ensures Tidy(Sweeps(db, cuts, batch, faults), before, LeftAfter(n, batch, |cuts|))
  {
    if cuts != [] {
      var m := |cuts| - 1;
      SweepsTakeBatches(db, before, batch, cuts[..m], faults[..m], n);
      SweepTakesABatch(Sweeps(db, cuts[..m], batch, faults[..m]), before, cuts[m], batch, faults[m], LeftAfter(n, batch, m));
    }
  }

  /**
   * After m sweeps without a fault, while the cutoff advances, a backlog of n is down by m batches;
   * it is empty exactly when m batches cover it.
   */
  lemma BacklogDrains(db: Db, before: int, batch: nat, cuts: seq<int>, faults: seq<Faults>, n: nat)
    requires Tidy(db, before, n) && |cuts| == |faults|
    requires forall i | 0 <= i < |cuts| :: before <= cuts[i] && AllSucceed(faults[i], batch)
    ensures Backlog(Sweeps(db, cuts, batch, faults), before) == if n <= |cuts| * batch then 0 else n - |cuts| * batch
  {
    LeftMeaning(n, batch, |cuts|);
    SweepsTakeBatches(db, before, batch, cuts, faults, n);
  }

  /** A run that shares its artifact with another is never deleted. */
  lemma SharedStays(db: Db, r: RunRow, q: RunRow, key: string, blob: Outcome, rows: Outcome)
    requires r in db.runs && q in db.runs && r.id != q.id && r.artifact.Some? && r.artifact == q.artifact
    ensures var x := ExpiredRun(r.id, r.artifact, key);
            !DeleteRunSucceeds(db, x, blob, rows) && DeleteRun(db, x, blob, rows).runs == db.runs
  {
    var rest := Filter(OtherRun(r.id), db.runs);
    assert q in rest;
    var i :| 0 <= i < |rest| && rest[i] == q;
    assert rest[i].artifact == r.artifact;
  }
}
