/**
 * Where runs and their artifacts come from (internal/submission/run_service.go:175-238): every request
 * uploads its own source and admits its run with that artifact, or discards it, among other requests,
 * runs that finish and the deletions of any sweeps. So no two runs share an artifact.
 */
module RunArtifacts {
  import opened Wrappers
  import opened Sorting
  import opened Retention
  import opened RetentionSweep

  /** `uploads` are the artifacts of requests that have not been admitted yet. */
  datatype Tables = Tables(db: Db, nextRun: int, nextArtifact: int, uploads: set<int>)

  datatype Action =
    | Upload(key: string, now: int)
    | Admit(artifact: int, now: int)
    | Discard(artifact: int, blob: Outcome, row: Outcome)
    | Finish(i: nat)
    | RemoveRun(x: ExpiredRun, blob: Outcome, rows: Outcome)
    | RemoveOrphan(a: ArtifactRow, blob: Outcome, row: Outcome)

  predicate Enabled(s: Tables, a: Action) {
    match a
    case Admit(artifact, _) => artifact in s.uploads
    case Discard(artifact, _, _) => artifact in s.uploads
    case Finish(i) => i < |s.db.runs|
    case _ => true
  }

  function After(s: Tables, a: Action): Tables
    requires Enabled(s, a)
  {
    match a
    case Upload(key, now) =>
      s.(db := s.db.(artifacts := s.db.artifacts + [ArtifactRow(s.nextArtifact, now, true, key)], objects := s.db.objects + {key}),
         nextArtifact := s.nextArtifact + 1, uploads := s.uploads + {s.nextArtifact})
    case Admit(artifact, now) =>
      s.(db := s.db.(runs := s.db.runs + [RunRow(s.nextRun, now, false, Some(artifact))]),
         nextRun := s.nextRun + 1, uploads := s.uploads - {artifact})
    case Discard(artifact, blob, row) =>
      s.(db := DeleteArtifact(DeleteObject(s.db, KeyOf(s.db.artifacts, artifact), blob), artifact, row), uploads := s.uploads - {artifact})
    case Finish(i) => s.(db := s.db.(runs := s.db.runs[i := s.db.runs[i].(finished := true)]))
    case RemoveRun(x, blob, rows) => s.(db := DeleteRun(s.db, x, blob, rows))
    case RemoveOrphan(a, blob, row) => s.(db := DeleteOrphan(s.db, a, blob, row))
  }

  ghost predicate Run(trace: seq<Tables>, actions: seq<Action>) {
    && |trace| == |actions| + 1
    && trace[0] == Tables(Db([], [], {}), 1, 1, {})
    && forall n | 0 <= n < |actions| :: Enabled(trace[n], actions[n]) && trace[n + 1] == After(trace[n], actions[n])
  }

  /** Numbers are used once: a run's artifact is one its request uploaded, and nobody else holds it. */
  ghost predicate Inv(s: Tables) {
    && DistinctRuns(s.db.runs) && Unshared(s.db.runs) && DistinctArtifacts(s.db.artifacts)
    && (forall i | 0 <= i < |s.db.runs| :: s.db.runs[i].id < s.nextRun)
    && (forall i | 0 <= i < |s.db.runs| && s.db.runs[i].artifact.Some? ::
          s.db.runs[i].artifact.value < s.nextArtifact && s.db.runs[i].artifact.value !in s.uploads)
    && (forall i | 0 <= i < |s.db.artifacts| :: s.db.artifacts[i].id < s.nextArtifact)
    && forall a | a in s.uploads :: a < s.nextArtifact
  }

  /** Rows that only leave keep everything. */
  lemma FewerRows(s: Tables, t: Tables, keepRun: RunRow -> bool, keepArtifact: ArtifactRow -> bool)
    requires Inv(s) && t.db.runs == Filter(keepRun, s.db.runs) && t.db.artifacts == Filter(keepArtifact, s.db.artifacts)
    requires t.nextRun == s.nextRun && t.nextArtifact == s.nextArtifact && t.uploads <= s.uploads
    ensures Inv(t)
  {
    RunsKept(s.db.runs, keepRun);
    DistinctKept(s.db.artifacts, keepArtifact);
    forall i | 0 <= i < |t.db.runs| ensures t.db.runs[i] in s.db.runs {
      assert t.db.runs[i] in t.db.runs;
    }
    forall i | 0 <= i < |t.db.artifacts| ensures t.db.artifacts[i] in s.db.artifacts {
      assert t.db.artifacts[i] in t.db.artifacts;
    }
  }

  lemma AllRows(db: Db)
    ensures Filter((r: RunRow) => true, db.runs) == db.runs && Filter((a: ArtifactRow) => true, db.artifacts) == db.artifacts
  {
    FilterAll((r: RunRow) => true, db.runs);
    FilterAll((a: ArtifactRow) => true, db.artifacts);
  }

  lemma DeletedRows(db: Db, x: ExpiredRun, blob: Outcome, rows: Outcome)
    ensures var after := DeleteRun(db, x, blob, rows);
            || (after.runs == db.runs && after.artifacts == db.artifacts)
            || (after.runs == Filter(OtherRun(x.run), db.runs)
                && (after.artifacts == db.artifacts || (x.artifact.Some? && after.artifacts == Filter(OtherArtifact(x.artifact.value), db.artifacts))))
  {
  }

  lemma RemoveRunKeeps(s: Tables, x: ExpiredRun, blob: Outcome, rows: Outcome)
    requires Inv(s)
    ensures Inv(After(s, RemoveRun(x, blob, rows)))
  {
    var t := After(s, RemoveRun(x, blob, rows));
    DeletedRows(s.db, x, blob, rows);
    AllRows(s.db);
    if t.db.runs == s.db.runs && t.db.artifacts == s.db.artifacts {
      FewerRows(s, t, (r: RunRow) => true, (a: ArtifactRow) => true);
    } else if t.db.artifacts == s.db.artifacts {
      FewerRows(s, t, OtherRun(x.run), (a: ArtifactRow) => true);
    } else {
      FewerRows(s, t, OtherRun(x.run), OtherArtifact(x.artifact.value));
    }
  }

  lemma ArtifactGone(s: Tables, t: Tables, id: int)
    requires Inv(s) && t.db.runs == s.db.runs
    requires t.db.artifacts == s.db.artifacts || t.db.artifacts == Filter(OtherArtifact(id), s.db.artifacts)
    requires t.nextRun == s.nextRun && t.nextArtifact == s.nextArtifact && t.uploads <= s.uploads
    ensures Inv(t)
  {
    AllRows(s.db);
    FewerRows(s, t, (r: RunRow) => true, if t.db.artifacts == s.db.artifacts then (a: ArtifactRow) => true else OtherArtifact(id));
  }

  lemma AdmitKeeps(s: Tables, artifact: int, now: int)
    requires Inv(s) && artifact in s.uploads
    ensures Inv(After(s, Admit(artifact, now)))
  {
  }

  lemma FinishKeeps(s: Tables, i: nat)
    requires Inv(s) && i < |s.db.runs|
    ensures Inv(After(s, Finish(i)))
  {
    var runs := After(s, Finish(i)).db.runs;
    forall j, k | 0 <= j < |runs| && 0 <= k < |runs| && runs[j].artifact.Some? && runs[j].artifact == runs[k].artifact ensures runs[j] == runs[k] {
      assert s.db.runs[j] == s.db.runs[k];
    }
  }

  lemma StepKeeps(s: Tables, a: Action)
    requires Inv(s) && Enabled(s, a)
    ensures Inv(After(s, a))
  {
    match a
    case Upload(_, _) =>
    case Admit(artifact, now) => AdmitKeeps(s, artifact, now);
    case Discard(artifact, _, _) => ArtifactGone(s, After(s, a), artifact);
    case Finish(i) => FinishKeeps(s, i);
    case RemoveRun(x, blob, rows) => RemoveRunKeeps(s, x, blob, rows);
    case RemoveOrphan(orphan, _, _) => ArtifactGone(s, After(s, a), orphan.id);
  }

  lemma {:induction false} RunKeeps(trace: seq<Tables>, actions: seq<Action>, n: nat)
    requires Run(trace, actions) && n < |trace|
    ensures Inv(trace[n])
  {
    if n > 0 {
      RunKeeps(trace, actions, n - 1);
      StepKeeps(trace[n - 1], actions[n - 1]);
    }
  }

  /** In every reachable state no two runs share an artifact, and so m sweeps without a fault take m batches off any backlog. */
  lemma ReachableDrains(trace: seq<Tables>, actions: seq<Action>, n: nat, before: int, batch: nat, cuts: seq<int>, faults: seq<Faults>)
    requires Run(trace, actions) && n < |trace| && |cuts| == |faults|
    requires forall i | 0 <= i < |cuts| :: before <= cuts[i] && AllSucceed(faults[i], batch)
    ensures DistinctRuns(trace[n].db.runs) && Unshared(trace[n].db.runs) && DistinctArtifacts(trace[n].db.artifacts)
    ensures var backlog := Backlog(trace[n].db, before);
            Backlog(Sweeps(trace[n].db, cuts, batch, faults), before)
            == if backlog <= |cuts| * batch then 0 else backlog - |cuts| * batch
  {
    RunKeeps(trace, actions, n);
    BacklogDrains(trace[n].db, before, batch, cuts, faults, Backlog(trace[n].db, before));
  }

  // ----- what a request has admitted stays, and what is over goes -----

  /** A run just admitted, and the row of its source, survive every sweep, whatever its cutoff and whatever fails. */
  lemma AdmittedStays(trace: seq<Tables>, actions: seq<Action>, n: nat, before: int, batch: nat, f: Faults)
    requires Run(trace, actions) && n < |actions| && actions[n].Admit?
    ensures var db := trace[n + 1].db; var after := AfterSweep(db, before, batch, f);
      && db.runs != [] && db.runs[|db.runs| - 1].artifact == Some(actions[n].artifact) && db.runs[|db.runs| - 1].createdAt == actions[n].now
      && db.runs[|db.runs| - 1] in after.runs
      && forall a | a in db.artifacts && a.id == actions[n].artifact :: a in after.artifacts
  {
    RunKeeps(trace, actions, n + 1);
    SweepSpares(trace[n + 1].db, before, batch, f);
  }

  lemma {:induction false} SourcesOnly(trace: seq<Tables>, actions: seq<Action>, n: nat)
    requires Run(trace, actions) && n < |trace|
    ensures forall a | a in trace[n].db.artifacts :: a.runSource
  {
    if n > 0 {
      SourcesOnly(trace, actions, n - 1);
    }
  }

  lemma {:induction false} FinishMany(trace: seq<Tables>, actions: seq<Action>, i: nat) returns (longer: seq<Tables>, more: seq<Action>)
    requires Run(trace, actions) && i <= |trace[|actions|].db.runs|
    ensures Run(longer, more) && |longer| >= |trace|
    ensures var s, t := trace[|actions|], longer[|more|];
      && t.db.artifacts == s.db.artifacts && t.db.objects == s.db.objects && |t.db.runs| == |s.db.runs|
      && forall j | 0 <= j < |s.db.runs| :: t.db.runs[j] == if j < i then s.db.runs[j].(finished := true) else s.db.runs[j]
  {
    if i == 0 {
      longer, more := trace, actions;
    } else {
      longer, more := FinishMany(trace, actions, i - 1);
      longer, more := longer + [After(longer[|more|], Finish(i - 1))], more + [Finish(i - 1)];
    }
  }

  /** The orphan loop of a sweep meets no fault. */
  ghost predicate OrphansSucceed(f: Faults, batch: nat) {
    !f.orphanListFails && f.orphansCanceledAt >= batch && forall k: nat :: f.orphanBlob(k).Succeeds? && f.orphanRow(k).Succeeds?
  }

  lemma {:induction false} RunsOnlyLeave(db: Db, listed: seq<ExpiredRun>, f: Faults, k: nat)
    requires k <= |listed|
    ensures var after := RunLoop(db, listed, f, k).db;
            (forall r | r in after.runs :: r in db.runs) && (forall a | a in after.artifacts :: a in db.artifacts)
            && |after.artifacts| <= |db.artifacts|
  {
    if k > 0 {
      RunsOnlyLeave(db, listed, f, k - 1);
    }
  }

  lemma RunsGone(db: Db, before: int, batch: nat, f: Faults)
    requires DistinctRuns(db.runs) && Unshared(db.runs) && |db.runs| <= batch && AllSucceed(f, batch)
    requires forall r | r in db.runs :: r.finished && r.createdAt < before
    ensures AfterRuns(db, before, batch, f).runs == [] && ReachesOrphans(db, before, batch, f)
  {
    FilterAll(Expired(before), db.runs);
    RunsTakeABatch(db, before, before, batch, f, |db.runs|);
    var listed, after := Listed(db, before, batch), AfterRuns(db, before, batch, f);
    RunsOnlyLeave(db, listed, f, Rounds(|listed|, f.canceledAt));
    FilterAll(Expired(before), after.runs);
  }

  lemma OrphanLeaves(db: Db, x: ArtifactRow)
    requires db.runs == []
    ensures var after := DeleteOrphan(db, x, Succeeds, Succeeds);
            after.runs == [] && forall a | a in after.artifacts :: a in db.artifacts && a.id != x.id
  {
  }

  lemma {:induction false} OrphansLeave(db: Db, listed: seq<ArtifactRow>, f: Faults, k: nat)
    requires k <= |listed| && db.runs == [] && forall j: nat :: f.orphanBlob(j).Succeeds? && f.orphanRow(j).Succeeds?
    ensures var after := OrphanLoop(db, listed, f, k).db;
            after.runs == [] && forall a | a in after.artifacts :: a in db.artifacts && forall j | 0 <= j < k :: a.id != listed[j].id
  {
    if k > 0 {
      OrphansLeave(db, listed, f, k - 1);
      OrphanLeaves(OrphanLoop(db, listed, f, k - 1).db, listed[k - 1]);
    }
  }

  lemma OrphansGone(db: Db, before: int, batch: nat, f: Faults)
    requires db.runs == [] && |db.artifacts| <= batch && OrphansSucceed(f, batch)
    requires forall a | a in db.artifacts :: a.runSource && a.createdAt < before
    ensures AfterOrphans(db, before, batch, f).artifacts == []
  {
    var listed, after := ListOrphans(db, before, batch), AfterOrphans(db, before, batch, f);
    FilterAll(Orphaned(db.runs, before), db.artifacts);
    assert listed == Sort(ArtifactBefore, db.artifacts);
    SameMembers(db.artifacts, listed);
    OrphansLeave(db, listed, f, Rounds(|listed|, f.orphansCanceledAt));
    var first := if after.artifacts == [] then ArtifactRow(0, 0, true, "") else after.artifacts[0];
    assert after.artifacts != [] ==> first in after.artifacts && first in listed;
    if after.artifacts != [] {
      assert false;
    }
  }

  /** A sweep without faults that is large enough and late enough empties tables in which every run is over. */
  lemma SweepEmpties(db: Db, before: int, batch: nat, f: Faults)
    requires DistinctRuns(db.runs) && Unshared(db.runs) && DistinctArtifacts(db.artifacts)
    requires |db.runs| <= batch && |db.artifacts| <= batch && AllSucceed(f, batch) && OrphansSucceed(f, batch)
    requires forall r | r in db.runs :: r.finished && r.createdAt < before
    requires forall a | a in db.artifacts :: a.runSource && a.createdAt < before
    ensures var after := AfterSweep(db, before, batch, f);
      && after.runs == [] && after.artifacts == []
      && forall a | a in db.artifacts && a.key != "" :: a.key !in after.objects
  {
    RunsGone(db, before, batch, f);
    var listed, middle := Listed(db, before, batch), AfterRuns(db, before, batch, f);
    RunsOnlyLeave(db, listed, f, Rounds(|listed|, f.canceledAt));
    OrphansGone(middle, before, batch, f);
    var orphans := ListOrphans(middle, before, batch);
    OrphanLoopKeepsRuns(middle, orphans, f, Rounds(|orphans|, f.orphansCanceledAt));
    SweepStrandsNothing(db, before, batch, f);
  }

  /**
   * From every reachable state: once its runs have finished, one large and late enough sweep without faults leaves no
   * run, no artifact row, and no object that had a row.
   */
  lemma EverythingGoes(trace: seq<Tables>, actions: seq<Action>, before: int, batch: nat, f: Faults) returns (longer: seq<Tables>, more: seq<Action>)
    requires Run(trace, actions) && AllSucceed(f, batch) && OrphansSucceed(f, batch)
    requires var db := trace[|actions|].db;
      && |db.runs| <= batch && |db.artifacts| <= batch
      && (forall r | r in db.runs :: r.createdAt < before) && (forall a | a in db.artifacts :: a.createdAt < before)
    ensures Run(longer, more) && longer[|more|].db.artifacts == trace[|actions|].db.artifacts
    ensures var after := AfterSweep(longer[|more|].db, before, batch, f);
      && after.runs == [] && after.artifacts == []
      && forall a | a in trace[|actions|].db.artifacts && a.key != "" :: a.key !in after.objects
  {
    longer, more := FinishMany(trace, actions, |trace[|actions|].db.runs|);
    RunKeeps(longer, more, |more|);
    SourcesOnly(longer, more, |more|);
    SweepEmpties(longer[|more|].db, before, batch, f);
  }
}
