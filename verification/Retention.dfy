/**
 * internal/submission/run_retention.go and DeleteExpiredRun: removing finished runs and their
 * source objects. Any call may fail, and a failed call may still have taken effect.
 */
module Retention {
  import opened Wrappers
  import opened Sorting

  datatype RunRow = RunRow(id: int, createdAt: int, finished: bool, artifact: Option<int>)

  /** `runSource` is owner_type = 'run' and kind = 'source'. */
  datatype ArtifactRow = ArtifactRow(id: int, createdAt: int, runSource: bool, key: string)

  datatype Db = Db(runs: seq<RunRow>, artifacts: seq<ArtifactRow>, objects: set<string>)

  /** A failed call either did nothing or did its work and lost the answer. */
  datatype Outcome = Succeeds | FailsBefore | FailsAfter

  // ----- the queries -----

  predicate RunBefore(a: RunRow, b: RunRow) {
    if a.createdAt != b.createdAt then a.createdAt < b.createdAt else a.id <= b.id
  }

  predicate ArtifactBefore(a: ArtifactRow, b: ArtifactRow) {
    if a.createdAt != b.createdAt then a.createdAt < b.createdAt else a.id <= b.id
  }

  function Expired(before: int): RunRow -> bool {
    (r: RunRow) => r.finished && r.createdAt < before
  }

  predicate Referenced(runs: seq<RunRow>, artifact: int) {
    exists i :: 0 <= i < |runs| && runs[i].artifact == Some(artifact)
  }

  function Orphaned(runs: seq<RunRow>, before: int): ArtifactRow -> bool {
    (a: ArtifactRow) => a.runSource && a.createdAt < before && !Referenced(runs, a.id)
  }

  function ListExpired(db: Db, before: int, limit: nat): seq<RunRow> {
    Take(Sort(RunBefore, Filter(Expired(before), db.runs)), limit)
  }

  function ListOrphans(db: Db, before: int, limit: nat): seq<ArtifactRow> {
    Take(Sort(ArtifactBefore, Filter(Orphaned(db.runs, before), db.artifacts)), limit)
  }

  lemma RunBeforeIsPreorder()
    ensures Preorder(RunBefore)
  {
  }

  lemma ArtifactBeforeIsPreorder()
    ensures Preorder(ArtifactBefore)
  {
  }

  /** The listed runs are finished and older than the limit, oldest first; one not listed comes after a full list. */
  lemma ExpiredAreOldest(db: Db, before: int, limit: nat)
    ensures var listed := ListExpired(db, before, limit);
      && |listed| <= limit
      && (forall i | 0 <= i < |listed| :: listed[i] in db.runs && listed[i].finished && listed[i].createdAt < before)
      && (forall i, j | 0 <= i < j < |listed| ::
            listed[i].createdAt < listed[j].createdAt || (listed[i].createdAt == listed[j].createdAt && listed[i].id <= listed[j].id))
      && (forall r | r in db.runs && r.finished && r.createdAt < before && r !in listed ::
            && |listed| == limit
            && forall i | 0 <= i < limit ::
                 listed[i].createdAt < r.createdAt || (listed[i].createdAt == r.createdAt && listed[i].id <= r.id))
  {
    RunBeforeIsPreorder();
    FirstSelected(RunBefore, Expired(before), db.runs, limit);
  }

  /** Likewise for run sources that no run refers to. */
  lemma OrphansAreOldest(db: Db, before: int, limit: nat)
    ensures var listed := ListOrphans(db, before, limit);
      && |listed| <= limit
      && (forall i | 0 <= i < |listed| :: listed[i] in db.artifacts && listed[i].runSource && listed[i].createdAt < before
                                          && forall r | r in db.runs :: r.artifact != Some(listed[i].id))
      && (forall i, j | 0 <= i < j < |listed| ::
            listed[i].createdAt < listed[j].createdAt || (listed[i].createdAt == listed[j].createdAt && listed[i].id <= listed[j].id))
      && (forall a | a in db.artifacts && a.runSource && a.createdAt < before && a !in listed
                     && (forall r | r in db.runs :: r.artifact != Some(a.id)) ::
            && |listed| == limit
            && forall i | 0 <= i < limit ::
                 listed[i].createdAt < a.createdAt || (listed[i].createdAt == a.createdAt && listed[i].id <= a.id))
  {
    ArtifactBeforeIsPreorder();
    FirstSelected(ArtifactBefore, Orphaned(db.runs, before), db.artifacts, limit);
  }

  /** The storage key joined to a run, empty without an artifact row. */
  function KeyOf(artifacts: seq<ArtifactRow>, id: int): string {
    if artifacts == [] then "" else if artifacts[0].id == id then artifacts[0].key else KeyOf(artifacts[1..], id)
  }

  datatype ExpiredRun = ExpiredRun(run: int, artifact: Option<int>, key: string)

  function Record(artifacts: seq<ArtifactRow>): RunRow -> ExpiredRun {
    (r: RunRow) => ExpiredRun(r.id, r.artifact, if r.artifact.None? then "" else KeyOf(artifacts, r.artifact.value))
  }

  // ----- the deletions -----

  function OtherRun(id: int): RunRow -> bool {
    (r: RunRow) => r.id != id
  }

  function OtherArtifact(id: int): ArtifactRow -> bool {
    (a: ArtifactRow) => a.id != id
  }

  function DeleteObject(db: Db, key: string, o: Outcome): Db {
    if o.FailsBefore? then db else db.(objects := db.objects - {key})
  }

  /** Whether the transaction of DeleteExpiredRun can commit: the foreign key refuses a shared artifact. */
  predicate CanDeleteRun(db: Db, x: ExpiredRun) {
    x.artifact.None? || !Referenced(Filter(OtherRun(x.run), db.runs), x.artifact.value)
  }

  function DeleteRows(db: Db, x: ExpiredRun, o: Outcome): Db {
    if o.FailsBefore? || !CanDeleteRun(db, x) then db
    else
      db.(runs := Filter(OtherRun(x.run), db.runs),
          artifacts := match x.artifact case None => db.artifacts case Some(a) => Filter(OtherArtifact(a), db.artifacts))
  }

  /** deleteRun: the object first, the rows only if that succeeded. */
  function DeleteRun(db: Db, x: ExpiredRun, blob: Outcome, rows: Outcome): Db {
    if x.key != "" && !blob.Succeeds? then DeleteObject(db, x.key, blob)
    else DeleteRows(if x.key == "" then db else DeleteObject(db, x.key, blob), x, rows)
  }

  predicate DeleteRunSucceeds(db: Db, x: ExpiredRun, blob: Outcome, rows: Outcome) {
    (x.key == "" || blob.Succeeds?) && rows.Succeeds? && CanDeleteRun(db, x)
  }

  function DeleteArtifact(db: Db, id: int, o: Outcome): Db {
    if o.FailsBefore? || Referenced(db.runs, id) then db else db.(artifacts := Filter(OtherArtifact(id), db.artifacts))
  }

  function DeleteOrphan(db: Db, a: ArtifactRow, blob: Outcome, row: Outcome): Db {
    if a.key != "" && !blob.Succeeds? then DeleteObject(db, a.key, blob)
    else DeleteArtifact(if a.key == "" then db else DeleteObject(db, a.key, blob), a.id, row)
  }

  predicate DeleteOrphanSucceeds(db: Db, a: ArtifactRow, blob: Outcome, row: Outcome) {
    (a.key == "" || blob.Succeeds?) && row.Succeeds? && !Referenced(db.runs, a.id)
  }

  // ----- no object is stranded -----

  predicate HasRow(artifacts: seq<ArtifactRow>, key: string) {
    exists i :: 0 <= i < |artifacts| && artifacts[i].key == key
  }

  /** An object that had an artifact row still has one or is gone; no object appears. */
  ghost predicate NoneStranded(before: Db, after: Db) {
    && after.objects <= before.objects
    && forall key | key in after.objects && key != "" && HasRow(before.artifacts, key) :: HasRow(after.artifacts, key)
  }

  /** Every run's artifact row exists. */
  ghost predicate Linked(db: Db) {
    forall i | 0 <= i < |db.runs| && db.runs[i].artifact.Some? ::
      exists j :: 0 <= j < |db.artifacts| && db.artifacts[j].id == db.runs[i].artifact.value
  }

  ghost predicate DistinctArtifacts(artifacts: seq<ArtifactRow>) {
    forall i, j | 0 <= i < j < |artifacts| :: artifacts[i].id != artifacts[j].id
  }

  /** The listed key is still the key of the artifact row, if that row is still there. */
  ghost predicate KeyKnown(artifacts: seq<ArtifactRow>, id: int, key: string) {
    forall i | 0 <= i < |artifacts| && artifacts[i].id == id :: artifacts[i].key == key
  }

  lemma FilteredFrom<T(!new)>(keep: T -> bool, s: seq<T>, k: nat) returns (i: nat)
    requires k < |Filter(keep, s)|
    ensures i < |s| && s[i] == Filter(keep, s)[k] && keep(s[i])
  {
    assert Filter(keep, s)[k] in Filter(keep, s);
    i :| 0 <= i < |s| && s[i] == Filter(keep, s)[k];
  }

  /** Dropping the row of a key that no object has strands nothing. */
  lemma DropRow(artifacts: seq<ArtifactRow>, id: int, key: string, other: string)
    requires KeyKnown(artifacts, id, key) && other != key && HasRow(artifacts, other)
    ensures HasRow(Filter(OtherArtifact(id), artifacts), other)
  {
    var i :| 0 <= i < |artifacts| && artifacts[i].key == other;
    assert artifacts[i] in Filter(OtherArtifact(id), artifacts);
  }

  lemma DeleteRunStrandsNothing(db: Db, x: ExpiredRun, blob: Outcome, rows: Outcome)
    requires x.artifact.Some? ==> KeyKnown(db.artifacts, x.artifact.value, x.key)
    ensures NoneStranded(db, DeleteRun(db, x, blob, rows))
  {
    var after := DeleteRun(db, x, blob, rows);
    forall key | key in after.objects && key != "" && HasRow(db.artifacts, key) ensures HasRow(after.artifacts, key) {
      if after.artifacts != db.artifacts {
        DropRow(db.artifacts, x.artifact.value, x.key, key);
      }
    }
  }

  lemma DeleteOrphanStrandsNothing(db: Db, a: ArtifactRow, blob: Outcome, row: Outcome)
    requires KeyKnown(db.artifacts, a.id, a.key)
    ensures NoneStranded(db, DeleteOrphan(db, a, blob, row))
  {
    var after := DeleteOrphan(db, a, blob, row);
    forall key | key in after.objects && key != "" && HasRow(db.artifacts, key) ensures HasRow(after.artifacts, key) {
      if after.artifacts != db.artifacts {
        DropRow(db.artifacts, a.id, a.key, key);
      }
    }
  }

  lemma NoneStrandedTwice(a: Db, b: Db, c: Db)
    requires NoneStranded(a, b) && NoneStranded(b, c)
    ensures NoneStranded(a, c)
  {
  }

  /** Dropping an artifact that no remaining run refers to keeps the rest linked. */
  lemma LinkedWithout(db: Db, runs: seq<RunRow>, id: int)
    requires Linked(db) && (forall i | 0 <= i < |runs| :: runs[i] in db.runs) && !Referenced(runs, id)
    ensures Linked(Db(runs, Filter(OtherArtifact(id), db.artifacts), db.objects))
  {
    var artifacts := Filter(OtherArtifact(id), db.artifacts);
    forall i | 0 <= i < |runs| && runs[i].artifact.Some?
      ensures exists j :: 0 <= j < |artifacts| && artifacts[j].id == runs[i].artifact.value
    {
      var n :| 0 <= n < |db.runs| && db.runs[n] == runs[i];
      var j :| 0 <= j < |db.artifacts| && db.artifacts[j].id == db.runs[n].artifact.value;
      assert db.artifacts[j] in artifacts;
    }
  }

  lemma RunsSubset(db: Db, runs: seq<RunRow>)
    requires Linked(db) && forall i | 0 <= i < |runs| :: runs[i] in db.runs
    ensures Linked(db.(runs := runs))
  {
    forall i | 0 <= i < |runs| && runs[i].artifact.Some?
      ensures exists j :: 0 <= j < |db.artifacts| && db.artifacts[j].id == runs[i].artifact.value
    {
      var n :| 0 <= n < |db.runs| && db.runs[n] == runs[i];
    }
  }

  lemma DeleteRunKeepsLinks(db: Db, x: ExpiredRun, blob: Outcome, rows: Outcome)
    requires Linked(db)
    ensures Linked(DeleteRun(db, x, blob, rows))
  {
    var runs := Filter(OtherRun(x.run), db.runs);
    if CanDeleteRun(db, x) {
      if x.artifact.None? {
        RunsSubset(db, runs);
      } else {
        LinkedWithout(db, runs, x.artifact.value);
      }
    }
  }

  lemma DeleteOrphanKeepsLinks(db: Db, a: ArtifactRow, blob: Outcome, row: Outcome)
    requires Linked(db)
    ensures Linked(DeleteOrphan(db, a, blob, row))
  {
    if !Referenced(db.runs, a.id) {
      LinkedWithout(db, db.runs, a.id);
    }
  }

  /** Artifact rows are only ever removed. */
  lemma KeyStaysKnown(artifacts: seq<ArtifactRow>, id: int, key: string, keep: ArtifactRow -> bool)
    requires KeyKnown(artifacts, id, key)
    ensures KeyKnown(Filter(keep, artifacts), id, key)
  {
    var rest := Filter(keep, artifacts);
    forall i | 0 <= i < |rest| && rest[i].id == id ensures rest[i].key == key {
      var j := FilteredFrom(keep, artifacts, i);
    }
  }

  lemma {:induction false} KeyOfIsKnown(artifacts: seq<ArtifactRow>, id: int)
    requires DistinctArtifacts(artifacts)
    ensures KeyKnown(artifacts, id, KeyOf(artifacts, id))
  {
    if artifacts != [] && artifacts[0].id != id {
      KeyOfIsKnown(artifacts[1..], id);
    }
  }
}
