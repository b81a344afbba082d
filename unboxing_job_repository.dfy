/**
 * The `unboxing_job` table and its repository (UnboxingJobRepository.kt).
 * The table is a map from job id to row; `unboxed_files` is stored as JSON,
 * whose round trip is taken to be the identity.
 */
module UnboxingJobStore {
  import opened Common
  import opened RawMediaKeys
  import opened RawMediaDomain
  import opened Db

  /** One row: every column except the `id` primary key. */
  datatype JobRow = JobRow(
    rawMediaId: Uuid,
    rawMediaName: string,
    status: Status,
    startedAt: Instant,
    completedAt: Option<Instant>,
    version: int,
    unboxedFiles: Option<UnboxedFiles>)

  type JobTable = map<Uuid, JobRow>

  /** The row `insert` writes: every field, the job's own version included. */
  function ToRow(j: UnboxingJob): JobRow
  {
    JobRow(j.rawMediaKey.id, j.rawMediaKey.name, j.status, j.startedAt, j.completedAt, j.version, j.unboxedFiles)
  }

  /** `mapRow`: the job a stored row reads back as. */
  function MapRow(id: Uuid, row: JobRow): (j: UnboxingJob)
    ensures ToRow(j) == row && j.id == id
  {
    UnboxingJob(id, RawMediaKey(row.rawMediaId, row.rawMediaName), row.status, row.startedAt,
                row.completedAt, row.version, row.unboxedFiles)
  }

  /** `findById`: the stored job with that id, or null. */
  function JobById(t: JobTable, id: Uuid): (r: Option<UnboxingJob>)
    ensures r.Some? <==> id in t
    ensures r.Some? ==> r.value.id == id && ToRow(r.value) == t[id]
  {
    if id in t then Some(MapRow(id, t[id])) else None
  }

  /**
   * `insert`: `fault` is a failure the database raises on its own (a lost
   * connection, say); an id already present violates the primary key.
   */
  function InsertOutcome(t: JobTable, j: UnboxingJob, fault: Option<StoreFailure>)
    : (JobTable, Result<UnboxingJob, StoreFailure>)
  {
    if fault.Some? then (t, Failure(fault.value))
    else if j.id in t then (t, Failure(DUPLICATE_KEY))
    else (t[j.id := ToRow(j)], Success(j))
  }

  /** `update`'s `WHERE id = ? AND version = ?`. */
  predicate VersionMatches(t: JobTable, j: UnboxingJob)
  {
    j.id in t && t[j.id].version == j.version
  }

  /**
   * `update`: on a match the row takes the job's status, start, completion
   * and files and the next version; the media columns are not in the SET list.
   */
  function UpdateOutcome(t: JobTable, j: UnboxingJob)
    : (JobTable, Result<UnboxingJob, OptimisticLockingException>)
  {
    var next := j.(version := j.version + 1);
    if VersionMatches(t, j) then
      var row := t[j.id].(status := next.status, startedAt := j.startedAt, completedAt := next.completedAt,
                          version := next.version, unboxedFiles := next.unboxedFiles);
      (t[j.id := row], Success(next))
    else (t, Failure(OptimisticLockingException("UnboxingJob", j.id, j.version, next.version)))
  }

  /** The `unboxing_job` table behind a `JdbcTemplate`. */
  class UnboxingJobRepository {
    var rows: JobTable

    constructor()
      ensures rows == map[]
    {
      rows := map[];
    }

    method Insert(unboxingJob: UnboxingJob, fault: Option<StoreFailure>) returns (r: Result<UnboxingJob, StoreFailure>)
      modifies this
      ensures (rows, r) == InsertOutcome(old(rows), unboxingJob, fault)
    {
      if fault.Some? {
        return Failure(fault.value);
      }
      if unboxingJob.id in rows {
        return Failure(DUPLICATE_KEY);
      }
      rows := rows[unboxingJob.id := ToRow(unboxingJob)];
      return Success(unboxingJob);
    }

    method Update(unboxingJob: UnboxingJob) returns (r: Result<UnboxingJob, OptimisticLockingException>)
      modifies this
      ensures (rows, r) == UpdateOutcome(old(rows), unboxingJob)
    {
      var updatedJob := unboxingJob.(version := unboxingJob.version + 1);
      var rowsAffected := 0;
      if unboxingJob.id in rows && rows[unboxingJob.id].version == unboxingJob.version {
        var row := rows[unboxingJob.id];
        rows := rows[unboxingJob.id := row.(status := updatedJob.status, startedAt := unboxingJob.startedAt,
                                            completedAt := updatedJob.completedAt, version := updatedJob.version,
                                            unboxedFiles := updatedJob.unboxedFiles)];
        rowsAffected := 1;
      }
      if rowsAffected == 0 {
        return Failure(OptimisticLockingException("UnboxingJob", unboxingJob.id, unboxingJob.version, updatedJob.version));
      }
      return Success(updatedJob);
    }

    function FindById(id: Uuid): (r: Option<UnboxingJob>)
      reads this
      ensures r.Some? <==> id in rows
      ensures r.Some? ==> r.value.id == id && ToRow(r.value) == rows[id]
    {
      JobById(rows, id)
    }
  }

  // ---------------------------------------------------------------------
  // Lemmas

  /** A stored row reads back as the job that was written. */
  lemma MapRowToRow(j: UnboxingJob)
    ensures MapRow(j.id, ToRow(j)) == j
  {
  }

  /**
   * `insert` succeeds exactly when the database raises nothing and the id is
   * new; it then stores every field including the job's own version, returns
   * its argument, and `findById` reads the job back. Other rows are untouched.
   */
  lemma InsertThenFind(t: JobTable, j: UnboxingJob, fault: Option<StoreFailure>)
    ensures var (t', r) := InsertOutcome(t, j, fault);
      (r.Success? <==> fault.None? && j.id !in t) &&
      (r.Success? ==> r.value == j && t'[j.id].version == j.version && JobById(t', j.id) == Some(j)) &&
      (r.Failure? ==> t' == t) &&
      (forall id :: id != j.id ==> JobById(t', id) == JobById(t, id))
  {
    var (t', r) := InsertOutcome(t, j, fault);
    if r.Success? {
      MapRowToRow(j);
    }
  }

  /**
   * `update` is a compare-and-swap on the version: it succeeds exactly when
   * the stored version equals the job's, then bumps the stored version by
   * one and returns the job with that version; otherwise it raises the
   * conflict naming both versions and writes nothing.
   */
  lemma UpdateIsCompareAndSwap(t: JobTable, j: UnboxingJob)
    ensures var (t', r) := UpdateOutcome(t, j);
      (r.Success? <==> j.id in t && t[j.id].version == j.version) &&
      (r.Success? ==> r.value == j.(version := j.version + 1) &&
                      j.id in t' && t'[j.id].version == t[j.id].version + 1) &&
      (r.Failure? ==> t' == t && r.error == OptimisticLockingException("UnboxingJob", j.id, j.version, j.version + 1)) &&
      t'.Keys == t.Keys &&
      (forall id :: id in t && id != j.id ==> t'[id] == t[id])
  {
  }

  /**
   * `update` never moves a job to another media: the stored media id and
   * name stay as inserted, so `findById` returns the written job with its
   * new version only when its media key agrees with the stored one.
   */
  lemma UpdateKeepsMediaReference(t: JobTable, j: UnboxingJob)
    requires VersionMatches(t, j)
    ensures var (t', r) := UpdateOutcome(t, j);
      t'[j.id].rawMediaId == t[j.id].rawMediaId && t'[j.id].rawMediaName == t[j.id].rawMediaName &&
      JobById(t', j.id) == Some(r.value.(rawMediaKey := RawMediaKey(t[j.id].rawMediaId, t[j.id].rawMediaName))) &&
      (JobById(t', j.id) == Some(r.value) <==> j.rawMediaKey == MapRow(j.id, t[j.id]).rawMediaKey)
  {
    var (t', r) := UpdateOutcome(t, j);
    var stored := RawMediaKey(t[j.id].rawMediaId, t[j.id].rawMediaName);
    assert MapRow(j.id, t'[j.id]) == r.value.(rawMediaKey := stored);
  }

  /** Two writers holding the same version: the first update wins and the second conflicts. */
  lemma SecondUpdateConflicts(t: JobTable, j1: UnboxingJob, j2: UnboxingJob)
    requires j1.id == j2.id && j1.version == j2.version
    requires UpdateOutcome(t, j1).1.Success?
    ensures UpdateOutcome(UpdateOutcome(t, j1).0, j2).1.Failure?
  {
  }
}
