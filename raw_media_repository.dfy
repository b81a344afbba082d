/**
 * The `raw_media` table and its repository (RawMediaRepository.kt). Rows
 * are keyed by the key's UUID; `findAll` joins each row with the STARTED
 * jobs of the `unboxing_job` table.
 */
module RawMediaStore {
  import opened Common
  import opened RawMediaKeys
  import opened RawMediaDomain
  import opened Db
  import Jobs = UnboxingJobStore

  /** One row: every column except the `id` primary key. */
  datatype MediaRow = MediaRow(name: string, unboxed: bool, version: int)

  type MediaTable = map<Uuid, MediaRow>

  /**
   * `insert`: writes `(id, name, unboxed)` with version 0 whatever the
   * argument carries, and returns the argument. `fault` is a failure the
   * database raises on its own; an id already present violates the primary key.
   */
  function InsertOutcome(t: MediaTable, m: RawMedia, fault: Option<StoreFailure>)
    : (MediaTable, Result<RawMedia, StoreFailure>)
  {
    if fault.Some? then (t, Failure(fault.value))
    else if m.key.id in t then (t, Failure(DUPLICATE_KEY))
    else (t[m.key.id := MediaRow(m.key.name, m.unboxed, 0)], Success(m))
  }

  /** `update`'s `WHERE id = ? AND version = ?`. */
  predicate VersionMatches(t: MediaTable, m: RawMedia)
  {
    m.key.id in t && t[m.key.id].version == m.version
  }

  /** `update`: `SET name, unboxed, version + 1` on a match, the conflict otherwise. */
  function UpdateOutcome(t: MediaTable, m: RawMedia)
    : (MediaTable, Result<RawMedia, OptimisticLockingException>)
  {
    var withHigherVersion := m.(version := m.version + 1);
    if VersionMatches(t, m) then
      (t[m.key.id := MediaRow(m.key.name, m.unboxed, withHigherVersion.version)], Success(withHigherVersion))
    else (t, Failure(OptimisticLockingException("RawMedia", m.key.id, m.version, withHigherVersion.version)))
  }

  /** `rowMapper`: the media row, and the joined job built with the media's own key. */
  function RowMapper(id: Uuid, row: MediaRow, job: Option<(Uuid, Jobs.JobRow)>): (m: RawMedia)
    ensures m.key == RawMediaKey(id, row.name) && m.unboxed == row.unboxed && m.version == row.version
    ensures m.pendingUnboxingJob.Some? <==> job.Some?
    ensures job.Some? ==> m.pendingUnboxingJob.value.id == job.value.0 &&
                          m.pendingUnboxingJob.value.rawMediaKey == m.key &&
                          m.pendingUnboxingJob.value.status == job.value.1.status
  {
    var key := RawMediaKey(id, row.name);
    var pending := match job
      case None => None
      case Some((jobId, r)) =>
        Some(UnboxingJob(jobId, key, r.status, r.startedAt, r.completedAt, r.version, r.unboxedFiles));
    RawMedia(key, row.unboxed, row.version, pending)
  }

  /** The job rows `LEFT JOIN ... ON m.id = uj.raw_media_id AND uj.status = 'STARTED'` matches. */
  predicate JoinsStarted(id: Uuid, jobId: Uuid, jobs: Jobs.JobTable)
  {
    jobId in jobs && jobs[jobId].rawMediaId == id && jobs[jobId].status == STARTED
  }

  /**
   * `findAll` without paging: one result per matching STARTED job, and one
   * with no pending job for a media row that matches none.
   */
  function FindAllRows(media: MediaTable, jobs: Jobs.JobTable): set<RawMedia>
  {
    (set id, jobId | id in media && jobId in jobs && JoinsStarted(id, jobId, jobs) :: RowMapper(id, media[id], Some((jobId, jobs[jobId]))))
    + (set id | id in media && (forall jobId | jobId in jobs :: !JoinsStarted(id, jobId, jobs)) :: RowMapper(id, media[id], None))
  }

  /** The `raw_media` table behind a `JdbcTemplate`. */
  class RawMediaRepository {
    var rows: MediaTable

    constructor()
      ensures rows == map[]
    {
      rows := map[];
    }

    method Insert(rawMedia: RawMedia, fault: Option<StoreFailure>) returns (r: Result<RawMedia, StoreFailure>)
      modifies this
      ensures (rows, r) == InsertOutcome(old(rows), rawMedia, fault)
    {
      if fault.Some? {
        return Failure(fault.value);
      }
      if rawMedia.key.id in rows {
        return Failure(DUPLICATE_KEY);
      }
      rows := rows[rawMedia.key.id := MediaRow(rawMedia.key.name, rawMedia.unboxed, 0)];
      return Success(rawMedia);
    }

    method Update(rawMedia: RawMedia) returns (r: Result<RawMedia, OptimisticLockingException>)
      modifies this
      ensures (rows, r) == UpdateOutcome(old(rows), rawMedia)
    {
      var withHigherVersion := rawMedia.(version := rawMedia.version + 1);
      var rowsAffected := 0;
      if rawMedia.key.id in rows && rows[rawMedia.key.id].version == rawMedia.version {
        rows := rows[rawMedia.key.id := MediaRow(withHigherVersion.key.name, withHigherVersion.unboxed,
                                                 withHigherVersion.version)];
        rowsAffected := 1;
      }
      if rowsAffected == 0 {
        return Failure(OptimisticLockingException("RawMedia", rawMedia.key.id, rawMedia.version,
                                                  withHigherVersion.version));
      }
      return Success(withHigherVersion);
    }

    /** `findAll` over this table and the job table. */
    function FindAll(jobRepository: Jobs.UnboxingJobRepository): (r: set<RawMedia>)
      reads this, jobRepository
      ensures forall m | m in r :: m.pendingUnboxingJob.None? || m.pendingUnboxingJob.value.status == STARTED
    {
      FindAllStarted(rows, jobRepository.rows);
      FindAllRows(rows, jobRepository.rows)
    }
  }

  // ---------------------------------------------------------------------
  // Lemmas

  /**
   * `insert` succeeds exactly when the database raises nothing and the id is
   * new; it stores version 0 whatever the argument's version and returns the
   * argument itself. A failed insert writes nothing.
   */
  lemma InsertStoresVersionZero(t: MediaTable, m: RawMedia, fault: Option<StoreFailure>)
    ensures var (t', r) := InsertOutcome(t, m, fault);
      (r.Success? <==> fault.None? && m.key.id !in t) &&
      (r.Success? ==> r.value == m && t'[m.key.id] == MediaRow(m.key.name, m.unboxed, 0)) &&
      (r.Failure? ==> t' == t)
  {
  }

  /**
   * After an insert, an update succeeds exactly when it carries version 0:
   * the media that `insert` returned updates only if it was built at version 0.
   */
  lemma InsertThenUpdate(t: MediaTable, m: RawMedia, m': RawMedia)
    requires InsertOutcome(t, m, None).1.Success?
    requires m'.key.id == m.key.id
    ensures UpdateOutcome(InsertOutcome(t, m, None).0, m').1.Success? <==> m'.version == 0
  {
  }

  /**
   * `update` is a compare-and-swap on the version: it succeeds exactly when
   * the stored row's version equals the argument's, stores the argument's
   * name and flag with the version bumped by one and returns the argument
   * with that version; otherwise it raises the conflict and writes nothing.
   * Only the row with that id changes.
   */
  lemma UpdateIsCompareAndSwap(t: MediaTable, m: RawMedia)
    ensures var (t', r) := UpdateOutcome(t, m);
      (r.Success? <==> m.key.id in t && t[m.key.id].version == m.version) &&
      (r.Success? ==> r.value == m.(version := m.version + 1) &&
                      t'[m.key.id] == MediaRow(m.key.name, m.unboxed, t[m.key.id].version + 1)) &&
      (r.Failure? ==> t' == t && r.error == OptimisticLockingException("RawMedia", m.key.id, m.version, m.version + 1)) &&
      t'.Keys == t.Keys &&
      (forall id :: id in t && id != m.key.id ==> t'[id] == t[id])
  {
  }

  /** Two writers holding the same version: the first update wins and the second conflicts. */
  lemma SecondUpdateConflicts(t: MediaTable, m1: RawMedia, m2: RawMedia)
    requires m1.key.id == m2.key.id && m1.version == m2.version
    requires UpdateOutcome(t, m1).1.Success?
    ensures UpdateOutcome(UpdateOutcome(t, m1).0, m2).1.Failure?
  {
  }

  /**
   * `findAll` attaches only STARTED jobs, and each attached job belongs to
   * the media it is attached to.
   */
  lemma FindAllStarted(media: MediaTable, jobs: Jobs.JobTable)
    ensures forall m | m in FindAllRows(media, jobs) ::
      m.key.id in media &&
      (m.pendingUnboxingJob.None? ||
       (m.pendingUnboxingJob.value.status == STARTED && m.pendingUnboxingJob.value.rawMediaKey == m.key &&
        JoinsStarted(m.key.id, m.pendingUnboxingJob.value.id, jobs)))
  {
  }

  /**
   * `findAll` lists every media row: a row with no STARTED job appears with
   * no pending job, and a row with one appears once per STARTED job.
   */
  lemma FindAllCoversEveryRow(media: MediaTable, jobs: Jobs.JobTable, id: Uuid)
    requires id in media
    ensures (forall jobId :: !JoinsStarted(id, jobId, jobs)) ==>
      RowMapper(id, media[id], None) in FindAllRows(media, jobs)
    ensures forall jobId | JoinsStarted(id, jobId, jobs) ::
      RowMapper(id, media[id], Some((jobId, jobs[jobId]))) in FindAllRows(media, jobs)
  {
  }
}
