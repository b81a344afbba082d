/**
 * The onboarding domain entities of RawMedia.kt: a raw media file, the
 * unboxing job that splits its container into streams, and the two
 * transitions between them.
 *
 * `RawMedia` carries the optional `pendingUnboxingJob` that the repository's
 * row mapper and the domain tests construct it with. `completeUnboxing` has
 * no body among the sources; it is modelled after RawMediaTest.kt. The clock
 * is an integer instant passed by the caller.
 */
module RawMediaDomain {
  import opened Common
  import opened RawMediaKeys

  const S3_BUCKET_NAME: string := "raw"
  const NEW_UPLOADS_S3_KEY_PREFIX: string := "uploaded"
  const UNBOXED_S3_KEY_PREFIX: string := "unboxed"

  /** `java.time.Instant`, as a count of clock ticks. */
  type Instant = int

  datatype Status = STARTED | FAILED_START | FAILED | COMPLETED

  datatype Video = Video(filename: string, codec: string, width: int, height: int)
  datatype Audio = Audio(filename: string, codec: string, lang: string)
  datatype Subtitles = Subtitles(filename: string, codec: string, lang: string)

  datatype UnboxedFiles = UnboxedFiles(videos: seq<Video>, audio: seq<Audio>, subtitles: seq<Subtitles>)

  datatype UnboxingJob = UnboxingJob(
    id: Uuid,
    rawMediaKey: RawMediaKey,
    status: Status,
    startedAt: Instant,
    completedAt: Option<Instant>,
    version: int,
    unboxedFiles: Option<UnboxedFiles>)

  datatype RawMedia = RawMedia(
    key: RawMediaKey,
    unboxed: bool,
    version: int,
    pendingUnboxingJob: Option<UnboxingJob>)

  /** The message the unboxing worker consumes. */
  datatype BeginUnboxingJobEvent = BeginUnboxingJobEvent(jobId: Uuid, source: string, out: string)

  /** A `java.lang.IllegalStateException` raised by a `check`. */
  datatype IllegalStateException = IllegalStateException(message: string)

  /** The three ways `completeUnboxing` refuses, in the order it checks them. */
  datatype CompletionError = AlreadyUnboxed | NoPendingJob | JobNotStarted
  {
    /** The text each refusal's IllegalStateException message contains. */
    function Message(): string
    {
      match this
      case AlreadyUnboxed => "already unboxed"
      case NoPendingJob => "Media does not have associated pending job"
      case JobNotStarted => "Job is not marked as started"
    }
  }

  /** `rawFileS3Key`: where the upload landed, `<bucket>/<uploads prefix>/<id>_<name>`. */
  function RawFileS3Key(m: RawMedia): (r: string)
    ensures r == "raw/uploaded/" + ToString(m.key)
  {
    S3_BUCKET_NAME + "/" + NEW_UPLOADS_S3_KEY_PREFIX + "/" + UuidToString(m.key.id) + "_" + m.key.name
  }

  /** `unboxedFilesS3KeyPrefix`: where the worker writes the streams, `<bucket>/<unboxed prefix>/<id>_<name>`. */
  function UnboxedFilesS3KeyPrefix(m: RawMedia): (r: string)
    ensures r == "raw/unboxed/" + ToString(m.key)
  {
    S3_BUCKET_NAME + "/" + UNBOXED_S3_KEY_PREFIX + "/" + UuidToString(m.key.id) + "_" + m.key.name
  }

  /** A job as `newStarted` makes it: STARTED at `now`, not completed, version 0, no files yet. */
  predicate IsFreshlyStarted(j: UnboxingJob, now: Instant)
  {
    j.status == STARTED && j.startedAt == now && j.completedAt == None &&
    j.version == 0 && j.unboxedFiles == None
  }

  /** `UnboxingJob.newStarted(mediaKey, id, clock)`. */
  function NewStarted(mediaKey: RawMediaKey, id: Uuid, now: Instant): (j: UnboxingJob)
    ensures j.id == id && j.rawMediaKey == mediaKey
    ensures IsFreshlyStarted(j, now)
  {
    UnboxingJob(id, mediaKey, STARTED, now, None, 0, None)
  }

  /**
   * `RawMedia.beginUnboxingJob(jobId, clock)`. The guard is `check(unboxed)`,
   * so it refuses media that is NOT unboxed, with the message
   * "Media is already unboxed". The media itself is a value and is not changed.
   */
  function BeginUnboxingJob(m: RawMedia, jobId: Uuid, now: Instant)
    : (r: Result<(UnboxingJob, BeginUnboxingJobEvent), IllegalStateException>)
    ensures r.Failure? <==> !m.unboxed
    ensures r.Failure? ==> r.error.message == "Media is already unboxed"
    ensures r.Success? ==>
      var (job, event) := r.value;
      job == NewStarted(m.key, jobId, now) &&
      event.jobId == job.id &&
      event.source == "s3://raw/uploaded/" + ToString(m.key) &&
      event.out == "s3://raw/unboxed/" + ToString(m.key)
  {
    if !m.unboxed then Failure(IllegalStateException("Media is already unboxed"))
    else
      ProtocolPrefixed(m);
      Success((NewStarted(m.key, jobId, now),
               BeginUnboxingJobEvent(jobId, "s3://" + RawFileS3Key(m), "s3://" + UnboxedFilesS3KeyPrefix(m))))
  }

  /** The two S3 keys with the `s3://` scheme in front. */
  lemma ProtocolPrefixed(m: RawMedia)
    ensures "s3://" + RawFileS3Key(m) == "s3://raw/uploaded/" + ToString(m.key)
    ensures "s3://" + UnboxedFilesS3KeyPrefix(m) == "s3://raw/unboxed/" + ToString(m.key)
  {
    var t := ToString(m.key);
    SchemeBeforePath("raw/uploaded/", t);
    SchemeBeforePath("raw/unboxed/", t);
  }

  /** `s3://` before a path that starts with a literal prefix. */
  lemma SchemeBeforePath(p: string, t: string)
    ensures "s3://" + (p + t) == ("s3://" + p) + t
  {
  }

  /**
   * `RawMedia.completeUnboxing(clock, files)`: the media becomes unboxed with
   * no pending job, and the pending job becomes COMPLETED at `now` holding
   * the files. Neither version changes; the stores bump them.
   */
  function CompleteUnboxing(m: RawMedia, now: Instant, files: UnboxedFiles)
    : (r: Result<(RawMedia, UnboxingJob), CompletionError>)
    ensures r.Failure? <==>
      m.unboxed || m.pendingUnboxingJob.None? || m.pendingUnboxingJob.value.status != STARTED
    ensures r.Failure? ==>
      r.error == (if m.unboxed then AlreadyUnboxed
                  else if m.pendingUnboxingJob.None? then NoPendingJob
                  else JobNotStarted)
    ensures r.Success? ==>
      var (media, job) := r.value;
      var pending := m.pendingUnboxingJob.value;
      media.key == m.key && media.unboxed && media.version == m.version &&
      media.pendingUnboxingJob == None &&
      job.id == pending.id && job.rawMediaKey == pending.rawMediaKey &&
      job.startedAt == pending.startedAt && job.version == pending.version &&
      job.status == COMPLETED && job.completedAt == Some(now) && job.unboxedFiles == Some(files)
  {
    if m.unboxed then Failure(AlreadyUnboxed)
    else if m.pendingUnboxingJob.None? then Failure(NoPendingJob)
    else if m.pendingUnboxingJob.value.status != STARTED then Failure(JobNotStarted)
    else
      var job := m.pendingUnboxingJob.value;
      Success((m.(unboxed := true, pendingUnboxingJob := None),
               job.(status := COMPLETED, completedAt := Some(now), unboxedFiles := Some(files))))
  }

  // ---------------------------------------------------------------------
  // Lemmas

  /** A completed media cannot be completed a second time. */
  lemma CompletionIsFinal(m: RawMedia, now: Instant, files: UnboxedFiles, later: Instant, files': UnboxedFiles)
    requires CompleteUnboxing(m, now, files).Success?
    ensures CompleteUnboxing(CompleteUnboxing(m, now, files).value.0, later, files') == Failure(AlreadyUnboxed)
  {
  }

  /**
   * Because of the inverted guard, the two transitions never chain: a media
   * that can begin an unboxing job is already unboxed, so attaching the new
   * job and completing it is refused with AlreadyUnboxed; and a media that
   * can complete cannot begin.
   */
  lemma BeginAndCompleteExclude(m: RawMedia, jobId: Uuid, now: Instant, later: Instant, files: UnboxedFiles)
    ensures BeginUnboxingJob(m, jobId, now).Success? ==>
      CompleteUnboxing(m.(pendingUnboxingJob := Some(BeginUnboxingJob(m, jobId, now).value.0)), later, files)
        == Failure(AlreadyUnboxed)
    ensures CompleteUnboxing(m, later, files).Success? ==> BeginUnboxingJob(m, jobId, now).Failure?
  {
  }

  /**
   * Had the guard read `check(!unboxed)`, as its message intends, a new job
   * attached to a fresh media would complete: the job `newStarted` produces is
   * exactly what `completeUnboxing` accepts.
   */
  lemma FreshJobCompletes(key: RawMediaKey, version: int, jobId: Uuid, now: Instant, later: Instant, files: UnboxedFiles)
    ensures var job := NewStarted(key, jobId, now);
      var m := RawMedia(key, false, version, Some(job));
      CompleteUnboxing(m, later, files) ==
        Success((RawMedia(key, true, version, None),
                 UnboxingJob(jobId, key, COMPLETED, now, Some(later), 0, Some(files))))
  {
  }

  /** The test media of RawMediaTest.kt: fresh, not unboxed, no pending job; beginning a job on it fails. */
  lemma FreshMediaCannotBegin(key: RawMediaKey, jobId: Uuid, now: Instant)
    ensures BeginUnboxingJob(RawMedia(key, false, 0, None), jobId, now)
      == Failure(IllegalStateException("Media is already unboxed"))
  {
  }
}
