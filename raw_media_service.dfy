/**
 * Onboarding a freshly uploaded raw file (RawMediaService.kt): insert the
 * media, begin its unboxing job, insert the job, publish the job to the
 * workers. Each step's exceptions are translated into the recoverable or
 * non-recoverable families, and a failing step stops the ones after it.
 *
 * The clock and `UUID.randomUUID()` become the `now` and `jobId` of an
 * `Environment`, which also says what the database and the broker raise at
 * each step.
 */
module RawMediaServices {
  import opened Common
  import opened RawMediaKeys
  import opened RawMediaDomain
  import opened RawFileExceptions
  import opened Db
  import opened UploadEvents
  import opened Messaging
  import Media = RawMediaStore
  import Jobs = UnboxingJobStore

  /** Everything outside the service that one call depends on. */
  datatype Environment = Environment(
    now: Instant,
    jobId: Uuid,
    mediaInsertFault: Option<StoreFailure>,
    jobInsertFault: Option<StoreFailure>,
    publishFault: Option<PublishFailure>)

  /** What escapes `onboardRawFile`: a RawFileException, or a store exception no catch clause names. */
  datatype OnboardingFailure = RawFile(e: RawFileException) | Unhandled(cause: StoreFailure)

  /** The two tables and the three queues. */
  datatype World = World(
    media: Media.MediaTable,
    jobs: Jobs.JobTable,
    unboxingQueue: seq<BeginUnboxingJobEvent>,
    retryQueue: seq<Delivered>,
    dlq: seq<Delivered>)

  /**
   * The two catch clauses around each insert: the non-transient subclass is
   * tested first and becomes InvalidRawFileException, any other data-access
   * exception becomes RawFileOnboardingException, anything else passes through.
   */
  function InsertFailure(key: RawMediaKey, f: StoreFailure, invalidReason: string, savingReason: string)
    : (r: OnboardingFailure)
    ensures r.RawFile? <==> !f.NotDataAccess?
    ensures r.RawFile? ==> r.e.key == key && (r.e.IsNonRecoverable() <==> f.NonTransientDataAccess?)
  {
    match f
    case NonTransientDataAccess(_) => RawFile(InvalidRawFileException(key, invalidReason))
    case OtherDataAccess(_) => RawFile(RawFileOnboardingException(key, savingReason))
    case NotDataAccess(_) => Unhandled(f)
  }

  /** The two catch clauses around the publish: only an I/O failure is worth retrying. */
  function PublishFailureOf(key: RawMediaKey, f: PublishFailure): (e: RawFileException)
    ensures e.key == key && (e.IsRecoverable() <==> f == AmqpIOException)
  {
    match f
    case AmqpIOException => UnboxingJobFailedStartException(key, "Could not publish event due to IO exception")
    case OtherAmqpException => NonRecoverableJobStartException(key, "Cannot start due to misconfiguration")
  }

  /** The private `beginUnboxingJob(rawMedia)` step, on any media. */
  function BeginStep(w: World, m: RawMedia, env: Environment): (World, Result<UnboxingJob, OnboardingFailure>)
  {
    match RawMediaDomain.BeginUnboxingJob(m, env.jobId, env.now)
    case Failure(_) => (w, Failure(RawFile(AlreadyUnboxedRawFileException(m.key))))
    case Success((job, event)) =>
      var (jobs', inserted) := Jobs.InsertOutcome(w.jobs, job, env.jobInsertFault);
      if inserted.Failure? then
        (w.(jobs := jobs'), Failure(InsertFailure(m.key, inserted.error,
                                                  "Invalid parameters for unboxing job",
                                                  "Exception when saving unboxing job")))
      else if env.publishFault.Some? then
        (w.(jobs := jobs'), Failure(RawFile(PublishFailureOf(m.key, env.publishFault.value))))
      else
        (w.(jobs := jobs', unboxingQueue := w.unboxingQueue + [event]), Success(job))
  }

  /** `onboardRawFile(request)`. */
  function Onboard(w: World, key: RawMediaKey, env: Environment): (World, Result<RawMedia, OnboardingFailure>)
  {
    var media := RawMedia(key, false, 0, None);
    var (table', inserted) := Media.InsertOutcome(w.media, media, env.mediaInsertFault);
    if inserted.Failure? then
      (w.(media := table'), Failure(InsertFailure(key, inserted.error, "Invalid parameters", "Exception when saving")))
    else
      var (w', begun) := BeginStep(w.(media := table'), media, env);
      if begun.Failure? then (w', Failure(begun.error)) else (w', Success(media))
  }

  class RawMediaService {
    const rawMediaRepository: Media.RawMediaRepository
    const unboxingJobRepository: Jobs.UnboxingJobRepository
    const broker: Broker

    /** The state of everything the service writes to. */
    function State(): World
      reads rawMediaRepository, unboxingJobRepository, broker
    {
      World(rawMediaRepository.rows, unboxingJobRepository.rows, broker.mediaUnboxingQueue,
            broker.rawFileUploadedRetry, broker.rawFileUploadedDlq)
    }

    constructor(rawMediaRepository: Media.RawMediaRepository, unboxingJobRepository: Jobs.UnboxingJobRepository,
                broker: Broker)
      ensures this.rawMediaRepository == rawMediaRepository
      ensures this.unboxingJobRepository == unboxingJobRepository
      ensures this.broker == broker
    {
      this.rawMediaRepository := rawMediaRepository;
      this.unboxingJobRepository := unboxingJobRepository;
      this.broker := broker;
    }

    method OnboardRawFile(key: RawMediaKey, env: Environment) returns (r: Result<RawMedia, OnboardingFailure>)
      modifies rawMediaRepository, unboxingJobRepository, broker
      ensures (State(), r) == Onboard(old(State()), key, env)
    {
      var saved := SaveNewRawFile(key, env.mediaInsertFault);
      if saved.Failure? {
        return Failure(InsertFailure(key, saved.error, "Invalid parameters", "Exception when saving"));
      }
      var rawMedia := saved.value;
      var begun := BeginUnboxingJob(rawMedia, env);
      if begun.Failure? {
        return Failure(begun.error);
      }
      return Success(rawMedia);
    }

    /** The private `beginUnboxingJob(rawMedia)`. */
    method BeginUnboxingJob(rawMedia: RawMedia, env: Environment) returns (r: Result<UnboxingJob, OnboardingFailure>)
      modifies unboxingJobRepository, broker
      ensures (State(), r) == BeginStep(old(State()), rawMedia, env)
    {
      var begun := RawMediaDomain.BeginUnboxingJob(rawMedia, env.jobId, env.now);
      if begun.Failure? {
        return Failure(RawFile(AlreadyUnboxedRawFileException(rawMedia.key)));
      }
      var (unboxingJob, beginUnboxingEvent) := begun.value;
      var inserted := unboxingJobRepository.Insert(unboxingJob, env.jobInsertFault);
      if inserted.Failure? {
        return Failure(InsertFailure(rawMedia.key, inserted.error,
                                     "Invalid parameters for unboxing job", "Exception when saving unboxing job"));
      }
      var published := broker.SendBeginUnboxing(beginUnboxingEvent, env.publishFault);
      if published.Some? {
        return Failure(RawFile(PublishFailureOf(rawMedia.key, published.value)));
      }
      return Success(unboxingJob);
    }

    /** The private `saveNewRawFile(request)`: a new, not unboxed media at version 0. */
    method SaveNewRawFile(key: RawMediaKey, fault: Option<StoreFailure>) returns (r: Result<RawMedia, StoreFailure>)
      modifies rawMediaRepository
      ensures (rawMediaRepository.rows, r) == Media.InsertOutcome(old(rawMediaRepository.rows), RawMedia(key, false, 0, None), fault)
    {
      var media := RawMedia(key, false, 0, None);
      var inserted := rawMediaRepository.Insert(media, fault);
      if inserted.Failure? {
        return Failure(inserted.error);
      }
      return Success(media);
    }
  }

  // ---------------------------------------------------------------------
  // Lemmas

  /**
   * The step order of the private `beginUnboxingJob`, for any media: a
   * media that is not unboxed is refused before anything is written; a
   * failed job insert publishes nothing; what is published is exactly the
   * event `RawMedia.beginUnboxingJob` returned, after the job is stored.
   * The upload queues are never touched.
   */
  lemma BeginStepOrder(w: World, m: RawMedia, env: Environment)
    ensures var (w', r) := BeginStep(w, m, env);
      w'.media == w.media && w'.retryQueue == w.retryQueue && w'.dlq == w.dlq &&
      (!m.unboxed ==> w' == w && r == Failure(RawFile(AlreadyUnboxedRawFileException(m.key)))) &&
      (m.unboxed ==>
        var (job, event) := RawMediaDomain.BeginUnboxingJob(m, env.jobId, env.now).value;
        var stored := Jobs.InsertOutcome(w.jobs, job, env.jobInsertFault);
        w'.jobs == stored.0 &&
        (stored.1.Failure? ==> w'.unboxingQueue == w.unboxingQueue &&
                               r == Failure(InsertFailure(m.key, stored.1.error,
                                                          "Invalid parameters for unboxing job",
                                                          "Exception when saving unboxing job"))) &&
        (stored.1.Success? ==>
          w'.unboxingQueue == w.unboxingQueue + (if env.publishFault.None? then [event] else []) &&
          r == (if env.publishFault.None? then Success(job)
                else Failure(RawFile(PublishFailureOf(m.key, env.publishFault.value))))))
  {
  }

  /**
   * Every failure of `onboardRawFile` is a RawFileException about the
   * requested key, except a store exception outside the data-access family,
   * which passes through unchanged.
   */
  lemma OnboardFailuresAreClassified(w: World, key: RawMediaKey, env: Environment)
    ensures var r := Onboard(w, key, env).1;
      r.Failure? ==>
        (r.error.RawFile? && r.error.e.key == key) ||
        (r.error.Unhandled? && r.error.cause.NotDataAccess? &&
         (env.mediaInsertFault == Some(r.error.cause) || env.jobInsertFault == Some(r.error.cause)))
  {
    var media := RawMedia(key, false, 0, None);
    var (table', inserted) := Media.InsertOutcome(w.media, media, env.mediaInsertFault);
    if inserted.Success? {
      BeginStepOrder(w.(media := table'), media, env);
    }
  }

  /**
   * Because the media is created with `unboxed = false` and
   * `beginUnboxingJob` refuses exactly such media, onboarding never gets
   * past its first step: once the insert succeeds the call ends in
   * AlreadyUnboxedRawFileException, having stored the media row but no job
   * and published nothing. A failed insert changes nothing and is classified
   * as the catch clauses say.
   */
  lemma OnboardNeverStartsJob(w: World, key: RawMediaKey, env: Environment)
    ensures var (w', r) := Onboard(w, key, env);
      r.Failure? && w'.jobs == w.jobs && w'.unboxingQueue == w.unboxingQueue &&
      w'.retryQueue == w.retryQueue && w'.dlq == w.dlq &&
      (env.mediaInsertFault.None? && key.id !in w.media ==>
        w'.media == w.media[key.id := Media.MediaRow(key.name, false, 0)] &&
        r.error == RawFile(AlreadyUnboxedRawFileException(key))) &&
      (env.mediaInsertFault.Some? ==>
        w' == w && r.error == InsertFailure(key, env.mediaInsertFault.value, "Invalid parameters", "Exception when saving")) &&
      (env.mediaInsertFault.None? && key.id in w.media ==>
        w' == w && r.error == RawFile(InvalidRawFileException(key, "Invalid parameters")))
  {
    var media := RawMedia(key, false, 0, None);
    var (table', inserted) := Media.InsertOutcome(w.media, media, env.mediaInsertFault);
    if inserted.Success? {
      BeginStepOrder(w.(media := table'), media, env);
    }
  }
}
