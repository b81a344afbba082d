/**
 * The upload listener (RawFileUploadListener.kt): a retry-count header
 * state machine around `onboardRawFile`. Each delivery either onboards the
 * file, sends the message to the dead-letter queue with its count
 * unchanged, or sends it to the retry queue with the count raised by one.
 */
module RawFileUploadListeners {
  import opened Common
  import opened RawMediaKeys
  import opened RawFileExceptions
  import opened Db
  import opened UploadEvents
  import opened Messaging
  import opened RawMediaServices
  import RawMediaDomain

  /** How a delivery ended. */
  datatype Delivery =
    | Onboarded(media: RawMediaDomain.RawMedia)
    | DeadLettered
    | RetryScheduled
    | Escaped(cause: StoreFailure)

  /** `retryCount ?: 0`. */
  function Count(retryCount: Option<int>): int
  {
    if retryCount.None? then 0 else retryCount.value
  }

  /** Whether a delivery with this header reaches `onboardRawFile`. */
  predicate InvokesOnboarding(msg: UploadEvent, count: int)
  {
    count <= MAX_RETRY_COUNT && ParseRequest(msg).Some?
  }

  /** `rejectToDlq(msg, count)` on the model state. */
  function RejectToDlqState(w: World, msg: UploadEvent, count: int): (w': World)
    ensures w'.dlq == w.dlq + [(msg, count)]
    ensures w' == w.(dlq := w'.dlq)
  {
    w.(dlq := w.dlq + [(msg, count)])
  }

  /** The catch clauses around `onboardRawFile`, applied to its outcome. */
  function AfterOnboarding(w: World, msg: UploadEvent, count: int, r: Result<RawMediaDomain.RawMedia, OnboardingFailure>)
    : (World, Delivery)
  {
    match r
    case Success(media) => (w, Onboarded(media))
    case Failure(Unhandled(cause)) => (w, Escaped(cause))
    case Failure(RawFile(e)) =>
      if e.IsNonRecoverable() then (RejectToDlqState(w, msg, count), DeadLettered)
      else (w.(retryQueue := w.retryQueue + [(msg, count + 1)]), RetryScheduled)
  }

  /** `listenToRawFileUploaded(msg, retryCount)`. */
  function Listen(w: World, msg: UploadEvent, retryCount: Option<int>, env: Environment): (World, Delivery)
  {
    var count := Count(retryCount);
    if count > MAX_RETRY_COUNT then (RejectToDlqState(w, msg, count), DeadLettered)
    else match ParseRequest(msg)
      case None => (RejectToDlqState(w, msg, count), DeadLettered)
      case Some(key) =>
        var (w', r) := Onboard(w, key, env);
        AfterOnboarding(w', msg, count, r)
  }

  class RawFileUploadListener {
    const rawMediaService: RawMediaService
    const broker: Broker

    constructor(rawMediaService: RawMediaService, broker: Broker)
      requires rawMediaService.broker == broker
      ensures this.rawMediaService == rawMediaService && this.broker == broker
      ensures Wired()
    {
      this.rawMediaService := rawMediaService;
      this.broker := broker;
    }

    /** The service and the listener publish through the same `RabbitTemplate`. */
    predicate Wired()
    {
      rawMediaService.broker == broker
    }

    method ListenToRawFileUploaded(msg: UploadEvent, retryCount: Option<int>, env: Environment) returns (d: Delivery)
      requires Wired()
      modifies rawMediaService.rawMediaRepository, rawMediaService.unboxingJobRepository, broker
      ensures (rawMediaService.State(), d) == Listen(old(rawMediaService.State()), msg, retryCount, env)
    {
      var count := if retryCount.None? then 0 else retryCount.value;
      if count > MAX_RETRY_COUNT {
        RejectToDlq(msg, count);
        return DeadLettered;
      }
      var rawFileRequest := ParseRequest(msg);
      if rawFileRequest.None? {
        RejectToDlq(msg, count);
        return DeadLettered;
      }
      var r := rawMediaService.OnboardRawFile(rawFileRequest.value, env);
      match r {
        case Success(media) =>
          return Onboarded(media);
        case Failure(Unhandled(cause)) =>
          return Escaped(cause);
        case Failure(RawFile(e)) =>
          if e.IsNonRecoverable() {
            RejectToDlq(msg, count);
            return DeadLettered;
          }
          var nextRetry := count + 1;
          broker.SendRetry(msg, nextRetry);
          return RetryScheduled;
      }
    }

    /** `rejectToDlq(event, retryCount)`. */
    method RejectToDlq(event: UploadEvent, retryCount: int)
      requires Wired()
      modifies broker
      ensures rawMediaService.State() == RejectToDlqState(old(rawMediaService.State()), event, retryCount)
    {
      broker.SendDlq(event, retryCount);
    }
  }

  /**
   * The broker redelivering one upload event from the retry queue: the
   * message arrives with header `count`, and after each RetryScheduled it
   * arrives again with the raised count, the i-th delivery meeting
   * `envs[i]`. Returns the final state and how many deliveries reached
   * `onboardRawFile`.
   */
  function Redeliver(w: World, msg: UploadEvent, count: int, envs: seq<Environment>): (World, nat)
    decreases |envs|
  {
    if |envs| == 0 then (w, 0)
    else
      var (w1, d) := Listen(w, msg, Some(count), envs[0]);
      var attempt := if InvokesOnboarding(msg, count) then 1 else 0;
      if d.RetryScheduled? then
        var (w2, n) := Redeliver(w1, msg, count + 1, envs[1..]);
        (w2, attempt + n)
      else (w1, attempt)
  }

  // ---------------------------------------------------------------------
  // Lemmas

  /** A missing header counts as 0. */
  lemma MissingHeaderIsZero(w: World, msg: UploadEvent, env: Environment)
    ensures Listen(w, msg, None, env) == Listen(w, msg, Some(0), env)
  {
  }

  /**
   * A count above MAX_RETRY_COUNT, or an object key that does not parse,
   * sends the message to the dead-letter queue with the count unchanged and
   * touches nothing else: onboarding is not invoked.
   */
  lemma RefusedDeliveriesDeadLetter(w: World, msg: UploadEvent, retryCount: Option<int>, env: Environment)
    requires !InvokesOnboarding(msg, Count(retryCount))
    ensures Listen(w, msg, retryCount, env) == (RejectToDlqState(w, msg, Count(retryCount)), DeadLettered)
  {
  }

  /** A count of exactly MAX_RETRY_COUNT is still processed: the service is called. */
  lemma LastRetryStillOnboards(w: World, msg: UploadEvent, env: Environment)
    requires ParseRequest(msg).Some?
    ensures var (w', r) := Onboard(w, ParseRequest(msg).value, env);
      Listen(w, msg, Some(MAX_RETRY_COUNT), env) == AfterOnboarding(w', msg, MAX_RETRY_COUNT, r)
  {
  }

  /**
   * Routing of the service's outcome: a non-recoverable failure dead-letters
   * the message with the count unchanged, a recoverable one schedules a
   * retry with the count raised by exactly one, success and an unclassified
   * exception publish nothing. At most one upload message is published per
   * delivery, and the queues only grow.
   */
  lemma RoutingByFamily(w: World, msg: UploadEvent, retryCount: Option<int>, env: Environment)
    requires InvokesOnboarding(msg, Count(retryCount))
    ensures var count := Count(retryCount);
      var (w1, r) := Onboard(w, ParseRequest(msg).value, env);
      var (w', d) := Listen(w, msg, retryCount, env);
      (r.Failure? && r.error.RawFile? && r.error.e.IsNonRecoverable() ==>
        d == DeadLettered && w' == w1.(dlq := w1.dlq + [(msg, count)])) &&
      (r.Failure? && r.error.RawFile? && r.error.e.IsRecoverable() ==>
        d == RetryScheduled && w' == w1.(retryQueue := w1.retryQueue + [(msg, count + 1)])) &&
      (r.Success? || r.error.Unhandled? ==> w' == w1)
  {
    var (w1, r) := Onboard(w, ParseRequest(msg).value, env);
    if r.Failure? && r.error.RawFile? {
      FamiliesPartition(r.error.e);
    }
  }

  /** Each delivery publishes at most one upload message, and only by appending. */
  lemma AtMostOnePublish(w: World, msg: UploadEvent, retryCount: Option<int>, env: Environment)
    ensures var (w', d) := Listen(w, msg, retryCount, env);
      w.retryQueue <= w'.retryQueue && w.dlq <= w'.dlq &&
      |w'.retryQueue| + |w'.dlq| <= |w.retryQueue| + |w.dlq| + 1 &&
      (d.Onboarded? || d.Escaped? ==> w'.retryQueue == w.retryQueue && w'.dlq == w.dlq)
  {
    if InvokesOnboarding(msg, Count(retryCount)) {
      var key := ParseRequest(msg).value;
      OnboardNeverStartsJob(w, key, env);
    }
  }

  /**
   * Following the header from `count` through the retry queue, at most
   * MAX_RETRY_COUNT + 1 - count deliveries reach `onboardRawFile`, however
   * each attempt ends; from a missing header that is at most four. A
   * delivery that escapes is not followed: the container's requeue keeps
   * the header unchanged.
   */
  lemma {:induction false} RedeliveryIsBounded(w: World, msg: UploadEvent, count: int, envs: seq<Environment>)
    ensures Redeliver(w, msg, count, envs).1 <= if count > MAX_RETRY_COUNT then 0 else MAX_RETRY_COUNT + 1 - count
    decreases |envs|
  {
    if |envs| > 0 {
      var (w1, d) := Listen(w, msg, Some(count), envs[0]);
      if d.RetryScheduled? {
        assert InvokesOnboarding(msg, count);
        RedeliveryIsBounded(w1, msg, count + 1, envs[1..]);
      } else {
        assert Redeliver(w, msg, count, envs).1 <= 1;
        if count > MAX_RETRY_COUNT {
          assert !InvokesOnboarding(msg, count);
        }
      }
    }
  }

  /**
   * The bound is reached: when every attempt fails recoverably at the media
   * insert, a well-formed upload delivered with header `count` is attempted
   * exactly MAX_RETRY_COUNT + 1 - count times and then dead-lettered with
   * header MAX_RETRY_COUNT + 1.
   */
  lemma {:induction false} RedeliveryReachesBound(w: World, msg: UploadEvent, count: int, envs: seq<Environment>)
    requires 0 <= count <= MAX_RETRY_COUNT + 1
    requires ParseRequest(msg).Some?
    requires |envs| > MAX_RETRY_COUNT + 1 - count
    requires forall i :: 0 <= i < |envs| ==> envs[i].mediaInsertFault.Some? && envs[i].mediaInsertFault.value.OtherDataAccess?
    ensures var (w', n) := Redeliver(w, msg, count, envs);
      n == MAX_RETRY_COUNT + 1 - count && w'.dlq == w.dlq + [(msg, MAX_RETRY_COUNT + 1)]
    decreases |envs|
  {
    var (w1, d) := Listen(w, msg, Some(count), envs[0]);
    if count <= MAX_RETRY_COUNT {
      var key := ParseRequest(msg).value;
      OnboardNeverStartsJob(w, key, envs[0]);
      assert d == RetryScheduled && w1.dlq == w.dlq;
      RedeliveryReachesBound(w1, msg, count + 1, envs[1..]);
    }
  }

  /**
   * A well-formed notification `<prefix>/<id>_<name>`, as the listener test
   * sends with the prefix `bucket`, reaches the service with the key it
   * names.
   */
  lemma WellFormedUploadReachesService(w: World, eventName: string, prefix: string, k: RawMediaKey,
                                       retryCount: Option<int>, env: Environment)
    requires IsValidName(k.name) && Count(retryCount) <= MAX_RETRY_COUNT
    ensures var msg := UploadEvent(eventName, prefix + "/" + ToString(k));
      var (w1, r) := Onboard(w, k, env);
      Listen(w, msg, retryCount, env) == AfterOnboarding(w1, msg, Count(retryCount), r)
  {
    UploadedKeyParses(eventName, prefix, k);
  }
}
