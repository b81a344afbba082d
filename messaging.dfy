/**
 * The message broker as the orchestrator sees it through `RabbitTemplate`:
 * three append-only queues. Each upload-event queue keeps the retry-count
 * header next to the message.
 */
module Messaging {
  import opened Common
  import opened RawMediaDomain
  import opened UploadEvents

  /** `RETRY_COUNT_HEADER_KEY` and `MAX_RETRY_COUNT` of RawFileUploadListener.kt. */
  const RETRY_COUNT_HEADER_KEY: string := "X-RETRY-COUNT"
  const MAX_RETRY_COUNT: int := 3

  /** What `convertAndSend` can throw: an `AmqpIOException`, or any other `AmqpException`. */
  datatype PublishFailure = AmqpIOException | OtherAmqpException

  /** An upload event with the value of its `X-RETRY-COUNT` header. */
  type Delivered = (UploadEvent, int)

  class Broker {
    /** The queue the unboxing workers consume. */
    var mediaUnboxingQueue: seq<BeginUnboxingJobEvent>
    /** `rawFileUploadedRetry`: upload events to be delivered again. */
    var rawFileUploadedRetry: seq<Delivered>
    /** `rawFileUploadedDlq`: upload events given up on. */
    var rawFileUploadedDlq: seq<Delivered>

    constructor()
      ensures mediaUnboxingQueue == [] && rawFileUploadedRetry == [] && rawFileUploadedDlq == []
    {
      mediaUnboxingQueue := [];
      rawFileUploadedRetry := [];
      rawFileUploadedDlq := [];
    }

    /** `convertAndSend(mediaUnboxingQueue, event)`; `fault` is what the broker raises, if anything. */
    method SendBeginUnboxing(event: BeginUnboxingJobEvent, fault: Option<PublishFailure>)
      returns (r: Option<PublishFailure>)
      modifies this
      ensures r == fault
      ensures mediaUnboxingQueue == if fault.None? then old(mediaUnboxingQueue) + [event] else old(mediaUnboxingQueue)
      ensures rawFileUploadedRetry == old(rawFileUploadedRetry) && rawFileUploadedDlq == old(rawFileUploadedDlq)
    {
      if fault.Some? {
        return fault;
      }
      mediaUnboxingQueue := mediaUnboxingQueue + [event];
      return None;
    }

    /** `convertAndSend(rawFileUploadedRetry, msg)` with the header set to `retryCount`. */
    method SendRetry(msg: UploadEvent, retryCount: int)
      modifies this
      ensures rawFileUploadedRetry == old(rawFileUploadedRetry) + [(msg, retryCount)]
      ensures mediaUnboxingQueue == old(mediaUnboxingQueue) && rawFileUploadedDlq == old(rawFileUploadedDlq)
    {
      rawFileUploadedRetry := rawFileUploadedRetry + [(msg, retryCount)];
    }

    /** `convertAndSend(rawFileUploadedDlq, msg)` with the header set to `retryCount`. */
    method SendDlq(msg: UploadEvent, retryCount: int)
      modifies this
      ensures rawFileUploadedDlq == old(rawFileUploadedDlq) + [(msg, retryCount)]
      ensures mediaUnboxingQueue == old(mediaUnboxingQueue) && rawFileUploadedRetry == old(rawFileUploadedRetry)
    {
      rawFileUploadedDlq := rawFileUploadedDlq + [(msg, retryCount)];
    }
  }
}
