/**
 * The unboxing worker's message handler (JobConsumer.java): it reads a job
 * manifest, validates it, downloads the source, makes it an MKV, unboxes
 * its streams, uploads them and reports back on the channel. The channel is
 * modelled as the log of the calls made on it; the download, FFprobe and
 * the upload are inputs (`WorkerIo`).
 */
module JobConsumers {
  import opened Common
  import opened JavaStrings
  import opened S3Locations
  import opened MediaUnboxers
  import CF = ContainerFormats
  import RawMediaKeys

  /** The manifest: `jobId`, `source` and `out`, each of which may be null. */
  datatype Job = Job(jobId: Option<RawMediaKeys.Uuid>, source: Option<string>, out: Option<string>)

  datatype InvalidManifestException = InvalidManifestException(message: string)

  /**
   * What `objectMapper.readValue(body, Job.class)` makes of a delivery's
   * body: a `JsonProcessingException`, `null` (the body is the JSON literal
   * `null`), or a manifest.
   */
  datatype Body = Unreadable | NullManifest | Manifest(job: Job)

  /** `CompletedUnboxing`, the report the worker publishes (CompletedUnboxing.java). */
  datatype CompletedUnboxing = CompletedUnboxing(
    videos: seq<Video>,
    audio: seq<Audio>,
    subtitles: seq<Subtitles>,
    outputPrefix: Option<string>)

  /** A call made on the RabbitMQ channel. */
  datatype ChannelCall =
    | BasicAck(deliveryTag: int)
    | BasicPublish(exchange: string, routingKey: string, report: CompletedUnboxing)

  /** What the outside world does during one delivery. */
  datatype WorkerIo = WorkerIo(
    downloadFails: bool,          // VideoDownloadException or DuplicateJobException
    probed: seq<ProbedStream>,    // FFprobe's streams of the converted file
    unboxingFails: bool,          // an FFmpeg extraction fails or times out
    uploadFails: bool)            // ProcessedFilesUploadFailedException

  /** Why `handleDelivery` threw instead of returning. */
  datatype WorkerFailure =
    | JobIsNull
    | InvalidLocation(e: InvalidSourceException)
    | DownloadFailed
    | ConvertedPathIsNull
    | UnboxingFailed
    | UploadFailed

  /** How a delivery ended. */
  datatype Handled = Rejected(reason: string) | Completed | Threw(failure: WorkerFailure)

  /** `validateJob(job)`: the jobId is present, then the source is non-empty, then it starts with `s3://`. */
  function ValidateJob(job: Job): (r: Option<InvalidManifestException>)
    ensures r.None? <==> job.jobId.Some? && job.source.Some? && StartsWith(job.source.value, PROTOCOL_PREFIX)
    ensures job.jobId.None? ==> r == Some(InvalidManifestException("jobId is null"))
    ensures job.jobId.Some? && (job.source.None? || job.source.value == "") ==>
      r == Some(InvalidManifestException("source is empty"))
  {
    if job.jobId.None? then Some(InvalidManifestException("jobId is null"))
    else if job.source.None? || job.source.value == "" then Some(InvalidManifestException("source is empty"))
    else if !StartsWith(job.source.value, PROTOCOL_PREFIX) then
      Some(InvalidManifestException("source doesn't start with s3://"))
    else None
  }

  /**
   * `mediaStore.downloadSource(jobId, source)`: the source is parsed first,
   * and the file lands as `<videoFolder>/<jobId>/<fileName>`.
   */
  function DownloadSource(videoFolder: Dir, jobId: RawMediaKeys.Uuid, source: Option<string>, io: WorkerIo)
    : (r: Result<FilePath, WorkerFailure>)
    ensures r.Success? <==> SourceFrom(source).Success? && !io.downloadFails
    ensures r.Success? ==>
      r.value == FilePath(videoFolder + [RawMediaKeys.UuidToString(jobId)], SourceFrom(source).value.fileName)
  {
    match SourceFrom(source)
    case Failure(e) => Failure(InvalidLocation(e))
    case Success(s3Source) =>
      if io.downloadFails then Failure(DownloadFailed)
      else Success(FilePath(videoFolder + [RawMediaKeys.UuidToString(jobId)], s3Source.fileName))
  }

  /**
   * What one delivery does to the channel and how it ends: an unreadable or
   * invalid manifest is acked and dropped; a `null` manifest is dereferenced
   * by the debug log line and throws before any call; past validation, a
   * failure throws without touching the channel; success publishes the
   * report, then acks.
   */
  function Handle(videoFolder: Dir, exchange: string, queue: string, tag: int, body: Body, io: WorkerIo)
    : (seq<ChannelCall>, Handled)
  {
    match body
    case Unreadable => ([BasicAck(tag)], Rejected("Invalid job manifest received"))
    case NullManifest => ([], Threw(JobIsNull))
    case Manifest(job) =>
      match ValidateJob(job)
      case Some(e) => ([BasicAck(tag)], Rejected(e.message))
      case None => Process(videoFolder, exchange, queue, tag, job, io)
  }

  /** `handleDelivery` for a valid manifest, from the download on. */
  function Process(videoFolder: Dir, exchange: string, queue: string, tag: int, job: Job, io: WorkerIo)
    : (seq<ChannelCall>, Handled)
    requires job.jobId.Some?
  {
    match DownloadSource(videoFolder, job.jobId.value, job.source, io)
    case Failure(f) => ([], Threw(f))
    case Success(mediaPath) => Unbox(exchange, queue, tag, job.out, mediaPath, io)
  }

  /** The `try` block: the download is made an MKV in place, unboxed into `<its folder>/unboxed`, then reported. */
  function Unbox(exchange: string, queue: string, tag: int, out: Option<string>, mediaPath: FilePath, io: WorkerIo)
    : (seq<ChannelCall>, Handled)
  {
    match ConvertContainerFormat(mediaPath, mediaPath.dir, CF.ContainerFormat.MKV, CF.VIDEO)
    case None => ([], Threw(ConvertedPathIsNull))
    case Some(converted) =>
      if io.unboxingFails then ([], Threw(UnboxingFailed))
      else Report(exchange, queue, tag, out, CollectionOf(StreamsOf(io.probed), converted.dir + ["unboxed"]), io)
  }

  /** Uploading the unboxed files to `out`, then publishing the report and acking. */
  function Report(exchange: string, queue: string, tag: int, out: Option<string>, collection: MediaCollection, io: WorkerIo)
    : (seq<ChannelCall>, Handled)
  {
    if OutputFrom(out).Failure? then ([], Threw(InvalidLocation(OutputFrom(out).error)))
    else if io.uploadFails then ([], Threw(UploadFailed))
    else
      var report := CompletedUnboxing(collection.videos, collection.audio, collection.subtitles, out);
      ([BasicPublish(exchange, queue, report), BasicAck(tag)], Completed)
  }

  class JobConsumer {
    const videoFolder: Dir
    const outboundQueue: string
    const outboundExchange: string
    /** Every call made on the channel so far, oldest first. */
    var channelLog: seq<ChannelCall>

    constructor(videoFolder: Dir, outboundQueue: string, outboundExchange: string)
      ensures this.videoFolder == videoFolder && this.outboundQueue == outboundQueue
      ensures this.outboundExchange == outboundExchange && channelLog == []
    {
      this.videoFolder := videoFolder;
      this.outboundQueue := outboundQueue;
      this.outboundExchange := outboundExchange;
      channelLog := [];
    }

    /**
     * `handleDelivery(consumerTag, envelope, properties, body)`, with the
     * body already read by Jackson (see `Body`).
     */
    method HandleDelivery(tag: int, body: Body, io: WorkerIo) returns (h: Handled)
      modifies this
      ensures var (calls, outcome) := Handle(videoFolder, outboundExchange, outboundQueue, tag, body, io);
        channelLog == old(channelLog) + calls && h == outcome
    {
      if body.Unreadable? {
        channelLog := channelLog + [BasicAck(tag)];
        return Rejected("Invalid job manifest received");
      }
      if body.NullManifest? {
        return Threw(JobIsNull);
      }
      var job := body.job;
      var invalid := ValidateJob(job);
      if invalid.Some? {
        channelLog := channelLog + [BasicAck(tag)];
        return Rejected(invalid.value.message);
      }
      h := ProcessJob(tag, job, io);
    }

    /** `handleDelivery` past validation: the download, then the `try` block. */
    method ProcessJob(tag: int, job: Job, io: WorkerIo) returns (h: Handled)
      requires job.jobId.Some?
      modifies this
      ensures var (calls, outcome) := Process(videoFolder, outboundExchange, outboundQueue, tag, job, io);
        channelLog == old(channelLog) + calls && h == outcome
    {
      var mediaPath := DownloadSource(videoFolder, job.jobId.value, job.source, io);
      if mediaPath.Failure? {
        return Threw(mediaPath.error);
      }
      assert Process(videoFolder, outboundExchange, outboundQueue, tag, job, io) ==
        Unbox(outboundExchange, outboundQueue, tag, job.out, mediaPath.value, io);
      h := UnboxJob(tag, job.out, mediaPath.value, io);
    }

    /** The `try` block of `handleDelivery`: convert, unbox, then report. */
    method UnboxJob(tag: int, out: Option<string>, mediaPath: FilePath, io: WorkerIo) returns (h: Handled)
      modifies this
      ensures var (calls, outcome) := Unbox(outboundExchange, outboundQueue, tag, out, mediaPath, io);
        channelLog == old(channelLog) + calls && h == outcome
    {
      var convertedMediaPath := ConvertContainerFormat(mediaPath, mediaPath.dir, CF.ContainerFormat.MKV, CF.VIDEO);
      if convertedMediaPath.None? {
        return Threw(ConvertedPathIsNull);
      }
      var unboxedFilesPath := convertedMediaPath.value.dir + ["unboxed"];
      if io.unboxingFails {
        return Threw(UnboxingFailed);
      }
      var mediaCollection := UnboxMediaContainer(io.probed, unboxedFilesPath);
      assert Unbox(outboundExchange, outboundQueue, tag, out, mediaPath, io) ==
        Report(outboundExchange, outboundQueue, tag, out, mediaCollection, io);
      h := PublishReport(tag, out, mediaCollection, io);
    }

    /** `uploadProcessedFiles(job.out(), ..)`, then the report is published and the delivery acked. */
    method PublishReport(tag: int, out: Option<string>, mediaCollection: MediaCollection, io: WorkerIo) returns (h: Handled)
      modifies this
      ensures var (calls, outcome) := Report(outboundExchange, outboundQueue, tag, out, mediaCollection, io);
        channelLog == old(channelLog) + calls && h == outcome
    {
      var output := OutputFrom(out);
      if output.Failure? {
        return Threw(InvalidLocation(output.error));
      }
      if io.uploadFails {
        return Threw(UploadFailed);
      }
      var report := CompletedUnboxing(mediaCollection.videos, mediaCollection.audio, mediaCollection.subtitles, out);
      channelLog := channelLog + [BasicPublish(outboundExchange, outboundQueue, report)];
      channelLog := channelLog + [BasicAck(tag)];
      return Completed;
    }
  }

  // ---------------------------------------------------------------------
  // Lemmas

  /** `out` plays no part in validation. */
  lemma OutIsNeverValidated(job: Job, out: Option<string>)
    ensures ValidateJob(job.(out := out)) == ValidateJob(job)
  {
  }

  /**
   * Validation is weaker than the parser: `s3://` followed by a bucket and
   * slashes only (`s3://`, `s3://bucket`, `s3://bucket/`) passes it, and
   * `S3Source.from` refuses every such source.
   */
  lemma ValidationAdmitsUnparsableSources(id: RawMediaKeys.Uuid, b: string, n: nat, out: Option<string>)
    requires '/' !in b
    ensures var source := Some(PROTOCOL_PREFIX + b + Slashes(n));
      ValidateJob(Job(Some(id), source, out)).None? && SourceFrom(source).Failure?
  {
    var v := PROTOCOL_PREFIX + b + Slashes(n);
    assert v[..|PROTOCOL_PREFIX|] == PROTOCOL_PREFIX;
    SourcePassesValidation(id, v, out);
    BucketOnlySourceRefused(b, n);
  }

  /** A source that starts with `s3://` passes validation once a jobId is present. */
  lemma SourcePassesValidation(id: RawMediaKeys.Uuid, v: string, out: Option<string>)
    requires StartsWith(v, PROTOCOL_PREFIX)
    ensures ValidateJob(Job(Some(id), Some(v), out)).None?
  {
  }

  /** Every source the parser accepts passes validation once a jobId is present. */
  lemma ParsableSourcesValidate(job: Job)
    requires job.jobId.Some? && SourceFrom(job.source).Success?
    ensures ValidateJob(job).None?
  {
  }

  /** An unreadable or invalid manifest is acked and nothing else: no download, no publish. */
  lemma InvalidDeliveriesAreOnlyAcked(videoFolder: Dir, exchange: string, queue: string, tag: int,
                                      body: Body, io: WorkerIo)
    requires body.Unreadable? || (body.Manifest? && ValidateJob(body.job).Some?)
    ensures var (calls, h) := Handle(videoFolder, exchange, queue, tag, body, io);
      calls == [BasicAck(tag)] && h.Rejected?
  {
  }

  /**
   * A body holding the JSON literal `null` is the one readable body that is
   * never acked: the delivery throws before any call on the channel, and
   * the message stays unacked.
   */
  lemma NullManifestIsNeverAcked(videoFolder: Dir, exchange: string, queue: string, tag: int,
                                 body: Body, io: WorkerIo)
    ensures var (calls, h) := Handle(videoFolder, exchange, queue, tag, body, io);
      h == Threw(JobIsNull) <==> body.NullManifest?
    ensures body.NullManifest? ==> Handle(videoFolder, exchange, queue, tag, body, io).0 == []
  {
    if body.Manifest? && ValidateJob(body.job).None? {
      ProcessNeverNull(videoFolder, exchange, queue, tag, body.job, io);
    }
  }

  /** Past validation, no failure is a `null` manifest. */
  lemma ProcessNeverNull(videoFolder: Dir, exchange: string, queue: string, tag: int, job: Job, io: WorkerIo)
    requires job.jobId.Some?
    ensures Process(videoFolder, exchange, queue, tag, job, io).1 != Threw(JobIsNull)
  {
    match DownloadSource(videoFolder, job.jobId.value, job.source, io)
    case Failure(f) =>
    case Success(mediaPath) =>
      match ConvertContainerFormat(mediaPath, mediaPath.dir, CF.ContainerFormat.MKV, CF.VIDEO)
      case None =>
      case Some(converted) =>
  }

  /**
   * The channel discipline of one delivery: it is acked exactly once, as
   * its last call, or it throws without any call, so the message stays
   * unacked; a report is published only on completion, just before the ack.
   */
  predicate AckedOnceOrUntouched(r: (seq<ChannelCall>, Handled), tag: int)
  {
    (r.1.Threw? <==> r.0 == []) &&
    (r.1.Rejected? ==> r.0 == [BasicAck(tag)]) &&
    (r.1.Completed? ==> |r.0| == 2 && r.0[0].BasicPublish? && r.0[1] == BasicAck(tag))
  }

  /** Reporting keeps the channel discipline, and completes exactly when `out` parses and the upload succeeds. */
  lemma ReportAcked(exchange: string, queue: string, tag: int, out: Option<string>, collection: MediaCollection, io: WorkerIo)
    ensures AckedOnceOrUntouched(Report(exchange, queue, tag, out, collection, io), tag)
    ensures Report(exchange, queue, tag, out, collection, io).1 == Completed <==> OutputFrom(out).Success? && !io.uploadFails
  {
  }

  /** Converting, unboxing and reporting keep the channel discipline. */
  lemma UnboxAcked(exchange: string, queue: string, tag: int, out: Option<string>, mediaPath: FilePath, io: WorkerIo)
    ensures AckedOnceOrUntouched(Unbox(exchange, queue, tag, out, mediaPath, io), tag)
  {
    match ConvertContainerFormat(mediaPath, mediaPath.dir, CF.ContainerFormat.MKV, CF.VIDEO)
    case None =>
    case Some(converted) =>
      if !io.unboxingFails {
        ReportAcked(exchange, queue, tag, out, CollectionOf(StreamsOf(io.probed), converted.dir + ["unboxed"]), io);
      }
  }

  /** Processing a valid manifest keeps the channel discipline. */
  lemma ProcessAcked(videoFolder: Dir, exchange: string, queue: string, tag: int, job: Job, io: WorkerIo)
    requires job.jobId.Some?
    ensures AckedOnceOrUntouched(Process(videoFolder, exchange, queue, tag, job, io), tag)
  {
    match DownloadSource(videoFolder, job.jobId.value, job.source, io)
    case Failure(_) =>
    case Success(mediaPath) => UnboxAcked(exchange, queue, tag, job.out, mediaPath, io);
  }

  /** Every delivery keeps the channel discipline (see `AckedOnceOrUntouched`). */
  lemma AckIsLastOrAbsent(videoFolder: Dir, exchange: string, queue: string, tag: int,
                          body: Body, io: WorkerIo)
    ensures AckedOnceOrUntouched(Handle(videoFolder, exchange, queue, tag, body, io), tag)
  {
    if body.Manifest? && ValidateJob(body.job).None? {
      ProcessAcked(videoFolder, exchange, queue, tag, body.job, io);
    }
  }

  /**
   * A completed delivery reports, under `job.out`, exactly the collection
   * unboxed from the probed streams into `<jobDir>/unboxed`, and acks; the
   * source was a well-formed location, the output too, and the file was an
   * MKV.
   */
  lemma CompletedReport(videoFolder: Dir, exchange: string, queue: string, tag: int, body: Body, io: WorkerIo)
    requires Handle(videoFolder, exchange, queue, tag, body, io).1 == Completed
    ensures body.Manifest? && body.job.jobId.Some?
    ensures var job := body.job;
      var src := SourceFrom(job.source);
      var jobDir := videoFolder + [RawMediaKeys.UuidToString(job.jobId.value)];
      var c := CollectionOf(StreamsOf(io.probed), jobDir + ["unboxed"]);
      src.Success? && OutputFrom(job.out).Success? && !io.downloadFails && !io.unboxingFails && !io.uploadFails &&
      EndsWith(src.value.fileName, ".mkv") && |src.value.fileName| > 4 &&
      Handle(videoFolder, exchange, queue, tag, body, io).0 ==
        [BasicPublish(exchange, queue, CompletedUnboxing(c.videos, c.audio, c.subtitles, job.out)), BasicAck(tag)]
  {
    var job := body.job;
    ProcessCompleted(videoFolder, exchange, queue, tag, job, io);
  }

  /** `CompletedReport` for the processing stage. */
  lemma ProcessCompleted(videoFolder: Dir, exchange: string, queue: string, tag: int, job: Job, io: WorkerIo)
    requires job.jobId.Some? && Process(videoFolder, exchange, queue, tag, job, io).1 == Completed
    ensures var src := SourceFrom(job.source);
      var jobDir := videoFolder + [RawMediaKeys.UuidToString(job.jobId.value)];
      var c := CollectionOf(StreamsOf(io.probed), jobDir + ["unboxed"]);
      src.Success? && OutputFrom(job.out).Success? && !io.downloadFails && !io.unboxingFails && !io.uploadFails &&
      EndsWith(src.value.fileName, ".mkv") && |src.value.fileName| > 4 &&
      Process(videoFolder, exchange, queue, tag, job, io).0 ==
        [BasicPublish(exchange, queue, CompletedUnboxing(c.videos, c.audio, c.subtitles, job.out)), BasicAck(tag)]
  {
    var mediaPath := DownloadSource(videoFolder, job.jobId.value, job.source, io).value;
    UnboxCompleted(exchange, queue, tag, job.out, mediaPath, io);
  }

  /** `CompletedReport` for the `try` block: only an MKV completes, and it is unboxed next to itself. */
  lemma UnboxCompleted(exchange: string, queue: string, tag: int, out: Option<string>, mediaPath: FilePath, io: WorkerIo)
    requires Unbox(exchange, queue, tag, out, mediaPath, io).1 == Completed
    ensures var c := CollectionOf(StreamsOf(io.probed), mediaPath.dir + ["unboxed"]);
      OutputFrom(out).Success? && !io.unboxingFails && !io.uploadFails &&
      EndsWith(mediaPath.name, ".mkv") && |mediaPath.name| > 4 &&
      Unbox(exchange, queue, tag, out, mediaPath, io).0 ==
        [BasicPublish(exchange, queue, CompletedUnboxing(c.videos, c.audio, c.subtitles, out)), BasicAck(tag)]
  {
    ConvertInPlaceKeepsOnlyMkv(mediaPath);
    var converted := ConvertContainerFormat(mediaPath, mediaPath.dir, CF.ContainerFormat.MKV, CF.VIDEO).value;
    assert converted == mediaPath;
    ReportAcked(exchange, queue, tag, out, CollectionOf(StreamsOf(io.probed), converted.dir + ["unboxed"]), io);
  }

  /**
   * A downloaded source whose name is not `<stem>.mkv` never completes:
   * `convertContainerFormat` returns null and line 82 dereferences it.
   */
  lemma NonMkvSourceThrows(videoFolder: Dir, exchange: string, queue: string, tag: int, job: Job, io: WorkerIo)
    requires ValidateJob(job).None?
    requires DownloadSource(videoFolder, job.jobId.value, job.source, io).Success?
    requires var name := SourceFrom(job.source).value.fileName; !(EndsWith(name, ".mkv") && |name| > 4)
    ensures Handle(videoFolder, exchange, queue, tag, Manifest(job), io) == ([], Threw(ConvertedPathIsNull))
  {
    var mediaPath := DownloadSource(videoFolder, job.jobId.value, job.source, io).value;
    ConvertInPlaceKeepsOnlyMkv(mediaPath);
  }
}
