/**
 * The hand-off between the two services: the `BeginUnboxingJobEvent` that
 * RawMedia.kt builds is read by the worker as a `Job` manifest with the same
 * three fields (the JSON mapping between them is taken field for field).
 * These lemmas tie what the orchestrator writes to what JobConsumer.java,
 * S3Source.java and S3Output.java accept.
 */
module Handoff {
  import opened Common
  import opened JavaStrings
  import opened RawMediaKeys
  import opened S3Locations
  import opened RawMediaDomain
  import opened JobConsumers
  import opened MediaUnboxers

  /** The manifest the worker reads for an event. */
  function ManifestOf(e: BeginUnboxingJobEvent): (job: Job)
    ensures job.jobId == Some(e.jobId) && job.source == Some(e.source) && job.out == Some(e.out)
  {
    Job(Some(e.jobId), Some(e.source), Some(e.out))
  }

  /** `s3://raw/<prefix>/<t>` is the location `s3://` + bucket `raw` + `/` + key `<prefix>/<t>`. */
  lemma RawBucketLocation(prefix: string, t: string)
    ensures "s3://raw/" + prefix + "/" + t == PROTOCOL_PREFIX + "raw" + "/" + (prefix + "/" + t) + Slashes(0)
  {
    assert Slashes(0) == "";
    assert "s3://raw/" == PROTOCOL_PREFIX + "raw" + "/";
  }

  /** A key `<prefix>/<t>` for a slash-free, non-empty `t` ends in `t` and not in a slash. */
  lemma KeyUnderPrefix(prefix: string, t: string)
    requires t != "" && '/' !in t
    ensures var k := prefix + "/" + t;
      k != "" && k[|k| - 1] != '/' && AfterLast(k, '/') == t
  {
    var k := prefix + "/" + t;
    assert k[|k| - 1] == t[|t| - 1];
    AfterLastOfAppend(prefix, '/', t);
  }

  /** The printed key of a valid media key holds no slash. */
  lemma PrintedKeyHasNoSlash(k: RawMediaKey)
    requires IsValidName(k.name)
    ensures ToString(k) != "" && '/' !in ToString(k)
  {
    PrintedKeyIsName(k);
    var s := ToString(k);
    forall i | 0 <= i < |s| ensures s[i] != '/' {
      assert IsNameChar(s[i]);
    }
  }

  /** Both literal paths in `BeginUnboxingJob`'s contract split as `raw/<prefix>/<t>`. */
  lemma EventPaths(t: string)
    ensures "s3://raw/uploaded/" + t == "s3://raw/" + "uploaded" + "/" + t
    ensures "s3://raw/unboxed/" + t == "s3://raw/" + "unboxed" + "/" + t
  {
    assert "s3://raw/uploaded/" == "s3://raw/" + "uploaded" + "/";
    assert "s3://raw/unboxed/" == "s3://raw/" + "unboxed" + "/";
  }

  /**
   * The event a media with a valid key starts is a manifest the worker takes:
   * it passes `validateJob`, its source is the object `uploaded/<key>` in
   * bucket `raw` named `<key>`, and its output is the prefix `unboxed/<key>`
   * in the same bucket.
   */
  lemma EventIsAcceptedManifest(m: RawMedia, jobId: Uuid, now: Instant)
    requires m.unboxed && IsValidName(m.key.name)
    ensures BeginUnboxingJob(m, jobId, now).Success?
    ensures var job := ManifestOf(BeginUnboxingJob(m, jobId, now).value.1);
      var t := ToString(m.key);
      ValidateJob(job).None? &&
      SourceFrom(job.source) == Success(S3Source("raw", "uploaded/" + t, t)) &&
      OutputFrom(job.out) == Success(S3Output("raw", "unboxed/" + t))
  {
    var e := BeginUnboxingJob(m, jobId, now).value.1;
    PrintedKeyHasNoSlash(m.key);
    UploadedSource(ToString(m.key));
    UnboxedOutput(ToString(m.key));
    ParsableSourcesValidate(ManifestOf(e));
  }

  /** `s3://raw/uploaded/<t>` is the object `uploaded/<t>` of bucket `raw`, named `<t>`. */
  lemma UploadedSource(t: string)
    requires t != "" && '/' !in t
    ensures SourceFrom(Some("s3://raw/uploaded/" + t)) == Success(S3Source("raw", "uploaded/" + t, t))
  {
    EventPaths(t);
    RawBucketLocation("uploaded", t);
    KeyUnderPrefix("uploaded", t);
    assert "uploaded" + "/" + t == "uploaded/" + t;
    SourceFromLocation("raw", "uploaded/" + t, 0);
  }

  /** `s3://raw/unboxed/<t>` is the prefix `unboxed/<t>` of bucket `raw`. */
  lemma UnboxedOutput(t: string)
    requires t != "" && '/' !in t
    ensures OutputFrom(Some("s3://raw/unboxed/" + t)) == Success(S3Output("raw", "unboxed/" + t))
  {
    EventPaths(t);
    RawBucketLocation("unboxed", t);
    KeyUnderPrefix("unboxed", t);
    assert "unboxed" + "/" + t == "unboxed/" + t;
    OutputWithKey("raw", "unboxed/" + t, 0);
  }

  /**
   * The worker finishes an orchestrator's job only for an MKV upload: a
   * completed delivery of the event's manifest means the media name ends in
   * `.mkv`, and the report it publishes goes under the event's `out`.
   */
  lemma OnlyMkvUploadsComplete(m: RawMedia, jobId: Uuid, now: Instant,
                               videoFolder: Dir, exchange: string, queue: string, tag: int, io: WorkerIo)
    requires m.unboxed && IsValidName(m.key.name)
    requires BeginUnboxingJob(m, jobId, now).Success?
    requires Handle(videoFolder, exchange, queue, tag, Manifest(ManifestOf(BeginUnboxingJob(m, jobId, now).value.1)), io).1 == Completed
    ensures EndsWith(ToString(m.key), ".mkv")
  {
    var job := ManifestOf(BeginUnboxingJob(m, jobId, now).value.1);
    EventIsAcceptedManifest(m, jobId, now);
    CompletedReport(videoFolder, exchange, queue, tag, Manifest(job), io);
  }

  /**
   * Conversely, once the download succeeds, an upload whose printed key does
   * not end in `.mkv` makes the worker throw at the null converted path,
   * leaving the delivery unacknowledged.
   */
  lemma NonMkvUploadsThrow(m: RawMedia, jobId: Uuid, now: Instant,
                           videoFolder: Dir, exchange: string, queue: string, tag: int, io: WorkerIo)
    requires m.unboxed && IsValidName(m.key.name)
    requires !io.downloadFails && !EndsWith(ToString(m.key), ".mkv")
    ensures BeginUnboxingJob(m, jobId, now).Success?
    ensures Handle(videoFolder, exchange, queue, tag, Manifest(ManifestOf(BeginUnboxingJob(m, jobId, now).value.1)), io)
      == ([], Threw(ConvertedPathIsNull))
  {
    var job := ManifestOf(BeginUnboxingJob(m, jobId, now).value.1);
    EventIsAcceptedManifest(m, jobId, now);
    NonMkvSourceThrows(videoFolder, exchange, queue, tag, job, io);
  }
}
