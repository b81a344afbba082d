# Elastic transcoding service: onboarding and unboxing, in Dafny

This project models the two halves of the media onboarding pipeline of the
elastic transcoding service and proves properties of that model.

- **The orchestrator** (Kotlin, Spring). A storage notification arrives for
  each uploaded object. `RawFileUploadListener` turns it into a
  `RawMediaKey` (`<uuid>_<name>`) and calls `RawMediaService.onboardRawFile`.
  The service stores a `RawMedia` row, begins an `UnboxingJob`, stores the
  job and publishes a `BeginUnboxingJobEvent`. Its failures are sorted into
  a recoverable family and a non-recoverable family. The listener retries
  the first kind, with an `X-RETRY-COUNT` header capped at 3, and
  dead-letters the second.
- **The media-unboxer worker** (Java). `JobConsumer.handleDelivery` reads a
  `Job` manifest, validates it, and downloads `s3://bucket/key`, which is
  parsed by `S3Source`. It converts the file to MKV in place
  (`MediaUnboxer.convertContainerFormat`). `unboxMediaContainer` then
  splits the file into one output per video, audio and subtitle stream.
  Finally the worker uploads the outputs to `out` (parsed by `S3Output`),
  publishes a `CompletedUnboxing` report and acks.

Code written as expressions becomes functions and lemmas:
- key parsing and printing, S3 location parsing, `stripExtension`;
- stream partitioning and output naming;
- the domain transitions.

Code that changes state becomes classes:
- the two JDBC repositories, each holding a `map` of rows;
- the broker, holding three append-only queues;
- the service, the listener and the worker's consumer, which keeps a log of
  channel calls.

Each method is proved equal to a specification function of the old state.
The lemmas state the properties about those functions.

The model takes its inputs as parameters:
- the clock and `UUID.randomUUID()` become parameters (`now`, `jobId`);
- database and broker faults are injected values (`Environment`, `WorkerIo`);
- FFprobe's stream list is an input sequence.

Module map:

| file | module | source |
|---|---|---|
| common.dfy | `Common` | `Option` / `Result` |
| java_strings.dfy | `JavaStrings` | the `java.lang.String` operations the code calls |
| db.dfy | `Db` | Spring's data-access exceptions; OptimisticLockingException.kt |
| raw_media_key.dfy | `RawMediaKeys` | `RawMediaKey` in RawMedia.kt |
| raw_media.dfy | `RawMediaDomain` | RawMedia.kt, BeginUnboxingJobEvent.kt |
| raw_file_exceptions.dfy | `RawFileExceptions` | RawFileExceptions.kt |
| unboxing_completed_event.dfy | `UnboxingCompletedEvents` | UnboxingCompletedEvent.kt |
| unboxing_job_repository.dfy | `UnboxingJobStore` | UnboxingJobRepository.kt |
| raw_media_repository.dfy | `RawMediaStore` | RawMediaRepository.kt |
| upload_event.dfy | `UploadEvents` | `UploadEvent` in RawFileUploadListener.kt, RawFileCreateRequest.kt |
| messaging.dfy | `Messaging` | the `RabbitTemplate` queues |
| raw_media_service.dfy | `RawMediaServices` | RawMediaService.kt |
| raw_file_upload_listener.dfy | `RawFileUploadListeners` | RawFileUploadListener.kt |
| container_format.dfy | `ContainerFormats` | ContainerFormat.java, WorkerConstants.java |
| file_utils.dfy | `FileUtils` | FileUtils.java |
| s3_locations.dfy | `S3Locations` | S3Source.java, S3Output.java |
| media_unboxer.dfy | `MediaUnboxers` | MediaUnboxer.java, MediaStreams.java, MediaCollection.java |
| job_consumer.dfy | `JobConsumers` | JobConsumer.java, Job.java, CompletedUnboxing.java, `downloadSource` of MediaStore.java |
| handoff.dfy | `Handoff` | the event of RawMedia.kt read as the manifest of Job.java |

Behaviours of the code that the model keeps as written:

- **The inverted guard in `beginUnboxingJob`.** It is `check(unboxed)` with
  the message "Media is already unboxed", so it refuses media that is *not*
  unboxed. Onboarding creates media with `unboxed = false`. So
  `onboardRawFile` never starts a job. It stores the media row and ends in
  `AlreadyUnboxedRawFileException`, which the listener dead-letters
  (`OnboardNeverStartsJob`, `BeginAndCompleteExclude`, `FreshJobCompletes`).
- **`RawMedia` carries an optional `pendingUnboxingJob`.** Its declaration
  has three fields. The repository's row mapper and the domain tests build
  it with a fourth, the pending job, so the model includes it.
  RawMedia.kt declares no `completeUnboxing`. The body that the tests call
  is not part of this model, so `CompleteUnboxing` follows the behaviour
  RawMediaTest.kt expects.
- **The `objectKey` guard** is `lastSlashIdx != -1 || lastSlashIdx ==
  length - 1`. It lets through a full key without any `/` only when that
  key is empty.
- **`S3Source.from` accepts any `s3://` text with a non-separator after a
  `/`.** A trailing `/` is lost to `split`. The bucket may be empty.
- **`convertContainerFormat` returns `null`** whenever it actually
  converts. `handleDelivery` then dereferences the null at line 82, so only
  sources already named `<stem>.mkv` are unboxed (`NonMkvSourceThrows`,
  `OnlyMkvUploadsComplete`).
- **A `null` manifest is never acked.** Jackson reads the JSON literal
  `null` as a `null` job without throwing. The debug log line then calls
  `job.jobId()`, so the delivery throws before `basicAck`, while every
  other unreadable or invalid body is acked and dropped
  (`NullManifestIsNeverAcked`, `InvalidDeliveriesAreOnlyAcked`).
- **Retries are counted only through the retry queue.** A failure that
  escapes `listenToRawFileUploaded` is requeued by the container with its
  header unchanged, so only the retry-queue path is bounded
  (`RedeliveryIsBounded`).
- **`getFileName` cuts a `/` out of a language tag.** An output entry
  records `outputPath.getFileName()`. A language tag holding `/` therefore
  loses everything up to its last `/` (`ExampleSlashInLanguage`).
- **The report omits the job id.** JobConsumer.java:90-93 passes a job id
  as the first argument of `new CompletedUnboxing(..)`. The record in
  CompletedUnboxing.java has no such component. The model follows the
  record and carries the four fields it declares.

## Model

In the "source" column:
- `orchestrator/src/main/kotlin/io/github/akmal2409/ets/orchestrator/` is
  the orchestrator's package root;
- `media-unboxer/src/main/java/io/github/akmal2409/ets/` is the worker's.

Paths are written out in full.

| member | source | states |
|---|---|---|
| RawMediaKeys.UuidToString | orchestrator/src/main/kotlin/io/github/akmal2409/ets/orchestrator/onboarding/domain/RawMedia.kt:35 | the printed UUID matches the key pattern's UUID part: 36 characters, hex digits with dashes at 8, 13, 18 and 23 |
| RawMediaKeys.FromString | orchestrator/src/main/kotlin/io/github/akmal2409/ets/orchestrator/onboarding/domain/RawMedia.kt:15-31 | a key parses exactly when the whole text matches the key pattern (case-insensitive UUID, `_`, a name without whitespace, `\` or `/`); the name is the text after index 36; the parsed key prints back as the text with its UUID lower-cased |
| RawMediaKeys.PrintParsedUuid | orchestrator/src/main/kotlin/io/github/akmal2409/ets/orchestrator/onboarding/domain/RawMedia.kt:29 | printing a parsed UUID gives the parsed text, lower-cased |
| RawMediaKeys.ParsePrintedUuid | orchestrator/src/main/kotlin/io/github/akmal2409/ets/orchestrator/onboarding/domain/RawMedia.kt:29-35 | parsing a printed UUID gives the UUID back |
| RawMediaKeys.PrintedKeyIsName | orchestrator/src/main/kotlin/io/github/akmal2409/ets/orchestrator/onboarding/domain/RawMedia.kt:34-36 | a printed key with a valid name holds no whitespace, `\` or `/` |
| RawMediaKeys.FromStringToString | orchestrator/src/main/kotlin/io/github/akmal2409/ets/orchestrator/onboarding/domain/RawMedia.kt:20-36 | round trip: every key with a valid name parses back from its printed form |
| RawMediaKeys.ToStringFromString | orchestrator/src/main/kotlin/io/github/akmal2409/ets/orchestrator/onboarding/domain/RawMedia.kt:20-36 | round trip the other way: a matching text whose UUID has no upper-case letters prints back unchanged |
| RawMediaKeys.RejectsBadNameChar | orchestrator/src/main/kotlin/io/github/akmal2409/ets/orchestrator/onboarding/domain/RawMedia.kt:16-23 | any whitespace, `\` or `/` in the name makes the key unparsable |
| RawMediaKeys.RejectsMisplacedSeparator | orchestrator/src/main/kotlin/io/github/akmal2409/ets/orchestrator/onboarding/domain/RawMedia.kt:16-23 | a text without `_` right after its 36-character UUID is refused |
| RawMediaKeys.RejectsBadUuid | orchestrator/src/main/kotlin/io/github/akmal2409/ets/orchestrator/onboarding/domain/RawMedia.kt:16-23 | a non-hex character at a digit position of the UUID is refused |
| RawMediaKeys.ParsesKey | orchestrator/src/main/kotlin/io/github/akmal2409/ets/orchestrator/onboarding/domain/RawMedia.kt:25-30 | UUID text, `_` and a valid name parse to that UUID and that name |
| RawMediaKeys.RejectsSpaceInTestName | orchestrator/src/test/kotlin/io/github/akmal2409/ets/orchestrator/onboarding/domain/RawMediaKeyTest.kt:15 | the test's key with a space in the name is refused |
| RawMediaKeys.RejectsDashAfterTestUuid | orchestrator/src/test/kotlin/io/github/akmal2409/ets/orchestrator/onboarding/domain/RawMediaKeyTest.kt:16 | the test's key with `-` after the UUID is refused |
| RawMediaKeys.RejectsNonHexTestUuid | orchestrator/src/test/kotlin/io/github/akmal2409/ets/orchestrator/onboarding/domain/RawMediaKeyTest.kt:17 | the test's UUID ending in `X` is refused |
| RawMediaKeys.RejectsKeysWithoutUuid | orchestrator/src/test/kotlin/io/github/akmal2409/ets/orchestrator/onboarding/domain/RawMediaKeyTest.kt:18-19 | `file.txt` and `file` are refused |
| RawMediaKeys.RejectsPathSeparatorTestKeys | orchestrator/src/test/kotlin/io/github/akmal2409/ets/orchestrator/onboarding/domain/RawMediaKeyTest.kt:20-21 | the test's keys with `/` or `\` are refused |
| RawMediaKeys.ParsesTestKey | orchestrator/src/test/kotlin/io/github/akmal2409/ets/orchestrator/onboarding/domain/RawMediaKeyTest.kt:30-40 | the test's upper-case key parses to that UUID's value and `file.txt` |
| RawMediaKeys.TestIdIsUuid | orchestrator/src/test/kotlin/io/github/akmal2409/ets/orchestrator/onboarding/domain/RawMediaKeyTest.kt:31 | the test's upper-case UUID matches the case-insensitive UUID pattern |
| RawMediaDomain.RawFileS3Key | orchestrator/src/main/kotlin/io/github/akmal2409/ets/orchestrator/onboarding/domain/RawMedia.kt:44 | the upload key is `raw/uploaded/` followed by the printed media key |
| RawMediaDomain.UnboxedFilesS3KeyPrefix | orchestrator/src/main/kotlin/io/github/akmal2409/ets/orchestrator/onboarding/domain/RawMedia.kt:45 | the output prefix is `raw/unboxed/` followed by the printed media key |
| RawMediaDomain.NewStarted | orchestrator/src/main/kotlin/io/github/akmal2409/ets/orchestrator/onboarding/domain/RawMedia.kt:70-76 | a new job carries the given id and media key, is STARTED at `now`, has no completion time and no files, and is at version 0 |
| RawMediaDomain.BeginUnboxingJob | orchestrator/src/main/kotlin/io/github/akmal2409/ets/orchestrator/onboarding/domain/RawMedia.kt:47-55 | fails with "Media is already unboxed" exactly when the media is NOT unboxed; otherwise gives the new started job and an event with the same id, source `s3://raw/uploaded/<key>` and out `s3://raw/unboxed/<key>` |
| RawMediaDomain.ProtocolPrefixed | orchestrator/src/main/kotlin/io/github/akmal2409/ets/orchestrator/onboarding/domain/RawMedia.kt:52-54 | the event's two locations are `s3://` before the two keys |
| RawMediaDomain.CompleteUnboxing | orchestrator/src/test/kotlin/io/github/akmal2409/ets/orchestrator/onboarding/domain/RawMediaTest.kt:16-70 | refuses, in this order, an unboxed media, a media without a pending job, and a pending job not STARTED; otherwise the media becomes unboxed with no pending job, and the job becomes COMPLETED at `now` with the files, both versions unchanged |
| RawMediaDomain.CompletionIsFinal | orchestrator/src/test/kotlin/io/github/akmal2409/ets/orchestrator/onboarding/domain/RawMediaTest.kt:16-25 | a completed media cannot be completed again |
| RawMediaDomain.BeginAndCompleteExclude | orchestrator/src/main/kotlin/io/github/akmal2409/ets/orchestrator/onboarding/domain/RawMedia.kt:50 | under the inverted guard, a media that can begin a job cannot complete it, and a media that can complete cannot begin |
| RawMediaDomain.FreshJobCompletes | orchestrator/src/main/kotlin/io/github/akmal2409/ets/orchestrator/onboarding/domain/RawMedia.kt:70-76 | a fresh media holding the job `newStarted` makes completes, to exactly the expected media and job |
| RawMediaDomain.FreshMediaCannotBegin | orchestrator/src/test/kotlin/io/github/akmal2409/ets/orchestrator/onboarding/domain/RawMediaTest.kt:12 | the tests' base media (not unboxed) cannot begin a job |
| RawFileExceptions.RawFileException.Message | orchestrator/src/main/kotlin/io/github/akmal2409/ets/orchestrator/onboarding/domain/RawFileExceptions.kt:3-4 | the message opens with `RawFileKey=`, the printed key and `.`, and ends with the subclass's detail |
| RawFileExceptions.FamiliesPartition | orchestrator/src/main/kotlin/io/github/akmal2409/ets/orchestrator/onboarding/domain/RawFileExceptions.kt:6-33 | every exception is in exactly one of the recoverable and non-recoverable families |
| RawFileExceptions.MessageLayout | orchestrator/src/main/kotlin/io/github/akmal2409/ets/orchestrator/onboarding/domain/RawFileExceptions.kt:3-4 | in a message about a valid key, the first space comes right after the key's `.` |
| RawFileExceptions.MessageIdentifiesKey | orchestrator/src/main/kotlin/io/github/akmal2409/ets/orchestrator/onboarding/domain/RawFileExceptions.kt:3-4 | equal messages about valid keys name the same key and carry the same detail |
| UnboxingCompletedEvents.MapVideos | orchestrator/src/main/kotlin/io/github/akmal2409/ets/orchestrator/onboarding/controller/dto/unboxing/UnboxingCompletedEvent.kt:27-34 | one video per DTO, in order, with the same file name, codec and dimensions |
| UnboxingCompletedEvents.MapAudio | orchestrator/src/main/kotlin/io/github/akmal2409/ets/orchestrator/onboarding/controller/dto/unboxing/UnboxingCompletedEvent.kt:35 | one audio entry per DTO, in order, with the same fields |
| UnboxingCompletedEvents.MapSubtitles | orchestrator/src/main/kotlin/io/github/akmal2409/ets/orchestrator/onboarding/controller/dto/unboxing/UnboxingCompletedEvent.kt:36 | one subtitles entry per DTO, in order, with the same fields |
| UnboxingCompletedEvents.ToDomainUnboxedFiles | orchestrator/src/main/kotlin/io/github/akmal2409/ets/orchestrator/onboarding/controller/dto/unboxing/UnboxingCompletedEvent.kt:25-37 | the three lists keep their lengths, and each element is the DTO's fields |
| UnboxingCompletedEvents.ConversionIgnoresJobAndPrefix | orchestrator/src/main/kotlin/io/github/akmal2409/ets/orchestrator/onboarding/controller/dto/unboxing/UnboxingCompletedEvent.kt:18-37 | the job id and output prefix do not affect the conversion |
| UnboxingCompletedEvents.MapVideosAppend | orchestrator/src/main/kotlin/io/github/akmal2409/ets/orchestrator/onboarding/controller/dto/unboxing/UnboxingCompletedEvent.kt:27-34 | mapping distributes over concatenation, so order is kept |
| UnboxingCompletedEvents.EmptyReportHasNoFiles | orchestrator/src/test/kotlin/io/github/akmal2409/ets/orchestrator/onboarding/domain/RawMediaTest.kt:18 | the tests' empty report converts to three empty lists |
| UnboxingJobStore.MapRow | orchestrator/src/main/kotlin/io/github/akmal2409/ets/orchestrator/onboarding/domain/UnboxingJobRepository.kt:82-98 | the job read from a row has that id and writes back as the same row |
| UnboxingJobStore.JobById | orchestrator/src/main/kotlin/io/github/akmal2409/ets/orchestrator/onboarding/domain/UnboxingJobRepository.kt:70-80 | a job is found exactly when its id is stored, and it is the stored row |
| UnboxingJobStore.UnboxingJobRepository.constructor | orchestrator/src/main/kotlin/io/github/akmal2409/ets/orchestrator/onboarding/domain/UnboxingJobRepository.kt:15-18 | the table starts empty |
| UnboxingJobStore.UnboxingJobRepository.Insert | orchestrator/src/main/kotlin/io/github/akmal2409/ets/orchestrator/onboarding/domain/UnboxingJobRepository.kt:20-40 | the new table and the result are `InsertOutcome` of the old table |
| UnboxingJobStore.UnboxingJobRepository.Update | orchestrator/src/main/kotlin/io/github/akmal2409/ets/orchestrator/onboarding/domain/UnboxingJobRepository.kt:42-68 | the new table and the result are `UpdateOutcome` of the old table |
| UnboxingJobStore.UnboxingJobRepository.FindById | orchestrator/src/main/kotlin/io/github/akmal2409/ets/orchestrator/onboarding/domain/UnboxingJobRepository.kt:70-80 | found exactly when the id is stored, and then it is the stored row |
| UnboxingJobStore.MapRowToRow | orchestrator/src/main/kotlin/io/github/akmal2409/ets/orchestrator/onboarding/domain/UnboxingJobRepository.kt:20-40 | a job written as a row reads back as itself |
| UnboxingJobStore.InsertThenFind | orchestrator/src/main/kotlin/io/github/akmal2409/ets/orchestrator/onboarding/domain/UnboxingJobRepository.kt:20-40 | an insert succeeds exactly when there is no fault and the id is new; it keeps the job's own version, `findById` then returns the job, a failure writes nothing, and other ids read as before |
| UnboxingJobStore.UpdateIsCompareAndSwap | orchestrator/src/main/kotlin/io/github/akmal2409/ets/orchestrator/onboarding/domain/UnboxingJobRepository.kt:42-68 | an update succeeds exactly when the stored version matches; it bumps the version by one; otherwise it raises the conflict naming both versions and writes nothing; other rows are untouched |
| UnboxingJobStore.UpdateKeepsMediaReference | orchestrator/src/main/kotlin/io/github/akmal2409/ets/orchestrator/onboarding/domain/UnboxingJobRepository.kt:46-49 | the media columns are outside the SET list, so the stored media key never changes |
| UnboxingJobStore.SecondUpdateConflicts | orchestrator/src/main/kotlin/io/github/akmal2409/ets/orchestrator/onboarding/domain/UnboxingJobRepository.kt:60-65 | of two writers holding the same version, the second conflicts |
| RawMediaStore.RowMapper | orchestrator/src/main/kotlin/io/github/akmal2409/ets/orchestrator/onboarding/domain/RawMediaRepository.kt:80-99 | the media takes the row's key, flag and version, and holds a pending job exactly when a job row joined; that job has the media's key |
| RawMediaStore.RawMediaRepository.constructor | orchestrator/src/main/kotlin/io/github/akmal2409/ets/orchestrator/onboarding/domain/RawMediaRepository.kt:18-22 | the table starts empty |
| RawMediaStore.RawMediaRepository.Insert | orchestrator/src/main/kotlin/io/github/akmal2409/ets/orchestrator/onboarding/domain/RawMediaRepository.kt:44-52 | the new table and the result are `InsertOutcome` of the old table |
| RawMediaStore.RawMediaRepository.Update | orchestrator/src/main/kotlin/io/github/akmal2409/ets/orchestrator/onboarding/domain/RawMediaRepository.kt:54-78 | the new table and the result are `UpdateOutcome` of the old table |
| RawMediaStore.RawMediaRepository.FindAll | orchestrator/src/main/kotlin/io/github/akmal2409/ets/orchestrator/onboarding/domain/RawMediaRepository.kt:24-42 | every media listed carries no job or a STARTED one |
| RawMediaStore.InsertStoresVersionZero | orchestrator/src/main/kotlin/io/github/akmal2409/ets/orchestrator/onboarding/domain/RawMediaRepository.kt:44-52 | an insert succeeds exactly when there is no fault and the id is new; it stores version 0 whatever the argument holds and returns the argument; a failure writes nothing |
| RawMediaStore.InsertThenUpdate | orchestrator/src/main/kotlin/io/github/akmal2409/ets/orchestrator/onboarding/domain/RawMediaRepository.kt:44-78 | after an insert, an update of that id succeeds exactly when it carries version 0 |
| RawMediaStore.UpdateIsCompareAndSwap | orchestrator/src/main/kotlin/io/github/akmal2409/ets/orchestrator/onboarding/domain/RawMediaRepository.kt:54-78 | an update succeeds exactly when the stored version matches; it stores the name and flag with the version bumped by one; otherwise it raises the conflict and writes nothing; other rows are untouched |
| RawMediaStore.SecondUpdateConflicts | orchestrator/src/main/kotlin/io/github/akmal2409/ets/orchestrator/onboarding/domain/RawMediaRepository.kt:70-75 | of two writers holding the same version, the second conflicts |
| RawMediaStore.FindAllStarted | orchestrator/src/main/kotlin/io/github/akmal2409/ets/orchestrator/onboarding/domain/RawMediaRepository.kt:29-39 | the LEFT JOIN attaches only STARTED jobs of that media, each with the media's key |
| RawMediaStore.FindAllCoversEveryRow | orchestrator/src/main/kotlin/io/github/akmal2409/ets/orchestrator/onboarding/domain/RawMediaRepository.kt:29-39 | every media row is listed: without a job when none joins, once per joined STARTED job otherwise |
| UploadEvents.ObjectKey | orchestrator/src/main/kotlin/io/github/akmal2409/ets/orchestrator/onboarding/service/RawFileUploadListener.kt:24-32 | refused exactly for a non-empty key without `/`; otherwise the slash-free tail of the full key after its last `/` |
| UploadEvents.ParseRequest | orchestrator/src/main/kotlin/io/github/akmal2409/ets/orchestrator/onboarding/domain/RawFileCreateRequest.kt:13-15 | a request exists exactly when the object key exists and parses as a media key |
| UploadEvents.ObjectKeyIsLastPiece | orchestrator/src/main/kotlin/io/github/akmal2409/ets/orchestrator/onboarding/service/RawFileUploadListener.kt:26-31 | the object key is the last `/`-separated piece of the full key |
| UploadEvents.UploadedKeyParses | orchestrator/src/main/kotlin/io/github/akmal2409/ets/orchestrator/onboarding/service/RawFileUploadListener.kt:68-72 | the notification for `<prefix>/<printed key>` yields exactly that key, whatever the prefix |
| UploadEvents.EmptyFullKeyPassesGuard | orchestrator/src/main/kotlin/io/github/akmal2409/ets/orchestrator/onboarding/service/RawFileUploadListener.kt:27 | an empty full key passes the guard as an empty object key, which never parses |
| UploadEvents.KeyWithoutSlashRefused | orchestrator/src/test/kotlin/io/github/akmal2409/ets/orchestrator/onboarding/service/RawFileUploadListenerTest.kt:50-51 | the test's `just_bucket` key is refused |
| UploadEvents.SlashFreeKeyRefused | orchestrator/src/main/kotlin/io/github/akmal2409/ets/orchestrator/onboarding/service/RawFileUploadListener.kt:27-29 | any non-empty key without `/` is refused and yields no request |
| Messaging.Broker.constructor | orchestrator/src/main/kotlin/io/github/akmal2409/ets/orchestrator/onboarding/service/RawMediaService.kt:24 | all three queues start empty |
| Messaging.Broker.SendBeginUnboxing | orchestrator/src/main/kotlin/io/github/akmal2409/ets/orchestrator/onboarding/service/RawMediaService.kt:84-87 | the event is appended to the unboxing queue exactly when the broker raises nothing; the raised fault is returned; the other queues are unchanged |
| Messaging.Broker.SendRetry | orchestrator/src/main/kotlin/io/github/akmal2409/ets/orchestrator/onboarding/service/RawFileUploadListener.kt:84-90 | the message is appended to the retry queue with the given header; nothing else changes |
| Messaging.Broker.SendDlq | orchestrator/src/main/kotlin/io/github/akmal2409/ets/orchestrator/onboarding/service/RawFileUploadListener.kt:111-118 | the message is appended to the dead-letter queue with the given header; nothing else changes |
| RawMediaServices.InsertFailure | orchestrator/src/main/kotlin/io/github/akmal2409/ets/orchestrator/onboarding/service/RawMediaService.kt:39-51 | a data-access failure becomes a RawFileException about the key, non-recoverable exactly when it is non-transient; any other exception escapes |
| RawMediaServices.PublishFailureOf | orchestrator/src/main/kotlin/io/github/akmal2409/ets/orchestrator/onboarding/service/RawMediaService.kt:88-96 | a publish failure becomes a RawFileException about the key, recoverable exactly for an I/O failure |
| RawMediaServices.RawMediaService.constructor | orchestrator/src/main/kotlin/io/github/akmal2409/ets/orchestrator/onboarding/service/RawMediaService.kt:21-28 | the service holds the given repositories and broker |
| RawMediaServices.RawMediaService.OnboardRawFile | orchestrator/src/main/kotlin/io/github/akmal2409/ets/orchestrator/onboarding/service/RawMediaService.kt:35-56 | the new state and result are `Onboard` of the old state |
| RawMediaServices.RawMediaService.BeginUnboxingJob | orchestrator/src/main/kotlin/io/github/akmal2409/ets/orchestrator/onboarding/service/RawMediaService.kt:58-101 | the new state and result are `BeginStep` of the old state |
| RawMediaServices.RawMediaService.SaveNewRawFile | orchestrator/src/main/kotlin/io/github/akmal2409/ets/orchestrator/onboarding/service/RawMediaService.kt:103-110 | inserts a media that is not unboxed, at version 0, with no job; the table and result are that insert's outcome |
| RawMediaServices.BeginStepOrder | orchestrator/src/main/kotlin/io/github/akmal2409/ets/orchestrator/onboarding/service/RawMediaService.kt:58-101 | a media that is not unboxed is refused before any write; a failed job insert publishes nothing; on success the job is stored first and exactly the domain's event is published; the media table and the upload queues are untouched |
| RawMediaServices.OnboardFailuresAreClassified | orchestrator/src/main/kotlin/io/github/akmal2409/ets/orchestrator/onboarding/service/RawMediaService.kt:35-101 | every failure is a RawFileException about the requested key, or a non-data-access exception injected at one of the inserts |
| RawMediaServices.OnboardNeverStartsJob | orchestrator/src/main/kotlin/io/github/akmal2409/ets/orchestrator/onboarding/service/RawMediaService.kt:53-62 | onboarding always fails and stores no job and publishes nothing; after a successful insert it ends in AlreadyUnboxedRawFileException with the row stored; a duplicate id becomes InvalidRawFileException |
| RawFileUploadListeners.RejectToDlqState | orchestrator/src/main/kotlin/io/github/akmal2409/ets/orchestrator/onboarding/service/RawFileUploadListener.kt:111-118 | only the dead-letter queue changes, by the message and its count |
| RawFileUploadListeners.RawFileUploadListener.constructor | orchestrator/src/main/kotlin/io/github/akmal2409/ets/orchestrator/onboarding/service/RawFileUploadListener.kt:44-49 | the listener publishes through the same broker as the service |
| RawFileUploadListeners.RawFileUploadListener.ListenToRawFileUploaded | orchestrator/src/main/kotlin/io/github/akmal2409/ets/orchestrator/onboarding/service/RawFileUploadListener.kt:55-94 | the new state and the delivery's end are `Listen` of the old state |
| RawFileUploadListeners.RawFileUploadListener.RejectToDlq | orchestrator/src/main/kotlin/io/github/akmal2409/ets/orchestrator/onboarding/service/RawFileUploadListener.kt:111-118 | the state becomes `RejectToDlqState` of the old state |
| RawFileUploadListeners.MissingHeaderIsZero | orchestrator/src/main/kotlin/io/github/akmal2409/ets/orchestrator/onboarding/service/RawFileUploadListener.kt:60-62 | a missing header behaves as a count of 0 |
| RawFileUploadListeners.RefusedDeliveriesDeadLetter | orchestrator/src/main/kotlin/io/github/akmal2409/ets/orchestrator/onboarding/service/RawFileUploadListener.kt:60-93 | a count above 3 or an unparsable key dead-letters the message with its count and changes nothing else |
| RawFileUploadListeners.LastRetryStillOnboards | orchestrator/src/main/kotlin/io/github/akmal2409/ets/orchestrator/onboarding/service/RawFileUploadListener.kt:60 | a count of exactly 3 still calls the service |
| RawFileUploadListeners.RoutingByFamily | orchestrator/src/main/kotlin/io/github/akmal2409/ets/orchestrator/onboarding/service/RawFileUploadListener.kt:76-92 | a non-recoverable failure dead-letters with the count unchanged; a recoverable one re-queues with the count plus one; success and an escaping exception publish nothing |
| RawFileUploadListeners.AtMostOnePublish | orchestrator/src/main/kotlin/io/github/akmal2409/ets/orchestrator/onboarding/service/RawFileUploadListener.kt:55-94 | each delivery appends at most one upload message, and the queues only grow |
| RawFileUploadListeners.RedeliveryIsBounded | orchestrator/src/main/kotlin/io/github/akmal2409/ets/orchestrator/onboarding/service/RawFileUploadListener.kt:38-39 | following the header from `count` through the retry queue, at most 4 - `count` deliveries reach the service, whichever way each retried attempt ends |
| RawFileUploadListeners.RedeliveryReachesBound | orchestrator/src/main/kotlin/io/github/akmal2409/ets/orchestrator/onboarding/service/RawFileUploadListener.kt:60-92 | when every attempt fails recoverably, exactly 4 - `count` attempts are made and the message is dead-lettered with header 4 |
| RawFileUploadListeners.WellFormedUploadReachesService | orchestrator/src/test/kotlin/io/github/akmal2409/ets/orchestrator/onboarding/service/RawFileUploadListenerTest.kt:27 | a notification `<prefix>/<printed key>` under the retry bound reaches the service with that key |
| ContainerFormats.ContainerFormat.ExtensionByType | media-unboxer/src/main/java/io/github/akmal2409/ets/unboxing/ContainerFormat.java:16-22 | each media type gets its own extension, and the extension tells the type apart; every extension is three characters without `.` or `/` |
| ContainerFormats.ExtensionIdentifiesType | media-unboxer/src/main/java/io/github/akmal2409/ets/unboxing/ContainerFormat.java:4 | two types share an extension exactly when they are equal |
| ContainerFormats.MkvIsTheDefault | media-unboxer/src/main/java/io/github/akmal2409/ets/WorkerConstants.java:10-12 | MKV's extensions are the worker's default containers |
| FileUtils.StripExtension | media-unboxer/src/main/java/io/github/akmal2409/ets/utils/FileUtils.java:18-24 | the result is a prefix of the name; the name is kept exactly when there is no `.` after the first character or it ends in `.`; otherwise it is a non-empty stem cut at the last `.`, with a non-empty extension after it |
| FileUtils.StripAppendedExtension | media-unboxer/src/main/java/io/github/akmal2409/ets/utils/FileUtils.java:18-24 | stripping `stem.ext` gives the stem back |
| FileUtils.StripsOnlyLastExtension | media-unboxer/src/main/java/io/github/akmal2409/ets/utils/FileUtils.java:19 | `a.b.c` becomes `a.b` |
| FileUtils.KeepsNamesWithoutExtension | media-unboxer/src/main/java/io/github/akmal2409/ets/utils/FileUtils.java:21 | a hidden file, a trailing dot and a name without a dot are kept |
| FileUtils.SameNameAfterNewExtension | media-unboxer/src/main/java/io/github/akmal2409/ets/utils/FileUtils.java:18-24 | stripping then adding `.ext` gives the name back exactly when it is a non-empty stem followed by `.ext` |
| S3Locations.SourceFrom | media-unboxer/src/main/java/io/github/akmal2409/ets/store/S3Source.java:28-50 | a null, non-`s3://` or bare `s3://` text fails with the first message; otherwise it parses exactly when some `/` is followed later by a different character; the bucket and file name hold no `/`, and the file name is not empty |
| S3Locations.OutputFrom | media-unboxer/src/main/java/io/github/akmal2409/ets/store/S3Output.java:26-47 | a null, non-`s3://` or bare `s3://` text fails with the first message; otherwise it parses exactly when it is not only slashes after `s3://`; the bucket holds no `/` |
| S3Locations.SourceFromLocation | media-unboxer/src/main/java/io/github/akmal2409/ets/store/S3Source.java:37-49 | `s3://bucket/key` with any trailing slashes parses back to that bucket and key, and the file name is the key's last segment |
| S3Locations.SourceFromIsCanonical | media-unboxer/src/main/java/io/github/akmal2409/ets/store/S3Source.java:37-49 | whatever parses is `s3://bucket/key` followed only by slashes, and its file name is the key's last segment |
| S3Locations.OutputFromLocation | media-unboxer/src/main/java/io/github/akmal2409/ets/store/S3Output.java:35-46 | `s3://bucket` or `s3://bucket/key`, with any trailing slashes, parses back to that bucket and key |
| S3Locations.OutputBucketOnly | media-unboxer/src/main/java/io/github/akmal2409/ets/store/S3Output.java:35-46 | `s3://bucket` with trailing slashes has an empty key |
| S3Locations.OutputWithKey | media-unboxer/src/main/java/io/github/akmal2409/ets/store/S3Output.java:35-46 | `s3://bucket/key` with trailing slashes parses to that bucket and key |
| S3Locations.OutputFromIsCanonical | media-unboxer/src/main/java/io/github/akmal2409/ets/store/S3Output.java:35-46 | whatever parses is `s3://bucket` or `s3://bucket/key` followed only by slashes |
| S3Locations.BucketOnlySourceRefused | media-unboxer/src/main/java/io/github/akmal2409/ets/store/S3Source.java:40-42 | a source naming only a bucket, with or without trailing slashes, is refused |
| S3Locations.BucketOnlyOutputs | media-unboxer/src/main/java/io/github/akmal2409/ets/store/S3Output.java:26-47 | `s3://bucket` and `s3://bucket/` are outputs with an empty key |
| S3Locations.NotLocationsRefused | media-unboxer/src/main/java/io/github/akmal2409/ets/store/S3Source.java:29-35 | null, bare `s3://` and `http://` texts are refused by both parsers |
| S3Locations.EmptyBucketSource | media-unboxer/src/main/java/io/github/akmal2409/ets/store/S3Source.java:37-49 | `s3:///k` parses with an empty bucket |
| S3Locations.TrailingSlashOutput | media-unboxer/src/main/java/io/github/akmal2409/ets/store/S3Output.java:35-46 | the trailing `/` of `s3://b/p/` is lost |
| MediaUnboxers.OfType | media-unboxer/src/main/java/io/github/akmal2409/ets/unboxing/MediaUnboxer.java:112-127 | never yields more streams than were probed |
| MediaUnboxers.OfTypeMembers | media-unboxer/src/main/java/io/github/akmal2409/ets/unboxing/MediaUnboxer.java:115-126 | a stream is kept for type `t` exactly when it was probed with type `t` |
| MediaUnboxers.OfTypeAppend | media-unboxer/src/main/java/io/github/akmal2409/ets/unboxing/MediaUnboxer.java:112-127 | partitioning commutes with concatenation, so probe order is kept |
| MediaUnboxers.AnalyseStreams | media-unboxer/src/main/java/io/github/akmal2409/ets/unboxing/MediaUnboxer.java:101-130 | the loop returns `StreamsOf` of the probed streams |
| MediaUnboxers.AnalysedStreamsBounded | media-unboxer/src/main/java/io/github/akmal2409/ets/unboxing/MediaUnboxer.java:112-127 | at most one record per probed stream |
| MediaUnboxers.UnboxMediaContainer | media-unboxer/src/main/java/io/github/akmal2409/ets/unboxing/MediaUnboxer.java:132-205 | the collection is `CollectionOf` the analysed streams in `outDir` |
| MediaUnboxers.ExtractVideos | media-unboxer/src/main/java/io/github/akmal2409/ets/unboxing/MediaUnboxer.java:155-163 | the loop's list is `VideosOf` the video streams |
| MediaUnboxers.ExtractAudio | media-unboxer/src/main/java/io/github/akmal2409/ets/unboxing/MediaUnboxer.java:165-174 | the loop's list is `AudioOf` the audio streams |
| MediaUnboxers.ExtractSubtitles | media-unboxer/src/main/java/io/github/akmal2409/ets/unboxing/MediaUnboxer.java:176-185 | the loop's list is `SubtitlesOf` the subtitle streams |
| MediaUnboxers.VideosOfAt | media-unboxer/src/main/java/io/github/akmal2409/ets/unboxing/MediaUnboxer.java:155-159 | the i-th video entry is named after the i-th video stream's index and keeps its codec and size |
| MediaUnboxers.AudioOfAt | media-unboxer/src/main/java/io/github/akmal2409/ets/unboxing/MediaUnboxer.java:165-169 | the i-th audio entry belongs to the i-th audio stream |
| MediaUnboxers.SubtitlesOfAt | media-unboxer/src/main/java/io/github/akmal2409/ets/unboxing/MediaUnboxer.java:176-180 | the i-th subtitles entry belongs to the i-th subtitle stream |
| MediaUnboxers.OutputFileNameIsLastElement | media-unboxer/src/main/java/io/github/akmal2409/ets/unboxing/MediaUnboxer.java:156-158 | the name an entry records is the last path element of the formatted output path |
| MediaUnboxers.OutputPathParts | media-unboxer/src/main/java/io/github/akmal2409/ets/unboxing/MediaUnboxer.java:156-157 | the formatted path is the kind's prefix, `-`, the index and the MKV extension for that kind |
| MediaUnboxers.OutputFileNameShape | media-unboxer/src/main/java/io/github/akmal2409/ets/unboxing/MediaUnboxer.java:156-178 | every output name ends in its kind's extension, preceded by the index's digits after the last `-` |
| MediaUnboxers.OutputFileNameInjective | media-unboxer/src/main/java/io/github/akmal2409/ets/unboxing/MediaUnboxer.java:156-178 | two streams with non-negative indices share an output name only when they have the same kind and index |
| MediaUnboxers.ExampleVideoName | media-unboxer/src/main/java/io/github/akmal2409/ets/unboxing/MediaUnboxer.java:156-157 | stream 1 of a video is `video-1.mkv`, whatever its language |
| MediaUnboxers.ExampleAudioName | media-unboxer/src/main/java/io/github/akmal2409/ets/unboxing/MediaUnboxer.java:166-167 | English stream 1 of audio is `audio-eng-1.mka` |
| MediaUnboxers.ExampleSubtitlesName | media-unboxer/src/main/java/io/github/akmal2409/ets/unboxing/MediaUnboxer.java:177-178 | a subtitle stream without a language is `subtitles-null-2.mks` |
| MediaUnboxers.ExampleSlashInLanguage | media-unboxer/src/main/java/io/github/akmal2409/ets/unboxing/MediaUnboxer.java:166-168 | with the language `en/us`, the recorded name is `us-3.mka` |
| MediaUnboxers.ConvertContainerFormat | media-unboxer/src/main/java/io/github/akmal2409/ets/unboxing/MediaUnboxer.java:61-94 | returns the source exactly when `out` is the source's directory and the source is a non-empty stem followed by the target extension (so the converted path equals the source); otherwise null |
| MediaUnboxers.ConvertInPlaceKeepsOnlyMkv | media-unboxer/src/main/java/io/github/akmal2409/ets/JobConsumer.java:80-81 | as the worker calls it, the source comes back exactly when its name is a non-empty stem plus `.mkv` |
| JobConsumers.ValidateJob | media-unboxer/src/main/java/io/github/akmal2409/ets/JobConsumer.java:103-115 | valid exactly when the id is present and the source starts with `s3://`; a missing id is reported as "jobId is null" before a missing or empty source is reported as "source is empty" |
| JobConsumers.DownloadSource | media-unboxer/src/main/java/io/github/akmal2409/ets/store/MediaStore.java:52-89 | succeeds exactly when the source parses and the download works; the file is `<videoFolder>/<jobId>/<fileName>` |
| JobConsumers.JobConsumer.constructor | media-unboxer/src/main/java/io/github/akmal2409/ets/JobConsumer.java:36-44 | the consumer holds the queue and exchange, and no channel calls have been made |
| JobConsumers.JobConsumer.HandleDelivery | media-unboxer/src/main/java/io/github/akmal2409/ets/JobConsumer.java:46-101 | the channel calls made and the outcome are `Handle` of the delivery |
| JobConsumers.JobConsumer.ProcessJob | media-unboxer/src/main/java/io/github/akmal2409/ets/JobConsumer.java:76-97 | the channel calls made and the outcome are `Process` of the valid job |
| JobConsumers.JobConsumer.UnboxJob | media-unboxer/src/main/java/io/github/akmal2409/ets/JobConsumer.java:78-97 | the channel calls made and the outcome are `Unbox` of the download |
| JobConsumers.JobConsumer.PublishReport | media-unboxer/src/main/java/io/github/akmal2409/ets/JobConsumer.java:88-97 | the channel calls made and the outcome are `Report` of the collection |
| JobConsumers.OutIsNeverValidated | media-unboxer/src/main/java/io/github/akmal2409/ets/JobConsumer.java:103-115 | the output location plays no part in validation |
| JobConsumers.ValidationAdmitsUnparsableSources | media-unboxer/src/main/java/io/github/akmal2409/ets/JobConsumer.java:112 | a bucket-only source passes validation yet fails to parse |
| JobConsumers.SourcePassesValidation | media-unboxer/src/main/java/io/github/akmal2409/ets/JobConsumer.java:104-114 | any `s3://` source with an id passes validation |
| JobConsumers.ParsableSourcesValidate | media-unboxer/src/main/java/io/github/akmal2409/ets/JobConsumer.java:103-115 | a job with an id whose source parses passes validation |
| JobConsumers.InvalidDeliveriesAreOnlyAcked | media-unboxer/src/main/java/io/github/akmal2409/ets/JobConsumer.java:51-74 | an unreadable or invalid manifest is acked once and nothing else happens |
| JobConsumers.NullManifestIsNeverAcked | media-unboxer/src/main/java/io/github/akmal2409/ets/JobConsumer.java:49-63 | a body that reads as `null` throws at the debug log before any channel call, so it stays unacked; no other body ends that way |
| JobConsumers.ReportAcked | media-unboxer/src/main/java/io/github/akmal2409/ets/JobConsumer.java:88-97 | reporting acks once, last, or touches nothing; it completes exactly when the output parses and the upload works |
| JobConsumers.UnboxAcked | media-unboxer/src/main/java/io/github/akmal2409/ets/JobConsumer.java:78-97 | the `try` block acks once, last, or touches nothing |
| JobConsumers.ProcessAcked | media-unboxer/src/main/java/io/github/akmal2409/ets/JobConsumer.java:76-97 | past validation, the delivery is acked once, last, or not touched |
| JobConsumers.AckIsLastOrAbsent | media-unboxer/src/main/java/io/github/akmal2409/ets/JobConsumer.java:46-101 | every delivery is acked at most once, and the ack is the last call |
| JobConsumers.CompletedReport | media-unboxer/src/main/java/io/github/akmal2409/ets/JobConsumer.java:76-97 | a completed delivery had a parsable source named `<stem>.mkv` and a parsable output, and nothing failed; it publishes exactly the collection unboxed into `<videoFolder>/<jobId>/unboxed` under `out`, then acks |
| JobConsumers.ProcessCompleted | media-unboxer/src/main/java/io/github/akmal2409/ets/JobConsumer.java:76-97 | `CompletedReport` from the download on |
| JobConsumers.UnboxCompleted | media-unboxer/src/main/java/io/github/akmal2409/ets/JobConsumer.java:80-97 | `CompletedReport` for the `try` block |
| JobConsumers.NonMkvSourceThrows | media-unboxer/src/main/java/io/github/akmal2409/ets/JobConsumer.java:80-82 | a downloaded source not named `<stem>.mkv` throws at the null converted path, with no channel call |
| Handoff.EventIsAcceptedManifest | orchestrator/src/main/kotlin/io/github/akmal2409/ets/orchestrator/onboarding/domain/RawMedia.kt:52-54 | the event of a media with a valid key passes the worker's validation; its source is object `uploaded/<key>` of bucket `raw`, named `<key>`; its out is prefix `unboxed/<key>` of `raw` |
| Handoff.UploadedSource | orchestrator/src/main/kotlin/io/github/akmal2409/ets/orchestrator/onboarding/domain/RawMedia.kt:44 | `s3://raw/uploaded/<t>` parses as object `uploaded/<t>` of bucket `raw`, named `<t>` |
| Handoff.UnboxedOutput | orchestrator/src/main/kotlin/io/github/akmal2409/ets/orchestrator/onboarding/domain/RawMedia.kt:45 | `s3://raw/unboxed/<t>` parses as prefix `unboxed/<t>` of bucket `raw` |
| Handoff.OnlyMkvUploadsComplete | media-unboxer/src/main/java/io/github/akmal2409/ets/JobConsumer.java:80-97 | the worker completes an orchestrator's job only when the printed media key ends in `.mkv` |
| Handoff.NonMkvUploadsThrow | media-unboxer/src/main/java/io/github/akmal2409/ets/JobConsumer.java:80-82 | once downloaded, an orchestrator's job for a non-`.mkv` key throws, leaving the delivery unacknowledged |
| JavaStrings.LastIndexOf | media-unboxer/src/main/java/io/github/akmal2409/ets/utils/FileUtils.java:19 | the largest index holding the character, or -1 when there is none |
| JavaStrings.AfterLast | orchestrator/src/main/kotlin/io/github/akmal2409/ets/orchestrator/onboarding/service/RawFileUploadListener.kt:31 | the text after the last separator holds no separator |
| JavaStrings.DropTrailingEmpty | media-unboxer/src/main/java/io/github/akmal2409/ets/store/S3Source.java:38 | removes exactly the empty strings at the end, keeping the rest in order |
| JavaStrings.JoinPieces | media-unboxer/src/main/java/io/github/akmal2409/ets/store/S3Source.java:38-46 | joining the pieces with the separator gives the text back |
| JavaStrings.PiecesOfJoin | media-unboxer/src/main/java/io/github/akmal2409/ets/store/S3Source.java:38-46 | pieces free of the separator come back from splitting their join |
| JavaStrings.LastPiece | media-unboxer/src/main/java/io/github/akmal2409/ets/store/S3Source.java:45 | the last piece is the text after the last separator |
| JavaStrings.SplitEmptyIffAllSeparators | media-unboxer/src/main/java/io/github/akmal2409/ets/store/S3Output.java:36-40 | `split` yields nothing exactly for a non-empty run of separators |
| JavaStrings.SplitHasTwoPieces | media-unboxer/src/main/java/io/github/akmal2409/ets/store/S3Source.java:38-42 | `split` yields two or more pieces exactly when some separator is followed later by another character |
| JavaStrings.SplitHasNoSep | media-unboxer/src/main/java/io/github/akmal2409/ets/store/S3Source.java:38 | no piece `split` returns holds the separator |
| JavaStrings.SplitRejoined | media-unboxer/src/main/java/io/github/akmal2409/ets/store/S3Source.java:38-46 | joining what `split` returns and adding the dropped separators gives the text back |
| JavaStrings.NatToDecimalDigits | media-unboxer/src/main/java/io/github/akmal2409/ets/unboxing/MediaUnboxer.java:156 | `%d` of a natural prints decimal digits only |
| JavaStrings.NatToDecimalInjective | media-unboxer/src/main/java/io/github/akmal2409/ets/unboxing/MediaUnboxer.java:156 | different naturals print differently |

## Left out

- I/O is left out: FFmpeg and FFprobe runs, file-system checks and directory creation, S3 transfers, JSON (de)serialisation and logging. Probing yields an input list of streams. Downloads, extractions and uploads succeed or fail through the `WorkerIo` flags.
- `MediaUnboxer.extractStream` is left out: it is the FFmpeg invocation itself. So is the muxer name it receives (`DEFAULT_CONTAINER_FORMAT`, `matroska`).
- The executor futures of `unboxMediaContainer` and their shrinking timeout budget (MediaUnboxer.java:187-201) are left out. A failure or timeout is the single `unboxingFails` flag, raised after the collection is built.
- The video frame rate (`getAvgFrameRate().doubleValue()`) is not modelled: it is a floating-point value that no decision depends on.
- The `finally { deleteDirectory(..) }` of `handleDelivery` and `FileUtils.deleteDirectory` are left out. They only remove local files.
- MediaStore.java is modelled only as far as `downloadSource` decides: source parsing and the `<videoFolder>/<jobId>/<fileName>` path. A duplicate job directory is part of `downloadFails`. `uploadProcessedFiles` is modelled as `S3Output.from` plus the `uploadFails` flag.
- JobConsumers.CompletedUnboxing: the report has no job id. The record in CompletedUnboxing.java declares none, although JobConsumer.java:90-93 passes one.
- The mapping between the orchestrator's JSON event and the worker's `Job` record is taken field for field. `ManifestOf` builds the `Job` directly.
- Spring's `@Transactional` rollback of `onboardRawFile` is not modelled. A failed onboarding keeps the rows it wrote, such as the media row in `OnboardNeverStartsJob`.
- Paging in `findAll` (`LIMIT`/`OFFSET`, `COUNT`) and the service's `findAll(page, size)` pass-through are left out. `FindAllRows` lists every row.
- The JSONB `unboxed_files` column is stored as the value it encodes, so no round trip through JSON is modelled.
- Integer widths are not modelled: versions are unbounded integers instead of Kotlin `Long`, and the retry count is unbounded instead of `Int`.
- `listenToDql` (a log call), `listenToUnboxingCompletion` and `RawMediaService.onUnboxingComplete` are not part of this model. `CompleteUnboxing` models the domain step that the service method would call.
- Failures of the listener's own publishes to the retry and dead-letter queues are left out. Those publishes always succeed.
- RawFileUploadListeners.RedeliveryIsBounded: the bound covers redeliveries through the retry queue only. A delivery that escapes the handler is requeued by the listener container with its `X-RETRY-COUNT` header unchanged (MessagingConfig.kt sets no error handler and no `defaultRequeueRejected=false`). That broker requeue is not modelled, and it is not bounded.
- The log message lambda at RawFileUploadListener.kt:61 is left out. It evaluates `msg.objectKey`, which can itself throw.
- MediaType.java is not part of this model. Its constants are taken to be the three that `getExtensionByType` distinguishes.
- The upload API (UploadService.kt, the controllers, presigned URLs) is outside the onboarding core and not modelled.
- JavaStrings.IntToDecimal: the `%d` of a negative index is not proved to be digits. Stream indices from FFprobe are non-negative, and the naming lemmas require `index >= 0` where digits matter.
- MediaUnboxers.OutputFileName is defined in decomposed form: the prefix's last path element, `-`, the index and the extension. `OutputFileNameIsLastElement` proves it equal to `getFileName` of the formatted path.
- JobConsumers.JobConsumer.HandleDelivery: `handleDelivery` is split into stage methods (`ProcessJob`, `UnboxJob`, `PublishReport`). Each is proved against its own stage function.
