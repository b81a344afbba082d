/**
 * The report the unboxing worker sends when it is done
 * (controller/dto/unboxing/UnboxingCompletedEvent.kt) and its conversion
 * into the domain's `UnboxedFiles`: three element-wise `map` calls.
 */
module UnboxingCompletedEvents {
  import opened RawMediaKeys
  import opened RawMediaDomain

  datatype VideoDto = VideoDto(filename: string, codec: string, width: int, height: int)
  datatype AudioDto = AudioDto(filename: string, codec: string, lang: string)
  datatype SubtitlesDto = SubtitlesDto(filename: string, codec: string, lang: string)

  datatype UnboxingCompletedEvent = UnboxingCompletedEvent(
    jobId: Uuid,
    videos: seq<VideoDto>,
    audio: seq<AudioDto>,
    subtitles: seq<SubtitlesDto>,
    outputPrefix: string)

  /** `videos.map { Video(it.filename, it.codec, it.width, it.height) }`. */
  function MapVideos(ds: seq<VideoDto>): (r: seq<Video>)
    ensures |r| == |ds|
    ensures forall i :: 0 <= i < |ds| ==>
      r[i].filename == ds[i].filename && r[i].codec == ds[i].codec &&
      r[i].width == ds[i].width && r[i].height == ds[i].height
  {
    if |ds| == 0 then []
    else [Video(ds[0].filename, ds[0].codec, ds[0].width, ds[0].height)] + MapVideos(ds[1..])
  }

  /** `audio.map { Audio(it.filename, it.codec, it.lang) }`. */
  function MapAudio(ds: seq<AudioDto>): (r: seq<Audio>)
    ensures |r| == |ds|
    ensures forall i :: 0 <= i < |ds| ==>
      r[i].filename == ds[i].filename && r[i].codec == ds[i].codec && r[i].lang == ds[i].lang
  {
    if |ds| == 0 then []
    else [Audio(ds[0].filename, ds[0].codec, ds[0].lang)] + MapAudio(ds[1..])
  }

  /** `subtitles.map { Subtitles(it.filename, it.codec, it.lang) }`. */
  function MapSubtitles(ds: seq<SubtitlesDto>): (r: seq<Subtitles>)
    ensures |r| == |ds|
    ensures forall i :: 0 <= i < |ds| ==>
      r[i].filename == ds[i].filename && r[i].codec == ds[i].codec && r[i].lang == ds[i].lang
  {
    if |ds| == 0 then []
    else [Subtitles(ds[0].filename, ds[0].codec, ds[0].lang)] + MapSubtitles(ds[1..])
  }

  /** `toDomainUnboxedFiles()`: the job id and the output prefix are not carried over. */
  function ToDomainUnboxedFiles(e: UnboxingCompletedEvent): (f: UnboxedFiles)
    ensures |f.videos| == |e.videos| && |f.audio| == |e.audio| && |f.subtitles| == |e.subtitles|
    ensures forall i :: 0 <= i < |e.videos| ==>
      f.videos[i] == Video(e.videos[i].filename, e.videos[i].codec, e.videos[i].width, e.videos[i].height)
    ensures forall i :: 0 <= i < |e.audio| ==>
      f.audio[i] == Audio(e.audio[i].filename, e.audio[i].codec, e.audio[i].lang)
    ensures forall i :: 0 <= i < |e.subtitles| ==>
      f.subtitles[i] == Subtitles(e.subtitles[i].filename, e.subtitles[i].codec, e.subtitles[i].lang)
  {
    UnboxedFiles(MapVideos(e.videos), MapAudio(e.audio), MapSubtitles(e.subtitles))
  }

  // ---------------------------------------------------------------------
  // Lemmas

  /** The conversion depends only on the three lists: the job id and output prefix are dropped. */
  lemma ConversionIgnoresJobAndPrefix(e: UnboxingCompletedEvent, jobId: Uuid, outputPrefix: string)
    ensures ToDomainUnboxedFiles(e.(jobId := jobId, outputPrefix := outputPrefix)) == ToDomainUnboxedFiles(e)
  {
  }

  /** Mapping distributes over concatenation, so order is kept across any split of the list. */
  lemma {:induction false} MapVideosAppend(xs: seq<VideoDto>, ys: seq<VideoDto>)
    ensures MapVideos(xs + ys) == MapVideos(xs) + MapVideos(ys)
  {
    if |xs| > 0 {
      assert (xs + ys)[1..] == xs[1..] + ys;
      MapVideosAppend(xs[1..], ys);
    }
  }

  /** The empty report of RawMediaTest.kt converts to empty lists. */
  lemma EmptyReportHasNoFiles(jobId: Uuid, outputPrefix: string)
    ensures ToDomainUnboxedFiles(UnboxingCompletedEvent(jobId, [], [], [], outputPrefix)) == UnboxedFiles([], [], [])
  {
  }
}
