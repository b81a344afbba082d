/**
 * The decisions of the worker's MediaUnboxer (unboxing/MediaUnboxer.java):
 * which of FFprobe's streams are extracted, under which output file names,
 * and where a container conversion writes. FFprobe's result is an input
 * list of streams; the FFmpeg runs, the file-system checks and the
 * executor futures with their timeout budget are not part of this model.
 */
module MediaUnboxers {
  import opened Common
  import opened JavaStrings
  import opened FileUtils
  import CF = ContainerFormats

  /** FFprobe's `codec_type` of a stream. */
  datatype StreamType = VIDEO | AUDIO | SUBTITLE | DATA | ATTACHMENT

  /**
   * One stream of FFprobe's result, with what the worker reads of it: the
   * index, codec name, codec type, height, width and the value of the
   * `language` tag (`getTag` yields null when the tag is missing).
   */
  datatype ProbedStream = ProbedStream(
    index: int,
    codecName: Option<string>,
    codecType: StreamType,
    height: int,
    width: int,
    language: Option<string>)

  // The records of MediaStreams.java (the video frame rate is not modelled).
  datatype VideoStream = VideoStream(index: int, codec: Option<string>, height: int, width: int)
  datatype AudioStream = AudioStream(index: int, codec: Option<string>, lang: Option<string>)
  datatype SubtitlesStream = SubtitlesStream(index: int, codec: Option<string>, lang: Option<string>)
  datatype MediaStreams = MediaStreams(
    videoStreams: seq<VideoStream>,
    audioStreams: seq<AudioStream>,
    subtitles: seq<SubtitlesStream>)

  /** A directory, as its path elements. */
  type Dir = seq<string>

  /** A file: its directory and its name (a single path element). */
  datatype FilePath = FilePath(dir: Dir, name: string)

  // The records of MediaCollection.java.
  datatype Video = Video(fileName: string, codec: Option<string>, width: int, height: int)
  datatype Audio = Audio(fileName: string, codec: Option<string>, lang: Option<string>)
  datatype Subtitles = Subtitles(fileName: string, codec: Option<string>, lang: Option<string>)
  datatype MediaCollection = MediaCollection(
    videos: seq<Video>,
    audio: seq<Audio>,
    subtitles: seq<Subtitles>,
    basePath: Dir)

  // ---------------------------------------------------------------------
  // analyseStreams

  /** The streams of type `t`, in probe order (see `OfTypeMembers`). */
  function OfType(ps: seq<ProbedStream>, t: StreamType): (r: seq<ProbedStream>)
    ensures |r| <= |ps|
  {
    if |ps| == 0 then []
    else
      var init, last := ps[..|ps| - 1], ps[|ps| - 1];
      assert ps == init + [last];
      OfType(init, t) + (if last.codecType == t then [last] else [])
  }

  /** The VideoStream record of a probed stream: index, codec, height and width. */
  function VideoStreamOf(p: ProbedStream): VideoStream
  {
    VideoStream(p.index, p.codecName, p.height, p.width)
  }

  /** The AudioStream record of a probed stream: index, codec and language tag. */
  function AudioStreamOf(p: ProbedStream): AudioStream
  {
    AudioStream(p.index, p.codecName, p.language)
  }

  /** The SubtitlesStream record of a probed stream: index, codec and language tag. */
  function SubtitlesStreamOf(p: ProbedStream): SubtitlesStream
  {
    SubtitlesStream(p.index, p.codecName, p.language)
  }

  /** The VideoStream record of each stream, in order (see `StreamRecordsAt`). */
  function VideoStreamsOf(ps: seq<ProbedStream>): (r: seq<VideoStream>)
    ensures |r| == |ps|
  {
    if |ps| == 0 then [] else VideoStreamsOf(ps[..|ps| - 1]) + [VideoStreamOf(ps[|ps| - 1])]
  }

  /** The AudioStream record of each stream, in order. */
  function AudioStreamsOf(ps: seq<ProbedStream>): (r: seq<AudioStream>)
    ensures |r| == |ps|
  {
    if |ps| == 0 then [] else AudioStreamsOf(ps[..|ps| - 1]) + [AudioStreamOf(ps[|ps| - 1])]
  }

  /** The SubtitlesStream record of each stream, in order. */
  function SubtitlesStreamsOf(ps: seq<ProbedStream>): (r: seq<SubtitlesStream>)
    ensures |r| == |ps|
  {
    if |ps| == 0 then [] else SubtitlesStreamsOf(ps[..|ps| - 1]) + [SubtitlesStreamOf(ps[|ps| - 1])]
  }

  /** What `analyseStreams` returns for FFprobe's streams. */
  function StreamsOf(ps: seq<ProbedStream>): MediaStreams
  {
    MediaStreams(VideoStreamsOf(OfType(ps, VIDEO)), AudioStreamsOf(OfType(ps, AUDIO)),
                 SubtitlesStreamsOf(OfType(ps, SUBTITLE)))
  }

  /**
   * `analyseStreams(mediaPath)` once FFprobe has listed the streams: audio,
   * subtitle and video streams go to their own list, anything else is
   * ignored.
   */
  method AnalyseStreams(probed: seq<ProbedStream>) returns (streams: MediaStreams)
    ensures streams == StreamsOf(probed)
  {
    var audioStreams: seq<AudioStream> := [];
    var videoStreams: seq<VideoStream> := [];
    var subtitles: seq<SubtitlesStream> := [];
    for i := 0 to |probed|
      invariant MediaStreams(videoStreams, audioStreams, subtitles) == StreamsOf(probed[..i])
    {
      var stream := probed[i];
      StreamsOfSnoc(probed, i);
      match stream.codecType {
        case AUDIO =>
          audioStreams := audioStreams + [AudioStreamOf(stream)];
        case SUBTITLE =>
          subtitles := subtitles + [SubtitlesStreamOf(stream)];
        case VIDEO =>
          videoStreams := videoStreams + [VideoStreamOf(stream)];
        case _ =>
      }
    }
    assert probed[..|probed|] == probed;
    return MediaStreams(videoStreams, audioStreams, subtitles);
  }

  /** One more probed stream goes to the end of its own type's list, or nowhere. */
  lemma StreamsOfSnoc(probed: seq<ProbedStream>, i: nat)
    requires i < |probed|
    ensures var s, p := StreamsOf(probed[..i]), probed[i];
      StreamsOf(probed[..i + 1]) ==
        match p.codecType
        case AUDIO => s.(audioStreams := s.audioStreams + [AudioStreamOf(p)])
        case SUBTITLE => s.(subtitles := s.subtitles + [SubtitlesStreamOf(p)])
        case VIDEO => s.(videoStreams := s.videoStreams + [VideoStreamOf(p)])
        case _ => s
  {
    var p := probed[i];
    OfTypeSnoc(probed, i, VIDEO);
    OfTypeSnoc(probed, i, AUDIO);
    OfTypeSnoc(probed, i, SUBTITLE);
    StreamsSnoc(OfType(probed[..i], VIDEO), p);
    StreamsSnoc(OfType(probed[..i], AUDIO), p);
    StreamsSnoc(OfType(probed[..i], SUBTITLE), p);
    assert OfType(probed[..i], VIDEO) + [] == OfType(probed[..i], VIDEO);
    assert OfType(probed[..i], AUDIO) + [] == OfType(probed[..i], AUDIO);
    assert OfType(probed[..i], SUBTITLE) + [] == OfType(probed[..i], SUBTITLE);
  }

  /** One more probed stream extends the streams of its own type only. */
  lemma OfTypeSnoc(ps: seq<ProbedStream>, i: nat, t: StreamType)
    requires i < |ps|
    ensures OfType(ps[..i + 1], t) == OfType(ps[..i], t) + (if ps[i].codecType == t then [ps[i]] else [])
  {
    assert ps[..i + 1][..i] == ps[..i];
  }

  /** The three record conversions, one stream further. */
  lemma StreamsSnoc(ps: seq<ProbedStream>, p: ProbedStream)
    ensures VideoStreamsOf(ps + [p]) == VideoStreamsOf(ps) + [VideoStreamOf(p)]
    ensures AudioStreamsOf(ps + [p]) == AudioStreamsOf(ps) + [AudioStreamOf(p)]
    ensures SubtitlesStreamsOf(ps + [p]) == SubtitlesStreamsOf(ps) + [SubtitlesStreamOf(p)]
  {
    assert (ps + [p])[..|ps|] == ps;
  }

  // ---------------------------------------------------------------------
  // unboxMediaContainer

  /** `outDir.resolve(name).getFileName().toString()`: the name's last path element. */
  function FileNameOf(name: string): string
  {
    AfterLast(name, '/')
  }

  /**
   * The path, relative to `outDir`, a stream is extracted to:
   * `video-%d.mkv`, `audio-%s-%d.mka` or `subtitles-%s-%d.mks`, with a
   * missing language printed as `null`.
   */
  function OutputPath(kind: CF.MediaType, lang: Option<string>, index: int): string
  {
    match kind
    case VIDEO => "video-" + IntToDecimal(index) + "." + CF.DEFAULT_VIDEO_CONTAINER
    case AUDIO => "audio-" + Show(lang) + "-" + IntToDecimal(index) + "." + CF.DEFAULT_AUDIO_CONTAINER
    case SUBTITLES => "subtitles-" + Show(lang) + "-" + IntToDecimal(index) + "." + CF.DEFAULT_SUBTITLES_CONTAINER
  }

  /** The literal text of an output path before its `-<index>` part. */
  function NamePrefix(kind: CF.MediaType, lang: Option<string>): string
  {
    match kind
    case VIDEO => "video"
    case AUDIO => "audio-" + Show(lang)
    case SUBTITLES => "subtitles-" + Show(lang)
  }

  /**
   * The file name an entry records, `FileNameOf(OutputPath(..))`: since
   * the index and the extension hold no `/`, only the prefix can lose a
   * leading part (see `OutputFileNameIsLastElement`).
   */
  function OutputFileName(kind: CF.MediaType, lang: Option<string>, index: int): string
  {
    AfterLast(NamePrefix(kind, lang), '/') + "-" + IntToDecimal(index) + "." + CF.ContainerFormat.MKV.ExtensionByType(kind)
  }

  /**
   * The entry the video loop adds for one video stream: the stream is
   * extracted to `outDir/video-<index>.mkv`, and the entry names that
   * file's last path element.
   */
  function VideoEntry(v: VideoStream): Video
  {
    Video(OutputFileName(CF.VIDEO, None, v.index), v.codec, v.width, v.height)
  }

  /** The entry the audio loop adds for one audio stream: `audio-<lang>-<index>.mka`. */
  function AudioEntry(a: AudioStream): Audio
  {
    Audio(OutputFileName(CF.AUDIO, a.lang, a.index), a.codec, a.lang)
  }

  /** The entry the subtitles loop adds for one subtitle stream: `subtitles-<lang>-<index>.mks`. */
  function SubtitlesEntry(s: SubtitlesStream): Subtitles
  {
    Subtitles(OutputFileName(CF.SUBTITLES, s.lang, s.index), s.codec, s.lang)
  }

  /** The Video entry of each video stream, in order (see `VideosOfAt`). */
  function VideosOf(vs: seq<VideoStream>): (r: seq<Video>)
    ensures |r| == |vs|
  {
    if |vs| == 0 then [] else VideosOf(vs[..|vs| - 1]) + [VideoEntry(vs[|vs| - 1])]
  }

  /** The Audio entry of each audio stream, in order (see `AudioOfAt`). */
  function AudioOf(as_: seq<AudioStream>): (r: seq<Audio>)
    ensures |r| == |as_|
  {
    if |as_| == 0 then [] else AudioOf(as_[..|as_| - 1]) + [AudioEntry(as_[|as_| - 1])]
  }

  /** The Subtitles entry of each subtitle stream, in order (see `SubtitlesOfAt`). */
  function SubtitlesOf(ss: seq<SubtitlesStream>): (r: seq<Subtitles>)
    ensures |r| == |ss|
  {
    if |ss| == 0 then [] else SubtitlesOf(ss[..|ss| - 1]) + [SubtitlesEntry(ss[|ss| - 1])]
  }

  /** The collection `unboxMediaContainer` returns for analysed streams. */
  function CollectionOf(streams: MediaStreams, outDir: Dir): MediaCollection
  {
    MediaCollection(VideosOf(streams.videoStreams), AudioOf(streams.audioStreams),
                    SubtitlesOf(streams.subtitles), outDir)
  }

  /**
   * `unboxMediaContainer(src, outDir)` once the streams are probed: one
   * entry per analysed stream, videos then audio then subtitles, each
   * naming the file its stream is extracted to.
   */
  method UnboxMediaContainer(probed: seq<ProbedStream>, outDir: Dir) returns (c: MediaCollection)
    ensures c == CollectionOf(StreamsOf(probed), outDir)
  {
    var streams := AnalyseStreams(probed);
    var videos := ExtractVideos(streams.videoStreams);
    var audios := ExtractAudio(streams.audioStreams);
    var subtitles := ExtractSubtitles(streams.subtitles);
    return MediaCollection(videos, audios, subtitles, outDir);
  }

  /** The video loop of `unboxMediaContainer`: one entry per video stream, in order. */
  method ExtractVideos(vs: seq<VideoStream>) returns (videos: seq<Video>)
    ensures videos == VideosOf(vs)
  {
    videos := [];
    for i := 0 to |vs|
      invariant videos == VideosOf(vs[..i])
    {
      VideosSnoc(vs, i);
      videos := videos + [VideoEntry(vs[i])];
    }
    assert vs[..|vs|] == vs;
  }

  /** The audio loop of `unboxMediaContainer`: one entry per audio stream, in order. */
  method ExtractAudio(as_: seq<AudioStream>) returns (audios: seq<Audio>)
    ensures audios == AudioOf(as_)
  {
    audios := [];
    for i := 0 to |as_|
      invariant audios == AudioOf(as_[..i])
    {
      AudioSnoc(as_, i);
      audios := audios + [AudioEntry(as_[i])];
    }
    assert as_[..|as_|] == as_;
  }

  /** The subtitles loop of `unboxMediaContainer`: one entry per subtitle stream, in order. */
  method ExtractSubtitles(ss: seq<SubtitlesStream>) returns (subtitles: seq<Subtitles>)
    ensures subtitles == SubtitlesOf(ss)
  {
    subtitles := [];
    for i := 0 to |ss|
      invariant subtitles == SubtitlesOf(ss[..i])
    {
      SubtitlesSnoc(ss, i);
      subtitles := subtitles + [SubtitlesEntry(ss[i])];
    }
    assert ss[..|ss|] == ss;
  }

  /** The video entries, one stream further. */
  lemma VideosSnoc(vs: seq<VideoStream>, i: nat)
    requires i < |vs|
    ensures VideosOf(vs[..i + 1]) == VideosOf(vs[..i]) + [VideoEntry(vs[i])]
  {
    assert vs[..i + 1][..i] == vs[..i];
  }

  /** The audio entries, one stream further. */
  lemma AudioSnoc(as_: seq<AudioStream>, i: nat)
    requires i < |as_|
    ensures AudioOf(as_[..i + 1]) == AudioOf(as_[..i]) + [AudioEntry(as_[i])]
  {
    assert as_[..i + 1][..i] == as_[..i];
  }

  /** The subtitles entries, one stream further. */
  lemma SubtitlesSnoc(ss: seq<SubtitlesStream>, i: nat)
    requires i < |ss|
    ensures SubtitlesOf(ss[..i + 1]) == SubtitlesOf(ss[..i]) + [SubtitlesEntry(ss[i])]
  {
    assert ss[..i + 1][..i] == ss[..i];
  }

  // ---------------------------------------------------------------------
  // convertContainerFormat

  /** The file `convertContainerFormat` writes: the source's name with its extension replaced, inside `out`. */
  function ConversionTarget(src: FilePath, out: Dir, format: CF.ContainerFormat, mediaType: CF.MediaType): FilePath
  {
    FilePath(out, StripExtension(src.name) + "." + format.ExtensionByType(mediaType))
  }

  /**
   * `convertContainerFormat(src, out, format, type)`: `src` itself when the
   * target is `src` (nothing to convert), otherwise null (`None`) once
   * FFmpeg has written the target.
   */
  function ConvertContainerFormat(src: FilePath, out: Dir, format: CF.ContainerFormat, mediaType: CF.MediaType)
    : (r: Option<FilePath>)
    ensures r.Some? ==> r.value == src
    ensures r.Some? <==> out == src.dir && EndsWith(src.name, "." + format.ExtensionByType(mediaType)) && |src.name| > 4
  {
    SameNameAfterNewExtension(src.name, format.ExtensionByType(mediaType));
    if ConversionTarget(src, out, format, mediaType) == src then Some(src) else None
  }

  // ---------------------------------------------------------------------
  // Lemmas

  /** `analyseStreams` keeps at most one entry per probed stream. */
  lemma {:induction false} AnalysedStreamsBounded(ps: seq<ProbedStream>)
    ensures var s := StreamsOf(ps);
      |s.videoStreams| + |s.audioStreams| + |s.subtitles| <= |ps|
  {
    if |ps| > 0 {
      AnalysedStreamsBounded(ps[..|ps| - 1]);
    }
  }

  /** `OfType` keeps exactly the streams of type `t`. */
  lemma {:induction false} OfTypeMembers(ps: seq<ProbedStream>, t: StreamType)
    ensures forall p :: p in OfType(ps, t) <==> p in ps && p.codecType == t
  {
    if |ps| > 0 {
      var init, last := ps[..|ps| - 1], ps[|ps| - 1];
      OfTypeMembers(init, t);
      assert ps == init + [last];
    }
  }

  /** Partitioning commutes with concatenation: the relative order of the probed streams is kept. */
  lemma {:induction false} OfTypeAppend(xs: seq<ProbedStream>, ys: seq<ProbedStream>, t: StreamType)
    ensures OfType(xs + ys, t) == OfType(xs, t) + OfType(ys, t)
  {
    if |ys| == 0 {
      assert xs + ys == xs;
    } else {
      var init, last := ys[..|ys| - 1], ys[|ys| - 1];
      assert (xs + ys)[|xs + ys| - 1] == last;
      assert (xs + ys)[..|xs + ys| - 1] == xs + init;
      OfTypeAppend(xs, init, t);
    }
  }

  /** The i-th video entry is the entry of the i-th video stream. */
  lemma {:induction false} VideosOfAt(vs: seq<VideoStream>, i: nat)
    requires i < |vs|
    ensures VideosOf(vs)[i] == VideoEntry(vs[i])
  {
    if i < |vs| - 1 {
      VideosOfAt(vs[..|vs| - 1], i);
    }
  }

  /** The i-th audio entry is the entry of the i-th audio stream. */
  lemma {:induction false} AudioOfAt(as_: seq<AudioStream>, i: nat)
    requires i < |as_|
    ensures AudioOf(as_)[i] == AudioEntry(as_[i])
  {
    if i < |as_| - 1 {
      AudioOfAt(as_[..|as_| - 1], i);
    }
  }

  /** The i-th subtitles entry is the entry of the i-th subtitle stream. */
  lemma {:induction false} SubtitlesOfAt(ss: seq<SubtitlesStream>, i: nat)
    requires i < |ss|
    ensures SubtitlesOf(ss)[i] == SubtitlesEntry(ss[i])
  {
    if i < |ss| - 1 {
      SubtitlesOfAt(ss[..|ss| - 1], i);
    }
  }

  /** The digits of an index hold no `/` and no `.`; those of a non-negative index hold no `-` either. */
  lemma DigitsOnly(index: int)
    ensures '/' !in IntToDecimal(index) && '.' !in IntToDecimal(index)
    ensures index >= 0 ==> IntToDecimal(index) == NatToDecimal(index) && '-' !in NatToDecimal(index)
  {
    if index < 0 {
      NatToDecimalDigits(-index);
    } else {
      NatToDecimalDigits(index);
    }
  }

  /** `getFileName` of `prefix-digits.ext` when neither the digits nor the extension hold a `/`. */
  lemma FileNameOfFormatted(prefix: string, d: string, ext: string)
    requires '/' !in d && '/' !in ext
    ensures FileNameOf(prefix + "-" + d + "." + ext) == AfterLast(prefix, '/') + "-" + d + "." + ext
  {
    var tail := "-" + d + "." + ext;
    assert prefix + "-" + d + "." + ext == prefix + tail;
    AfterLastExtend(prefix, tail, '/');
  }

  /** The prefix, `-`, the index and the extension make up the formatted path. */
  lemma OutputPathParts(kind: CF.MediaType, lang: Option<string>, index: int)
    ensures OutputPath(kind, lang, index) ==
      NamePrefix(kind, lang) + "-" + IntToDecimal(index) + "." + CF.ContainerFormat.MKV.ExtensionByType(kind)
  {
  }

  /**
   * The name each entry records is the last path element of the path its
   * stream is extracted to: `getFileName` only cuts into the language.
   */
  lemma OutputFileNameIsLastElement(kind: CF.MediaType, lang: Option<string>, index: int)
    ensures OutputFileName(kind, lang, index) == FileNameOf(OutputPath(kind, lang, index))
  {
    OutputPathParts(kind, lang, index);
    DigitsOnly(index);
    FileNameOfFormatted(NamePrefix(kind, lang), IntToDecimal(index), CF.ContainerFormat.MKV.ExtensionByType(kind));
  }

  /**
   * Every output name ends in its kind's extension, and the digits between
   * its last `-` and that extension are the stream index.
   */
  lemma OutputFileNameShape(kind: CF.MediaType, lang: Option<string>, index: int)
    requires index >= 0
    ensures var n := OutputFileName(kind, lang, index);
      |n| > 4 && n[|n| - 4..] == "." + CF.ContainerFormat.MKV.ExtensionByType(kind) &&
      AfterLast(n[..|n| - 4], '-') == NatToDecimal(index)
  {
    DigitsOnly(index);
    var p := AfterLast(NamePrefix(kind, lang), '/');
    var d := NatToDecimal(index);
    var ext := CF.ContainerFormat.MKV.ExtensionByType(kind);
    assert OutputFileName(kind, lang, index) == p + "-" + d + "." + ext;
    FormattedShape(p, d, ext);
  }

  /** `prefix-digits.ext` with a three-letter extension ends in `.ext`, and its digits follow the last `-` before it. */
  lemma FormattedShape(p: string, d: string, ext: string)
    requires '-' !in d && |ext| == 3
    ensures var n := p + "-" + d + "." + ext;
      |n| > 4 && n[|n| - 4..] == "." + ext && AfterLast(n[..|n| - 4], '-') == d
  {
    var n := p + "-" + d + "." + ext;
    assert n[..|n| - 4] == p + "-" + d;
    assert n[|n| - 4..] == "." + ext;
    AfterLastOfAppend(p, '-', d);
  }

  /** `prefix-digits.ext` with a three-letter extension gives back its digits and extension. */
  lemma FormattedInjective(p1: string, d1: string, e1: string, p2: string, d2: string, e2: string)
    requires '-' !in d1 && '-' !in d2 && |e1| == 3 && |e2| == 3
    requires p1 + "-" + d1 + "." + e1 == p2 + "-" + d2 + "." + e2
    ensures e1 == e2 && d1 == d2
  {
    var n := p1 + "-" + d1 + "." + e1;
    assert n[|n| - 3..] == e1;
    assert n == p2 + "-" + d2 + "." + e2;
    assert n[|n| - 3..] == e2;
    assert n[..|n| - 4] == p1 + "-" + d1;
    assert n[..|n| - 4] == p2 + "-" + d2;
    AfterLastOfAppend(p1, '-', d1);
    AfterLastOfAppend(p2, '-', d2);
    assert p1 + "-" + d1 == p1 + ['-'] + d1;
    assert p2 + "-" + d2 == p2 + ['-'] + d2;
  }

  /**
   * An output file name tells its stream back: streams with non-negative
   * indices get the same name only when they are of the same kind and have
   * the same index, so streams with distinct indices never share a file.
   */
  lemma OutputFileNameInjective(k1: CF.MediaType, l1: Option<string>, i1: int,
                                k2: CF.MediaType, l2: Option<string>, i2: int)
    requires i1 >= 0 && i2 >= 0
    requires OutputFileName(k1, l1, i1) == OutputFileName(k2, l2, i2)
    ensures k1 == k2 && i1 == i2
  {
    DigitsOnly(i1);
    DigitsOnly(i2);
    var e1 := CF.ContainerFormat.MKV.ExtensionByType(k1);
    var e2 := CF.ContainerFormat.MKV.ExtensionByType(k2);
    FormattedInjective(AfterLast(NamePrefix(k1, l1), '/'), NatToDecimal(i1), e1,
                       AfterLast(NamePrefix(k2, l2), '/'), NatToDecimal(i2), e2);
    CF.ExtensionIdentifiesType(CF.ContainerFormat.MKV, k1, k2);
    NatToDecimalInjective(i1, i2);
  }

  /** The name of a stream whose index is one digit, from the last element of its prefix and its extension. */
  lemma OneDigitName(kind: CF.MediaType, lang: Option<string>, index: int, base: string, c: char, ext: string, name: string)
    requires AfterLast(NamePrefix(kind, lang), '/') == base
    requires 0 <= index < 10 && c == '0' + index as char
    requires CF.ContainerFormat.MKV.ExtensionByType(kind) == ext
    requires name == base + "-" + [c] + "." + ext
    ensures OutputFileName(kind, lang, index) == name
  {
    OneDigitDecimal(index, c);
  }

  /** The last path element of the video prefix is `video`. */
  lemma VideoBase(lang: Option<string>)
    ensures AfterLast(NamePrefix(CF.VIDEO, lang), '/') == "video"
  {
    AfterLastWithout("video", '/');
  }

  /** The last path element of the English audio prefix is `audio-eng`. */
  lemma AudioEngBase()
    ensures AfterLast(NamePrefix(CF.AUDIO, Some("eng")), '/') == "audio-eng"
  {
    assert NamePrefix(CF.AUDIO, Some("eng")) == "audio-eng";
    AfterLastWithout("audio-eng", '/');
  }

  /** The last path element of the prefix of a subtitle stream without a language is `subtitles-null`. */
  lemma SubtitlesNullBase()
    ensures AfterLast(NamePrefix(CF.SUBTITLES, None), '/') == "subtitles-null"
  {
    assert NamePrefix(CF.SUBTITLES, None) == "subtitles-null";
    AfterLastWithout("subtitles-null", '/');
  }

  /** The last path element of the audio prefix for the language `en/us` is `us`. */
  lemma SlashLanguageBase()
    ensures AfterLast(NamePrefix(CF.AUDIO, Some("en/us")), '/') == "us"
  {
    assert NamePrefix(CF.AUDIO, Some("en/us")) == "audio-en" + "/" + "us";
    AfterLastOfAppend("audio-en", '/', "us");
  }

  /** `video-1.mkv`: a video name does not depend on any language. */
  lemma ExampleVideoName(lang: Option<string>)
    ensures OutputFileName(CF.VIDEO, lang, 1) == "video-1.mkv"
  {
    VideoBase(lang);
    VideoExtensionIsMkv();
    OneDigitName(CF.VIDEO, lang, 1, "video", '1', "mkv", "video-1.mkv");
  }

  /** Video streams are written as `.mkv` files. */
  lemma VideoExtensionIsMkv()
    ensures CF.ContainerFormat.MKV.ExtensionByType(CF.VIDEO) == "mkv"
    ensures "video-1.mkv" == "video" + "-" + ['1'] + "." + "mkv"
  {
  }

  /** `audio-eng-1.mka` for an English track. */
  lemma ExampleAudioName()
    ensures OutputFileName(CF.AUDIO, Some("eng"), 1) == "audio-eng-1.mka"
  {
    AudioEngBase();
    OneDigitName(CF.AUDIO, Some("eng"), 1, "audio-eng", '1', "mka", "audio-eng-1.mka");
  }

  /** A subtitle stream without a language tag is written to `subtitles-null-<index>.mks`. */
  lemma ExampleSubtitlesName()
    ensures OutputFileName(CF.SUBTITLES, None, 2) == "subtitles-null-2.mks"
  {
    SubtitlesNullBase();
    OneDigitName(CF.SUBTITLES, None, 2, "subtitles-null", '2', "mks", "subtitles-null-2.mks");
  }

  /** A language tag holding a `/` loses everything up to its last `/` to `getFileName`. */
  lemma ExampleSlashInLanguage()
    ensures OutputFileName(CF.AUDIO, Some("en/us"), 3) == "us-3.mka"
  {
    SlashLanguageBase();
    OneDigitName(CF.AUDIO, Some("en/us"), 3, "us", '3', "mka", "us-3.mka");
  }

  /**
   * As the worker calls it (into the source's own directory, MKV, VIDEO),
   * `convertContainerFormat` returns the source exactly when its name is a
   * non-empty stem followed by `.mkv`; for any other name it returns null.
   */
  lemma ConvertInPlaceKeepsOnlyMkv(src: FilePath)
    ensures ConvertContainerFormat(src, src.dir, CF.ContainerFormat.MKV, CF.VIDEO).Some? <==> EndsWith(src.name, ".mkv") && |src.name| > 4
    ensures ConvertContainerFormat(src, src.dir, CF.ContainerFormat.MKV, CF.VIDEO).Some? ==>
      ConvertContainerFormat(src, src.dir, CF.ContainerFormat.MKV, CF.VIDEO).value == src
  {
  }
}
