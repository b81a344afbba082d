/**
 * The unboxing worker's container table (unboxing/ContainerFormat.java)
 * and its default-container constants (WorkerConstants.java).
 * MediaType.java is not part of this model: its constants are taken to be
 * the three the `switch` of `getExtensionByType` distinguishes.
 */
module ContainerFormats {
  const DEFAULT_VIDEO_CONTAINER: string := "mkv"
  const DEFAULT_AUDIO_CONTAINER: string := "mka"
  const DEFAULT_SUBTITLES_CONTAINER: string := "mks"

  datatype MediaType = VIDEO | AUDIO | SUBTITLES

  /** A container family and the file extension it uses for each kind of media. */
  datatype ContainerFormat = MKV
  {
    function VideoExtension(): string
    {
      match this
      case MKV => "mkv"
    }

    function AudioExtension(): string
    {
      match this
      case MKV => "mka"
    }

    function SubtitlesExtension(): string
    {
      match this
      case MKV => "mks"
    }

    /** `getExtensionByType(type)`: audio and subtitles have their own extension, anything else is video. */
    function ExtensionByType(t: MediaType): (r: string)
      ensures r == AudioExtension() <==> t == AUDIO
      ensures r == SubtitlesExtension() <==> t == SUBTITLES
      ensures r == VideoExtension() <==> t == VIDEO
      ensures |r| == 3 && '.' !in r && '/' !in r
    {
      match t
      case AUDIO => AudioExtension()
      case SUBTITLES => SubtitlesExtension()
      case _ => VideoExtension()
    }
  }

  // ---------------------------------------------------------------------
  // Lemmas

  /** Different media types get different extensions, so the extension tells the type back. */
  lemma ExtensionIdentifiesType(f: ContainerFormat, t1: MediaType, t2: MediaType)
    ensures f.ExtensionByType(t1) == f.ExtensionByType(t2) <==> t1 == t2
  {
  }

  /** MKV's three extensions are the worker's default containers. */
  lemma MkvIsTheDefault()
    ensures MKV.ExtensionByType(VIDEO) == DEFAULT_VIDEO_CONTAINER
    ensures MKV.ExtensionByType(AUDIO) == DEFAULT_AUDIO_CONTAINER
    ensures MKV.ExtensionByType(SUBTITLES) == DEFAULT_SUBTITLES_CONTAINER
  {
  }
}
