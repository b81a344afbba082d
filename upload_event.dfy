/**
 * The storage notification that announces an upload
 * (`UploadEvent` in RawFileUploadListener.kt), the object key it names,
 * and the onboarding request the listener derives from it
 * (`RawFileCreateRequest.fromObjectKey`, which only wraps `RawMediaKey.fromString`).
 */
module UploadEvents {
  import opened Common
  import opened JavaStrings
  import opened RawMediaKeys

  /** `UploadEvent(type, fullKey)`; `fullKey` is the bucket-qualified path of the object. */
  datatype UploadEvent = UploadEvent(eventName: string, fullKey: string)

  /**
   * `objectKey`: the text after the last `/`. The guard
   * `lastSlashIdx != -1 || lastSlashIdx == fullKey.length - 1` lets a slash-free
   * key through only when it is empty; otherwise it raises
   * IllegalArgumentException, modelled as `None`.
   */
  function ObjectKey(e: UploadEvent): (r: Option<string>)
    ensures r.None? <==> '/' !in e.fullKey && e.fullKey != ""
    ensures r.Some? ==> '/' !in r.value && EndsWith(e.fullKey, r.value)
    ensures r.Some? && r.value != e.fullKey ==> e.fullKey[|e.fullKey| - |r.value| - 1] == '/'
  {
    var lastSlashIdx := LastIndexOf(e.fullKey, '/');
    if lastSlashIdx != -1 || lastSlashIdx == |e.fullKey| - 1 then
      var r := e.fullKey[lastSlashIdx + 1..];
      assert '/' !in r by {
        forall j | 0 <= j < |r| ensures r[j] != '/' {
          assert r[j] == e.fullKey[lastSlashIdx + 1 + j];
        }
      }
      Some(r)
    else
      None
  }

  /**
   * The `try { RawFileCreateRequest.fromObjectKey(msg.objectKey) } catch
   * (IllegalArgumentException)` of the listener: the key of the media to
   * onboard, or `None` when either step threw.
   */
  function ParseRequest(e: UploadEvent): (r: Option<RawMediaKey>)
    ensures r.Some? <==> ObjectKey(e).Some? && FromString(ObjectKey(e).value).Some?
    ensures r.Some? ==> r == FromString(ObjectKey(e).value)
  {
    match ObjectKey(e)
    case None => None
    case Some(objectKey) => FromString(objectKey)
  }

  // ---------------------------------------------------------------------
  // Lemmas

  /** The object key is the last `/`-separated piece of the full key, the one Java's split would return last. */
  lemma ObjectKeyIsLastPiece(e: UploadEvent)
    requires ObjectKey(e).Some?
    ensures ObjectKey(e).value == Pieces(e.fullKey, '/')[|Pieces(e.fullKey, '/')| - 1]
  {
    LastPiece(e.fullKey, '/');
  }

  /**
   * The upload notification for a stored key `<prefix>/<id>_<name>` names
   * exactly that key, whatever the prefix.
   */
  lemma UploadedKeyParses(eventName: string, prefix: string, k: RawMediaKey)
    requires IsValidName(k.name)
    ensures ParseRequest(UploadEvent(eventName, prefix + "/" + ToString(k))) == Some(k)
  {
    PrintedKeyIsName(k);
    AfterLastOfAppend(prefix, '/', ToString(k));
    FromStringToString(k);
  }

  /** An empty full key passes the guard and yields an empty object key, which no media key matches. */
  lemma EmptyFullKeyPassesGuard(eventName: string)
    ensures ObjectKey(UploadEvent(eventName, "")) == Some("")
    ensures ParseRequest(UploadEvent(eventName, "")) == None
  {
  }

  /** The listener test's key without a bucket (`just_bucket`) is refused by the guard. */
  lemma KeyWithoutSlashRefused(eventName: string)
    ensures ObjectKey(UploadEvent(eventName, "just_bucket")) == None
    ensures ParseRequest(UploadEvent(eventName, "just_bucket")) == None
  {
    SlashFreeKeyRefused(eventName, "just_bucket");
  }

  /** A non-empty full key without `/` is refused by the guard, so no request is made. */
  lemma SlashFreeKeyRefused(eventName: string, fullKey: string)
    requires '/' !in fullKey && fullKey != ""
    ensures ObjectKey(UploadEvent(eventName, fullKey)) == None
    ensures ParseRequest(UploadEvent(eventName, fullKey)) == None
  {
  }
}
