/**
 * The sealed failure taxonomy of RawFileExceptions.kt. Every onboarding
 * failure names the raw media key it concerns and belongs to exactly one of
 * two families: recoverable failures are retried, non-recoverable ones are
 * dead-lettered.
 */
module RawFileExceptions {
  import opened RawMediaKeys

  /** The five concrete exception classes. */
  datatype RawFileException =
    | AlreadyUnboxedRawFileException(key: RawMediaKey)
    | InvalidRawFileException(key: RawMediaKey, reason: string)
    | RawFileOnboardingException(key: RawMediaKey, reason: string)
    | UnboxingJobFailedStartException(key: RawMediaKey, reason: string)
    | NonRecoverableJobStartException(key: RawMediaKey, reason: string)
  {
    /** Membership of the `RecoverableRawFileException` family. */
    predicate IsRecoverable()
    {
      RawFileOnboardingException? || UnboxingJobFailedStartException?
    }

    /** Membership of the `NonRecoverableRawFileException` family. */
    predicate IsNonRecoverable()
    {
      AlreadyUnboxedRawFileException? || InvalidRawFileException? || NonRecoverableJobStartException?
    }

    /** The message each subclass passes to `RawFileException`. */
    function Detail(): string
    {
      if AlreadyUnboxedRawFileException? then "Raw file already unboxed" else reason
    }

    /** `getMessage()`: `"RawFileKey=$key. Exception: $message"`. */
    function Message(): (r: string)
      ensures StartsWithKey(r, key)
      ensures |r| > |Detail()| && r[|r| - |Detail()|..] == Detail()
    {
      var r := "RawFileKey=" + ToString(key) + ". Exception: " + Detail();
      assert r[..11 + |ToString(key)|] == "RawFileKey=" + ToString(key);
      assert r[|r| - |Detail()|..] == Detail();
      r
    }
  }

  type RecoverableRawFileException = e: RawFileException | e.IsRecoverable()
    witness RawFileOnboardingException(RawMediaKey(seq(32, _ => 0), "x"), "")

  type NonRecoverableRawFileException = e: RawFileException | e.IsNonRecoverable()
    witness AlreadyUnboxedRawFileException(RawMediaKey(seq(32, _ => 0), "x"))

  /** Outside both families: a plain runtime exception with no key. */
  datatype UnboxingJobNotFoundException = UnboxingJobNotFoundException(message: string)

  /** `m` opens with `RawFileKey=`, the printed key and a `.`. */
  predicate StartsWithKey(m: string, k: RawMediaKey)
  {
    var p := "RawFileKey=" + ToString(k);
    |p| < |m| && m[..|p|] == p && m[|p|] == '.'
  }

  // ---------------------------------------------------------------------
  // Lemmas

  /** The two sealed families are disjoint and together cover every exception. */
  lemma FamiliesPartition(e: RawFileException)
    ensures e.IsRecoverable() != e.IsNonRecoverable()
  {
  }

  /** In a message for a valid key, the first space after `RawFileKey=` follows the key and its `.`. */
  lemma MessageLayout(k: RawMediaKey, detail: string)
    requires IsValidName(k.name)
    ensures var m := "RawFileKey=" + ToString(k) + ". Exception: " + detail;
      var n := 11 + |ToString(k)|;
      m[n + 1] == ' ' && forall i :: 11 <= i <= n ==> m[i] != ' '
  {
    var t := ToString(k);
    var m := "RawFileKey=" + t + ". Exception: " + detail;
    PrintedKeyIsName(k);
    forall i | 11 <= i < 11 + |t| ensures m[i] != ' ' {
      assert m[i] == t[i - 11];
    }
  }

  /**
   * The message identifies the key: since a valid key prints without
   * whitespace, the first space of the message ends the key, so two
   * messages that agree name the same key and carry the same detail.
   */
  lemma MessageIdentifiesKey(e1: RawFileException, e2: RawFileException)
    requires IsValidName(e1.key.name) && IsValidName(e2.key.name)
    requires e1.Message() == e2.Message()
    ensures e1.key == e2.key && e1.Detail() == e2.Detail()
  {
    var t1, t2 := ToString(e1.key), ToString(e2.key);
    assert e1.Message() == "RawFileKey=" + t1 + ". Exception: " + e1.Detail();
    assert e2.Message() == "RawFileKey=" + t2 + ". Exception: " + e2.Detail();
    MessageLayout(e1.key, e1.Detail());
    MessageLayout(e2.key, e2.Detail());
    MessagePartsEqual(t1, e1.Detail(), t2, e2.Detail());
    FromStringToString(e1.key);
    FromStringToString(e2.key);
  }

  /** Two messages laid out as `MessageLayout` states are equal only for equal keys and details. */
  lemma MessagePartsEqual(t1: string, d1: string, t2: string, d2: string)
    requires var m := "RawFileKey=" + t1 + ". Exception: " + d1; var n := 11 + |t1|;
      m[n + 1] == ' ' && forall i :: 11 <= i <= n ==> m[i] != ' '
    requires var m := "RawFileKey=" + t2 + ". Exception: " + d2; var n := 11 + |t2|;
      m[n + 1] == ' ' && forall i :: 11 <= i <= n ==> m[i] != ' '
    requires "RawFileKey=" + t1 + ". Exception: " + d1 == "RawFileKey=" + t2 + ". Exception: " + d2
    ensures t1 == t2 && d1 == d2
  {
    var m := "RawFileKey=" + t1 + ". Exception: " + d1;
    assert |t1| == |t2|;
    assert t1 == m[11..11 + |t1|] == t2;
    var n := 11 + |t1| + 13;
    assert d1 == m[n..] == d2;
  }
}
