/**
 * The `s3://bucket/key` strings a job manifest carries, parsed by the
 * unboxing worker (store/S3Source.java, store/S3Output.java). A Java
 * `null` is `None`; an `InvalidSourceException` is a `Failure`.
 */
module S3Locations {
  import opened Common
  import opened JavaStrings

  const PROTOCOL_PREFIX: string := "s3://"

  /** `InvalidSourceException` with its message. */
  datatype InvalidSourceException = InvalidSourceException(message: string)

  /** Where a job's input lives: bucket, object key, and the key's last segment. */
  datatype S3Source = S3Source(bucket: string, key: string, fileName: string)

  /** Where a job's outputs go: bucket and key prefix. */
  datatype S3Output = S3Output(bucket: string, key: string)

  /** `n` slashes. */
  function Slashes(n: nat): string
  {
    Repeat('/', n)
  }

  /** The guard both parsers open with: not null, starts with `s3://`, and is longer than it. */
  predicate HasLocation(s: Option<string>)
  {
    s.Some? && StartsWith(s.value, PROTOCOL_PREFIX) && |s.value| != |PROTOCOL_PREFIX|
  }

  /** `source.substring(PROTOCOL_PREFIX.length())`. */
  function WithoutProtocol(s: Option<string>): (r: string)
    requires HasLocation(s)
    ensures s.value == PROTOCOL_PREFIX + r && r != ""
  {
    s.value[|PROTOCOL_PREFIX|..]
  }

  /** The message of the first guard's exception, shared by both parsers. */
  function NotALocation(s: Option<string>): InvalidSourceException
  {
    InvalidSourceException("Invalid source supplied. Either its null, empty or doesn't start with s3:// Source: " + Show(s))
  }

  /** `S3Source.from(source)`. */
  function SourceFrom(source: Option<string>): (r: Result<S3Source, InvalidSourceException>)
    ensures !HasLocation(source) ==> r == Failure(NotALocation(source))
    ensures r.Success? <==> HasLocation(source) && SepThenOther(WithoutProtocol(source), '/')
    ensures r.Success? ==> '/' !in r.value.bucket && '/' !in r.value.fileName && r.value.fileName != ""
  {
    if !HasLocation(source) then Failure(NotALocation(source))
    else
      var withoutProtocol := WithoutProtocol(source);
      var parts := Split(withoutProtocol, '/');
      SplitHasTwoPieces(withoutProtocol, '/');
      if |parts| < 2 then
        Failure(InvalidSourceException("Invalid source: " + source.value + " expected bucket and a key"))
      else
        SplitHasNoSep(withoutProtocol, '/');
        Success(S3Source(parts[0], Join(parts[1..], '/'), parts[|parts| - 1]))
  }

  /** `S3Output.from(output)`. */
  function OutputFrom(output: Option<string>): (r: Result<S3Output, InvalidSourceException>)
    ensures !HasLocation(output) ==> r == Failure(NotALocation(output))
    ensures r.Success? <==> HasLocation(output) && !AllAre(WithoutProtocol(output), '/')
    ensures r.Success? ==> '/' !in r.value.bucket
  {
    if !HasLocation(output) then Failure(NotALocation(output))
    else
      var withoutProtocol := WithoutProtocol(output);
      var parts := Split(withoutProtocol, '/');
      SplitEmptyIffAllSeparators(withoutProtocol, '/');
      if |parts| < 1 then
        Failure(InvalidSourceException("Invalid output: " + output.value + " expected at least a bucket name"))
      else
        SplitHasNoSep(withoutProtocol, '/');
        Success(S3Output(parts[0], Join(parts[1..], '/')))
  }

  // ---------------------------------------------------------------------
  // Lemmas

  /** `Pieces` of a text followed by separators: the text's pieces, then one empty piece per separator. */
  lemma {:induction false} PiecesWithTrailingSlashes(k: string, n: nat)
    ensures Pieces(k + Slashes(n), '/') == Pieces(k, '/') + Repeat("", n)
  {
    var ps := Pieces(k, '/') + Repeat("", n);
    PiecesHaveNoSep(k, '/');
    assert forall i :: 0 <= i < |ps| ==> '/' !in ps[i] by {
      forall i | 0 <= i < |ps| ensures '/' !in ps[i] {
        if i < |Pieces(k, '/')| {
          assert ps[i] == Pieces(k, '/')[i];
        } else {
          assert ps[i] == "";
        }
      }
    }
    JoinTrailingEmpty(ps, |Pieces(k, '/')|, '/');
    assert ps[..|Pieces(k, '/')|] == Pieces(k, '/');
    JoinPieces(k, '/');
    assert Repeat('/', |ps| - |Pieces(k, '/')|) == Slashes(n);
    PiecesOfJoin(ps, '/');
  }

  /** The last segment of a key that does not end in `/` is not empty. */
  lemma {:induction false} AfterLastNotEmpty(k: string)
    requires k != "" && k[|k| - 1] != '/'
    ensures AfterLast(k, '/') != ""
  {
    assert LastIndexOf(k, '/') < |k| - 1;
  }

  /**
   * Round trip: for a bucket without `/` and a non-empty key that does not
   * end in `/`, `s3://bucket/key` followed by any number of slashes parses
   * back to that bucket and key, and the file name is the key's last
   * segment. In particular a trailing slash is lost and the bucket may be
   * empty.
   */
  lemma {:induction false} SourceFromLocation(b: string, k: string, n: nat)
    requires '/' !in b && k != "" && k[|k| - 1] != '/'
    ensures SourceFrom(Some(PROTOCOL_PREFIX + b + "/" + k + Slashes(n))) == Success(S3Source(b, k, AfterLast(k, '/')))
  {
    var rest := b + "/" + (k + Slashes(n));
    assert PROTOCOL_PREFIX + b + "/" + k + Slashes(n) == PROTOCOL_PREFIX + rest;
    SplitBucketAndKey(b, k, n);
    LastPiece(k, '/');
    SourceFromParts(rest, b, Pieces(k, '/'), k, AfterLast(k, '/'));
  }

  /** The text after `s3://` is what remains once the prefix is removed. */
  lemma {:induction false} WithoutProtocolOf(rest: string)
    requires rest != ""
    ensures HasLocation(Some(PROTOCOL_PREFIX + rest)) && WithoutProtocol(Some(PROTOCOL_PREFIX + rest)) == rest
  {
    assert (PROTOCOL_PREFIX + rest)[|PROTOCOL_PREFIX|..] == rest;
  }

  /** `s3://` followed by text that splits into a bucket and key pieces parses to those parts. */
  lemma {:induction false} SourceFromParts(rest: string, b: string, kps: seq<string>, key: string, fileName: string)
    requires rest != "" && Split(rest, '/') == [b] + kps
    requires |kps| >= 1 && Join(kps, '/') == key && kps[|kps| - 1] == fileName
    ensures SourceFrom(Some(PROTOCOL_PREFIX + rest)) == Success(S3Source(b, key, fileName))
  {
    WithoutProtocolOf(rest);
    var parts := Split(rest, '/');
    assert parts[1..] == kps;
    assert parts[|parts| - 1] == kps[|kps| - 1];
  }

  /** `bucket/key` followed by slashes splits into the bucket and the key's pieces, which rejoin to the key. */
  lemma {:induction false} SplitBucketAndKey(b: string, k: string, n: nat)
    requires '/' !in b && k != "" && k[|k| - 1] != '/'
    ensures Split(b + "/" + (k + Slashes(n)), '/') == [b] + Pieces(k, '/')
    ensures Join(Pieces(k, '/'), '/') == k
  {
    var tail := k + Slashes(n);
    var kps := Pieces(k, '/');
    assert b + "/" + tail == b + ['/'] + tail;
    PiecesAfterHead(b, '/', tail);
    PiecesWithTrailingSlashes(k, n);
    assert Pieces(b + "/" + tail, '/') == ([b] + kps) + Repeat("", n);
    LastPieceNotEmpty(k);
    DropTrailingAfterHead(b, kps, n);
    assert Split(b + "/" + tail, '/') == DropTrailingEmpty(Pieces(b + "/" + tail, '/'));
    JoinPieces(k, '/');
  }

  /** The last piece of a non-empty key that does not end in `/` is not empty. */
  lemma {:induction false} LastPieceNotEmpty(k: string)
    requires k != "" && k[|k| - 1] != '/'
    ensures Pieces(k, '/')[|Pieces(k, '/')| - 1] != ""
  {
    LastPiece(k, '/');
    AfterLastNotEmpty(k);
  }

  /** Empty pieces after a non-empty last piece are all dropped, with a head piece in front. */
  lemma {:induction false} DropTrailingAfterHead(b: string, kps: seq<string>, n: nat)
    requires |kps| >= 1 && kps[|kps| - 1] != ""
    ensures DropTrailingEmpty(([b] + kps) + Repeat("", n)) == [b] + kps
  {
    var ps := [b] + kps;
    assert ps[|ps| - 1] == kps[|kps| - 1];
    DropTrailingEmptyOf(ps, n);
  }

  /**
   * The converse: whatever `SourceFrom` accepts is `s3://bucket/key`
   * followed only by slashes, and the file name is the key's last segment.
   */
  lemma SourceFromIsCanonical(source: Option<string>)
    requires SourceFrom(source).Success?
    ensures var r := SourceFrom(source).value;
      var full := PROTOCOL_PREFIX + r.bucket + "/" + r.key;
      StartsWith(source.value, full) && AllAre(source.value[|full|..], '/') && r.fileName == AfterLast(r.key, '/')
  {
    var r := SourceFrom(source).value;
    var rest := WithoutProtocol(source);
    var parts := Split(rest, '/');
    SplitAsBucketAndKey(rest);
    PrefixedBucketAndKey(source.value, rest, r.bucket, r.key, |Pieces(rest, '/')| - |parts|);
    SplitHasNoSep(rest, '/');
    KeyFileName(parts);
  }

  /** `s3://bucket/key` then slashes starts with `s3://bucket/key` and ends in slashes only. */
  lemma {:induction false} PrefixedBucketAndKey(v: string, rest: string, b: string, k: string, m: nat)
    requires v == PROTOCOL_PREFIX + rest && rest == b + "/" + k + Slashes(m)
    ensures StartsWith(v, PROTOCOL_PREFIX + b + "/" + k) && AllAre(v[|PROTOCOL_PREFIX + b + "/" + k|..], '/')
  {
    var full := PROTOCOL_PREFIX + b + "/" + k;
    assert v == full + Slashes(m);
    assert v[|full|..] == Slashes(m);
  }

  /** `s3://bucket` then slashes starts with `s3://bucket` and ends in slashes only. */
  lemma {:induction false} PrefixedBucket(v: string, rest: string, b: string, m: nat)
    requires v == PROTOCOL_PREFIX + rest && rest == b + Slashes(m)
    ensures StartsWith(v, PROTOCOL_PREFIX + b) && AllAre(v[|PROTOCOL_PREFIX + b|..], '/')
  {
    var full := PROTOCOL_PREFIX + b;
    assert v == full + Slashes(m);
    assert v[|full|..] == Slashes(m);
  }

  /** Text that splits into two or more pieces is its first piece, `/`, the rest joined, then slashes. */
  lemma {:induction false} SplitAsBucketAndKey(rest: string)
    requires rest != "" && |Split(rest, '/')| >= 2
    ensures var parts := Split(rest, '/');
      |parts| <= |Pieces(rest, '/')| &&
      rest == parts[0] + "/" + Join(parts[1..], '/') + Slashes(|Pieces(rest, '/')| - |parts|)
  {
    var parts := Split(rest, '/');
    SplitRejoined(rest, '/');
    JoinCons(parts[0], parts[1..], '/');
    assert parts == [parts[0]] + parts[1..];
  }

  /** Text that splits into one piece is that piece followed by slashes. */
  lemma {:induction false} SplitAsBucketOnly(rest: string)
    requires rest != "" && |Split(rest, '/')| == 1
    ensures |Split(rest, '/')| <= |Pieces(rest, '/')| &&
      rest == Split(rest, '/')[0] + Slashes(|Pieces(rest, '/')| - 1)
  {
    SplitRejoined(rest, '/');
  }

  /** A key joined from at least one `/`-free segment has the last segment as its file name. */
  lemma {:induction false} KeyFileName(parts: seq<string>)
    requires |parts| >= 2
    requires forall i :: 0 <= i < |parts| ==> '/' !in parts[i]
    ensures AfterLast(Join(parts[1..], '/'), '/') == parts[|parts| - 1]
  {
    var ks := parts[1..];
    assert forall i :: 0 <= i < |ks| ==> '/' !in ks[i] by {
      forall i | 0 <= i < |ks| ensures '/' !in ks[i] {
        assert ks[i] == parts[i + 1];
      }
    }
    PiecesOfJoin(ks, '/');
    LastPiece(Join(ks, '/'), '/');
  }

  /**
   * Round trip for outputs: a bucket alone (non-empty, no `/`), or a bucket
   * and a non-empty key not ending in `/`, followed by any number of
   * slashes, parses back to that bucket and key.
   */
  lemma {:induction false} OutputFromLocation(b: string, k: string, n: nat)
    requires '/' !in b
    requires k == "" ==> b != ""
    requires k != "" ==> k[|k| - 1] != '/'
    ensures var location := if k == "" then PROTOCOL_PREFIX + b else PROTOCOL_PREFIX + b + "/" + k;
      OutputFrom(Some(location + Slashes(n))) == Success(S3Output(b, k))
  {
    if k == "" {
      OutputBucketOnly(b, n);
    } else {
      OutputWithKey(b, k, n);
    }
  }

  /** `s3://bucket` followed by slashes names the bucket with an empty key. */
  lemma {:induction false} OutputBucketOnly(b: string, n: nat)
    requires '/' !in b && b != ""
    ensures OutputFrom(Some(PROTOCOL_PREFIX + b + Slashes(n))) == Success(S3Output(b, ""))
  {
    var output := Some(PROTOCOL_PREFIX + b + Slashes(n));
    assert output.value == PROTOCOL_PREFIX + (b + Slashes(n));
    assert WithoutProtocol(output) == b + Slashes(n);
    PiecesWithTrailingSlashes(b, n);
    PiecesWithoutSep(b, '/');
    DropTrailingEmptyOf([b], n);
    assert Split(b + Slashes(n), '/') == [b];
  }

  /** `s3://bucket/key` followed by slashes names that bucket and key. */
  lemma {:induction false} OutputWithKey(b: string, k: string, n: nat)
    requires '/' !in b && k != "" && k[|k| - 1] != '/'
    ensures OutputFrom(Some(PROTOCOL_PREFIX + b + "/" + k + Slashes(n))) == Success(S3Output(b, k))
  {
    var rest := b + "/" + (k + Slashes(n));
    assert PROTOCOL_PREFIX + b + "/" + k + Slashes(n) == PROTOCOL_PREFIX + rest;
    SplitBucketAndKey(b, k, n);
    OutputFromParts(rest, b, Pieces(k, '/'), k);
  }

  /** `s3://` followed by text that splits into a bucket and key pieces is an output with those parts. */
  lemma {:induction false} OutputFromParts(rest: string, b: string, kps: seq<string>, key: string)
    requires rest != "" && Split(rest, '/') == [b] + kps && Join(kps, '/') == key
    ensures OutputFrom(Some(PROTOCOL_PREFIX + rest)) == Success(S3Output(b, key))
  {
    WithoutProtocolOf(rest);
    assert Split(rest, '/')[1..] == kps;
  }

  /**
   * The converse for outputs: whatever `OutputFrom` accepts is `s3://bucket`
   * (empty key) or `s3://bucket/key`, followed only by slashes.
   */
  lemma OutputFromIsCanonical(output: Option<string>)
    requires OutputFrom(output).Success?
    ensures var r := OutputFrom(output).value;
      var full := if r.key == "" then PROTOCOL_PREFIX + r.bucket else PROTOCOL_PREFIX + r.bucket + "/" + r.key;
      StartsWith(output.value, full) && AllAre(output.value[|full|..], '/')
  {
    var r := OutputFrom(output).value;
    var rest := WithoutProtocol(output);
    var parts := Split(rest, '/');
    if |parts| == 1 {
      SplitAsBucketOnly(rest);
      assert parts[1..] == [];
      PrefixedBucket(output.value, rest, r.bucket, |Pieces(rest, '/')| - 1);
    } else {
      SplitAsBucketAndKey(rest);
      assert r.key != "" by {
        if |parts| == 2 {
          assert parts[1..] == [parts[1]];
        } else {
          JoinCons(parts[1], parts[2..], '/');
          assert parts[1..] == [parts[1]] + parts[2..];
        }
      }
      PrefixedBucketAndKey(output.value, rest, r.bucket, r.key, |Pieces(rest, '/')| - |parts|);
    }
  }

  /** A bucket followed only by slashes names no key, so `SourceFrom` refuses it. */
  lemma {:induction false} BucketOnlySourceRefused(b: string, n: nat)
    requires '/' !in b
    ensures SourceFrom(Some(PROTOCOL_PREFIX + b + Slashes(n))).Failure?
  {
    var source := Some(PROTOCOL_PREFIX + b + Slashes(n));
    if HasLocation(source) {
      var w := b + Slashes(n);
      assert source.value == PROTOCOL_PREFIX + w;
      assert WithoutProtocol(source) == w;
      assert forall k :: 0 <= k < |b| ==> w[k] == b[k];
      assert forall k :: |b| <= k < |w| ==> w[k] == '/';
    }
  }

  /** `OutputFrom` accepts a bucket alone, with or without a trailing slash, with an empty key. */
  lemma BucketOnlyOutputs()
    ensures OutputFrom(Some("s3://bucket")) == Success(S3Output("bucket", ""))
    ensures OutputFrom(Some("s3://bucket/")) == Success(S3Output("bucket", ""))
  {
    OutputFromLocation("bucket", "", 0);
    OutputFromLocation("bucket", "", 1);
    assert PROTOCOL_PREFIX + "bucket" + Slashes(0) == "s3://bucket";
    assert PROTOCOL_PREFIX + "bucket" + Slashes(1) == "s3://bucket/";
  }

  /** The protocol alone, a null and another scheme are refused by both parsers. */
  lemma NotLocationsRefused()
    ensures SourceFrom(Some("s3://")).Failure? && OutputFrom(Some("s3://")).Failure?
    ensures SourceFrom(None).Failure? && OutputFrom(None).Failure?
    ensures SourceFrom(Some("http://b/k")).Failure? && OutputFrom(Some("http://b/k")).Failure?
  {
    assert "http://b/k"[0] != PROTOCOL_PREFIX[0];
  }

  /** `s3:///k` has an empty bucket. */
  lemma EmptyBucketSource()
    ensures SourceFrom(Some("s3:///k")) == Success(S3Source("", "k", "k"))
  {
    SourceFromLocation("", "k", 0);
    SingleSegment();
    EmptyBucketLocation();
  }

  lemma SingleSegment()
    ensures AfterLast("k", '/') == "k"
  {
    assert LastIndexOf("k", '/') == -1;
  }

  lemma EmptyBucketLocation()
    ensures PROTOCOL_PREFIX + "" + "/" + "k" + Slashes(0) == "s3:///k"
  {
    assert Slashes(0) == "";
  }

  /** `s3://b/p/` loses its trailing slash. */
  lemma TrailingSlashOutput()
    ensures OutputFrom(Some("s3://b/p/")) == Success(S3Output("b", "p"))
  {
    OutputFromLocation("b", "p", 1);
    assert PROTOCOL_PREFIX + "b" + "/" + "p" + Slashes(1) == "s3://b/p/";
  }
}
