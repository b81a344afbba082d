/**
 * The `<uuid>_<name>` object key of an uploaded raw media file
 * (`RawMediaKey` in RawMedia.kt): the pattern that recognises it, its
 * parser `fromString` and its printer `toString`.
 *
 * A `java.util.UUID` is modelled by its 32 hexadecimal nibbles, most
 * significant first; its text form is the 8-4-4-4-12 grouping of section 3
 * of RFC 4122. `UUID.fromString` accepts either case, `UUID.toString`
 * prints lower case.
 */
module RawMediaKeys {
  import opened Common
  import opened JavaStrings

  type Nibble = x: int | 0 <= x < 16

  type Uuid = s: seq<Nibble> | |s| == 32 witness seq(32, _ => 0)

  /** Positions of the four dashes in the 36-character text form. */
  predicate IsDashPos(i: int)
  {
    i == 8 || i == 13 || i == 18 || i == 23
  }

  /** `[a-f\d]` under `Pattern.CASE_INSENSITIVE` (ASCII only: no UNICODE flags). */
  predicate IsHexDigit(c: char)
  {
    '0' <= c <= '9' || 'a' <= c <= 'f' || 'A' <= c <= 'F'
  }

  function HexValue(c: char): Nibble
    requires IsHexDigit(c)
  {
    if '0' <= c <= '9' then c as int - '0' as int
    else if 'a' <= c <= 'f' then c as int - 'a' as int + 10
    else c as int - 'A' as int + 10
  }

  function LowerHexDigit(n: Nibble): char
  {
    if n < 10 then ('0' as int + n) as char else ('a' as int + n - 10) as char
  }

  /** ASCII lower-casing, which is all `UUID.toString` changes in parsed text. */
  function ToLowerAscii(c: char): char
  {
    if 'A' <= c <= 'Z' then (c as int - 'A' as int + 'a' as int) as char else c
  }

  /** Index of the nibble shown at (non-dash) position `i` of the text form. */
  function NibbleIndex(i: int): int
    requires 0 <= i < 36 && !IsDashPos(i)
  {
    if i < 8 then i else if i < 13 then i - 1 else if i < 18 then i - 2
    else if i < 23 then i - 3 else i - 4
  }

  /** Position in the text form of nibble `j`. */
  function TextPosition(j: int): int
    requires 0 <= j < 32
  {
    if j < 8 then j else if j < 12 then j + 1 else if j < 16 then j + 2
    else if j < 20 then j + 3 else j + 4
  }

  /** `[a-f\d]{8}(-[a-f\d]{4}){3}-[a-f\d]{12}`, case-insensitively. */
  predicate IsUuidText(t: string)
  {
    |t| == 36 &&
    forall i :: 0 <= i < 36 ==> if IsDashPos(i) then t[i] == '-' else IsHexDigit(t[i])
  }

  /** `UUID.toString()`: the lower-case 8-4-4-4-12 text form. */
  function UuidToString(u: Uuid): (t: string)
    ensures IsUuidText(t)
  {
    seq(36, i requires 0 <= i < 36 =>
      if IsDashPos(i) then '-' else LowerHexDigit(u[NibbleIndex(i)]))
  }

  /** `UUID.fromString` on text that the key pattern has already accepted. */
  function UuidFromText(t: string): Uuid
    requires IsUuidText(t)
  {
    seq(32, j requires 0 <= j < 32 => HexValue(t[TextPosition(j)]))
  }

  /** `[^\s\\/]`: Java's `\s` is space, tab, newline, vertical tab, form feed and carriage return. */
  predicate IsNameChar(c: char)
  {
    c != ' ' && c != '\t' && c != '\n' && c != '\U{000B}' && c != '\U{000C}' && c != '\r' &&
    c != '\\' && c != '/'
  }

  /** `[^\s\\/]+`. */
  predicate IsValidName(n: string)
  {
    |n| > 0 && forall i :: 0 <= i < |n| ==> IsNameChar(n[i])
  }

  /**
   * `KEY_PATTERN.matcher(s).matches()`: the whole text is a UUID, `_` and a
   * name. The UUID part has a fixed width, so the `_` is at index 36 and the
   * name is everything after it.
   */
  predicate MatchesKeyPattern(s: string)
  {
    |s| > 37 && IsUuidText(s[..36]) && s[36] == '_' && IsValidName(s[37..])
  }

  datatype RawMediaKey = RawMediaKey(id: Uuid, name: string)

  /** `RawMediaKey.toString()`: `"${id}_$name"`. */
  function ToString(k: RawMediaKey): string
  {
    UuidToString(k.id) + "_" + k.name
  }

  /**
   * `RawMediaKey.fromString`: `None` stands for the IllegalArgumentException
   * that `require(matcher.matches())` throws.
   */
  function FromString(s: string): (r: Option<RawMediaKey>)
    ensures r.Some? <==> MatchesKeyPattern(s)
    ensures r.Some? ==> r.value.name == s[37..] && IsValidName(r.value.name)
    ensures r.Some? ==> ToString(r.value) == seq(36, i requires 0 <= i < 36 => ToLowerAscii(s[i])) + s[36..]
  {
    if MatchesKeyPattern(s) then
      var k := RawMediaKey(UuidFromText(s[..36]), s[37..]);
      PrintParsedUuid(s[..36]);
      assert s == s[..36] + "_" + s[37..];
      Some(k)
    else None
  }

  // ---------------------------------------------------------------------
  // Lemmas

  /** Printing a parsed UUID gives the parsed text in lower case. */
  lemma PrintParsedUuid(t: string)
    requires IsUuidText(t)
    ensures UuidToString(UuidFromText(t)) == seq(36, i requires 0 <= i < 36 => ToLowerAscii(t[i]))
  {
    var u := UuidFromText(t);
    forall i | 0 <= i < 36
      ensures UuidToString(u)[i] == ToLowerAscii(t[i])
    {
      if !IsDashPos(i) {
        assert TextPosition(NibbleIndex(i)) == i;
      }
    }
  }

  /** Parsing the printed form of a UUID gives the UUID back. */
  lemma ParsePrintedUuid(u: Uuid)
    ensures UuidFromText(UuidToString(u)) == u
  {
    var t := UuidToString(u);
    forall j | 0 <= j < 32
      ensures UuidFromText(t)[j] == u[j]
    {
      var p := TextPosition(j);
      assert !IsDashPos(p) && NibbleIndex(p) == j;
      assert t[p] == LowerHexDigit(u[j]);
    }
  }

  /**
   * The printed key is itself a valid name: hex digits, dashes, `_` and the
   * name hold no whitespace, `/` or `\`.
   */
  lemma PrintedKeyIsName(k: RawMediaKey)
    requires IsValidName(k.name)
    ensures IsValidName(ToString(k))
  {
    var s := ToString(k);
    var t := UuidToString(k.id);
    forall i | 0 <= i < |s| ensures IsNameChar(s[i]) {
      if i < 36 {
        assert s[i] == t[i];
      } else if i > 36 {
        assert s[i] == k.name[i - 37];
      }
    }
  }

  /** Round trip: every key with a valid name survives printing and parsing unchanged. */
  lemma FromStringToString(k: RawMediaKey)
    requires IsValidName(k.name)
    ensures FromString(ToString(k)) == Some(k)
  {
    var s := ToString(k);
    assert s[..36] == UuidToString(k.id);
    assert s[37..] == k.name;
    ParsePrintedUuid(k.id);
  }

  /**
   * The other direction holds up to the case of the hex digits: a parsed key
   * prints as the original text with its UUID lower-cased.
   */
  lemma ToStringFromString(s: string)
    requires MatchesKeyPattern(s)
    requires forall i :: 0 <= i < 36 ==> !('A' <= s[i] <= 'Z')
    ensures FromString(s).Some? && ToString(FromString(s).value) == s
  {
    var lowered := seq(36, i requires 0 <= i < 36 => ToLowerAscii(s[i]));
    assert lowered == s[..36];
    assert s == s[..36] + s[36..];
  }

  /** A name holding `/`, `\` or whitespace is never accepted. */
  lemma RejectsBadNameChar(s: string, i: int)
    requires 37 <= i < |s| && !IsNameChar(s[i])
    ensures FromString(s) == None
  {
    assert s[37..][i - 37] == s[i];
  }

  /** A key whose `_` is not at index 36 is rejected. */
  lemma RejectsMisplacedSeparator(s: string)
    requires |s| > 36 && s[36] != '_'
    ensures FromString(s) == None
  {
  }

  /** A key whose first 36 characters are not a UUID is rejected. */
  lemma RejectsBadUuid(s: string, i: int)
    requires 0 <= i < 36 < |s| && !IsDashPos(i) && !IsHexDigit(s[i])
    ensures FromString(s) == None
  {
    assert s[..36][i] == s[i];
  }

  /** A UUID text, `_` and a valid name parse to the UUID's value and the name. */
  lemma ParsesKey(id: string, name: string)
    requires IsUuidText(id) && IsValidName(name)
    ensures FromString(id + "_" + name) == Some(RawMediaKey(UuidFromText(id), name))
  {
    var s := id + "_" + name;
    assert s[..36] == id;
    assert s[37..] == name;
  }

  /** RawMediaKeyTest: a space in the name is rejected. */
  lemma RejectsSpaceInTestName()
    ensures FromString("A1D82E11-5ABF-4AB7-9A58-B91EE7F3F8E2_hey there.txt") == None
  {
    RejectsBadNameChar("A1D82E11-5ABF-4AB7-9A58-B91EE7F3F8E2_hey there.txt", 40);
  }

  /** RawMediaKeyTest: a UUID ending in `X` is rejected. */
  lemma RejectsNonHexTestUuid()
    ensures FromString("A1D82E11-5ABF-4AB7-9A58-B91EE7F3F8EX_file.mp4") == None
  {
    RejectsBadUuid("A1D82E11-5ABF-4AB7-9A58-B91EE7F3F8EX_file.mp4", 35);
  }

  /** RawMediaKeyTest: a `-` instead of the `_` after the UUID is rejected. */
  lemma RejectsDashAfterTestUuid()
    ensures FromString("A1D82E11-5ABF-4AB7-9A58-B91EE7F3F8E2-somename_name.txt") == None
  {
    RejectsMisplacedSeparator("A1D82E11-5ABF-4AB7-9A58-B91EE7F3F8E2-somename_name.txt");
  }

  /** The keys of RawMediaKeyTest with a path separator after the UUID are rejected. */
  lemma RejectsPathSeparatorTestKeys()
    ensures FromString("A1D82E11-5ABF-4AB7-9A58-B91EE7F3F8E2-somename/name.txt") == None
    ensures FromString("A1D82E11-5ABF-4AB7-9A58-B91EE7F3F8E2-somename\\name.txt") == None
  {
    RejectsMisplacedSeparator("A1D82E11-5ABF-4AB7-9A58-B91EE7F3F8E2-somename/name.txt");
    RejectsMisplacedSeparator("A1D82E11-5ABF-4AB7-9A58-B91EE7F3F8E2-somename\\name.txt");
  }

  /** Keys of RawMediaKeyTest without any UUID are rejected. */
  lemma RejectsKeysWithoutUuid()
    ensures FromString("file.txt") == None
    ensures FromString("file") == None
  {
  }

  /** The well-formed key of RawMediaKeyTest parses to the upper-case UUID's value and `file.txt`. */
  lemma ParsesTestKey()
    ensures var id := "A1D82E11-5ABF-4AB7-9A58-B91EE7F3F8E2";
      IsUuidText(id) &&
      FromString(id + "_file.txt") == Some(RawMediaKey(UuidFromText(id), "file.txt"))
  {
    var id := "A1D82E11-5ABF-4AB7-9A58-B91EE7F3F8E2";
    TestIdIsUuid(id);
    assert IsValidName("file.txt");
    ParsesKey(id, "file.txt");
    assert id + "_" + "file.txt" == id + "_file.txt";
  }

  /** The upper-case UUID of RawMediaKeyTest matches the UUID pattern. */
  lemma TestIdIsUuid(id: string)
    requires id == "A1D82E11-5ABF-4AB7-9A58-B91EE7F3F8E2"
    ensures IsUuidText(id)
  {
    forall i | 0 <= i < 36
      ensures if IsDashPos(i) then id[i] == '-' else IsHexDigit(id[i])
    {
    }
  }
}
