/**
 * The few `java.lang.String` operations the core relies on: `lastIndexOf`,
 * `startsWith`, `split` (with its rule of dropping trailing empty pieces),
 * `String.join`, and the `%d` and `%s` conversions of `String.format`
 * (the latter also what `+` does with a possibly-null string).
 */
module JavaStrings {
  import opened Common

  /** A possibly-null string as `%s` and `+` render it. */
  function Show(s: Option<string>): string
  {
    if s.None? then "null" else s.value
  }

  /** `s.startsWith(p)`. */
  predicate StartsWith(s: string, p: string)
  {
    |p| <= |s| && s[..|p|] == p
  }

  /** `s.endsWith(p)`. */
  predicate EndsWith(s: string, p: string)
  {
    |p| <= |s| && s[|s| - |p|..] == p
  }

  /** `s.lastIndexOf(c)`: the largest index holding `c`, or -1 when there is none. */
  function LastIndexOf(s: string, c: char): (r: int)
    ensures -1 <= r < |s|
    ensures r >= 0 ==> s[r] == c
    ensures forall j :: r < j < |s| ==> s[j] != c
  {
    if |s| == 0 then -1
    else if s[|s| - 1] == c then |s| - 1
    else LastIndexOf(s[..|s| - 1], c)
  }

  /** The text after the last `c` (all of `s` when it has no `c`). */
  function AfterLast(s: string, c: char): (r: string)
    ensures c !in r
  {
    var i := LastIndexOf(s, c);
    var r := s[i + 1..];
    assert forall j :: 0 <= j < |r| ==> r[j] != c by {
      forall j | 0 <= j < |r| ensures r[j] != c {
        assert r[j] == s[i + 1 + j];
      }
    }
    r
  }

  /**
   * Every piece of `s` between two occurrences of `sep`, empty pieces
   * included: what a regex split keeps before Java drops trailing empty
   * strings. There is always at least one piece.
   */
  function Pieces(s: string, sep: char): (r: seq<string>)
    ensures |r| >= 1
  {
    if |s| == 0 then [""]
    else
      var rest := Pieces(s[1..], sep);
      if s[0] == sep then [""] + rest
      else [[s[0]] + rest[0]] + rest[1..]
  }

  /** Removes every empty string at the end of `ps`. */
  function DropTrailingEmpty(ps: seq<string>): (r: seq<string>)
    ensures |r| <= |ps| && r == ps[..|r|]
    ensures r == [] || r[|r| - 1] != ""
    ensures forall i :: |r| <= i < |ps| ==> ps[i] == ""
  {
    if |ps| == 0 then []
    else if ps[|ps| - 1] == "" then DropTrailingEmpty(ps[..|ps| - 1])
    else ps
  }

  /**
   * `s.split(sep)` for a one-character separator that is not a regex
   * metacharacter: no match at all yields `[s]` (so `""` yields `[""]`),
   * otherwise the pieces with trailing empty strings removed.
   */
  function Split(s: string, sep: char): seq<string>
  {
    if s == "" then [""] else DropTrailingEmpty(Pieces(s, sep))
  }

  /** `String.join(sep, ps)`. */
  function Join(ps: seq<string>, sep: char): string
  {
    if |ps| == 0 then ""
    else if |ps| == 1 then ps[0]
    else ps[0] + [sep] + Join(ps[1..], sep)
  }

  /** `n` copies of `x`. */
  function Repeat<T>(x: T, n: nat): seq<T>
  {
    seq(n, _ => x)
  }

  /** Every character of `s` is `c`. */
  predicate AllAre(s: string, c: char)
  {
    forall i :: 0 <= i < |s| ==> s[i] == c
  }

  /** Decimal digits of a natural number, most significant first. */
  function NatToDecimal(n: nat): (r: string)
    ensures |r| >= 1
  {
    var d := ['0' + (n % 10) as char];
    if n < 10 then d else NatToDecimal(n / 10) + d
  }

  /** `String.format("%d", i)` for a Java `int`. */
  function IntToDecimal(i: int): string
  {
    if i < 0 then "-" + NatToDecimal(-i) else NatToDecimal(i)
  }

  /** A number below ten is formatted as its one digit. */
  lemma OneDigitDecimal(n: nat, c: char)
    requires n < 10 && c == '0' + n as char
    ensures IntToDecimal(n) == [c]
  {
    assert n % 10 == n;
  }

  // ---------------------------------------------------------------------
  // Lemmas about splitting and joining

  /** Joining the pieces with the separator gives back the text. */
  lemma {:induction false} JoinPieces(s: string, sep: char)
    ensures Join(Pieces(s, sep), sep) == s
  {
    if |s| > 0 {
      var rest := Pieces(s[1..], sep);
      JoinPieces(s[1..], sep);
      if s[0] == sep {
        assert Pieces(s, sep) == [""] + rest;
        if |rest| == 1 {
          assert Join([""] + rest, sep) == "" + [sep] + rest[0];
        } else {
          assert ([""] + rest)[1..] == rest;
        }
        assert s == [s[0]] + s[1..];
      } else {
        var ps := [[s[0]] + rest[0]] + rest[1..];
        assert Pieces(s, sep) == ps;
        if |rest| == 1 {
          assert Join(ps, sep) == [s[0]] + rest[0];
        } else {
          assert ps[1..] == rest[1..];
          assert Join(ps, sep) == [s[0]] + rest[0] + [sep] + Join(rest[1..], sep);
          assert Join(rest, sep) == rest[0] + [sep] + Join(rest[1..], sep);
        }
        assert s == [s[0]] + s[1..];
      }
    }
  }

  /** A text free of `sep` is a single piece. */
  lemma {:induction false} PiecesWithoutSep(s: string, sep: char)
    requires sep !in s
    ensures Pieces(s, sep) == [s]
  {
    if |s| > 0 {
      PiecesWithoutSep(s[1..], sep);
      assert s == [s[0]] + s[1..];
    }
  }

  /** A leading piece free of `sep`, then `sep`, splits off as the first piece. */
  lemma {:induction false} PiecesAfterHead(head: string, sep: char, tail: string)
    requires sep !in head
    ensures Pieces(head + [sep] + tail, sep) == [head] + Pieces(tail, sep)
  {
    var s := head + [sep] + tail;
    if |head| == 0 {
      assert s[1..] == tail;
    } else {
      assert s[1..] == head[1..] + [sep] + tail;
      PiecesAfterHead(head[1..], sep, tail);
      assert head == [head[0]] + head[1..];
    }
  }

  /** A text holding `sep` has at least two pieces. */
  lemma {:induction false} PiecesOfSeparated(s: string, sep: char)
    requires sep in s
    ensures |Pieces(s, sep)| >= 2
  {
    if s[0] != sep {
      assert sep in s[1..] by {
        var k :| 0 <= k < |s| && s[k] == sep;
        assert s[1..][k - 1] == sep;
      }
      PiecesOfSeparated(s[1..], sep);
    }
  }

  /** A `c` with no `c` after it is the last one. */
  lemma LastIndexOfIs(s: string, c: char, k: int)
    requires 0 <= k < |s| && s[k] == c
    requires forall j :: k < j < |s| ==> s[j] != c
    ensures LastIndexOf(s, c) == k
  {
  }

  /** The text after the last `c` of `s` is the one after the last `c` of `s[1..]`, when there is one. */
  lemma AfterLastOfTail(s: string, c: char)
    requires |s| > 0 && c in s[1..]
    ensures AfterLast(s, c) == AfterLast(s[1..], c)
  {
    var i' := LastIndexOf(s[1..], c);
    assert s[1..][i'] == c;
    forall j | 1 + i' < j < |s|
      ensures s[j] != c
    {
      assert s[j] == s[1..][j - 1];
    }
    LastIndexOfIs(s, c, 1 + i');
    assert s[1 + i' + 1..] == s[1..][i' + 1..];
  }

  /** Without a `c` after the first character, the text after the last `c` is `s[1..]` or all of `s`. */
  lemma AfterLastNoneInTail(s: string, c: char)
    requires |s| > 0 && c !in s[1..]
    ensures AfterLast(s, c) == if s[0] == c then s[1..] else s
  {
    forall j | 1 <= j < |s|
      ensures s[j] != c
    {
      assert s[j] == s[1..][j - 1];
    }
    if s[0] == c {
      LastIndexOfIs(s, c, 0);
    } else {
      assert LastIndexOf(s, c) == -1;
    }
  }

  /** The last piece is the text after the last separator. */
  lemma {:induction false} LastPiece(s: string, sep: char)
    ensures Pieces(s, sep)[|Pieces(s, sep)| - 1] == AfterLast(s, sep)
  {
    if |s| == 0 {
      assert Pieces(s, sep) == [""];
      assert AfterLast(s, sep) == "";
    } else {
      var rest := Pieces(s[1..], sep);
      var ps := Pieces(s, sep);
      if sep in s[1..] {
        LastPiece(s[1..], sep);
        PiecesOfSeparated(s[1..], sep);
        if s[0] == sep {
          assert ps == [""] + rest;
        } else {
          assert ps == [[s[0]] + rest[0]] + rest[1..];
        }
        assert ps[|ps| - 1] == rest[|rest| - 1];
        AfterLastOfTail(s, sep);
      } else {
        PiecesWithoutSep(s[1..], sep);
        AfterLastNoneInTail(s, sep);
        if s[0] == sep {
          assert ps == ["", s[1..]];
        } else {
          assert ps == [[s[0]] + s[1..]];
          assert s == [s[0]] + s[1..];
        }
      }
    }
  }

  /** Every piece is empty exactly when the text consists of separators only. */
  lemma {:induction false} PiecesAllEmpty(s: string, sep: char)
    ensures (forall i :: 0 <= i < |Pieces(s, sep)| ==> Pieces(s, sep)[i] == "") <==> AllAre(s, sep)
  {
    if |s| > 0 {
      PiecesAllEmpty(s[1..], sep);
      var rest := Pieces(s[1..], sep);
      var ps := Pieces(s, sep);
      if s[0] == sep {
        assert ps == [""] + rest;
        assert (forall i :: 0 <= i < |ps| ==> ps[i] == "") <==> (forall i :: 0 <= i < |rest| ==> rest[i] == "") by {
          assert forall i :: 0 <= i < |rest| ==> ps[i + 1] == rest[i];
          assert forall i :: 1 <= i < |ps| ==> ps[i] == rest[i - 1];
        }
        assert AllAre(s, sep) <==> AllAre(s[1..], sep) by {
          assert forall j :: 1 <= j < |s| ==> s[j] == s[1..][j - 1];
          assert forall j :: 0 <= j < |s| - 1 ==> s[1..][j] == s[j + 1];
        }
      } else {
        assert ps[0] != "";
        assert !AllAre(s, sep);
      }
    }
  }

  /** Java's split yields no piece at all exactly for a non-empty run of separators. */
  lemma SplitEmptyIffAllSeparators(s: string, sep: char)
    ensures Split(s, sep) == [] <==> s != "" && AllAre(s, sep)
  {
    if s != "" {
      var ps := Pieces(s, sep);
      PiecesAllEmpty(s, sep);
      if DropTrailingEmpty(ps) == [] {
        assert forall i :: 0 <= i < |ps| ==> ps[i] == "";
      }
      if AllAre(s, sep) {
        var r := DropTrailingEmpty(ps);
        assert forall i :: 0 <= i < |ps| ==> ps[i] == "";
      }
    }
  }

  /** Split of text whose last piece is non-empty drops nothing. */
  lemma KeepsNonEmptyLast(ps: seq<string>)
    requires |ps| >= 1 && ps[|ps| - 1] != ""
    ensures DropTrailingEmpty(ps) == ps
  {
  }

  /** One more piece after the first, in a join. */
  lemma JoinCons(p: string, ps: seq<string>, sep: char)
    requires |ps| >= 1
    ensures Join([p] + ps, sep) == p + [sep] + Join(ps, sep)
  {
    assert ([p] + ps)[1..] == ps;
  }

  /** The text after the last `c` of `p + [c] + t`, for `t` free of `c`, is `t`. */
  lemma AfterLastOfAppend(p: string, c: char, t: string)
    requires c !in t
    ensures AfterLast(p + [c] + t, c) == t
  {
    var s := p + [c] + t;
    var i := LastIndexOf(s, c);
    assert s[|p|] == c;
    assert forall j :: |p| < j < |s| ==> s[j] == t[j - |p| - 1];
    assert i == |p|;
    assert s[i + 1..] == t;
  }

  /** No piece holds the separator. */
  lemma {:induction false} PiecesHaveNoSep(s: string, sep: char)
    ensures forall i :: 0 <= i < |Pieces(s, sep)| ==> sep !in Pieces(s, sep)[i]
  {
    if |s| > 0 {
      PiecesHaveNoSep(s[1..], sep);
      var rest := Pieces(s[1..], sep);
      var r := Pieces(s, sep);
      if s[0] == sep {
        assert r == [""] + rest;
        forall i | 1 <= i < |r| ensures sep !in r[i] {
          assert r[i] == rest[i - 1];
        }
      } else {
        assert r == [[s[0]] + rest[0]] + rest[1..];
        forall i | 1 <= i < |r| ensures sep !in r[i] {
          assert r[i] == rest[i];
        }
      }
    }
  }

  /** No string `split` returns holds the separator. */
  lemma SplitHasNoSep(s: string, sep: char)
    ensures forall i :: 0 <= i < |Split(s, sep)| ==> sep !in Split(s, sep)[i]
  {
    if s != "" {
      PiecesHaveNoSep(s, sep);
      var ps := Pieces(s, sep);
      var r := Split(s, sep);
      forall i | 0 <= i < |r| ensures sep !in r[i] {
        assert r[i] == ps[i];
      }
    }
  }

  /**
   * What `split` drops is trailing separators only: joining its pieces
   * back and adding one separator per dropped piece gives the text again.
   */
  lemma {:induction false} SplitRejoined(s: string, sep: char)
    requires s != "" && |Split(s, sep)| >= 1
    ensures |Split(s, sep)| <= |Pieces(s, sep)|
    ensures s == Join(Split(s, sep), sep) + Repeat(sep, |Pieces(s, sep)| - |Split(s, sep)|)
  {
    JoinPieces(s, sep);
    JoinDropped(Pieces(s, sep), sep);
  }

  /** Joining pieces is joining them without their trailing empty ones, then one separator per empty one. */
  lemma {:induction false} JoinDropped(ps: seq<string>, sep: char)
    requires |DropTrailingEmpty(ps)| >= 1
    ensures Join(ps, sep) == Join(DropTrailingEmpty(ps), sep) + Repeat(sep, |ps| - |DropTrailingEmpty(ps)|)
  {
    var parts := DropTrailingEmpty(ps);
    JoinTrailingEmpty(ps, |parts|, sep);
  }

  /** Text without `c` is kept whole. */
  lemma AfterLastWithout(s: string, c: char)
    requires c !in s
    ensures AfterLast(s, c) == s
  {
    assert LastIndexOf(s, c) == -1;
  }

  /** Joining one more piece adds the separator and the piece at the end. */
  lemma {:induction false} JoinSnoc(ps: seq<string>, p: string, sep: char)
    requires |ps| >= 1
    ensures Join(ps + [p], sep) == Join(ps, sep) + [sep] + p
  {
    if |ps| > 1 {
      assert (ps + [p])[1..] == ps[1..] + [p];
      JoinSnoc(ps[1..], p, sep);
    }
  }

  /** Trailing empty pieces join into trailing separators. */
  lemma {:induction false} JoinTrailingEmpty(ps: seq<string>, k: nat, sep: char)
    requires 1 <= k <= |ps|
    requires forall i :: k <= i < |ps| ==> ps[i] == ""
    ensures Join(ps, sep) == Join(ps[..k], sep) + Repeat(sep, |ps| - k)
    decreases |ps| - k
  {
    if k < |ps| {
      var init := ps[..|ps| - 1];
      assert ps == init + [""];
      JoinSnoc(init, "", sep);
      JoinTrailingEmpty(init, k, sep);
      assert init[..k] == ps[..k];
      assert Repeat(sep, |init| - k) + [sep] == Repeat(sep, |ps| - k);
    } else {
      assert ps[..k] == ps;
    }
  }

  /** Pieces free of the separator are recovered by splitting their join. */
  lemma {:induction false} PiecesOfJoin(ps: seq<string>, sep: char)
    requires |ps| >= 1
    requires forall i :: 0 <= i < |ps| ==> sep !in ps[i]
    ensures Pieces(Join(ps, sep), sep) == ps
  {
    if |ps| == 1 {
      PiecesWithoutSep(ps[0], sep);
    } else {
      PiecesOfJoin(ps[1..], sep);
      PiecesAfterHead(ps[0], sep, Join(ps[1..], sep));
      assert ps == [ps[0]] + ps[1..];
    }
  }

  /** Empty pieces appended after a non-empty last piece are exactly what `split` drops. */
  lemma DropTrailingEmptyOf(xs: seq<string>, n: nat)
    requires |xs| >= 1 && xs[|xs| - 1] != ""
    ensures DropTrailingEmpty(xs + Repeat("", n)) == xs
  {
    var ps := xs + Repeat("", n);
    var r := DropTrailingEmpty(ps);
    assert ps[|xs| - 1] != "";
    assert ps[..|xs|] == xs;
  }

  /** Some occurrence of `sep` is followed, somewhere later, by a different character. */
  predicate SepThenOther(s: string, sep: char)
  {
    exists i, j :: 0 <= i < j < |s| && s[i] == sep && s[j] != sep
  }

  /** Some piece after the first is non-empty. */
  predicate LaterPieceNonEmpty(ps: seq<string>)
  {
    exists k :: 1 <= k < |ps| && ps[k] != ""
  }

  /** A text opening with `sep` has a non-empty later piece exactly when it is not all separators. */
  lemma LeadingSepLaterPieces(s: string, sep: char)
    requires |s| > 0 && s[0] == sep
    ensures LaterPieceNonEmpty(Pieces(s, sep)) <==> SepThenOther(s, sep)
  {
    var t := s[1..];
    var rest := Pieces(t, sep);
    var ps := Pieces(s, sep);
    PiecesAllEmpty(t, sep);
    assert ps == [""] + rest;
    assert LaterPieceNonEmpty(ps) <==> exists k :: 0 <= k < |rest| && rest[k] != "" by {
      assert forall k :: 1 <= k < |ps| ==> ps[k] == rest[k - 1];
      assert forall k :: 0 <= k < |rest| ==> rest[k] == ps[k + 1];
    }
    if SepThenOther(s, sep) {
      var i, j :| 0 <= i < j < |s| && s[i] == sep && s[j] != sep;
      assert t[j - 1] != sep;
    }
    if !AllAre(t, sep) {
      var j :| 0 <= j < |t| && t[j] != sep;
      assert s[0] == sep && s[j + 1] != sep;
    }
  }

  /** Some piece after the first is non-empty exactly when some `sep` is followed later by another character. */
  lemma {:induction false} PiecesLaterNonEmpty(s: string, sep: char)
    ensures LaterPieceNonEmpty(Pieces(s, sep)) <==> SepThenOther(s, sep)
  {
    if |s| == 0 {
      assert Pieces(s, sep) == [""];
    } else if s[0] == sep {
      LeadingSepLaterPieces(s, sep);
    } else {
      PiecesLaterNonEmpty(s[1..], sep);
      LaterPiecesAfterOther(s, sep);
      SepThenOtherAfterOther(s, sep);
    }
  }

  /** A first character other than `sep` only extends the first piece. */
  lemma LaterPiecesAfterOther(s: string, sep: char)
    requires |s| > 0 && s[0] != sep
    ensures LaterPieceNonEmpty(Pieces(s, sep)) <==> LaterPieceNonEmpty(Pieces(s[1..], sep))
  {
    var rest := Pieces(s[1..], sep);
    var ps := Pieces(s, sep);
    assert ps == [[s[0]] + rest[0]] + rest[1..];
    assert forall k :: 1 <= k < |ps| ==> ps[k] == rest[k];
  }

  /** A first character other than `sep` cannot be the separator of a separator-then-other pair. */
  lemma SepThenOtherAfterOther(s: string, sep: char)
    requires |s| > 0 && s[0] != sep
    ensures SepThenOther(s, sep) <==> SepThenOther(s[1..], sep)
  {
    var t := s[1..];
    if SepThenOther(s, sep) {
      var i, j :| 0 <= i < j < |s| && s[i] == sep && s[j] != sep;
      assert t[i - 1] == sep && t[j - 1] != sep;
    }
    if SepThenOther(t, sep) {
      var i, j :| 0 <= i < j < |t| && t[i] == sep && t[j] != sep;
      assert s[i + 1] == sep && s[j + 1] != sep;
    }
  }

  /**
   * Java's split yields two pieces or more exactly when a separator is
   * followed later by some other character.
   */
  lemma SplitHasTwoPieces(s: string, sep: char)
    ensures |Split(s, sep)| >= 2 <==> SepThenOther(s, sep)
  {
    if s != "" {
      PiecesLaterNonEmpty(s, sep);
      var ps := Pieces(s, sep);
      var r := DropTrailingEmpty(ps);
      if |r| >= 2 {
        assert ps[|r| - 1] != "";
      }
      if LaterPieceNonEmpty(ps) {
        var k :| 1 <= k < |ps| && ps[k] != "";
        assert k < |r|;
      }
    }
  }

  /** A natural prints as decimal digits only. */
  lemma {:induction false} NatToDecimalDigits(n: nat)
    ensures forall i :: 0 <= i < |NatToDecimal(n)| ==> '0' <= NatToDecimal(n)[i] <= '9'
  {
    if n >= 10 {
      NatToDecimalDigits(n / 10);
      var d := ['0' + (n % 10) as char];
      assert NatToDecimal(n) == NatToDecimal(n / 10) + d;
    }
  }

  /** Different naturals print differently. */
  lemma {:induction false} NatToDecimalInjective(n: nat, m: nat)
    requires NatToDecimal(n) == NatToDecimal(m)
    ensures n == m
  {
    var a, b := NatToDecimal(n), NatToDecimal(m);
    assert |a| == 1 <==> n < 10;
    assert |b| == 1 <==> m < 10;
    assert a[|a| - 1] == '0' + (n % 10) as char;
    assert b[|b| - 1] == '0' + (m % 10) as char;
    assert n % 10 == m % 10;
    if n >= 10 {
      assert NatToDecimal(n / 10) == a[..|a| - 1];
      assert NatToDecimal(m / 10) == b[..|b| - 1];
      NatToDecimalInjective(n / 10, m / 10);
    }
  }

  /** Text without `c` appended after the last `c` stays after it. */
  lemma AfterLastExtend(x: string, t: string, c: char)
    requires c !in t
    ensures AfterLast(x + t, c) == AfterLast(x, c) + t
  {
    var s := x + t;
    var i := LastIndexOf(x, c);
    var k := LastIndexOf(s, c);
    assert forall j :: |x| <= j < |s| ==> s[j] == t[j - |x|];
    if i >= 0 {
      assert s[i] == c;
    }
    assert k < |x|;
    if k >= 0 {
      assert x[k] == c;
    }
    assert k == i;
    assert s[k + 1..] == x[i + 1..] + t;
  }
}
