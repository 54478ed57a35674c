// The java.lang.String operations the core relies on, stated over seq<char>.

module JavaStrings {
  import opened Common

  // ---------------------------------------------------------------------
  // String.compareTo

  /** String.compareTo: the difference of the first differing characters,
      or the difference of the lengths when one string is a prefix of the other. */
  function CompareTo(a: string, b: string): (r: int)
    ensures r == 0 <==> a == b
    decreases |a|
  {
    if |a| == 0 || |b| == 0 then |a| - |b|
    else if a[0] != b[0] then a[0] as int - b[0] as int
    else
      assert a == [a[0]] + a[1..] && b == [b[0]] + b[1..];
      CompareTo(a[1..], b[1..])
  }

  lemma {:induction false} CompareToAntisymmetric(a: string, b: string)
    ensures CompareTo(a, b) == -CompareTo(b, a)
    decreases |a|
  {
    if |a| == 0 || |b| == 0 {
    } else if a[0] != b[0] {
    } else {
      CompareToAntisymmetric(a[1..], b[1..]);
    }
  }

  lemma {:induction false} CompareToTransitive(a: string, b: string, c: string)
    requires CompareTo(a, b) < 0 && CompareTo(b, c) < 0
    ensures CompareTo(a, c) < 0
    decreases |a|
  {
    if |a| == 0 || |b| == 0 || |c| == 0 {
    } else if a[0] == b[0] && b[0] == c[0] {
      CompareToTransitive(a[1..], b[1..], c[1..]);
    }
  }

  /** compareTo is a total order: its sign flips with the arguments and `<= 0` is transitive. */
  lemma CompareToTotalOrder(a: string, b: string, c: string)
    ensures CompareTo(a, b) <= 0 || CompareTo(b, a) <= 0
    ensures CompareTo(a, b) <= 0 && CompareTo(b, c) <= 0 ==> CompareTo(a, c) <= 0
  {
    CompareToAntisymmetric(a, b);
    if CompareTo(a, b) < 0 && CompareTo(b, c) < 0 {
      CompareToTransitive(a, b, c);
    }
  }

  /** Comparator.comparing(k1).thenComparing(k2)...: the first key pair that differs decides. */
  function CompareKeys(a: seq<string>, b: seq<string>): (r: int)
    ensures |a| == |b| ==> (r == 0 <==> a == b)
    ensures |a| == |b| > 0 && a[0] != b[0] ==> r == CompareTo(a[0], b[0])
    ensures |a| == |b| > 0 && a[0] == b[0] ==> r == CompareKeys(a[1..], b[1..])
    decreases |a|
  {
    if |a| == 0 || |b| == 0 then 0
    else if a[0] != b[0] then CompareTo(a[0], b[0])
    else
      var r := CompareKeys(a[1..], b[1..]);
      assert |a| == |b| && r == 0 ==> a == [a[0]] + a[1..] && b == [b[0]] + b[1..];
      r
  }

  /** The key comparator is a total preorder on key lists of one length. */
  lemma {:induction false} CompareKeysTotalOrder(a: seq<string>, b: seq<string>, c: seq<string>)
    requires |a| == |b| == |c|
    ensures CompareKeys(a, b) == -CompareKeys(b, a)
    ensures CompareKeys(a, b) <= 0 && CompareKeys(b, c) <= 0 ==> CompareKeys(a, c) <= 0
    decreases |a|
  {
    if |a| > 0 {
      CompareKeysTotalOrder(a[1..], b[1..], c[1..]);
      CompareToAntisymmetric(a[0], b[0]);
      CompareToTotalOrder(a[0], b[0], c[0]);
      CompareToAntisymmetric(a[0], c[0]);
    }
  }

  /** Under the key comparator the first keys are in compareTo order. */
  lemma CompareKeysFirst(a: seq<string>, b: seq<string>)
    requires |a| == |b| > 0 && CompareKeys(a, b) <= 0
    ensures CompareTo(a[0], b[0]) <= 0
  {
  }

  // ---------------------------------------------------------------------
  // trim, isEmpty, toLowerCase, equalsIgnoreCase

  function TrimStart(s: string): (r: string)
    ensures |r| <= |s|
    ensures r == [] || r[0] > ' '
  {
    if |s| > 0 && s[0] <= ' ' then TrimStart(s[1..]) else s
  }

  function TrimEnd(s: string): (r: string)
    ensures |r| <= |s|
  {
    if |s| > 0 && s[|s| - 1] <= ' ' then TrimEnd(s[..|s| - 1]) else s
  }

  /** String.trim removes the leading and trailing characters up to U+0020. */
  function Trim(s: string): string
  {
    TrimEnd(TrimStart(s))
  }

  /** Every character of the string is one that trim removes. */
  predicate IsBlank(s: string)
  {
    forall i | 0 <= i < |s| :: s[i] <= ' '
  }

  lemma {:induction false} TrimStartEmptyIffBlank(s: string)
    ensures TrimStart(s) == [] <==> IsBlank(s)
    decreases |s|
  {
    if |s| > 0 && s[0] <= ' ' {
      TrimStartEmptyIffBlank(s[1..]);
      assert IsBlank(s) <==> IsBlank(s[1..]) by {
        if IsBlank(s[1..]) {
          forall i | 0 <= i < |s| ensures s[i] <= ' ' {
            if i > 0 { assert s[i] == s[1..][i - 1]; }
          }
        }
      }
    }
  }

  lemma {:induction false} TrimEndNonEmpty(s: string)
    requires s != [] && s[0] > ' '
    ensures TrimEnd(s) != []
    decreases |s|
  {
    if s[|s| - 1] <= ' ' {
      assert |s| > 1;
      TrimEndNonEmpty(s[..|s| - 1]);
    }
  }

  /** `s.trim().isEmpty()` holds exactly for blank strings. */
  lemma TrimEmptyIffBlank(s: string)
    ensures Trim(s) == [] <==> IsBlank(s)
  {
    TrimStartEmptyIffBlank(s);
    var t := TrimStart(s);
    if t != [] {
      TrimEndNonEmpty(t);
    }
  }

  function ToLowerChar(c: char): char
  {
    if 'A' <= c <= 'Z' then (c as int + 32) as char else c
  }

  /** String.toLowerCase on the ASCII letters. */
  function ToLower(s: string): (r: string)
    ensures |r| == |s|
    ensures forall i | 0 <= i < |s| :: r[i] == ToLowerChar(s[i])
  {
    seq(|s|, i requires 0 <= i < |s| => ToLowerChar(s[i]))
  }

  /** String.equalsIgnoreCase on the ASCII letters. */
  predicate EqualsIgnoreCase(a: string, b: string)
  {
    ToLower(a) == ToLower(b)
  }

  // ---------------------------------------------------------------------
  // endsWith, lastIndexOf, substring search

  predicate EndsWith(s: string, suffix: string)
  {
    |suffix| <= |s| && s[|s| - |suffix|..] == suffix
  }

  predicate OccursAt(s: string, pat: string, i: int)
  {
    0 <= i && i + |pat| <= |s| && s[i..i + |pat|] == pat
  }

  /** String.contains. */
  predicate Contains(s: string, pat: string)
  {
    exists i | 0 <= i <= |s| :: OccursAt(s, pat, i)
  }

  function LastIndexFrom(s: string, pat: string, i: int): (r: int)
    requires i <= |s|
    ensures r == -1 || 0 <= r <= i
    ensures r >= 0 ==> OccursAt(s, pat, r)
    ensures forall j | r < j <= i :: !OccursAt(s, pat, j)
    decreases i + 1
  {
    if i < 0 then -1
    else if OccursAt(s, pat, i) then i
    else LastIndexFrom(s, pat, i - 1)
  }

  /** String.lastIndexOf: the last position where `pat` occurs, or -1. */
  function LastIndexOf(s: string, pat: string): (r: int)
    ensures r == -1 || 0 <= r <= |s| - |pat|
    ensures r >= 0 ==> OccursAt(s, pat, r)
    ensures forall j | r < j <= |s| - |pat| :: !OccursAt(s, pat, j)
  {
    LastIndexFrom(s, pat, |s| - |pat|)
  }

  // ---------------------------------------------------------------------
  // split on a single character

  /** The pieces of `s` between the occurrences of `c`, empty pieces included. */
  function SplitPieces(s: string, c: char): (r: seq<string>)
    ensures |r| >= 1
  {
    if |s| == 0 then [""]
    else
      var rest := SplitPieces(s[1..], c);
      if s[0] == c then [""] + rest else [[s[0]] + rest[0]] + rest[1..]
  }

  function DropTrailingEmpty(pieces: seq<string>): (r: seq<string>)
    ensures |r| <= |pieces| && r == pieces[..|r|]
  {
    if |pieces| > 0 && pieces[|pieces| - 1] == "" then DropTrailingEmpty(pieces[..|pieces| - 1])
    else pieces
  }

  /** String.split with a one-character pattern: trailing empty strings are
      dropped, but an input without the separator is returned whole. */
  function Split(s: string, c: char): seq<string>
  {
    if c !in s then [s] else DropTrailingEmpty(SplitPieces(s, c))
  }

  lemma {:induction false} SplitPiecesWithout(s: string, c: char)
    requires c !in s
    ensures SplitPieces(s, c) == [s]
    decreases |s|
  {
    if |s| > 0 {
      SplitPiecesWithout(s[1..], c);
      assert [s[0]] + s[1..] == s;
    }
  }

  lemma {:induction false} SplitPiecesAround(u: string, c: char, h: string)
    requires c !in u && c !in h
    ensures SplitPieces(u + [c] + h, c) == [u, h]
    decreases |u|
  {
    if |u| == 0 {
      assert u + [c] + h == [c] + h;
      assert ([c] + h)[1..] == h;
      SplitPiecesWithout(h, c);
    } else {
      assert (u + [c] + h)[1..] == u[1..] + [c] + h;
      SplitPiecesAround(u[1..], c, h);
      assert [u[0]] + u[1..] == u;
    }
  }

  /** Splitting "user@host" on '@' gives the two halves when the host is not empty. */
  lemma SplitAround(u: string, c: char, h: string)
    requires c !in u && c !in h && h != ""
    ensures Split(u + [c] + h, c) == [u, h]
  {
    assert (u + [c] + h)[|u|] == c;
    SplitPiecesAround(u, c, h);
  }

  lemma {:induction false} SplitPiecesExclude(s: string, c: char)
    ensures forall i | 0 <= i < |SplitPieces(s, c)| :: c !in SplitPieces(s, c)[i]
    decreases |s|
  {
    if |s| > 0 {
      SplitPiecesExclude(s[1..], c);
    }
  }

  /** No piece of a split contains the separator. */
  lemma SplitExclude(s: string, c: char)
    ensures forall i | 0 <= i < |Split(s, c)| :: c !in Split(s, c)[i]
  {
    SplitPiecesExclude(s, c);
  }

  /** Pieces joined by a separator character. */
  function Join(pieces: seq<string>, c: char): string
  {
    if |pieces| == 0 then ""
    else if |pieces| == 1 then pieces[0]
    else pieces[0] + [c] + Join(pieces[1..], c)
  }

  lemma {:induction false} SplitPiecesPrefix(u: string, c: char, rest: string)
    requires c !in u
    ensures SplitPieces(u + [c] + rest, c) == [u] + SplitPieces(rest, c)
    decreases |u|
  {
    if |u| == 0 {
      assert u + [c] + rest == [c] + rest;
      assert ([c] + rest)[1..] == rest;
    } else {
      assert (u + [c] + rest)[1..] == u[1..] + [c] + rest;
      SplitPiecesPrefix(u[1..], c, rest);
      assert [u[0]] + u[1..] == u;
    }
  }

  lemma {:induction false} SplitPiecesJoin(pieces: seq<string>, c: char)
    requires |pieces| >= 1
    requires forall i | 0 <= i < |pieces| :: c !in pieces[i]
    ensures SplitPieces(Join(pieces, c), c) == pieces
    decreases |pieces|
  {
    if |pieces| == 1 {
      SplitPiecesWithout(pieces[0], c);
    } else {
      SplitPiecesJoin(pieces[1..], c);
      SplitPiecesPrefix(pieces[0], c, Join(pieces[1..], c));
    }
  }

  /** split undoes a join of two or more separator-free pieces whose last piece is not
      empty; an empty last piece is dropped. */
  lemma SplitJoin(pieces: seq<string>, c: char)
    requires |pieces| >= 2
    requires forall i | 0 <= i < |pieces| :: c !in pieces[i]
    ensures pieces[|pieces| - 1] != "" ==> Split(Join(pieces, c), c) == pieces
    ensures pieces[|pieces| - 1] == "" ==> |Split(Join(pieces, c), c)| < |pieces|
  {
    SplitPiecesJoin(pieces, c);
    assert Join(pieces, c) == pieces[0] + [c] + Join(pieces[1..], c);
    assert Join(pieces, c)[|pieces[0]|] == c;
  }

  // ---------------------------------------------------------------------
  // Integer.toString and Integer.parseInt

  predicate IsDigit(c: char) { '0' <= c <= '9' }

  predicate AllDigits(s: string)
  {
    forall i | 0 <= i < |s| :: IsDigit(s[i])
  }

  function DigitsValue(s: string): nat
    requires AllDigits(s)
  {
    if |s| == 0 then 0
    else DigitsValue(s[..|s| - 1]) * 10 + (s[|s| - 1] as int - '0' as int)
  }

  function DigitChar(d: nat): char
    requires d < 10
  {
    ('0' as int + d) as char
  }

  /** The decimal digits of a natural number, without leading zeros. */
  function NatToString(n: nat): (r: string)
    ensures |r| >= 1 && AllDigits(r)
  {
    if n < 10 then [DigitChar(n)] else NatToString(n / 10) + [DigitChar(n % 10)]
  }

  /** Integer.toString. */
  function IntToString(n: int): string
  {
    if n < 0 then "-" + NatToString(-n) else NatToString(n)
  }

  /** Integer.parseInt: an optional sign, then ASCII digits, in the int range;
      anything else is a NumberFormatException (None). */
  function ParseInt(s: string): (r: Option<int>)
    ensures r.Some? ==> IsInt32(r.value)
  {
    if |s| == 0 then None
    else if s[0] == '-' || s[0] == '+' then
      if |s| == 1 || !AllDigits(s[1..]) then None
      else
        var d: int := DigitsValue(s[1..]);
        var v := if s[0] == '-' then 0 - d else d;
        if IsInt32(v) then Some(v) else None
    else if AllDigits(s) && IsInt32(DigitsValue(s)) then Some(DigitsValue(s))
    else None
  }

  lemma {:induction false} NatToStringValue(n: nat)
    ensures DigitsValue(NatToString(n)) == n
  {
    if n >= 10 {
      NatToStringValue(n / 10);
      var s := NatToString(n);
      assert s[..|s| - 1] == NatToString(n / 10);
    }
  }

  /** parseInt inverts toString on the whole int range. */
  lemma ParseIntToString(n: int)
    requires IsInt32(n)
    ensures ParseInt(IntToString(n)) == Some(n)
  {
    if n < 0 {
      NatToStringValue(-n);
      assert IntToString(n)[1..] == NatToString(-n);
    } else {
      NatToStringValue(n);
    }
  }

  // ---------------------------------------------------------------------
  // StringHelper.truncateHead and StringHelper.replaceIllegalChars

  /** StringHelper.truncateHead: the last `n` characters, or the whole string if shorter. */
  function TruncateHead(s: string, n: nat): (r: string)
    ensures |r| <= n
    ensures EndsWith(s, r)
    ensures |s| <= n ==> r == s
    ensures |s| > n ==> |r| == n
  {
    if |s| <= n then s else s[|s| - n..]
  }

  /** The characters of the course-id pattern [a-zA-Z0-9_.$-]. */
  predicate IsCourseIdChar(c: char)
  {
    'a' <= c <= 'z' || 'A' <= c <= 'Z' || IsDigit(c) || c == '_' || c == '.' || c == '$' || c == '-'
  }

  /** StringHelper.replaceIllegalChars with the course-id pattern: each character
      outside that pattern becomes `replacement`. */
  function ReplaceIllegalChars(s: string, replacement: char): (r: string)
    ensures |r| == |s|
    ensures forall i | 0 <= i < |s| :: r[i] == (if IsCourseIdChar(s[i]) then s[i] else replacement)
  {
    seq(|s|, i requires 0 <= i < |s| => if IsCourseIdChar(s[i]) then s[i] else replacement)
  }
}
