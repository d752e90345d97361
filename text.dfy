/**
 * String operations the volcano-plot script relies on from Python's `str`:
 * `upper()`, `replace()`, `strip()`, the substring test `in`, `', '.join(...)`
 * and `str(int)`. Strings are sequences of characters.
 */
module Text {

  /** Python's `str.isspace()`: the characters `strip()` removes. */
  predicate IsSpace(c: char) {
    var n := c as int;
    || (9 <= n <= 13)        // \t \n \v \f \r
    || (28 <= n <= 32)       // file/group/record/unit separators and ' '
    || n == 0x85 || n == 0xA0 || n == 0x1680
    || (0x2000 <= n <= 0x200A)
    || n == 0x2028 || n == 0x2029 || n == 0x202F || n == 0x205F || n == 0x3000
  }

  predicate IsLower(c: char) {
    'a' <= c <= 'z'
  }

  /** `upper()` on one character, restricted to the ASCII letters. */
  function UpperChar(c: char): char {
    if IsLower(c) then (c as int - 32) as char else c
  }

  function Upper(s: string): string {
    seq(|s|, i requires 0 <= i < |s| => UpperChar(s[i]))
  }

  /** Upper-casing never turns a character into whitespace or whitespace into something else. */
  lemma UpperKeepsBlankness(s: string)
    ensures Strip(Upper(s)) == [] <==> Strip(s) == []
    ensures forall i :: 0 <= i < |Upper(s)| ==> !IsLower(Upper(s)[i])
  {
    StripMeaning(s);
    StripMeaning(Upper(s));
    forall i | 0 <= i < |s|
      ensures IsSpace(Upper(s)[i]) <==> IsSpace(s[i])
    {
      assert Upper(s)[i] == UpperChar(s[i]);
    }
  }

  /** `s.replace(target, replacement)` for single characters. */
  function Replace(s: string, target: char, replacement: char): string {
    seq(|s|, i requires 0 <= i < |s| => if s[i] == target then replacement else s[i])
  }

  /** Number of whitespace characters at the front of `s`. */
  function LeadingSpaces(s: string): (n: nat)
    ensures n <= |s|
    ensures forall i :: 0 <= i < n ==> IsSpace(s[i])
    ensures n < |s| ==> !IsSpace(s[n])
  {
    if |s| > 0 && IsSpace(s[0]) then 1 + LeadingSpaces(s[1..]) else 0
  }

  /** Number of whitespace characters at the back of `s`. */
  function TrailingSpaces(s: string): (n: nat)
    ensures n <= |s|
    ensures forall i :: |s| - n <= i < |s| ==> IsSpace(s[i])
    ensures n < |s| ==> !IsSpace(s[|s| - 1 - n])
  {
    if |s| > 0 && IsSpace(s[|s| - 1]) then 1 + TrailingSpaces(s[..|s| - 1]) else 0
  }

  /** `s.strip()`: `s` without its leading and trailing whitespace. */
  function Strip(s: string): string {
    var a := LeadingSpaces(s);
    var t := s[a..];
    t[..|t| - TrailingSpaces(t)]
  }

  /**
   * `strip()` removes whitespace, and only whitespace, from both ends: the
   * result is empty iff `s` is all whitespace, and otherwise it starts and ends
   * with a non-whitespace character.
   */
  lemma StripMeaning(s: string)
    ensures Strip(s) == [] <==> forall i :: 0 <= i < |s| ==> IsSpace(s[i])
    ensures Strip(s) != [] ==> !IsSpace(Strip(s)[0]) && !IsSpace(Strip(s)[|Strip(s)| - 1])
    ensures LeadingSpaces(s) + |Strip(s)| <= |s|
    ensures Strip(s) == s[LeadingSpaces(s)..LeadingSpaces(s) + |Strip(s)|]
    ensures forall i :: LeadingSpaces(s) + |Strip(s)| <= i < |s| ==> IsSpace(s[i])
  {
    StripSlice(s);
    StripEnds(s);
  }

  /** The stripped string is the slice of `s` after its leading whitespace, followed only by whitespace. */
  lemma StripSlice(s: string)
    ensures LeadingSpaces(s) + |Strip(s)| <= |s|
    ensures Strip(s) == s[LeadingSpaces(s)..LeadingSpaces(s) + |Strip(s)|]
    ensures forall i :: LeadingSpaces(s) + |Strip(s)| <= i < |s| ==> IsSpace(s[i])
  {
    var a := LeadingSpaces(s);
    var t := s[a..];
    var b := TrailingSpaces(t);
    assert Strip(s) == t[..|t| - b];
    forall i | a + |Strip(s)| <= i < |s| ensures IsSpace(s[i]) {
      assert s[i] == t[i - a];
    }
  }

  /** The stripped string is empty iff `s` is all whitespace; otherwise both its ends are not whitespace. */
  lemma StripEnds(s: string)
    ensures Strip(s) == [] <==> forall i :: 0 <= i < |s| ==> IsSpace(s[i])
    ensures Strip(s) != [] ==> !IsSpace(Strip(s)[0]) && !IsSpace(Strip(s)[|Strip(s)| - 1])
  {
    var a := LeadingSpaces(s);
    var t := s[a..];
    var b := TrailingSpaces(t);
    var r := Strip(s);
    assert r == t[..|t| - b];
    if r != [] {
      assert r[0] == t[0] == s[a];
      assert r[|r| - 1] == t[|t| - 1 - b];
    } else {
      assert a == |s|;
    }
  }

  /** `needle` occurs in `hay` starting at index `i`. */
  ghost predicate OccursAt(needle: string, hay: string, i: int) {
    0 <= i && i + |needle| <= |hay| && hay[i..i + |needle|] == needle
  }

  /** The meaning of Python's `needle in hay` for strings. */
  ghost predicate IsSubstring(needle: string, hay: string) {
    exists i :: OccursAt(needle, hay, i)
  }

  /** Python's `needle in hay`, as a left-to-right search. */
  function Contains(hay: string, needle: string): bool
    decreases |hay|
  {
    if |needle| > |hay| then false
    else hay[..|needle|] == needle || Contains(hay[1..], needle)
  }

  lemma {:induction false} ContainsIsSubstring(hay: string, needle: string)
    ensures Contains(hay, needle) <==> IsSubstring(needle, hay)
    decreases |hay|
  {
    if |needle| > |hay| {
      assert forall i :: !OccursAt(needle, hay, i);
    } else if hay[..|needle|] == needle {
      assert OccursAt(needle, hay, 0);
    } else {
      ContainsIsSubstring(hay[1..], needle);
      if Contains(hay[1..], needle) {
        var j :| OccursAt(needle, hay[1..], j);
        OccursInTail(hay, needle, j);
      }
      if IsSubstring(needle, hay) {
        var i :| OccursAt(needle, hay, i);
        assert i != 0 by {
          assert hay[0..|needle|] == hay[..|needle|];
        }
        OccursInTail(hay, needle, i - 1);
      }
    }
  }

  /** An occurrence at `j` in the tail of `hay` is an occurrence at `j + 1` in `hay`. */
  lemma OccursInTail(hay: string, needle: string, j: nat)
    requires |hay| > 0
    ensures OccursAt(needle, hay[1..], j) <==> OccursAt(needle, hay, j + 1)
  {
    if j + |needle| <= |hay| - 1 {
      assert hay[1..][j..j + |needle|] == hay[j + 1..j + 1 + |needle|];
    }
  }

  /** A needle whose first character never occurs in the haystack is not found. */
  lemma FirstCharAbsent(hay: string, needle: string)
    requires |needle| > 0 && forall i :: 0 <= i < |hay| ==> hay[i] != needle[0]
    ensures !Contains(hay, needle)
  {
    ContainsIsSubstring(hay, needle);
    forall i | 0 <= i && i + |needle| <= |hay| ensures !OccursAt(needle, hay, i) {
      assert hay[i..i + |needle|][0] == hay[i];
    }
  }

  /** `sep.join(parts)`. */
  function Join(sep: string, parts: seq<string>): string {
    if |parts| == 0 then ""
    else if |parts| == 1 then parts[0]
    else parts[0] + sep + Join(sep, parts[1..])
  }

  function TotalLength(parts: seq<string>): nat {
    if parts == [] then 0 else |parts[0]| + TotalLength(parts[1..])
  }

  /** The joined string is the parts plus one separator between each neighbouring pair. */
  lemma {:induction false} JoinLength(sep: string, parts: seq<string>)
    ensures |parts| > 0 ==> |Join(sep, parts)| == TotalLength(parts) + |sep| * (|parts| - 1)
    ensures |parts| == 0 ==> Join(sep, parts) == ""
  {
    if |parts| > 1 {
      JoinLength(sep, parts[1..]);
      assert |sep| * (|parts| - 1) == |sep| + |sep| * (|parts| - 2);
    }
  }

  /** Every part, whatever it holds, appears verbatim in the joined string. */
  lemma {:induction false} JoinContainsEveryPart(sep: string, parts: seq<string>, k: nat)
    requires k < |parts|
    ensures IsSubstring(parts[k], Join(sep, parts))
  {
    var j := Join(sep, parts);
    if |parts| == 1 {
      assert OccursAt(parts[0], j, 0);
    } else if k == 0 {
      assert j[0..|parts[0]|] == parts[0];
      assert OccursAt(parts[0], j, 0);
    } else {
      JoinContainsEveryPart(sep, parts[1..], k - 1);
      var tail := Join(sep, parts[1..]);
      var i :| OccursAt(parts[k], tail, i);
      var off := |parts[0]| + |sep|;
      assert j == parts[0] + sep + tail;
      assert j[off + i..off + i + |parts[k]|] == tail[i..i + |parts[k]|];
      assert OccursAt(parts[k], j, off + i);
    }
  }

  /**
   * Where `sep.join(parts)` puts each part: part k starts after the k parts
   * before it and k separators.
   */
  lemma {:induction false} JoinPlacesPart(sep: string, parts: seq<string>, k: nat)
    requires k < |parts|
    ensures OccursAt(parts[k], Join(sep, parts), TotalLength(parts[..k]) + |sep| * k)
  {
    var j := Join(sep, parts);
    if k == 0 {
      assert parts[..0] == [];
      assert j[0..|parts[0]|] == parts[0];
    } else {
      var tail := Join(sep, parts[1..]);
      assert j == parts[0] + sep + tail;
      JoinPlacesPart(sep, parts[1..], k - 1);
      TotalLengthOfPrefix(parts, k);
      var off := |parts[0]| + |sep|;
      var o := TotalLength(parts[1..][..k - 1]) + |sep| * (k - 1);
      assert |sep| * k == |sep| + |sep| * (k - 1);
      assert j[off + o..off + o + |parts[k]|] == tail[o..o + |parts[k]|];
    }
  }

  /** The separator after part k follows it directly, so the parts appear in their order. */
  lemma {:induction false} JoinPlacesSeparator(sep: string, parts: seq<string>, k: nat)
    requires k + 1 < |parts|
    ensures OccursAt(sep, Join(sep, parts), TotalLength(parts[..k + 1]) + |sep| * k)
  {
    var j := Join(sep, parts);
    var tail := Join(sep, parts[1..]);
    assert j == parts[0] + sep + tail;
    TotalLengthOfPrefix(parts, k + 1);
    if k == 0 {
      assert parts[1..][..0] == [];
      assert j[|parts[0]|..|parts[0]| + |sep|] == sep;
    } else {
      JoinPlacesSeparator(sep, parts[1..], k - 1);
      var off := |parts[0]| + |sep|;
      var o := TotalLength(parts[1..][..k]) + |sep| * (k - 1);
      assert |sep| * k == |sep| + |sep| * (k - 1);
      assert j[off + o..off + o + |sep|] == tail[o..o + |sep|];
    }
  }

  lemma TotalLengthOfPrefix(parts: seq<string>, k: nat)
    requires 0 < k <= |parts|
    ensures TotalLength(parts[..k]) == |parts[0]| + TotalLength(parts[1..][..k - 1])
  {
    assert parts[..k][1..] == parts[1..][..k - 1];
  }

  predicate IsDigit(c: char) {
    '0' <= c <= '9'
  }

  function DigitChar(d: nat): (c: char)
    requires d < 10
  {
    ('0' as int + d) as char
  }

  function DigitValue(c: char): nat
    requires IsDigit(c)
  {
    c as int - '0' as int
  }

  /** `str(n)` for a natural number: its decimal digits, without leading zeros. */
  function NatToString(n: nat): (s: string)
    ensures |s| >= 1
    ensures forall i :: 0 <= i < |s| ==> IsDigit(s[i])
    ensures |s| == 1 || s[0] != '0'
    decreases n
  {
    if n < 10 then [DigitChar(n)] else NatToString(n / 10) + [DigitChar(n % 10)]
  }

  /** Reads a string of decimal digits back as a number (Python's `int(s)`). */
  function ParseNat(s: string): nat
    requires forall i :: 0 <= i < |s| ==> IsDigit(s[i])
  {
    if s == [] then 0 else 10 * ParseNat(s[..|s| - 1]) + DigitValue(s[|s| - 1])
  }

  lemma {:induction false} ParseNatToString(n: nat)
    ensures ParseNat(NatToString(n)) == n
    decreases n
  {
    var s := NatToString(n);
    if n >= 10 {
      ParseNatToString(n / 10);
      assert s[..|s| - 1] == NatToString(n / 10);
    }
  }

  /** Different numbers print differently. */
  lemma NatToStringInjective(m: nat, n: nat)
    requires m != n
    ensures NatToString(m) != NatToString(n)
  {
    ParseNatToString(m);
    ParseNatToString(n);
  }
}
