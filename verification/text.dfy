/** The handful of JavaScript string operations the app relies on:
    `String.prototype.trim`, `toLowerCase`, `includes` and `split(c)[0]`. */
module Text {

  /** The code points ECMAScript calls WhiteSpace or LineTerminator; these are
      exactly the characters `trim` strips. The ideographic space U+3000 is
      among them, which matters for text typed on a Japanese keyboard. */
  predicate IsWhitespace(c: char) {
    || c == '\t' || c == '\U{000B}' || c == '\U{000C}' || c == ' '
    || c == '\U{00A0}' || c == '\U{FEFF}'
    || c == '\n' || c == '\r' || c == '\U{2028}' || c == '\U{2029}'
    || c == '\U{1680}' || ('\U{2000}' <= c <= '\U{200A}')
    || c == '\U{202F}' || c == '\U{205F}' || c == '\U{3000}'
  }

  /** Every character of `s` at positions `lo` to `hi - 1` is whitespace. */
  ghost predicate WhitespaceIn(s: string, lo: int, hi: int) {
    && 0 <= lo && hi <= |s|
    && forall k :: lo <= k < hi ==> IsWhitespace(s[k])
  }

  ghost predicate AllWhitespace(s: string) {
    WhitespaceIn(s, 0, |s|)
  }

  /** The first position at or after `i` that does not hold whitespace,
      or `|s|` when there is none. */
  function SkipStart(s: string, i: nat): (j: nat)
    requires i <= |s|
    ensures i <= j <= |s|
    ensures WhitespaceIn(s, i, j)
    ensures j == |s| || !IsWhitespace(s[j])
    decreases |s| - i
  {
    if i < |s| && IsWhitespace(s[i]) then SkipStart(s, i + 1) else i
  }

  /** The position just after the last non-whitespace character before `j`,
      or `lo` when positions `lo` to `j - 1` are all whitespace. */
  function SkipEnd(s: string, lo: nat, j: nat): (k: nat)
    requires lo <= j <= |s|
    ensures lo <= k <= j
    ensures WhitespaceIn(s, k, j)
    ensures k == lo || !IsWhitespace(s[k - 1])
    decreases j
  {
    if lo < j && IsWhitespace(s[j - 1]) then SkipEnd(s, lo, j - 1) else j
  }

  /** `r` is `s` with the whitespace-only prefix of length `i` and a
      whitespace-only suffix removed. */
  ghost predicate TrimmedAt(s: string, r: string, i: int) {
    && 0 <= i && i + |r| <= |s|
    && s[i..i + |r|] == r
    && WhitespaceIn(s, 0, i)
    && WhitespaceIn(s, i + |r|, |s|)
  }

  /** JavaScript `s.trim()`. */
  function Trim(s: string): (r: string)
    ensures exists i :: TrimmedAt(s, r, i)
    ensures r == [] || (!IsWhitespace(r[0]) && !IsWhitespace(r[|r| - 1]))
    ensures r == [] <==> AllWhitespace(s)
  {
    var i := SkipStart(s, 0);
    var j := SkipEnd(s, i, |s|);
    TrimSpec(s, i, j);
    s[i..j]
  }

  /** The slice between the first and after the last non-whitespace
      character is framed by whitespace, starts and ends with a
      non-whitespace character, and is empty exactly when `s` is all
      whitespace. */
  lemma TrimSpec(s: string, i: nat, j: nat)
    requires i <= j <= |s|
    requires WhitespaceIn(s, 0, i) && (i == |s| || !IsWhitespace(s[i]))
    requires WhitespaceIn(s, j, |s|) && (j == i || !IsWhitespace(s[j - 1]))
    ensures TrimmedAt(s, s[i..j], i)
    ensures s[i..j] == [] || (!IsWhitespace(s[i..j][0]) && !IsWhitespace(s[i..j][j - i - 1]))
    ensures s[i..j] == [] <==> AllWhitespace(s)
  {
    if i != j {
      assert s[i..j][0] == s[i];
      assert s[i..j][j - i - 1] == s[j - 1];
    }
  }

  /** A string that neither starts nor ends with whitespace is its own trim. */
  lemma TrimOfTrimmed(s: string)
    requires s == [] || (!IsWhitespace(s[0]) && !IsWhitespace(s[|s| - 1]))
    ensures Trim(s) == s
  {
    assert SkipStart(s, 0) == 0;
    assert SkipEnd(s, 0, |s|) == |s|;
  }

  /** Trimming a trimmed string changes nothing. */
  lemma TrimIdempotent(s: string)
    ensures Trim(Trim(s)) == Trim(s)
  {
    TrimOfTrimmed(Trim(s));
  }

  /** The capitals the model lower-cases: ASCII A-Z and their full-width
      forms Ａ-Ｚ (U+FF21 to U+FF3A), both common in Japanese input. */
  predicate IsUpper(c: char) {
    ('A' <= c <= 'Z') || ('\U{FF21}' <= c <= '\U{FF3A}')
  }

  /** Case mapping of one character: each capital moves to its small form,
      32 code points on, in both the ASCII and the full-width block. */
  function LowerChar(c: char): char {
    if IsUpper(c) then (c as int + 32) as char else c
  }

  /** `s.toLowerCase()`, restricted to the ASCII and full-width Latin letters. */
  function Lower(s: string): (r: string)
    ensures |r| == |s|
    ensures forall i :: 0 <= i < |s| ==> !IsUpper(r[i])
    ensures forall i :: 0 <= i < |s| && !IsUpper(s[i]) ==> r[i] == s[i]
    ensures forall i :: 0 <= i < |s| ==> r[i] == LowerChar(s[i])
  {
    seq(|s|, i requires 0 <= i < |s| => LowerChar(s[i]))
  }

  /** Lower-casing twice is lower-casing once, and it commutes with slicing. */
  lemma LowerIdempotent(s: string)
    ensures Lower(Lower(s)) == Lower(s)
  {
  }

  lemma LowerSlice(s: string, i: int, j: int)
    requires 0 <= i <= j <= |s|
    ensures Lower(s)[i..j] == Lower(s[i..j])
  {
  }

  /** `needle` occurs in `hay` starting at position `i`. */
  ghost predicate OccursAt(hay: string, needle: string, i: int) {
    0 <= i && i + |needle| <= |hay| && hay[i..i + |needle|] == needle
  }

  /** JavaScript `hay.includes(needle)`. */
  function Contains(hay: string, needle: string): (r: bool)
    ensures |needle| == 0 ==> r
    ensures r ==> |needle| <= |hay|
    ensures needle == hay ==> r
    decreases |hay|
  {
    if needle <= hay then true
    else if |hay| == 0 then false
    else Contains(hay[1..], needle)
  }

  /** `Contains` holds exactly when the needle occurs somewhere. */
  lemma {:induction false} ContainsSpec(hay: string, needle: string)
    ensures Contains(hay, needle) <==> exists i :: OccursAt(hay, needle, i)
    decreases |hay|
  {
    if needle <= hay {
      assert OccursAt(hay, needle, 0);
    } else {
      assert |needle| <= |hay| ==> hay[0..|needle|] == hay[..|needle|];
      assert !OccursAt(hay, needle, 0);
      if |hay| > 0 {
        ContainsSpec(hay[1..], needle);
        if exists i :: OccursAt(hay[1..], needle, i) {
          var i :| OccursAt(hay[1..], needle, i);
          assert hay[1..][i..i + |needle|] == hay[i + 1..i + 1 + |needle|];
          assert OccursAt(hay, needle, i + 1);
        }
        forall i | OccursAt(hay, needle, i)
          ensures OccursAt(hay[1..], needle, i - 1)
        {
          assert hay[1..][i - 1..i - 1 + |needle|] == hay[i..i + |needle|];
        }
      }
    }
  }

  /** A case-sensitive match is also a match once both sides are lower-cased. */
  lemma ContainsLowered(hay: string, needle: string)
    ensures Contains(hay, needle) ==> Contains(Lower(hay), Lower(needle))
  {
    ContainsSpec(hay, needle);
    ContainsSpec(Lower(hay), Lower(needle));
    if Contains(hay, needle) {
      var i :| OccursAt(hay, needle, i);
      LowerSlice(hay, i, i + |needle|);
      assert OccursAt(Lower(hay), Lower(needle), i);
    }
  }

  /** JavaScript `s.split(sep)[0]` for a one-character separator: the text
      before the first separator, or all of `s` when there is none. */
  function BeforeFirst(s: string, sep: char): (r: string)
    ensures r <= s
    ensures sep !in r
    ensures |r| < |s| ==> s[|r|] == sep
  {
    if |s| == 0 || s[0] == sep then "" else [s[0]] + BeforeFirst(s[1..], sep)
  }

}
