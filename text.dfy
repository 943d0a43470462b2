/** The Python string operations the core relies on: `str.strip`, `str.upper`, `str.lower`. */
module Text {

  /** Python's `str.isspace` for one character: the characters `str.strip()` removes. */
  predicate IsSpace(c: char) {
    ('\t' <= c <= '\r') || ('\U{1C}' <= c <= '\U{1F}') || c == ' ' || c == '\U{85}' || c == '\U{A0}'
    || c == '\U{1680}' || ('\U{2000}' <= c <= '\U{200A}') || c == '\U{2028}' || c == '\U{2029}'
    || c == '\U{202F}' || c == '\U{205F}' || c == '\U{3000}'
  }

  predicate IsLowerAscii(c: char) { 'a' <= c <= 'z' }

  predicate IsUpperAscii(c: char) { 'A' <= c <= 'Z' }

  function UpperChar(c: char): char {
    if IsLowerAscii(c) then (c as int - 32) as char else c
  }

  function LowerChar(c: char): char {
    if IsUpperAscii(c) then (c as int + 32) as char else c
  }

  /** `str.upper()` on the ASCII letters. */
  function Upper(s: string): string {
    seq(|s|, i requires 0 <= i < |s| => UpperChar(s[i]))
  }

  /** `str.lower()` on the ASCII letters. */
  function Lower(s: string): string {
    seq(|s|, i requires 0 <= i < |s| => LowerChar(s[i]))
  }

  /** No lower-case ASCII letter anywhere in `s`. */
  predicate IsUpperCased(s: string) {
    forall i :: 0 <= i < |s| ==> !IsLowerAscii(s[i])
  }

  /** Neither end of `s` is whitespace. */
  predicate IsTrimmed(s: string) {
    s == [] || (!IsSpace(s[0]) && !IsSpace(s[|s| - 1]))
  }

  /** `str.lstrip()`: the longest suffix of `s` that does not start with whitespace. */
  function TrimStart(s: string): (r: string)
    ensures |r| <= |s| && r == s[|s| - |r|..]
    ensures r == [] || !IsSpace(r[0])
  {
    if s != [] && IsSpace(s[0]) then TrimStart(s[1..]) else s
  }

  /** `str.rstrip()`: the longest prefix of `s` that does not end with whitespace. */
  function TrimEnd(s: string): (r: string)
    ensures |r| <= |s| && r == s[..|r|]
    ensures r == [] || !IsSpace(r[|r| - 1])
  {
    if s != [] && IsSpace(s[|s| - 1]) then TrimEnd(s[..|s| - 1]) else s
  }

  /** `str.strip()`: `s` without its leading and trailing whitespace. */
  function Strip(s: string): (r: string)
    ensures IsTrimmed(r)
  {
    TrimEnd(TrimStart(s))
  }

  /** What `lstrip` removes is whitespace. */
  lemma {:induction false} TrimStartRemovesSpaces(s: string)
    ensures forall i :: 0 <= i < |s| - |TrimStart(s)| ==> IsSpace(s[i])
  {
    if s != [] && IsSpace(s[0]) {
      TrimStartRemovesSpaces(s[1..]);
      forall i | 0 < i < |s| - |TrimStart(s)| ensures IsSpace(s[i]) {
        assert s[i] == s[1..][i - 1];
      }
    }
  }

  /** What `rstrip` removes is whitespace. */
  lemma {:induction false} TrimEndRemovesSpaces(s: string)
    ensures forall i :: |TrimEnd(s)| <= i < |s| ==> IsSpace(s[i])
  {
    if s != [] && IsSpace(s[|s| - 1]) {
      TrimEndRemovesSpaces(s[..|s| - 1]);
      forall i | |TrimEnd(s)| <= i < |s| - 1 ensures IsSpace(s[i]) {
        assert s[i] == s[..|s| - 1][i];
      }
    }
  }

  /** A string strips to nothing exactly when it is all whitespace. */
  lemma StripEmptyIff(s: string)
    ensures Strip(s) == [] <==> forall i :: 0 <= i < |s| ==> IsSpace(s[i])
  {
    var t := TrimStart(s);
    TrimStartRemovesSpaces(s);
    TrimEndRemovesSpaces(t);
  }

  /** Stripping only removes characters at the ends: what is left is a contiguous part of `s`. */
  lemma StripIsInfix(s: string)
    ensures exists lo, hi :: 0 <= lo <= hi <= |s| && Strip(s) == s[lo..hi]
  {
    var t := TrimStart(s);
    var r := TrimEnd(t);
    var lo := |s| - |t|;
    assert r == s[lo..lo + |r|];
  }

  /** Upper-case, then trim: the normalisation applied to every text column of the feed. */
  function UpperStrip(s: string): string {
    Strip(Upper(s))
  }

  /** A string of upper-case ASCII letters is left alone by both `strip` and `upper`. */
  lemma UpperLettersAreClean(s: string)
    requires forall i :: 0 <= i < |s| ==> IsUpperAscii(s[i])
    ensures Strip(s) == s && Upper(s) == s
  {
    StripOfTrimmed(s);
    UpperOfUpperCased(s);
  }

  lemma StripOfTrimmed(s: string)
    requires IsTrimmed(s)
    ensures Strip(s) == s
  {
  }

  lemma UpperOfUpperCased(s: string)
    requires IsUpperCased(s)
    ensures Upper(s) == s
  {
  }

  lemma StripKeepsUpperCased(s: string)
    requires IsUpperCased(s)
    ensures IsUpperCased(Strip(s))
  {
    StripIsInfix(s);
    var lo, hi :| 0 <= lo <= hi <= |s| && Strip(s) == s[lo..hi];
    var r := Strip(s);
    forall i | 0 <= i < |r| ensures !IsLowerAscii(r[i]) {
      assert r[i] == s[lo + i];
    }
  }

  /** A normalised field is upper-cased and trimmed, and normalising it again changes nothing. */
  lemma {:induction false} UpperStripNormalises(s: string)
    ensures IsUpperCased(UpperStrip(s)) && IsTrimmed(UpperStrip(s))
    ensures UpperStrip(UpperStrip(s)) == UpperStrip(s)
  {
    var u := Upper(s);
    assert IsUpperCased(u);
    StripKeepsUpperCased(u);
    var n := Strip(u);
    UpperOfUpperCased(n);
    StripOfTrimmed(n);
  }
}
