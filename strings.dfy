/**
 * The few java.lang.String operations the platform detection relies on,
 * over `seq<char>`. Case conversion covers the ASCII letters only.
 */
module Strings {

  /** `part` occurs in `s` starting at offset `i`. */
  predicate OccursAt(s: string, part: string, i: int) {
    0 <= i <= |s| - |part| && s[i..i + |part|] == part
  }

  /** `s.contains(part)`: `part` occurs in `s` at some offset. */
  predicate Contains(s: string, part: string) {
    exists i | 0 <= i <= |s| - |part| :: OccursAt(s, part, i)
  }

  /** `s.endsWith(suffix)`. */
  predicate EndsWith(s: string, suffix: string) {
    |suffix| <= |s| && s[|s| - |suffix|..] == suffix
  }

  /** `Character.toLowerCase` restricted to ASCII upper-case letters. */
  function ToLowerChar(c: char): (d: char)
    ensures 'A' <= c <= 'Z' ==> 'a' <= d <= 'z' && d as int == c as int + 32
    ensures !('A' <= c <= 'Z') ==> d == c
  {
    if 'A' <= c <= 'Z' then (c as int + 32) as char else c
  }

  /** `s.toLowerCase()`, character by character. */
  function ToLower(s: string): (r: string)
    ensures |r| == |s|
    ensures forall i :: 0 <= i < |s| ==> r[i] == ToLowerChar(s[i])
    ensures forall i :: 0 <= i < |r| ==> !('A' <= r[i] <= 'Z')
  {
    seq(|s|, i requires 0 <= i < |s| => ToLowerChar(s[i]))
  }

  /** `a.equalsIgnoreCase(b)`: same length and equal character by character up to case. */
  predicate EqualsIgnoreCase(a: string, b: string) {
    |a| == |b| && forall i :: 0 <= i < |a| ==> ToLowerChar(a[i]) == ToLowerChar(b[i])
  }

  /** Characters `String.trim()` removes: every code point up to and including the space. */
  predicate IsTrimmed(c: char) {
    c <= ' '
  }

  /** Drops the leading characters `trim()` removes; what is left is a suffix of `s`. */
  function TrimStart(s: string): (r: string)
    ensures |r| <= |s| && r == s[|s| - |r|..]
    ensures forall k :: 0 <= k < |s| - |r| ==> IsTrimmed(s[k])
    ensures |r| > 0 ==> !IsTrimmed(r[0])
  {
    if |s| > 0 && IsTrimmed(s[0]) then TrimStart(s[1..]) else s
  }

  /** Drops the trailing characters `trim()` removes; what is left is a prefix of `s`. */
  function TrimEnd(s: string): (r: string)
    ensures |r| <= |s| && r == s[..|r|]
    ensures forall k :: |r| <= k < |s| ==> IsTrimmed(s[k])
    ensures |r| > 0 ==> !IsTrimmed(r[|r| - 1])
  {
    if |s| > 0 && IsTrimmed(s[|s| - 1]) then TrimEnd(s[..|s| - 1]) else s
  }

  /** `r` is the infix of `s` at `lo`, and every character of `s` outside it is trimmed. */
  predicate TrimmedAt(s: string, r: string, lo: int) {
    && OccursAt(s, r, lo)
    && (forall k :: 0 <= k < lo ==> IsTrimmed(s[k]))
    && (forall k :: lo + |r| <= k < |s| ==> IsTrimmed(s[k]))
  }

  /** `s.trim()`: the longest infix of `s` that neither starts nor ends with a trimmed character. */
  function Trim(s: string): (r: string)
    ensures exists lo :: TrimmedAt(s, r, lo)
    ensures |r| > 0 ==> !IsTrimmed(r[0]) && !IsTrimmed(r[|r| - 1])
  {
    var t := TrimStart(s);
    var r := TrimEnd(t);
    assert TrimmedAt(s, r, |s| - |t|);
    r
  }

  /**
   * On an already lower-cased string, `equalsIgnoreCase` against a pattern is
   * plain equality with the lower-cased pattern.
   */
  lemma EqualsIgnoreCaseOnLowered(pattern: string, s: string)
    ensures EqualsIgnoreCase(pattern, ToLower(s)) <==> ToLower(s) == ToLower(pattern)
  {
  }

  /** `contains`: a part longer than the string never occurs, the empty part always does, and so does a suffix. */
  lemma ContainsFacts(s: string, part: string)
    ensures Contains(s, part) ==> |part| <= |s|
    ensures part == [] ==> Contains(s, part)
    ensures EndsWith(s, part) ==> Contains(s, part)
  {
    if part == [] {
      assert OccursAt(s, part, 0);
    }
    if EndsWith(s, part) {
      assert OccursAt(s, part, |s| - |part|);
    }
  }

  /** `endsWith` holds exactly when the string is some prefix followed by the suffix. */
  lemma EndsWithSplits(s: string, suffix: string)
    ensures EndsWith(s, suffix) <==> exists p :: s == p + suffix
  {
    if EndsWith(s, suffix) {
      assert s == s[..|s| - |suffix|] + suffix;
    }
  }

  /** `equalsIgnoreCase` is symmetric and holds exactly when both strings lower-case to the same string. */
  lemma EqualsIgnoreCaseIffSameLower(a: string, b: string)
    ensures EqualsIgnoreCase(a, b) <==> ToLower(a) == ToLower(b)
    ensures EqualsIgnoreCase(a, b) <==> EqualsIgnoreCase(b, a)
  {
  }
}
