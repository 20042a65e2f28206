/**
 * The few `java.lang.String` operations and the `\s` character class of
 * `java.util.regex` that the parser and the syntax checker rely on.
 */
module JavaText {

  /** `\s` in a Java regular expression: space, \t, \n, \u000B, \f, \r. */
  predicate IsSpace(c: char)
  {
    c == ' ' || c == '\t' || c == '\n' || c == '\r' || c as int == 11 || c as int == 12
  }

  /** `String.trim` removes every leading and trailing character up to U+0020. */
  predicate IsTrimmed(c: char)
  {
    c <= ' '
  }

  /** Number of characters `trim` removes at the front. */
  function TrimStart(s: string): (lo: nat)
    ensures lo <= |s|
    ensures forall k :: 0 <= k < lo ==> IsTrimmed(s[k])
    ensures lo < |s| ==> !IsTrimmed(s[lo])
  {
    if s == [] || !IsTrimmed(s[0]) then 0 else 1 + TrimStart(s[1..])
  }

  /** Index just past the last character `trim` keeps. */
  function TrimEnd(s: string): (hi: nat)
    ensures hi <= |s|
    ensures forall k :: hi <= k < |s| ==> IsTrimmed(s[k])
    ensures 0 < hi ==> !IsTrimmed(s[hi - 1])
  {
    if s == [] || !IsTrimmed(s[|s| - 1]) then |s| else TrimEnd(s[..|s| - 1])
  }

  /** `String.trim`. */
  function Trim(s: string): (r: string)
    ensures r == [] || (!IsTrimmed(r[0]) && !IsTrimmed(r[|r| - 1]))
    ensures r == [] <==> forall k :: 0 <= k < |s| ==> IsTrimmed(s[k])
    ensures r != [] ==> r == s[TrimStart(s)..TrimEnd(s)]
  {
    var lo, hi := TrimStart(s), TrimEnd(s);
    if lo < hi then s[lo..hi] else []
  }

  lemma {:induction false} TrimIdempotent(s: string)
    ensures Trim(Trim(s)) == Trim(s)
  {
    var t := Trim(s);
    if t != [] {
      assert TrimStart(t) == 0;
      assert TrimEnd(t) == |t|;
    }
  }

  /** `trim` removes exactly the blank margins around a text that starts and ends with a visible character. */
  lemma TrimMargins(pre: string, s: string, post: string)
    requires forall k :: 0 <= k < |pre| ==> IsTrimmed(pre[k])
    requires forall k :: 0 <= k < |post| ==> IsTrimmed(post[k])
    requires s != [] && !IsTrimmed(s[0]) && !IsTrimmed(s[|s| - 1])
    ensures Trim(pre + s + post) == s
  {
    var x := pre + s + post;
    assert x[|pre|] == s[0] && x[|pre| + |s| - 1] == s[|s| - 1];
    assert TrimStart(x) == |pre|;
    assert TrimEnd(x) == |pre| + |s|;
    assert x[|pre|..|pre| + |s|] == s;
  }

  predicate StartsWith(s: string, prefix: string)
  {
    |prefix| <= |s| && s[..|prefix|] == prefix
  }

  predicate EndsWith(s: string, suffix: string)
  {
    |suffix| <= |s| && s[|s| - |suffix|..] == suffix
  }

  /** Length of the run of `\s` characters at the front of `s`. */
  function Spaces(s: string): (n: nat)
    ensures n <= |s|
    ensures forall k :: 0 <= k < n ==> IsSpace(s[k])
    ensures n < |s| ==> !IsSpace(s[n])
  {
    if s == [] || !IsSpace(s[0]) then 0 else 1 + Spaces(s[1..])
  }

  /** Length of the run of `\S` characters at the front of `s`. */
  function Word(s: string): (n: nat)
    ensures n <= |s|
    ensures forall k :: 0 <= k < n ==> !IsSpace(s[k])
    ensures n < |s| ==> IsSpace(s[n])
  {
    if s == [] || IsSpace(s[0]) then 0 else 1 + Word(s[1..])
  }

  /** Index of the first occurrence of `c` in `s`, or `|s|` when there is none. */
  function IndexOf(s: string, c: char): (i: nat)
    ensures i <= |s|
    ensures forall k :: 0 <= k < i ==> s[k] != c
    ensures i < |s| ==> s[i] == c
  {
    if s == [] || s[0] == c then 0 else 1 + IndexOf(s[1..], c)
  }
}
