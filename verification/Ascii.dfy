/** Strings are ASCII byte sequences; these are the string operations the servers use. */
module Ascii {

  function LowerChar(c: char): char {
    if 'A' <= c <= 'Z' then (c as int + 32) as char else c
  }

  function ToLower(s: string): string {
    seq(|s|, i requires 0 <= i < |s| => LowerChar(s[i]))
  }

  predicate IsLower(s: string) {
    ToLower(s) == s
  }

  predicate HasPrefix(s: string, p: string) {
    p <= s
  }

  predicate HasSuffix(s: string, x: string) {
    |x| <= |s| && s[|s| - |x|..] == x
  }

  function TrimSuffix(s: string, x: string): string {
    if HasSuffix(s, x) then s[..|s| - |x|] else s
  }

  /** The position of the last c in s, or -1. */
  function LastIndex(s: string, c: char): (k: int)
    ensures -1 <= k < |s|
    ensures k >= 0 ==> s[k] == c
    ensures forall i :: k < i < |s| ==> s[i] != c
  {
    if s == "" then -1
    else if s[|s| - 1] == c then |s| - 1
    else LastIndex(s[..|s| - 1], c)
  }

  predicate IsSpace(c: char) {
    c == ' ' || 9 <= c as int <= 13
  }

  function TrimLeft(s: string): string {
    if s == "" || !IsSpace(s[0]) then s else TrimLeft(s[1..])
  }

  function TrimRight(s: string): string {
    if s == "" || !IsSpace(s[|s| - 1]) then s else TrimRight(s[..|s| - 1])
  }

  function TrimSpace(s: string): string {
    TrimRight(TrimLeft(s))
  }

  lemma ToLowerConcat(a: string, b: string)
    ensures ToLower(a + b) == ToLower(a) + ToLower(b)
  {
  }

  lemma ToLowerTwice(s: string)
    ensures IsLower(ToLower(s))
  {
  }

  lemma ToLowerSlice(s: string, i: nat, j: nat)
    requires i <= j <= |s|
    ensures ToLower(s[i..j]) == ToLower(s)[i..j]
  {
  }

  /** Cutting a suffix off what was just concatenated. */
  lemma SuffixOfConcat(a: string, x: string)
    ensures HasSuffix(a + x, x) && TrimSuffix(a + x, x) == a
  {
    assert (a + x)[|a|..] == x;
    assert (a + x)[..|a|] == a;
  }

  lemma SplitSuffix(s: string, x: string)
    requires HasSuffix(s, x)
    ensures s == s[..|s| - |x|] + x
  {
  }

  /** The last separator of a + [c] + b, when b has none. */
  lemma LastIndexOfConcat(a: string, c: char, b: string)
    requires c !in b
    ensures LastIndex(a + [c] + b, c) == |a|
  {
    var s := a + [c] + b;
    assert s[|a|] == c;
    assert s[|a| + 1..] == b;
  }

  lemma {:induction false} TrimLeftStart(s: string)
    ensures TrimLeft(s) != "" ==> !IsSpace(TrimLeft(s)[0])
  {
    if s != "" && IsSpace(s[0]) { TrimLeftStart(s[1..]); }
  }

  lemma {:induction false} TrimRightEnds(s: string)
    ensures TrimRight(s) <= s
    ensures TrimRight(s) != "" ==> !IsSpace(TrimRight(s)[|TrimRight(s)| - 1])
  {
    if s != "" && IsSpace(s[|s| - 1]) { TrimRightEnds(s[..|s| - 1]); }
  }

  /** A trimmed string neither starts nor ends with white space. */
  lemma TrimSpaceEnds(s: string)
    requires TrimSpace(s) != ""
    ensures !IsSpace(TrimSpace(s)[0]) && !IsSpace(TrimSpace(s)[|TrimSpace(s)| - 1])
  {
    TrimLeftStart(s);
    TrimRightEnds(TrimLeft(s));
  }

  // Letter case, by character codes

  /** The second string is the first in lower case. */
  predicate Folded(s: string, low: string) {
    && |s| == |low|
    && forall i :: 0 <= i < |s| ==>
         low[i] as int == if 65 <= s[i] as int <= 90 then s[i] as int + 32 else s[i] as int
  }

  lemma FoldedIsToLower(s: string, low: string)
    ensures Folded(s, low) <==> low == ToLower(s)
  {
    if Folded(s, low) {
      assert forall i :: 0 <= i < |s| ==> low[i] == ToLower(s)[i];
    }
  }
}
