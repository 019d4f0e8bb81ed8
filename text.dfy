/**
 * Lower-casing of message bodies, as `String.prototype.toLowerCase` does it
 * for the ASCII range (index.js:99).
 */
module Text {

  /** The lower-case form of one character: 'A'..'Z' map to 'a'..'z'. */
  function LowerChar(c: char): (r: char)
    ensures 'A' <= c <= 'Z' ==> r as int == c as int + 32
    ensures !('A' <= c <= 'Z') ==> r == c
    ensures !('A' <= r <= 'Z')
  {
    if 'A' <= c <= 'Z' then (c as int + 32) as char else c
  }

  /** The lower-case form of a string, character by character. */
  function Lower(s: string): (r: string)
  {
    if s == [] then [] else [LowerChar(s[0])] + Lower(s[1..])
  }

  /** Lower-casing keeps the length and works on each position alone. */
  lemma {:induction false} LowerAt(s: string)
    ensures |Lower(s)| == |s|
    ensures forall i :: 0 <= i < |s| ==> Lower(s)[i] == LowerChar(s[i])
  {
    if s != [] {
      LowerAt(s[1..]);
      forall i | 0 <= i < |s|
        ensures Lower(s)[i] == LowerChar(s[i])
      {
        if i > 0 {
          assert Lower(s)[i] == Lower(s[1..])[i - 1];
        }
      }
    }
  }

  /** Lower-casing twice is lower-casing once. */
  lemma {:induction false} LowerIdempotent(s: string)
    ensures Lower(Lower(s)) == Lower(s)
  {
    if s != [] {
      LowerIdempotent(s[1..]);
      assert Lower(s)[1..] == Lower(s[1..]);
    }
  }

  /** A string already in lower case is left as it is. */
  predicate IsLower(t: string)
  {
    forall i :: 0 <= i < |t| ==> !('A' <= t[i] <= 'Z')
  }

  /**
   * The comparison `Lower(s) == t` against a lower-case literal is a
   * case-insensitive comparison: it holds exactly when `s` has the length
   * of `t` and each character of `s` is the one of `t` or its upper-case
   * form. There is no trimming: a string of another length never matches.
   */
  lemma {:induction false} LowerEqualsCaseInsensitive(s: string, t: string)
    requires IsLower(t)
    ensures Lower(s) == t <==>
              |s| == |t| && forall i :: 0 <= i < |s| ==> LowerChar(s[i]) == t[i]
  {
    LowerAt(s);
    if |s| == |t| && forall i :: 0 <= i < |s| ==> LowerChar(s[i]) == t[i] {
      assert forall i :: 0 <= i < |s| ==> Lower(s)[i] == t[i];
    }
  }

}
