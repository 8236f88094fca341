/**
 * The few ECMAScript string built-ins the utilities rely on:
 * `String.prototype.toLowerCase`, `String.prototype.indexOf` and the
 * line terminators that the regular-expression `.` refuses to match.
 */
module JsStrings {

  /** Lower-cases one character (ASCII letters only). */
  function LowerChar(c: char): char
  {
    if 'A' <= c <= 'Z' then (c as int + 32) as char else c
  }

  /** `s` has no upper-case ASCII letter. */
  predicate IsLowerCase(s: string)
  {
    forall i :: 0 <= i < |s| ==> !('A' <= s[i] <= 'Z')
  }

  /**
   * `s.toLowerCase()`, restricted to the ASCII letters: the result has no
   * upper-case letter left, and a string that has none is unchanged.
   */
  function ToLower(s: string): (r: string)
    ensures |r| == |s|
    ensures IsLowerCase(r)
    ensures IsLowerCase(s) ==> r == s
  {
    seq(|s|, i requires 0 <= i < |s| => LowerChar(s[i]))
  }

  /** `pat` occurs in `s` starting at index `i`. */
  predicate OccursAt(s: string, pat: string, i: int)
  {
    0 <= i && i + |pat| <= |s| && s[i..i + |pat|] == pat
  }

  /** `pat` occurs somewhere in `s`: the meaning of `s.indexOf(pat) >= 0`. */
  ghost predicate Contains(s: string, pat: string)
  {
    exists i :: OccursAt(s, pat, i)
  }

  /**
   * The search behind `s.indexOf(pat, from)` for `from <= |s|` (ECMAScript
   * clamps a larger `from` to `|s|`, which this function does not): the
   * first index at or after `from` where `pat` occurs, or -1 when there is
   * none.
   */
  function IndexOfFrom(s: string, pat: string, from: nat): (r: int)
    ensures r == -1 || (from <= r && OccursAt(s, pat, r))
    ensures forall i :: from <= i && (r == -1 || i < r) ==> !OccursAt(s, pat, i)
    decreases |s| - from
  {
    if from + |pat| > |s| then -1
    else if s[from..from + |pat|] == pat then from
    else IndexOfFrom(s, pat, from + 1)
  }

  /** `s.indexOf(pat)`. */
  function IndexOf(s: string, pat: string): int
  {
    IndexOfFrom(s, pat, 0)
  }

  /** `s.indexOf(pat) >= 0` holds exactly when `pat` occurs in `s`. */
  lemma IndexOfFindsOccurrence(s: string, pat: string)
    ensures IndexOf(s, pat) >= 0 <==> Contains(s, pat)
  {
  }

  /** `s` ends with `suffix`. */
  predicate EndsWith(s: string, suffix: string)
  {
    |suffix| <= |s| && s[|s| - |suffix|..] == suffix
  }

  /** The characters a regular-expression `.` does not match (ECMA-262 LineTerminator). */
  predicate IsLineTerminator(c: char)
  {
    c == '\n' || c == '\r' || c == '\U{2028}' || c == '\U{2029}'
  }
}
