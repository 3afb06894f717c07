/**
 * The two pieces of java.lang.String behaviour the game relies on:
 * case-insensitive comparison (`equalsIgnoreCase`) and substring search
 * (`indexOf`). Case folding is restricted to ASCII letters.
 */
module Text {

  /** Lower-cases an ASCII upper-case letter and leaves every other character alone. */
  function Fold(c: char): char
  {
    if 'A' <= c <= 'Z' then (c as int - 'A' as int + 'a' as int) as char else c
  }

  /** Two strings are equal ignoring case when they have the same length and agree letter by letter after folding. */
  predicate EqualsIgnoreCase(a: string, b: string)
  {
    |a| == |b| && forall i :: 0 <= i < |a| ==> Fold(a[i]) == Fold(b[i])
  }

  /** Exact equality is a special case of equality ignoring case. */
  lemma ExactImpliesIgnoreCase(a: string, b: string)
    requires a == b
    ensures EqualsIgnoreCase(a, b)
  {
  }

  /** `needle` occurs in `hay` starting at position `k`. */
  predicate OccursAt(hay: string, needle: string, k: int)
  {
    0 <= k && k + |needle| <= |hay| && hay[k..k + |needle|] == needle
  }

  /**
   * Java's `hay.indexOf(needle, from)`: the first position at or after `from`
   * where `needle` occurs, or -1 when there is none.
   */
  function IndexOfFrom(hay: string, needle: string, from: nat): (r: int)
    requires from <= |hay|
    ensures r == -1 || (from <= r && OccursAt(hay, needle, r))
    ensures r >= 0 ==> forall k :: from <= k < r ==> !OccursAt(hay, needle, k)
    ensures r == -1 ==> forall k :: from <= k ==> !OccursAt(hay, needle, k)
    decreases |hay| - from
  {
    if from + |needle| > |hay| then -1
    else if hay[from..from + |needle|] == needle then from
    else IndexOfFrom(hay, needle, from + 1)
  }

  /** Java's `hay.indexOf(needle)`; the empty needle is found at 0. */
  function IndexOf(hay: string, needle: string): (r: int)
    ensures r == -1 || OccursAt(hay, needle, r)
    ensures r >= 0 ==> forall k :: 0 <= k < r ==> !OccursAt(hay, needle, k)
    ensures r == -1 <==> forall k :: !OccursAt(hay, needle, k)
  {
    IndexOfFrom(hay, needle, 0)
  }

  /** A needle holding a character the haystack lacks is never found. */
  lemma ForeignCharNotFound(hay: string, needle: string, c: char)
    requires c in needle && c !in hay
    ensures IndexOf(hay, needle) == -1
  {
  }
}
