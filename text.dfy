/** The string operations the catalog search uses: `toLowerCase` (ASCII only) and `includes`. */
module Text {

  /** Lower-cases one ASCII letter; every other character is kept. */
  function LowerChar(c: char): char
  {
    if 'A' <= c <= 'Z' then (c as int + 32) as char else c
  }

  /**
   * `s.toLowerCase()` restricted to ASCII letters: no upper-case letter is left, each one
   * becomes its lower-case partner, and every other character is kept.
   */
  function Lower(s: string): (r: string)
    ensures |r| == |s|
    ensures forall k :: 0 <= k < |r| ==> !('A' <= r[k] <= 'Z')
    ensures forall k :: 0 <= k < |s| && 'A' <= s[k] <= 'Z' ==> r[k] as int == s[k] as int + 32
    ensures forall k :: 0 <= k < |s| && !('A' <= s[k] <= 'Z') ==> r[k] == s[k]
  {
    seq(|s|, k requires 0 <= k < |s| => LowerChar(s[k]))
  }

  /** Lower-casing an already lower-cased string changes nothing. */
  lemma LowerIdempotent(s: string)
    ensures Lower(Lower(s)) == Lower(s)
  {
  }

  /** `needle` occurs in `hay` starting at position `k`. */
  predicate OccursAt(hay: string, needle: string, k: int)
  {
    0 <= k && k + |needle| <= |hay| && hay[k..k + |needle|] == needle
  }

  /** `hay.includes(needle)`: the needle occurs somewhere in the haystack. */
  function Includes(hay: string, needle: string): (r: bool)
    ensures r <==> exists k :: OccursAt(hay, needle, k)
    decreases |hay|
  {
    if |needle| > |hay| then
      assert forall k :: !OccursAt(hay, needle, k);
      false
    else if hay[..|needle|] == needle then
      assert OccursAt(hay, needle, 0);
      true
    else
      var rest := Includes(hay[1..], needle);
      ShiftOccurrence(hay, needle);
      rest
  }

  /** An occurrence past the first position is an occurrence in the tail, and back. */
  lemma ShiftOccurrence(hay: string, needle: string)
    requires |hay| > 0
    requires |needle| <= |hay| && hay[..|needle|] != needle
    ensures (exists k :: OccursAt(hay, needle, k)) <==> (exists k :: OccursAt(hay[1..], needle, k))
  {
    forall k | OccursAt(hay, needle, k)
      ensures OccursAt(hay[1..], needle, k - 1)
    {
      assert hay[1..][k - 1..k - 1 + |needle|] == hay[k..k + |needle|];
    }
    forall k | OccursAt(hay[1..], needle, k)
      ensures OccursAt(hay, needle, k + 1)
    {
      assert hay[1..][k..k + |needle|] == hay[k + 1..k + 1 + |needle|];
    }
  }

  /** The catalog search: the lower-cased name includes the lower-cased term. */
  predicate MatchesSearch(name: string, term: string)
  {
    Includes(Lower(name), Lower(term))
  }

  /** Every string includes the empty string, so an empty search term matches every name. */
  lemma IncludesEmpty(hay: string)
    ensures Includes(hay, "")
  {
    assert OccursAt(hay, "", 0);
  }
}
