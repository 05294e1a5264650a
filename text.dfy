/**
 * The case-insensitive search used by every item picker: the query, lower-cased,
 * occurs in the lower-cased text.
 */
module Text {

  /** One character lower-cased; only the ASCII letters A-Z are mapped. */
  function LowerChar(c: char): (r: char)
    ensures 'A' <= c <= 'Z' ==> 'a' <= r <= 'z' && r as int - c as int == 32
    ensures !('A' <= c <= 'Z') ==> r == c
  {
    if 'A' <= c <= 'Z' then (c as int + 32) as char else c
  }

  /** The string lower-cased, mapping only the ASCII letters A-Z. */
  function Lower(s: string): (r: string)
    ensures |r| == |s|
    ensures forall k :: 0 <= k < |s| ==> r[k] == LowerChar(s[k])
  {
    seq(|s|, k requires 0 <= k < |s| => LowerChar(s[k]))
  }

  /** Some position of `haystack` begins with `needle`. */
  predicate Includes(haystack: string, needle: string)
    decreases |haystack|
  {
    needle <= haystack || (haystack != [] && Includes(haystack[1..], needle))
  }

  /** Case-insensitive containment, as the search boxes compute it. */
  predicate MatchesQuery(text: string, query: string) {
    Includes(Lower(text), Lower(query))
  }

  /** `needle` occurs in `haystack` starting at offset `i`. */
  predicate OccursAt(haystack: string, needle: string, i: int) {
    0 <= i <= |haystack| - |needle| && haystack[i..i + |needle|] == needle
  }

  /** Dropping the first character of the haystack shifts every occurrence one place left. */
  lemma OccursShift(haystack: string, needle: string, i: nat)
    requires haystack != []
    ensures OccursAt(haystack[1..], needle, i) <==> OccursAt(haystack, needle, i + 1)
  {
    if i + 1 <= |haystack| - |needle| {
      assert haystack[1..][i..i + |needle|] == haystack[i + 1..i + 1 + |needle|];
    }
  }

  /** `Includes` holds exactly when the needle sits at some offset of the haystack. */
  lemma {:induction false} IncludesAt(haystack: string, needle: string)
    ensures Includes(haystack, needle) <==> exists i :: OccursAt(haystack, needle, i)
    decreases |haystack|
  {
    if needle <= haystack {
      assert OccursAt(haystack, needle, 0);
    } else if haystack != [] {
      IncludesAt(haystack[1..], needle);
      if Includes(haystack[1..], needle) {
        var i :| OccursAt(haystack[1..], needle, i);
        OccursShift(haystack, needle, i);
      }
      if exists i :: OccursAt(haystack, needle, i) {
        var i :| OccursAt(haystack, needle, i);
        if i > 0 {
          OccursShift(haystack, needle, i - 1);
        }
      }
    }
  }

  /** The empty query matches every text, so an empty search box filters nothing out. */
  lemma EmptyQueryMatchesAll(text: string)
    ensures MatchesQuery(text, "")
  {
    assert Lower("") == "";
  }

  /** Searching is blind to ASCII case in the query. */
  lemma QueryCaseInsensitive(text: string, query: string)
    ensures MatchesQuery(text, query) == MatchesQuery(text, Lower(query))
  {
    assert Lower(Lower(query)) == Lower(query);
  }
}
