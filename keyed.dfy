/**
 * The two list updates every collection in the application uses, stated once
 * over a key function: delete by id (`list.filter(x => x.id !== id)`) and
 * replace by id (`list.map(x => x.id === v.id ? v : x)`).
 */
module Keyed {
  import opened Seqs

  /** The record added after the existing ones, which stay as and where they were. */
  function Append<T>(s: seq<T>, v: T): (r: seq<T>)
    ensures |r| == |s| + 1 && r[..|s|] == s && r[|s|] == v
  {
    assert (s + [v])[..|s|] == s;
    s + [v]
  }

  /** Every record with key `id` deleted, the rest kept in order. */
  function Without<T(==,!new), K(==)>(s: seq<T>, key: T -> K, id: K): (r: seq<T>)
    ensures forall x :: x in r <==> x in s && key(x) != id
    ensures IsSubsequence(r, s)
    ensures forall x :: key(x) != id ==> multiset(r)[x] == multiset(s)[x]
    ensures (forall k :: 0 <= k < |s| ==> key(s[k]) != id) ==> r == s
    ensures NoDuplicates(s) ==> NoDuplicates(r)
  {
    var keep := x => key(x) != id;
    FilterIsSubsequence(s, keep);
    FilterMultiplicity(s, keep);
    assert NoDuplicates(s) ==> NoDuplicates(Filter(s, keep)) by {
      if NoDuplicates(s) {
        FilterNoDuplicates(s, keep);
      }
    }
    assert (forall k :: 0 <= k < |s| ==> key(s[k]) != id) ==> Filter(s, keep) == s by {
      if forall k :: 0 <= k < |s| ==> key(s[k]) != id {
        FilterKeepsAll(s, keep);
      }
    }
    Filter(s, keep)
  }

  /**
   * Every record carrying `v`'s key becomes `v`; every other record stays
   * where and as it was.
   */
  function Replace<T, K(==)>(s: seq<T>, key: T -> K, v: T): (r: seq<T>)
    ensures |r| == |s|
    ensures forall k :: 0 <= k < |s| && key(s[k]) == key(v) ==> r[k] == v
    ensures forall k :: 0 <= k < |s| && key(s[k]) != key(v) ==> r[k] == s[k]
    ensures Map(r, key) == Map(s, key)
    ensures (forall k :: 0 <= k < |s| ==> key(s[k]) != key(v)) ==> r == s
  {
    seq(|s|, k requires 0 <= k < |s| => if key(s[k]) == key(v) then v else s[k])
  }

  /** Replacing twice with the same record is replacing once. */
  lemma ReplaceIdempotent<T, K>(s: seq<T>, key: T -> K, v: T)
    ensures Replace(Replace(s, key, v), key, v) == Replace(s, key, v)
  {
    var once := Replace(s, key, v);
    assert Map(once, key) == Map(s, key);
    forall k | 0 <= k < |s| ensures key(once[k]) == key(s[k]) {
      assert Map(once, key)[k] == Map(s, key)[k];
    }
  }

  /** Deleting an id after replacing the record that carries it leaves what deleting alone leaves. */
  lemma {:induction false} WithoutAfterReplace<T(!new), K>(s: seq<T>, key: T -> K, v: T)
    ensures Without(Replace(s, key, v), key, key(v)) == Without(s, key, key(v))
    decreases |s|
  {
    if s != [] {
      var r := Replace(s, key, v);
      assert r[1..] == Replace(s[1..], key, v);
      WithoutAfterReplace(s[1..], key, v);
    }
  }

  /** Deleting twice is deleting once. */
  lemma WithoutIdempotent<T(!new), K>(s: seq<T>, key: T -> K, id: K)
    ensures Without(Without(s, key, id), key, id) == Without(s, key, id)
  {
    var once := Without(s, key, id);
    assert forall k :: 0 <= k < |once| ==> once[k] in once;
  }

  /** Appending a record with a fresh key and then deleting that key gives back the list. */
  lemma WithoutAfterAppend<T(!new), K>(s: seq<T>, key: T -> K, v: T)
    requires forall k :: 0 <= k < |s| ==> key(s[k]) != key(v)
    ensures Without(s + [v], key, key(v)) == s
  {
    FilterAppend(s, [v], x => key(x) != key(v));
    assert Filter([v], x => key(x) != key(v)) == [] + Filter([v][1..], x => key(x) != key(v));
    FilterKeepsAll(s, x => key(x) != key(v));
  }
}
