/**
 * Ordered key sequences. A JavaScript `Map` iterates its keys in insertion
 * order; the registries keep that order as a duplicate-free sequence.
 */
module Sequences {

  /** No element occurs twice. */
  ghost predicate NoDup<T>(s: seq<T>)
  {
    forall i, j :: 0 <= i < j < |s| ==> s[i] != s[j]
  }

  /** `s` with every occurrence of `x` dropped, the rest in their order (`Map.delete`). */
  function Without(s: seq<string>, x: string): (r: seq<string>)
    ensures forall y :: y in r <==> y in s && y != x
    ensures x !in s ==> r == s
    ensures NoDup(s) ==> NoDup(r)
  {
    if s == [] then []
    else if s[0] == x then Without(s[1..], x)
    else
      var rest := Without(s[1..], x);
      assert s[0] !in s[1..] ==> s[0] !in rest;
      [s[0]] + rest
  }

  /** Appending a fresh key keeps the sequence duplicate-free. */
  lemma AppendFresh<T>(s: seq<T>, x: T)
    requires NoDup(s) && x !in s
    ensures NoDup(s + [x])
  {
    forall i, j | 0 <= i < j < |s + [x]|
      ensures (s + [x])[i] != (s + [x])[j]
    {
      if j == |s| {
        assert (s + [x])[i] == s[i];
      }
    }
  }

  /** Deleting a key that was just appended gives back the order before the append. */
  lemma {:induction false} WithoutAppended(s: seq<string>, x: string)
    requires x !in s
    ensures Without(s + [x], x) == s
  {
    if s != [] {
      assert (s + [x])[1..] == s[1..] + [x];
      WithoutAppended(s[1..], x);
    }
  }

  /**
   * Deleting a key that occurs once, at position `k`, closes the gap and
   * keeps every other key in its place relative to the rest.
   */
  lemma {:induction false} WithoutAt(s: seq<string>, x: string, k: nat)
    requires k < |s| && s[k] == x && x !in s[..k] && x !in s[k + 1..]
    ensures Without(s, x) == s[..k] + s[k + 1..]
    decreases k
  {
    if k == 0 {
      assert s[1..] == s[k + 1..];
    } else {
      assert s[0] != x by { assert s[0] in s[..k]; }
      assert s[1..][k - 1] == x;
      assert s[1..][..k - 1] == s[1..k];
      assert s[1..][k..] == s[k + 1..];
      WithoutAt(s[1..], x, k - 1);
      assert s[..k] == [s[0]] + s[1..k];
    }
  }

  /** In a duplicate-free sequence the key at position `k` occurs nowhere else. */
  lemma SlotOfUniqueKey<T>(s: seq<T>, k: nat)
    requires NoDup(s) && k < |s|
    ensures s[k] !in s[..k] && s[k] !in s[k + 1..]
  {
    forall i | 0 <= i < k
      ensures s[..k][i] != s[k]
    {
      assert s[..k][i] == s[i];
    }
    var tail := s[k + 1..];
    forall j | 0 <= j < |tail|
      ensures tail[j] != s[k]
    {
      assert tail[j] == s[k + 1 + j];
    }
  }
}
