/** Exchanging two entries of a table, the only way lmbench ever edits its page lists. */
module Swaps {

  function Swapped<T>(s: seq<T>, i: nat, j: nat): (s': seq<T>)
    requires i < |s| && j < |s|
    ensures |s'| == |s| && s'[i] == s[j] && s'[j] == s[i]
    ensures forall k :: 0 <= k < |s| && k != i && k != j ==> s'[k] == s[k]
  {
    s[i := s[j]][j := s[i]]
  }

  ghost predicate Rearranged<T>(s: seq<T>, s': seq<T>) {
    |s| == |s'| && multiset(s) == multiset(s')
  }

  lemma SwappedRearranged<T>(s: seq<T>, i: nat, j: nat)
    requires i < |s| && j < |s|
    ensures Rearranged(s, Swapped(s, i, j))
  {
  }

  lemma SwappedTwice<T>(s: seq<T>, i: nat, j: nat)
    requires i < |s| && j < |s|
    ensures Swapped(Swapped(s, i, j), i, j) == s
  {
  }

  method Swap<T>(a: array<T>, i: nat, j: nat)
    requires i < a.Length && j < a.Length
    modifies a
    ensures a[..] == Swapped(old(a[..]), i, j) && Rearranged(old(a[..]), a[..])
  {
    SwappedRearranged(a[..], i, j);
    a[i], a[j] := a[j], a[i];
  }
}
