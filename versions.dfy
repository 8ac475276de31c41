/**
 * `Versions`, a slice of versions offering the three operations a generic
 * in-place sort asks for: the length, "is element i below element j", and
 * "exchange elements i and j".
 */
module Versions {
  import opened Ver

  function Len(l: array<Version>): (n: nat)
    ensures n == |l[..]|
  {
    l.Length
  }

  /** Element i sorts before element j: the same answer Ver.Less gives. */
  predicate Less(l: array<Version>, i: int, j: int)
    requires 0 <= i < l.Length && 0 <= j < l.Length
    reads l
    ensures Less(l, i, j) <==> Ver.Less(l[i], l[j])
  {
    Ord(l[i]) < Ord(l[j])
  }

  /** The sequence with the elements at i and j exchanged. */
  function Exchanged(s: seq<Version>, i: int, j: int): (r: seq<Version>)
    requires 0 <= i < |s| && 0 <= j < |s|
    ensures |r| == |s| && r[i] == s[j] && r[j] == s[i]
    ensures forall k :: 0 <= k < |s| && k != i && k != j ==> r[k] == s[k]
  {
    s[j := s[i]][i := s[j]]
  }

  /** An exchange neither adds nor loses a version. */
  lemma ExchangedIsPermutation(s: seq<Version>, i: int, j: int)
    requires 0 <= i < |s| && 0 <= j < |s|
    ensures multiset(Exchanged(s, i, j)) == multiset(s)
  {
  }

  /** Exchanging the same two elements again restores the sequence. */
  lemma ExchangedTwice(s: seq<Version>, i: int, j: int)
    requires 0 <= i < |s| && 0 <= j < |s|
    ensures Exchanged(Exchanged(s, i, j), i, j) == s
  {
  }

  method Swap(l: array<Version>, i: int, j: int)
    requires 0 <= i < l.Length && 0 <= j < l.Length
    modifies l
    ensures l[..] == Exchanged(old(l[..]), i, j)
  {
    l[j], l[i] := l[i], l[j];
  }
}
