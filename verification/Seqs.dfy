/** Searching and shortening lists the way a walk over linked nodes does. */
module Seqs {
  /** Position of the first occurrence; the length when there is none. */
  function FirstIndex<T(==)>(s: seq<T>, x: T): (k: nat)
    ensures k <= |s|
    ensures k < |s| ==> s[k] == x
    ensures forall i :: 0 <= i < k ==> s[i] != x
  {
    if s == [] || s[0] == x then 0 else 1 + FirstIndex(s[1..], x)
  }

  lemma FirstIndexIs<T>(s: seq<T>, x: T, k: nat)
    requires k <= |s| && (k < |s| ==> s[k] == x) && forall i :: 0 <= i < k ==> s[i] != x
    ensures FirstIndex(s, x) == k
  {}

  /** Unlinks the first node with a value, and only that one. */
  function RemoveFirst<T(==)>(s: seq<T>, x: T): seq<T> {
    var k := FirstIndex(s, x);
    if k < |s| then s[..k] + s[k + 1..] else s
  }
}
