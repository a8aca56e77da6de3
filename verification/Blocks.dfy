/** Block heads and their hashes.

    A hash is symbolic: the hash of a head is the head itself, so hashing is injective and no
    chain of parent hashes can loop.  A parent hash that is the hash of no known head is `Raw`.
 */
module Blocks {
  datatype Hash = Raw(id: nat) | HashOf(head: Head)

  /** `producer` is the witness that made the block; `body` stands for the fields consensus does not look at
      (merkle roots, info, version). */
  datatype Head = Head(parentHash: Hash, number: int, producer: string, time: int, body: nat)

  /** What `HeadHash` answers for a block whose hash was never computed (the empty byte string). */
  const NO_HASH := Raw(0)

  function Depth(h: Hash): nat {
    match h
    case Raw(_) => 0
    case HashOf(b) => 1 + Depth(b.parentHash)
  }

  function Elements<T>(s: seq<T>): set<T> {
    set x | x in s
  }

  ghost predicate NoDuplicates<T>(s: seq<T>) {
    forall i, j :: 0 <= i < j < |s| ==> s[i] != s[j]
  }

  /** A sequence without duplicates has as many distinct elements as entries. */
  lemma {:induction false} NoDuplicatesCount<T>(s: seq<T>)
    requires NoDuplicates(s)
    ensures |Elements(s)| == |s|
  {
    if s != [] {
      var last := |s| - 1;
      NoDuplicatesCount(s[..last]);
      assert Elements(s) == Elements(s[..last]) + {s[last]};
    } else {
      assert Elements(s) == {};
    }
  }

  lemma SubsetCount<T>(a: set<T>, b: set<T>)
    requires a <= b
    ensures |a| <= |b|
  {
    assert b == a + (b - a);
  }

  lemma {:induction false} ElementsBound<T>(s: seq<T>)
    ensures |Elements(s)| <= |s|
  {
    if s == [] {
      assert Elements(s) == {};
    } else {
      ElementsBound(s[1..]);
      assert Elements(s) == {s[0]} + Elements(s[1..]);
    }
  }
}
