/** The pool's pending transactions: an ordered tree beside a map from hashes. */
module PendingTxs {
  import opened Basics
  import opened Blocks
  import opened ByteOrder

  const MAX_EXPIRATION := 90_000_000_000

  /** A transaction; `referred` is the hash of the delayed one it stands for, `body` the fields not looked at. */
  datatype Tx = Tx(time: int, expiration: int, gasRatio: int, referred: Bytes, body: nat)

  // ----- Age -----

  predicate IsDefer(t: Tx) {
    |t.referred| > 0
  }

  predicate IsExpired(t: Tx, ct: int) {
    t.expiration <= ct || Wrap64(ct - t.time) > MAX_EXPIRATION
  }

  predicate IsCreatedBefore(t: Tx, ct: int) {
    t.time <= ct
  }

  /** The age test is exact unless the subtraction leaves the 64-bit range. */
  lemma ExpiredIff(t: Tx, ct: int)
    requires Int64(t.time) && Int64(ct) && IsCreatedBefore(t, ct)
    ensures (IsExpired(t, ct) <==> t.expiration <= ct || ct - t.time > MAX_EXPIRATION) <==>
            ct - t.time < TWO_63 || t.expiration <= ct
  {
    if ct - t.time < TWO_63 {
      WrapSmall(ct - t.time);
    } else {
      assert Wrap64(ct - t.time) == ct - t.time - 2 * TWO_63;
    }
  }

  // ----- Order -----

  /** The comparison of the tree's keys, with its 64-bit subtractions. */
  function CompareTx(hash: Tx -> Bytes, a: Tx, b: Tx): int {
    if a.gasRatio == b.gasRatio && a.time == b.time then CompareBytes(hash(a), hash(b))
    else if a.gasRatio == b.gasRatio then Wrap64(b.time - a.time)
    else Wrap64(a.gasRatio - b.gasRatio)
  }

  /** The intended order: a lower gas ratio, then a later time, then a smaller hash comes first. */
  predicate Precedes(hash: Tx -> Bytes, a: Tx, b: Tx) {
    || a.gasRatio < b.gasRatio
    || (a.gasRatio == b.gasRatio && b.time < a.time)
    || (a.gasRatio == b.gasRatio && a.time == b.time && CompareBytes(hash(a), hash(b)) < 0)
  }

  /** The difference that decides fits into 64 bits. */
  predicate Comparable(a: Tx, b: Tx) {
    if a.gasRatio == b.gasRatio then Int64(b.time - a.time) && Int64(a.time - b.time)
    else Int64(a.gasRatio - b.gasRatio) && Int64(b.gasRatio - a.gasRatio)
  }

  ghost predicate Injective(hash: Tx -> Bytes) {
    forall a, b :: hash(a) == hash(b) ==> a == b
  }

  ghost predicate ComparesAs(hash: Tx -> Bytes, a: Tx, b: Tx) {
    && (CompareTx(hash, a, b) < 0 <==> Precedes(hash, a, b))
    && (CompareTx(hash, a, b) > 0 <==> Precedes(hash, b, a))
  }

  /** The comparison, in both directions, is that of the intended order exactly for comparable transactions. */
  lemma ComparesIff(hash: Tx -> Bytes, a: Tx, b: Tx)
    requires Int64(a.time) && Int64(b.time) && Int64(a.gasRatio) && Int64(b.gasRatio)
    ensures ComparesAs(hash, a, b) && ComparesAs(hash, b, a) <==> Comparable(a, b)
  {
    CompareBytesAntisymmetric(hash(a), hash(b));
    if a.gasRatio == b.gasRatio {
      WrapSign(b.time - a.time);
      WrapSign(a.time - b.time);
    } else {
      WrapSign(a.gasRatio - b.gasRatio);
      WrapSign(b.gasRatio - a.gasRatio);
    }
  }

  /** Wrapping turns the sign of a difference round exactly when it does not fit. */
  lemma WrapSign(d: int)
    requires -2 * TWO_63 < d < 2 * TWO_63
    ensures Int64(d) ==> Wrap64(d) == d
    ensures !Int64(d) ==> (Wrap64(d) < 0 <==> d > 0) && (Wrap64(d) == 0 <==> d == 0)
  {
    if Int64(d) {
      WrapSmall(d);
    } else if d > 0 {
      assert Wrap64(d) == d - 2 * TWO_63;
    } else {
      assert Wrap64(d) == d + 2 * TWO_63;
    }
  }

  /** The intended order is a strict total order. */
  lemma PrecedesIsOrder(hash: Tx -> Bytes, a: Tx, b: Tx, c: Tx)
    requires Injective(hash)
    ensures !(Precedes(hash, a, b) && Precedes(hash, b, a))
    ensures a == b || Precedes(hash, a, b) || Precedes(hash, b, a)
    ensures Precedes(hash, a, b) && Precedes(hash, b, c) ==> Precedes(hash, a, c)
  {
    CompareBytesAntisymmetric(hash(a), hash(b));
    if CompareBytes(hash(a), hash(b)) < 0 && CompareBytes(hash(b), hash(c)) < 0 {
      CompareBytesTransitive(hash(a), hash(b), hash(c));
    }
  }

  // ----- The tree -----

  /** A search tree as the sequence of its keys: what putting a key does, comparing from the first on. */
  function TreePut(hash: Tx -> Bytes, tree: seq<Tx>, t: Tx): seq<Tx> {
    if tree == [] then [t]
    else
      var c := CompareTx(hash, t, tree[0]);
      if c < 0 then [t] + tree
      else if c == 0 then [t] + tree[1..]
      else [tree[0]] + TreePut(hash, tree[1..], t)
  }

  function TreeRemove(hash: Tx -> Bytes, tree: seq<Tx>, t: Tx): seq<Tx> {
    if tree == [] then []
    else
      var c := CompareTx(hash, t, tree[0]);
      if c < 0 then tree
      else if c == 0 then tree[1..]
      else [tree[0]] + TreeRemove(hash, tree[1..], t)
  }

  ghost predicate Sorted(hash: Tx -> Bytes, tree: seq<Tx>) {
    forall i, j :: 0 <= i < j < |tree| ==> Precedes(hash, tree[i], tree[j])
  }

  ghost predicate AllCompareAs(hash: Tx -> Bytes, tree: seq<Tx>, t: Tx) {
    forall u :: u in tree ==> ComparesAs(hash, t, u)
  }

  lemma ElementsCons(u: Tx, rest: seq<Tx>)
    ensures Elements([u] + rest) == {u} + Elements(rest)
  {
    assert forall v :: v in [u] + rest <==> v == u || v in rest;
  }

  lemma SortedCons(hash: Tx -> Bytes, u: Tx, rest: seq<Tx>)
    requires Sorted(hash, rest) && forall v :: v in Elements(rest) ==> Precedes(hash, u, v)
    ensures Sorted(hash, [u] + rest)
  {
  }

  /** The first key of a sorted tree comes before all others. */
  lemma SortedTail(hash: Tx -> Bytes, tree: seq<Tx>)
    requires Injective(hash) && Sorted(hash, tree) && tree != []
    ensures tree == [tree[0]] + tree[1..] && Sorted(hash, tree[1..])
    ensures forall v :: v in Elements(tree[1..]) ==> Precedes(hash, tree[0], v)
    ensures Elements(tree) == {tree[0]} + Elements(tree[1..]) && tree[0] !in Elements(tree[1..])
  {
    assert tree == [tree[0]] + tree[1..];
    ElementsCons(tree[0], tree[1..]);
    PrecedesIsOrder(hash, tree[0], tree[0], tree[0]);
  }

  lemma {:induction false} PutSorted(hash: Tx -> Bytes, tree: seq<Tx>, t: Tx)
    requires Injective(hash) && Sorted(hash, tree) && AllCompareAs(hash, tree, t)
    ensures Elements(TreePut(hash, tree, t)) == Elements(tree) + {t}
    ensures Sorted(hash, TreePut(hash, tree, t))
  {
    if tree == [] {
      assert Elements(tree) == {};
    } else {
      var u, rest := tree[0], tree[1..];
      SortedTail(hash, tree);
      assert ComparesAs(hash, t, u);
      PrecedesIsOrder(hash, t, u, u);
      if Precedes(hash, u, t) {
        PutSorted(hash, rest, t);
        SortedCons(hash, u, TreePut(hash, rest, t));
        ElementsCons(u, TreePut(hash, rest, t));
      } else {
        PutFirst(hash, tree, t);
      }
    }
  }

  lemma PutFirst(hash: Tx -> Bytes, tree: seq<Tx>, t: Tx)
    requires Injective(hash) && Sorted(hash, tree) && tree != []
    requires t == tree[0] || Precedes(hash, t, tree[0])
    ensures Sorted(hash, [t] + tree[1..]) && (t != tree[0] ==> Sorted(hash, [t] + tree))
    ensures Elements([t] + tree) == Elements(tree) + {t}
    ensures t == tree[0] ==> Elements([t] + tree[1..]) == Elements(tree)
    ensures t != tree[0] ==> t !in Elements(tree)
  {
    SortedTail(hash, tree);
    ElementsCons(t, tree);
    forall v | v in Elements(tree)
      ensures t != tree[0] ==> Precedes(hash, t, v) && v != t
    {
      PrecedesIsOrder(hash, t, tree[0], v);
      PrecedesIsOrder(hash, t, t, t);
    }
    SortedCons(hash, t, tree[1..]);
    if t != tree[0] {
      SortedCons(hash, t, tree);
    }
  }

  lemma {:induction false} RemoveSorted(hash: Tx -> Bytes, tree: seq<Tx>, t: Tx)
    requires Injective(hash) && Sorted(hash, tree) && AllCompareAs(hash, tree, t)
    ensures Elements(TreeRemove(hash, tree, t)) == Elements(tree) - {t}
    ensures Sorted(hash, TreeRemove(hash, tree, t))
  {
    if tree == [] {
      assert Elements(tree) == {};
    } else {
      var u, rest := tree[0], tree[1..];
      SortedTail(hash, tree);
      assert ComparesAs(hash, t, u);
      PrecedesIsOrder(hash, t, u, u);
      if Precedes(hash, u, t) {
        RemoveSorted(hash, rest, t);
        SortedCons(hash, u, TreeRemove(hash, rest, t));
        ElementsCons(u, TreeRemove(hash, rest, t));
      } else {
        PutFirst(hash, tree, t);
      }
    }
  }

  // ----- The pending transactions -----

  /** The transaction can be compared with all of `s`. */
  ghost predicate FitsWith(t: Tx, s: set<Tx>) {
    && Int64(t.time) && Int64(t.gasRatio)
    && (forall u :: u in s ==> Comparable(t, u))
  }

  ghost predicate Together(s: set<Tx>) {
    forall t :: t in s ==> FitsWith(t, s)
  }

  lemma TogetherWith(s: set<Tx>, t: Tx)
    requires Together(s) && FitsWith(t, s)
    ensures Together(s + {t})
  {
    forall u | u in s + {t}
      ensures FitsWith(u, s + {t})
    {
      assert u in s ==> FitsWith(u, s);
    }
  }

  class SortedTxMap {
    const hash: Tx -> Bytes
    var tree: seq<Tx>
    var txMap: map<Bytes, Tx>

    function Contents(): set<Tx>
      reads this
    {
      txMap.Values
    }

    /** Tree and map hold the same transactions, the tree in order, the map under their hashes. */
    ghost predicate Valid()
      reads this
    {
      && Injective(hash) && Sorted(hash, tree) && Elements(tree) == Contents()
      && (forall k :: k in txMap ==> hash(txMap[k]) == k)
      && Together(Contents())
    }

    constructor (hash: Tx -> Bytes)
      requires Injective(hash)
      ensures Valid() && Contents() == {} && this.hash == hash
    {
      this.hash := hash;
      tree := [];
      txMap := map[];
    }

    method Get(h: Bytes) returns (t: Option<Tx>)
      requires Valid()
      ensures t.Some? ==> t.value in Contents() && hash(t.value) == h
      ensures t.None? ==> forall u :: u in Contents() ==> hash(u) != h
    {
      if h in txMap {
        t := Some(txMap[h]);
      } else {
        t := None;
      }
    }

    method Add(t: Tx)
      requires Valid() && FitsWith(t, Contents())
      modifies this
      ensures Valid() && Contents() == old(Contents()) + {t}
    {
      Reached(t);
      PutSorted(hash, tree, t);
      HeldOnce(t);
      TogetherWith(Contents(), t);
      tree := TreePut(hash, tree, t);
      txMap := txMap[hash(t) := t];
    }

    method Del(h: Bytes)
      requires Valid()
      modifies this
      ensures Valid() && Contents() == set u | u in old(Contents()) && hash(u) != h
    {
      if h !in txMap {
        return;
      }
      var t := txMap[h];
      assert t in Contents();
      Reached(t);
      RemoveSorted(hash, tree, t);
      LeftOver(h);
      forall u | u in Contents() - {t}
        ensures FitsWith(u, Contents() - {t})
      {
        assert FitsWith(u, Contents());
      }
      tree := TreeRemove(hash, tree, t);
      txMap := txMap - {h};
    }

    lemma Reached(t: Tx)
      requires Valid() && FitsWith(t, Contents())
      ensures AllCompareAs(hash, tree, t)
    {
      forall u | u in tree
        ensures ComparesAs(hash, t, u)
      {
        assert u in Elements(tree) && FitsWith(u, Contents());
        ComparesIff(hash, t, u);
      }
    }

    lemma LeftOver(h: Bytes)
      requires Valid() && h in txMap
      ensures (txMap - {h}).Values == Contents() - {txMap[h]} == set u | u in Contents() && hash(u) != h
    {
      var after := txMap - {h};
      forall u | u in Contents() && u != txMap[h]
        ensures u in after.Values && hash(u) != h
      {
        var k :| k in txMap && txMap[k] == u;
        assert after[k] == u;
      }
    }

    lemma HeldOnce(t: Tx)
      requires Valid()
      ensures txMap[hash(t) := t].Values == Contents() + {t}
    {
      var after := txMap[hash(t) := t];
      forall u | u in Contents() + {t}
        ensures u in after.Values
      {
        if u != t {
          var k :| k in txMap && txMap[k] == u;
          assert after[k] == u;
        } else {
          assert after[hash(t)] == t;
        }
      }
    }
  }
}
