/** Sums over the values of a map. */
module Sums {
  ghost function Pick<K>(m: map<K, int>): (k: K)
    requires m != map[]
    ensures k in m
  {
    assert m.Keys != {};
    var k :| k in m;
    k
  }

  ghost function Total<K>(m: map<K, int>): int
    decreases |m|
  {
    if m == map[] then 0
    else
      var k := Pick(m);
      m[k] + Total(m - {k})
  }

  lemma {:induction false} TotalRemove<K>(m: map<K, int>, k: K)
    requires k in m
    ensures Total(m) == m[k] + Total(m - {k})
    decreases |m|
  {
    var first := Pick(m);
    if k != first {
      TotalRemove(m - {first}, k);
      TotalRemove(m - {k}, first);
      assert m - {first} - {k} == m - {k} - {first};
    }
  }

  lemma TotalUpdate<K>(m: map<K, int>, k: K, v: int)
    ensures Total(m[k := v]) == Total(m) + v - if k in m then m[k] else 0
  {
    TotalRemove(m[k := v], k);
    if k in m {
      TotalRemove(m, k);
      assert m[k := v] - {k} == m - {k};
    } else {
      assert m[k := v] - {k} == m;
    }
  }

  /** More entries, none of them negative, and none smaller than before: no smaller sum. */
  lemma {:induction false} TotalAtMost<K>(m: map<K, int>, n: map<K, int>)
    requires m.Keys <= n.Keys && (forall k :: k in n ==> n[k] >= 0) && (forall k :: k in m ==> m[k] <= n[k])
    ensures Total(m) <= Total(n)
    decreases |n|
  {
    if n != map[] {
      var k := Pick(n);
      TotalDrop(m, k);
      TotalAtMost(m - {k}, n - {k});
    }
  }

  /** Removing keys that may or may not be there. */
  lemma TotalDrop<K>(m: map<K, int>, k: K)
    ensures Total(m - {k}) == Total(m) - if k in m then m[k] else 0
  {
    if k in m {
      TotalRemove(m, k);
    } else {
      assert m - {k} == m;
    }
  }
}
