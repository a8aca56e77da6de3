/** Looking blocks up by number through the height index. */
module BlockCacheQuery {
  import opened Basics
  import opened BlockTree
  import opened BlockCacheState
  import opened BlockCacheSteps

  /** The ancestor of `x` at height `k`, found by walking up parent by parent. */
  function Ancestor(nodes: Nodes, x: Ptr, k: int): Ptr
    requires x in nodes
    decreases Level(nodes[x])
  {
    if nodes[x].head.number > k && nodes[x].parent.Some? && nodes[x].parent.value in nodes
       && Level(nodes[nodes[x].parent.value]) < Level(nodes[x]) then
      Ancestor(nodes, nodes[x].parent.value, k)
    else x
  }

  /** The height index after the walk up from `it`, which stops at the first node already indexed. */
  function Walked(nodes: Nodes, index: map<int, Ptr>, it: Option<Ptr>): map<int, Ptr>
    requires it.Some? ==> it.value in nodes
    decreases if it.Some? then 1 + Level(nodes[it.value]) else 0
  {
    if it.None? then index
    else
      var n := nodes[it.value];
      if n.head.number in index && index[n.head.number] == it.value then index
      else if n.parent.Some? ==> n.parent.value in nodes && Level(nodes[n.parent.value]) < Level(n) then
        Walked(nodes, index[n.head.number := it.value], n.parent)
      else index[n.head.number := it.value]
  }

  predicate IndexedAt(s: State, index: map<int, Ptr>, x: Ptr)
    requires x in s.nodes
  {
    Number(s, x) in index && index[Number(s, x)] == x
  }

  predicate HeightEntryOk(s: State, k: int, x: Ptr) {
    && s.head in s.nodes
    && x in s.nodes && s.nodes[x].kind.Linked? && Number(s, x) == k && k <= Number(s, s.head)
  }

  predicate CursorOk(s: State, index: map<int, Ptr>, it: Option<Ptr>) {
    it.Some? ==>
      && it.value in s.nodes && HeightEntryOk(s, Number(s, it.value), it.value)
      && (Number(s, it.value) + 1 in index ==>
            index[Number(s, it.value) + 1] in s.nodes && s.nodes[index[Number(s, it.value) + 1]].parent == it)
  }

  predicate ParentIndexed(s: State, index: map<int, Ptr>, it: Option<Ptr>, x: Ptr)
    requires x in s.nodes
  {
    && s.nodes[x].parent.Some? && s.nodes[x].parent.value in s.nodes
    && (s.nodes[x].parent == it || IndexedAt(s, index, s.nodes[x].parent.value))
  }

  /** The height index in the middle of a walk: only the parent of the last indexed node may be missing. */
  ghost predicate Walking(s: State, index: map<int, Ptr>, it: Option<Ptr>) {
    && CursorOk(s, index, it)
    && (forall k :: k in index ==> HeightEntryOk(s, k, index[k]))
    && (forall x :: Live(s, x) && x != s.root && IndexedAt(s, index, x) ==> ParentIndexed(s, index, it, x))
  }

  lemma WalkingStep(s: State, index: map<int, Ptr>, it: Ptr)
    requires ShapeOk(s) && Walking(s, index, Some(it)) && !IndexedAt(s, index, it)
    ensures Walking(s, index[Number(s, it) := it], s.nodes[it].parent)
  {
    var after := index[Number(s, it) := it];
    assert NodeOk(s, it);
    forall x | Live(s, x) && x != s.root && IndexedAt(s, after, x)
      ensures ParentIndexed(s, after, s.nodes[it].parent, x)
    {
      WalkingStepAt(s, index, it, x);
    }
  }

  lemma WalkingStepAt(s: State, index: map<int, Ptr>, it: Ptr, x: Ptr)
    requires ShapeOk(s) && Walking(s, index, Some(it)) && !IndexedAt(s, index, it)
    requires Live(s, x) && x != s.root && IndexedAt(s, index[Number(s, it) := it], x)
    ensures ParentIndexed(s, index[Number(s, it) := it], s.nodes[it].parent, x)
  {
    assert NodeOk(s, x);
    if x != it {
      assert IndexedAt(s, index, x) && ParentIndexed(s, index, Some(it), x);
      assert x == index[Number(s, x)];
    }
  }

  lemma {:induction false} WalkedIsWalking(s: State, index: map<int, Ptr>, it: Option<Ptr>)
    requires ShapeOk(s) && Walking(s, index, it)
    ensures Walking(s, Walked(s.nodes, index, it), None)
    ensures it.Some? ==> IndexedAt(s, Walked(s.nodes, index, it), it.value)
    decreases if it.Some? then 1 + Level(s.nodes[it.value]) else 0
  {
    if it.Some? && !IndexedAt(s, index, it.value) {
      WalkingStep(s, index, it.value);
      assert ParentOk(s.nodes, it.value) && NodeOk(s, it.value);
      var after := index[Number(s, it.value) := it.value];
      WalkedIsWalking(s, after, s.nodes[it.value].parent);
      WalkedKeeps(s, after, s.nodes[it.value].parent, Number(s, it.value));
    }
  }

  /** A walk from `it` changes no entry above it. */
  lemma {:induction false} WalkedKeeps(s: State, index: map<int, Ptr>, it: Option<Ptr>, k: int)
    requires ShapeOk(s) && k in index
    requires it.Some? ==> it.value in s.nodes && s.nodes[it.value].kind.Linked? && Number(s, it.value) < k
    ensures k in Walked(s.nodes, index, it) && Walked(s.nodes, index, it)[k] == index[k]
    decreases if it.Some? then 1 + Level(s.nodes[it.value]) else 0
  {
    if it.Some? && !IndexedAt(s, index, it.value) {
      assert ParentOk(s.nodes, it.value) && NodeOk(s, it.value);
      WalkedKeeps(s, index[Number(s, it.value) := it.value], s.nodes[it.value].parent, k);
    }
  }

  function Queried(s: State): State
    requires s.head in s.nodes
  {
    s.(byNumber := Walked(s.nodes, s.byNumber, Some(s.head)))
  }

  lemma QueriedInv(s: State)
    requires Inv(s)
    ensures Inv(Queried(s)) && Numbered(Queried(s), s.head)
  {
    var t := Queried(s);
    forall x | Live(s, x) && x != s.root && IndexedAt(s, s.byNumber, x)
      ensures ParentIndexed(s, s.byNumber, Some(s.head), x)
    {
      assert NodeOk(s, x) && Numbered(s, x);
    }
    WalkedIsWalking(s, s.byNumber, Some(s.head));
    SameShape(s, t);
    SameIndex(s, t);
    forall x | Live(t, x)
      ensures VotesOk(t, x)
    {
      assert VotesOk(s, x);
    }
    forall x | Live(t, x) && x != t.root && Numbered(t, x)
      ensures t.nodes[x].parent.value in t.nodes && Numbered(t, t.nodes[x].parent.value)
    {
      assert Live(s, x) && IndexedAt(s, t.byNumber, x) && ParentIndexed(s, t.byNumber, None, x);
    }
    assert HeightOk(t) by {
      assert forall k :: k in t.byNumber ==> HeightEntryOk(s, k, t.byNumber[k]);
    }
  }

  /** Every ancestor of a live indexed node is indexed. */
  lemma {:induction false} AncestorsNumbered(s: State, x: Ptr, k: int)
    requires ShapeOk(s) && HeightOk(s) && Live(s, x) && Numbered(s, x) && Number(s, s.root) <= k <= Number(s, x)
    ensures k in s.byNumber && s.byNumber[k] == Ancestor(s.nodes, x, k)
    ensures Live(s, Ancestor(s.nodes, x, k)) && Number(s, Ancestor(s.nodes, x, k)) == k
    ensures Below(s.nodes, x, Ancestor(s.nodes, x, k))
    decreases Level(s.nodes[x])
  {
    assert NodeOk(s, x) && ParentOk(s.nodes, x);
    if Number(s, x) > k {
      AncestorsNumbered(s, s.nodes[x].parent.value, k);
    }
  }

  /** While the head is in the tree, a query answers the head's ancestor at the asked height, whatever
      head switches, prunings and earlier queries went before. */
  lemma QueryAnswersAncestor(s: State, k: int)
    requires Inv(s) && Live(s, s.head) && Number(s, s.root) <= k <= Number(s, s.head)
    ensures k in Queried(s).byNumber && Queried(s).byNumber[k] == Ancestor(s.nodes, s.head, k)
    ensures Live(s, Ancestor(s.nodes, s.head, k)) && Number(s, Ancestor(s.nodes, s.head, k)) == k
    ensures Below(s.nodes, s.head, Ancestor(s.nodes, s.head, k))
  {
    QueriedInv(s);
    var t := Queried(s);
    assert Live(t, t.head);
    AncestorsNumbered(t, t.head, k);
  }
}
