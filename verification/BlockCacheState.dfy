/** The block cache as a state machine: its state, its invariant, and what each step does. */
module BlockCacheState {
  import opened Basics
  import opened Blocks
  import opened BlockTree

  /** `next` is the next free address; `chain` is what was pushed to the block chain database. */
  datatype State = State(nodes: Nodes, next: Ptr, root: Ptr, single: Ptr, head: Ptr,
                         byHash: map<Hash, Ptr>, byNumber: map<int, Ptr>, leaf: map<Ptr, int>,
                         rootWitness: seq<string>, witnessNum: nat, chain: seq<Head>)

  const DEL_SINGLE_BLOCK_TIME := 10

  // ----- Reading the state -----

  predicate Attached(s: State, x: Ptr)
    requires x in s.nodes
  {
    x == s.root || s.nodes[x].parent.Some?
  }

  /** A linked node that was not pruned. */
  predicate Live(s: State, x: Ptr) {
    x in s.nodes && s.nodes[x].kind.Linked? && Attached(s, x)
  }

  function Number(s: State, x: Ptr): int
    requires x in s.nodes
  {
    s.nodes[x].head.number
  }

  /** The producers of the blocks after the root, up to and including `x`. */
  function Voters(nodes: Nodes, x: Ptr): set<string>
    requires x in nodes
    decreases Level(nodes[x])
  {
    if nodes[x].parent.Some? && nodes[x].parent.value in nodes
       && Level(nodes[nodes[x].parent.value]) < Level(nodes[x]) then
      {nodes[x].head.producer} + Voters(nodes, nodes[x].parent.value)
    else
      {}
  }

  // ----- Invariant -----

  predicate NodeOk(s: State, x: Ptr)
    requires x in s.nodes
  {
    var n := s.nodes[x];
    && x < s.next
    && (x != s.single ==> n.key.Some?)
    && (!n.kind.Virtual? ==> n.key == Some(HashOf(n.head)))
    && (!n.kind.Linked? ==> n.valid == [])
    && (n.parent.Some? ==>
          && n.parent.value in s.nodes
          && (n.kind.Virtual? ==> n.parent.value == s.single)
          && (!n.kind.Virtual? ==>
                n.parent.value != s.single && s.nodes[n.parent.value].key == Some(n.head.parentHash))
          && (s.nodes[n.parent.value].kind.Linked? ==> Attached(s, n.parent.value))
          && (n.kind.Linked? ==>
                Live(s, n.parent.value) && n.head.number == Number(s, n.parent.value) + 1))
  }

  ghost predicate ShapeOk(s: State) {
    && s.root in s.nodes && s.single in s.nodes && s.head in s.nodes && s.root != s.single
    && s.nodes[s.root].kind.Linked? && s.nodes[s.root].parent.None?
    && s.nodes[s.single].kind.Virtual? && s.nodes[s.single].key.None? && s.nodes[s.single].parent.None?
    && Forest(s.nodes, s.root)
    && (forall x :: x in s.nodes ==> NodeOk(s, x))
  }

  predicate EntryOk(s: State, h: Hash)
    requires h in s.byHash
  {
    && s.byHash[h] in s.nodes
    && s.nodes[s.byHash[h]].key == Some(h)
    && (!s.nodes[s.byHash[h]].kind.Virtual? ==> Attached(s, s.byHash[h]))
  }

  predicate Indexed(s: State, x: Ptr)
    requires x in s.nodes
  {
    !s.nodes[x].kind.Virtual? && Attached(s, x) ==>
      HashOf(s.nodes[x].head) in s.byHash && s.byHash[HashOf(s.nodes[x].head)] == x
  }

  /** The hash index finds exactly the attached non-virtual nodes. */
  ghost predicate IndexOk(s: State) {
    && (forall h :: h in s.byHash ==> EntryOk(s, h))
    && (forall x :: x in s.nodes ==> Indexed(s, x))
  }

  ghost predicate LeafOk(s: State) {
    forall x :: x in s.leaf ==> Live(s, x) && s.leaf[x] == Number(s, x)
  }

  /** The head rule: the higher block wins, on equal height the earlier one. */
  predicate Beats(a: Head, b: Head) {
    a.number > b.number || (a.number == b.number && a.time < b.time)
  }

  predicate Better(nodes: Nodes, a: Ptr, b: Ptr)
    requires a in nodes && b in nodes
  {
    Beats(nodes[a].head, nodes[b].head)
  }

  /** No live node beats the head, whether or not the head itself survives. */
  ghost predicate HeadOk(s: State) {
    && s.head in s.nodes && s.nodes[s.head].kind.Linked?
    && (forall x :: Live(s, x) ==> !Better(s.nodes, x, s.head))
  }

  /** The pushed blocks are consecutive, each the child of the one before; the last one is the root. */
  ghost predicate ChainOk(s: State) {
    && |s.chain| > 0 && s.root in s.nodes && s.chain[|s.chain| - 1] == s.nodes[s.root].head
    && (forall i :: 0 <= i < |s.chain| - 1 ==> Extends(s.chain[i], s.chain[i + 1]))
  }

  predicate Extends(b: Head, c: Head) {
    c.parentHash == HashOf(b) && c.number == b.number + 1
  }

  ghost predicate VotesOk(s: State, x: Ptr)
    requires x in s.nodes
  {
    && NoDuplicates(s.nodes[x].valid)
    && Elements(s.nodes[x].valid) <= Voters(s.nodes, x)
    && Elements(s.nodes[x].valid) <= Elements(s.nodes[x].active)
  }

  ghost predicate QuorumOk(s: State) {
    forall x :: Live(s, x) ==> VotesOk(s, x)
  }

  predicate Numbered(s: State, x: Ptr)
    requires x in s.nodes
  {
    Number(s, x) in s.byNumber && s.byNumber[Number(s, x)] == x
  }

  /** If the height index holds a live node, it holds all its ancestors up to the root. */
  ghost predicate HeightOk(s: State) {
    && s.head in s.nodes
    && (forall k :: k in s.byNumber ==>
          && s.byNumber[k] in s.nodes && s.nodes[s.byNumber[k]].kind.Linked?
          && Number(s, s.byNumber[k]) == k && k <= Number(s, s.head))
    && (forall x :: Live(s, x) && x != s.root && Numbered(s, x) ==>
          s.nodes[x].parent.value in s.nodes && Numbered(s, s.nodes[x].parent.value))
  }

  ghost predicate Inv(s: State) {
    && ShapeOk(s) && IndexOk(s) && LeafOk(s) && HeadOk(s) && ChainOk(s) && QuorumOk(s) && HeightOk(s)
  }

  ghost predicate InvUnder(s: State, seal: Seal) {
    Inv(s)
  }

  /** The invariant, in a form that a proof unfolds only where it asks for it. */
  ghost predicate Sealed(s: State) {
    forall seal :: InvUnder(s, seal)
  }

  lemma Unsealed(s: State)
    ensures Sealed(s) <==> Inv(s)
  {
    assert Sealed(s) ==> InvUnder(s, Seal);
  }

  // ----- Steps -----

  /** Pruning: the nodes of `cut` leave the forest, the hash index and the leaves. */
  function Dropped(s: State, cut: set<Ptr>): State {
    s.(nodes := Cut(s.nodes, cut), byHash := s.byHash - Hashes(s.nodes, cut), leaf := s.leaf - cut)
  }

  ghost predicate Droppable(s: State, cut: set<Ptr>) {
    && Closed(s.nodes, cut) && s.root !in cut && s.single !in cut
    && (forall x :: x in cut ==> x in s.nodes && s.nodes[x].parent.Some?)
  }

  lemma {:induction false} VotersAfterCut(s: State, cut: set<Ptr>, x: Ptr)
    requires ShapeOk(s) && Droppable(s, cut) && x in s.nodes && x !in cut
    ensures Voters(Cut(s.nodes, cut), x) == Voters(s.nodes, x)
    decreases Level(s.nodes[x])
  {
    if s.nodes[x].parent.Some? {
      assert ParentOk(s.nodes, x);
      VotersAfterCut(s, cut, s.nodes[x].parent.value);
    }
  }

  lemma DroppedShape(s: State, cut: set<Ptr>)
    requires ShapeOk(s) && Droppable(s, cut)
    ensures ShapeOk(Dropped(s, cut))
    ensures forall x :: Live(Dropped(s, cut), x) <==> Live(s, x) && x !in cut
  {
    var t := Dropped(s, cut);
    CutForest(s.nodes, s.root, cut);
    forall x | x in t.nodes
      ensures NodeOk(t, x)
    {
      assert NodeOk(s, x);
    }
  }

  lemma DroppedIndex(s: State, cut: set<Ptr>)
    requires ShapeOk(s) && IndexOk(s) && Droppable(s, cut)
    ensures IndexOk(Dropped(s, cut))
  {
    var t := Dropped(s, cut);
    forall h | h in t.byHash
      ensures EntryOk(t, h)
    {
      assert EntryOk(s, h);
      var x := s.byHash[h];
      assert NodeOk(s, x);
      assert x in cut ==> HeadHash(s.nodes[x]) in Hashes(s.nodes, cut);
    }
    forall x | x in t.nodes
      ensures Indexed(t, x)
    {
      assert Indexed(s, x);
      forall y | y in cut && HeadHash(s.nodes[y]) == HashOf(s.nodes[x].head)
        ensures y == x || !Attached(s, x) || s.nodes[x].kind.Virtual?
      {
        assert Indexed(s, y);
      }
    }
  }

  lemma DroppedInv(s: State, cut: set<Ptr>)
    requires Inv(s) && Droppable(s, cut)
    ensures Inv(Dropped(s, cut))
  {
    var t := Dropped(s, cut);
    DroppedShape(s, cut);
    DroppedIndex(s, cut);
    forall x | Live(t, x)
      ensures VotesOk(t, x)
    {
      VotersAfterCut(s, cut, x);
      assert VotesOk(s, x);
    }
    assert LeafOk(t);
    assert HeightOk(t) by {
      forall x | Live(t, x) && x != t.root && Numbered(t, x)
        ensures t.nodes[x].parent.value in t.nodes && Numbered(t, t.nodes[x].parent.value)
      {
        assert Live(s, x) && Numbered(s, x);
      }
    }
  }

  // The live tree

  lemma {:induction false} LiveBelowRoot(s: State, x: Ptr)
    requires ShapeOk(s) && Live(s, x)
    ensures Below(s.nodes, x, s.root)
    ensures x != s.root ==> Number(s, s.root) < Number(s, x)
    decreases Level(s.nodes[x])
  {
    if x != s.root {
      assert NodeOk(s, x) && ParentOk(s.nodes, x);
      LiveBelowRoot(s, s.nodes[x].parent.value);
    }
  }

  // Promotion of the root's only child

  function Without(votes: seq<string>, w: string): (r: seq<string>)
    ensures Elements(r) == Elements(votes) - {w}
    ensures NoDuplicates(votes) ==> NoDuplicates(r)
  {
    if votes == [] then []
    else
      var last := |votes| - 1;
      var r := Without(votes[..last], w);
      assert Elements(votes) == Elements(votes[..last]) + {votes[last]};
      if votes[last] == w then r
      else
        assert Elements(r + [votes[last]]) == Elements(r) + {votes[last]};
        assert NoDuplicates(votes) ==> votes[last] !in Elements(votes[..last]);
        r + [votes[last]]
  }

  /** Going down from `x`, the withdrawal of the vote of `b`'s producer gets to `y`: no block on the way,
      other than `b` itself, is by that producer. */
  predicate Reached(nodes: Nodes, y: Ptr, x: Ptr, b: Ptr)
    requires y in nodes && b in nodes
    decreases Level(nodes[y])
  {
    && (y == b || nodes[y].head.producer != nodes[b].head.producer)
    && (|| y == x
        || (&& nodes[y].parent.Some? && nodes[y].parent.value in nodes
            && Level(nodes[nodes[y].parent.value]) < Level(nodes[y])
            && Reached(nodes, nodes[y].parent.value, x, b)))
  }

  function ReachedFrom(nodes: Nodes, x: Ptr, b: Ptr): set<Ptr>
    requires b in nodes
  {
    set y | y in nodes && Reached(nodes, y, x, b)
  }

  /** The nodes after the vote of `b`'s producer was withdrawn at those of `hit`. */
  function Withdrawn(nodes: Nodes, hit: set<Ptr>, b: Ptr): Nodes
    requires b in nodes
  {
    map y | y in nodes ::
      if y in hit then nodes[y].(valid := Without(nodes[y].valid, nodes[b].head.producer)) else nodes[y]
  }

  function Unvoted(nodes: Nodes, b: Ptr): Nodes
    requires b in nodes
  {
    Withdrawn(nodes, ReachedFrom(nodes, b, b), b)
  }

  function AddVote(votes: seq<string>, w: string): seq<string> {
    if w == "" || w in votes then votes else votes + [w]
  }

  /** The root makes way for `b`: its indexes go, `b`'s block is pushed. */
  function Installed(s: State, b: Ptr): State
    requires s.root in s.nodes && b in s.nodes
  {
    var votes := if s.nodes[s.root].pending == s.nodes[b].pending then s.rootWitness else [];
    s.(nodes := s.nodes[b := s.nodes[b].(parent := None)], root := b,
       byHash := s.byHash - {HeadHash(s.nodes[s.root])}, leaf := s.leaf - {s.root},
       byNumber := s.byNumber - {Number(s, s.root)},
       rootWitness := AddVote(votes, s.nodes[b].head.producer),
       chain := s.chain + [s.nodes[b].head])
  }

  function Promoted(s: State, b: Ptr): State
    requires s.root in s.nodes && b in s.nodes
  {
    Installed(s.(nodes := Unvoted(s.nodes, b)), b)
  }

  ghost predicate Promotable(s: State, b: Ptr) {
    && s.root in s.nodes && Live(s, b) && s.nodes[b].parent == Some(s.root) && s.nodes[s.root].children == {b}
  }

  lemma LiveAfterPromotion(s: State, b: Ptr, x: Ptr)
    requires ShapeOk(s) && Promotable(s, b)
    ensures Live(Promoted(s, b), x) <==> Live(s, x) && x != s.root
    ensures Live(s, x) && x != s.root ==> Below(s.nodes, x, b)
  {
    if Live(s, x) && x != s.root {
      LiveBelowRoot(s, x);
      var c := Branch(s.nodes, x, s.root);
      assert ParentOk(s.nodes, c);
    }
  }

  lemma PromotedForest(s: State, b: Ptr)
    requires ShapeOk(s) && Promotable(s, b)
    ensures Forest(Promoted(s, b).nodes, b)
  {
    var t := Promoted(s, b);
    forall x | x in t.nodes
      ensures ParentOk(t.nodes, x)
    {
      assert ParentOk(s.nodes, x);
    }
    forall p, c | p in t.nodes && c in t.nodes[p].children
      ensures ChildOk(t.nodes, b, p, c)
    {
      assert c in s.nodes[p].children && ChildOk(s.nodes, s.root, p, c);
    }
  }

  lemma PromotedShape(s: State, b: Ptr)
    requires ShapeOk(s) && Promotable(s, b)
    ensures ShapeOk(Promoted(s, b))
  {
    var t := Promoted(s, b);
    PromotedForest(s, b);
    forall x | x in t.nodes
      ensures NodeOk(t, x)
    {
      assert NodeOk(s, x) && ParentOk(s.nodes, x);
      assert t.nodes[x] == s.nodes[x].(valid := t.nodes[x].valid, parent := t.nodes[x].parent);
      assert s.nodes[x].parent == Some(s.root) ==> x in s.nodes[s.root].children;
    }
  }

  /** Promotion loses at most one voter, and keeps even that one wherever the vote is not withdrawn. */
  lemma {:induction false} VotersAfterPromotion(s: State, b: Ptr, x: Ptr)
    requires ShapeOk(s) && Promotable(s, b) && x in s.nodes && Below(s.nodes, x, b)
    ensures Voters(s.nodes, x) <= Voters(Promoted(s, b).nodes, x) + {s.nodes[b].head.producer}
    ensures !Reached(s.nodes, x, b, b) ==> s.nodes[b].head.producer in Voters(Promoted(s, b).nodes, x)
    decreases Level(s.nodes[x])
  {
    assert ParentOk(s.nodes, x);
    if x == b {
      assert Voters(s.nodes, s.root) == {};
    } else {
      VotersAfterPromotion(s, b, s.nodes[x].parent.value);
    }
  }

  lemma PromotedInv(s: State, b: Ptr)
    requires Inv(s) && Promotable(s, b)
    ensures Inv(Promoted(s, b))
  {
    var t := Promoted(s, b);
    PromotedShape(s, b);
    forall x
      ensures Live(t, x) <==> Live(s, x) && x != s.root
    {
      LiveAfterPromotion(s, b, x);
    }
    assert IndexOk(t) by { PromotedIndex(s, b); }
    assert QuorumOk(t) by { PromotedVotes(s, b); }
    assert ChainOk(t) by { PromotedChain(s, b); }
    assert HeightOk(t) by { PromotedHeights(s, b); }
  }

  lemma PromotedVotes(s: State, b: Ptr)
    requires ShapeOk(s) && QuorumOk(s) && Promotable(s, b)
    ensures QuorumOk(Promoted(s, b))
  {
    var t := Promoted(s, b);
    forall x | Live(t, x)
      ensures VotesOk(t, x)
    {
      LiveAfterPromotion(s, b, x);
      VotersAfterPromotion(s, b, x);
      assert VotesOk(s, x);
    }
  }

  lemma PromotedChain(s: State, b: Ptr)
    requires ShapeOk(s) && ChainOk(s) && Promotable(s, b)
    ensures ChainOk(Promoted(s, b))
  {
    assert NodeOk(s, b) && NodeOk(s, s.root);
    assert Extends(s.nodes[s.root].head, s.nodes[b].head);
  }

  lemma PromotedIndex(s: State, b: Ptr)
    requires ShapeOk(s) && IndexOk(s) && Promotable(s, b)
    ensures IndexOk(Promoted(s, b))
  {
    var t := Promoted(s, b);
    assert NodeOk(s, s.root) && Indexed(s, s.root);
    forall h | h in t.byHash
      ensures EntryOk(t, h)
    {
      assert EntryOk(s, h);
    }
    forall x | x in t.nodes
      ensures Indexed(t, x)
    {
      assert Indexed(s, x);
    }
  }

  lemma PromotedHeights(s: State, b: Ptr)
    requires ShapeOk(s) && HeightOk(s) && Promotable(s, b)
    ensures HeightOk(Promoted(s, b))
  {
    var t := Promoted(s, b);
    forall x | Live(t, x) && x != t.root && Numbered(t, x)
      ensures t.nodes[x].parent.value in t.nodes && Numbered(t, t.nodes[x].parent.value)
    {
      PromotedHeight(s, b, x);
    }
  }

  lemma PromotedHeight(s: State, b: Ptr, x: Ptr)
    requires ShapeOk(s) && HeightOk(s) && Promotable(s, b)
    requires var t := Promoted(s, b); Live(t, x) && x != t.root && Numbered(t, x)
    ensures var t := Promoted(s, b); t.nodes[x].parent.value in t.nodes && Numbered(t, t.nodes[x].parent.value)
  {
    LiveAfterPromotion(s, b, x);
    assert Numbered(s, x) && NodeOk(s, x) && ParentOk(s.nodes, x);
    var p := s.nodes[x].parent.value;
    LiveAfterPromotion(s, b, p);
    assert p != s.root;
    LiveBelowRoot(s, p);
  }
}
