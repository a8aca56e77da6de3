/** The remaining steps of the block cache and the proof that every step keeps the invariant. */
module BlockCacheSteps {
  import opened Basics
  import opened Blocks
  import opened BlockTree
  import opened BlockCacheState

  const VOTE_INTERVAL := 1200

  // ----- Steps that leave the forest and the hash index alone -----

  ghost predicate SameForest(s: State, t: State) {
    && t.root == s.root && t.single == s.single && t.next == s.next && t.byHash == s.byHash && t.head in t.nodes
    && t.nodes.Keys == s.nodes.Keys
    && (forall x :: x in s.nodes ==> SameNode(s.nodes[x], t.nodes[x]))
  }

  predicate SameNode(a: Node, b: Node) {
    && b == a.(valid := b.valid, active := b.active, pending := b.pending)
    && (!a.kind.Linked? ==> b.valid == a.valid)
  }

  lemma {:induction false} SameVoters(s: State, t: State, x: Ptr)
    requires SameForest(s, t) && x in s.nodes
    ensures Voters(t.nodes, x) == Voters(s.nodes, x)
    decreases Level(s.nodes[x])
  {
    if s.nodes[x].parent.Some? && s.nodes[x].parent.value in s.nodes {
      assert SameNode(s.nodes[x], t.nodes[x]);
      var p := s.nodes[x].parent.value;
      assert SameNode(s.nodes[p], t.nodes[p]);
      if Level(s.nodes[p]) < Level(s.nodes[x]) {
        SameVoters(s, t, p);
      }
    }
  }

  lemma SameShape(s: State, t: State)
    requires ShapeOk(s) && SameForest(s, t)
    ensures ShapeOk(t)
    ensures forall x :: Live(t, x) <==> Live(s, x)
  {
    forall x | x in t.nodes
      ensures ParentOk(t.nodes, x) && NodeOk(t, x)
    {
      assert ParentOk(s.nodes, x) && NodeOk(s, x);
    }
    forall p, c | p in t.nodes && c in t.nodes[p].children
      ensures ChildOk(t.nodes, t.root, p, c)
    {
      assert ChildOk(s.nodes, s.root, p, c);
    }
  }

  lemma SameIndex(s: State, t: State)
    requires IndexOk(s) && SameForest(s, t)
    ensures IndexOk(t)
  {
    forall x | x in t.nodes
      ensures Indexed(t, x)
    {
      assert Indexed(s, x);
    }
    forall h | h in t.byHash
      ensures EntryOk(t, h)
    {
      assert EntryOk(s, h);
    }
  }

  lemma SameHeights(s: State, t: State)
    requires HeightOk(s) && SameForest(s, t) && t.byNumber == s.byNumber && Number(s, s.head) <= Number(t, t.head)
    requires forall x :: Live(t, x) <==> Live(s, x)
    ensures HeightOk(t)
  {
    forall x | Live(t, x) && x != t.root && Numbered(t, x)
      ensures t.nodes[x].parent.value in t.nodes && Numbered(t, t.nodes[x].parent.value)
    {
      assert Live(s, x) && Numbered(s, x);
    }
  }

  // ----- Linking a verified block -----

  /** What is used of block verification before a node is linked: the block is the next one after its parent, and
      its producer, the one scheduled for its time, is in the parent's active list. */
  predicate Verified(s: State, n: Ptr) {
    && n in s.nodes && s.nodes[n].kind.Single? && s.nodes[n].parent.Some? && s.nodes[n].parent.value in s.nodes
    && (s.nodes[s.nodes[n].parent.value].kind.Linked? ==>
          && Number(s, n) == Number(s, s.nodes[n].parent.value) + 1
          && s.nodes[n].head.producer in s.nodes[s.nodes[n].parent.value].active)
  }

  /** `update` is the pending list read from the state database, if reading it succeeded. */
  function LinkedAt(s: State, n: Ptr, update: Option<seq<string>>): State
    requires Verified(s, n) && s.head in s.nodes
  {
    var p := s.nodes[n].parent.value;
    if !s.nodes[p].kind.Linked? then s
    else
      var node := s.nodes[n].(
        kind := Linked,
        valid := s.nodes[n].valid + AddVote(s.nodes[p].valid, s.nodes[n].head.producer),
        active := s.nodes[p].active,
        pending := if Number(s, n) % VOTE_INTERVAL == 0 && update.Some? then update.value else s.nodes[p].pending);
      s.(nodes := s.nodes[n := node],
         leaf := (s.leaf - {p})[n := Number(s, n)],
         head := if Better(s.nodes, n, s.head) then n else s.head)
  }

  lemma LinkedForest(s: State, n: Ptr, update: Option<seq<string>>)
    requires Forest(s.nodes, s.root) && Verified(s, n) && s.head in s.nodes
    ensures Forest(LinkedAt(s, n, update).nodes, s.root)
  {
    var t := LinkedAt(s, n, update);
    forall x | x in t.nodes
      ensures ParentOk(t.nodes, x)
    {
      assert ParentOk(s.nodes, x);
    }
    forall p, c | p in t.nodes && c in t.nodes[p].children
      ensures ChildOk(t.nodes, s.root, p, c)
    {
      assert ChildOk(s.nodes, s.root, p, c);
    }
  }

  lemma LinkedShape(s: State, n: Ptr, update: Option<seq<string>>)
    requires ShapeOk(s) && Verified(s, n) && s.nodes[s.nodes[n].parent.value].kind.Linked?
    ensures ShapeOk(LinkedAt(s, n, update))
    ensures forall x :: Live(LinkedAt(s, n, update), x) <==> Live(s, x) || x == n
  {
    var t := LinkedAt(s, n, update);
    LinkedForest(s, n, update);
    assert NodeOk(s, n);
    forall x | x in t.nodes
      ensures NodeOk(t, x)
    {
      assert NodeOk(s, x);
    }
  }

  lemma {:induction false} VotersAfterLink(s: State, n: Ptr, update: Option<seq<string>>, x: Ptr)
    requires ShapeOk(s) && Verified(s, n) && x in s.nodes
    ensures Voters(LinkedAt(s, n, update).nodes, x) == Voters(s.nodes, x)
    decreases Level(s.nodes[x])
  {
    if s.nodes[x].parent.Some? {
      assert ParentOk(s.nodes, x);
      VotersAfterLink(s, n, update, s.nodes[x].parent.value);
    }
  }

  lemma LinkedVotes(s: State, n: Ptr, update: Option<seq<string>>)
    requires ShapeOk(s) && QuorumOk(s) && Verified(s, n) && s.nodes[s.nodes[n].parent.value].kind.Linked?
    ensures VotesOk(LinkedAt(s, n, update), n)
  {
    var t := LinkedAt(s, n, update);
    var p := s.nodes[n].parent.value;
    assert NodeOk(s, n) && ParentOk(s.nodes, n) && VotesOk(s, p);
    VotersAfterLink(s, n, update, n);
    var votes := AddVote(s.nodes[p].valid, s.nodes[n].head.producer);
    assert t.nodes[n].valid == votes;
    assert Elements(votes) <= Elements(s.nodes[p].valid) + {s.nodes[n].head.producer};
  }

  lemma LinkedIndex(s: State, n: Ptr, update: Option<seq<string>>)
    requires ShapeOk(s) && IndexOk(s) && Verified(s, n)
    ensures IndexOk(LinkedAt(s, n, update))
  {
    var t := LinkedAt(s, n, update);
    forall x | x in t.nodes
      ensures Indexed(t, x)
    {
      assert Indexed(s, x);
    }
    forall h | h in t.byHash
      ensures EntryOk(t, h)
    {
      assert EntryOk(s, h);
    }
  }

  lemma LinkedHeights(s: State, n: Ptr, update: Option<seq<string>>)
    requires ShapeOk(s) && HeightOk(s) && Verified(s, n)
    ensures HeightOk(LinkedAt(s, n, update))
  {
    var t := LinkedAt(s, n, update);
    assert NodeOk(s, n);
    forall x | Live(t, x) && x != t.root && Numbered(t, x)
      ensures t.nodes[x].parent.value in t.nodes && Numbered(t, t.nodes[x].parent.value)
    {
      assert x != n;
      assert Live(s, x) && Numbered(s, x);
    }
  }

  lemma LinkedQuorum(s: State, n: Ptr, update: Option<seq<string>>)
    requires Inv(s) && Verified(s, n) && s.nodes[s.nodes[n].parent.value].kind.Linked?
    ensures QuorumOk(LinkedAt(s, n, update))
  {
    var t := LinkedAt(s, n, update);
    LinkedVotes(s, n, update);
    forall x | Live(t, x) && x != n
      ensures VotesOk(t, x)
    {
      VotersAfterLink(s, n, update, x);
      assert Live(s, x) && VotesOk(s, x);
    }
  }

  lemma LinkedEnds(s: State, n: Ptr, update: Option<seq<string>>)
    requires ShapeOk(s) && LeafOk(s) && HeadOk(s) && ChainOk(s) && Verified(s, n)
    requires s.nodes[s.nodes[n].parent.value].kind.Linked?
    ensures LeafOk(LinkedAt(s, n, update)) && HeadOk(LinkedAt(s, n, update)) && ChainOk(LinkedAt(s, n, update))
  {
    LinkedShape(s, n, update);
    assert NodeOk(s, n);
  }

  lemma LinkedInv(s: State, n: Ptr, update: Option<seq<string>>)
    requires Inv(s) && Verified(s, n)
    ensures Inv(LinkedAt(s, n, update))
  {
    if s.nodes[s.nodes[n].parent.value].kind.Linked? {
      LinkedShape(s, n, update);
      LinkedIndex(s, n, update);
      LinkedHeights(s, n, update);
      LinkedQuorum(s, n, update);
      LinkedEnds(s, n, update);
    }
  }

  // ----- Switching a node to the pending witness list -----

  /** The entries of `votes` that also stand in `list`, in order. */
  function Kept(votes: seq<string>, list: seq<string>): (r: seq<string>)
    ensures Elements(r) == Elements(votes) * Elements(list)
    ensures NoDuplicates(votes) ==> NoDuplicates(r)
  {
    if votes == [] then []
    else
      var last := |votes| - 1;
      var r := Kept(votes[..last], list);
      assert Elements(votes) == Elements(votes[..last]) + {votes[last]};
      if votes[last] !in list then r
      else
        assert Elements(r + [votes[last]]) == Elements(r) + {votes[last]};
        assert NoDuplicates(votes) ==> votes[last] !in Elements(votes[..last]);
        r + [votes[last]]
  }

  function Activated(s: State, n: Ptr): State
    requires n in s.nodes && s.root in s.nodes
  {
    var pending := s.nodes[s.root].pending;
    s.(nodes := s.nodes[n := s.nodes[n].(valid := Kept(s.nodes[n].valid, pending), active := pending)])
  }

  lemma ActivatedInv(s: State, n: Ptr)
    requires Inv(s) && Live(s, n)
    ensures Inv(Activated(s, n))
  {
    var t := Activated(s, n);
    SameShape(s, t);
    SameIndex(s, t);
    SameHeights(s, t);
    forall x | Live(t, x)
      ensures VotesOk(t, x)
    {
      SameVoters(s, t, x);
      assert VotesOk(s, x);
    }
  }

  // ----- Choosing a head after pruning -----

  /** What the search over the leaves may answer, whatever order it visits them in: the old head while
      its hash is indexed; otherwise a leaf (or still the old head) that no leaf beats. */
  ghost predicate Longest(s: State, h: Ptr) {
    && s.head in s.nodes
    && if HeadHash(s.nodes[s.head]) in s.byHash then h == s.head
       else
         && h in s.nodes
         && (h == s.head || (h in s.leaf && Better(s.nodes, h, s.head)))
         && (forall x :: x in s.leaf && x in s.nodes ==> !Better(s.nodes, x, h))
  }

  /** The search always answers the old head: it compares the leaves with it, and none beats it. */
  lemma LongestIsOldHead(s: State, h: Ptr)
    requires Inv(s) && Longest(s, h)
    ensures h == s.head && s.(head := h) == s
  {
    assert h in s.leaf ==> !Better(s.nodes, h, s.head);
  }

  // ----- Deleting a subtree -----

  /** The leaves after the child `n` is about to go: a linked parent left without children becomes one. */
  function LeavesAbove(s: State, n: Ptr): map<Ptr, int>
    requires n in s.nodes && s.nodes[n].parent.Some? && s.nodes[n].parent.value in s.nodes
  {
    var p := s.nodes[n].parent.value;
    if s.nodes[p].children == {n} && s.nodes[p].kind.Linked? then s.leaf[p := Number(s, p)] else s.leaf
  }

  ghost function DeletedAt(s: State, n: Ptr): State
    requires n in s.nodes && s.nodes[n].parent.Some? && s.nodes[n].parent.value in s.nodes
  {
    Dropped(s.(leaf := LeavesAbove(s, n)), Subtree(s.nodes, n))
  }

  lemma {:induction false} SubtreeAttached(nodes: Nodes, root: Ptr, x: Ptr, n: Ptr)
    requires Forest(nodes, root) && x in nodes && n in nodes && Below(nodes, x, n) && nodes[n].parent.Some?
    ensures nodes[x].parent.Some?
  {
  }

  lemma SubtreeDroppable(s: State, n: Ptr)
    requires ShapeOk(s) && n in s.nodes && s.nodes[n].parent.Some?
    ensures Droppable(s, Subtree(s.nodes, n))
  {
    SubtreeClosed(s.nodes, s.root, n);
    forall x | x in Subtree(s.nodes, n)
      ensures x in s.nodes && s.nodes[x].parent.Some?
    {
      SubtreeAttached(s.nodes, s.root, x, n);
    }
  }

  lemma LeavesAboveInv(s: State, n: Ptr)
    requires Inv(s) && n in s.nodes && s.nodes[n].parent.Some? && s.nodes[n].parent.value in s.nodes
    ensures Inv(s.(leaf := LeavesAbove(s, n)))
  {
    assert NodeOk(s, n);
    NewLeavesInv(s, LeavesAbove(s, n));
  }

  lemma NewLeavesInv(s: State, leaf: map<Ptr, int>)
    requires Inv(s) && forall x :: x in leaf ==> Live(s, x) && leaf[x] == Number(s, x)
    ensures Inv(s.(leaf := leaf))
  {
    var t := s.(leaf := leaf);
    SameShape(s, t);
    SameIndex(s, t);
    SameHeights(s, t);
    assert QuorumOk(t) by {
      forall x | Live(t, x)
        ensures VotesOk(t, x)
      {
        assert Live(s, x) && VotesOk(s, x);
      }
    }
  }

  lemma DeletedInv(s: State, n: Ptr)
    requires Inv(s) && n in s.nodes && s.nodes[n].parent.Some? && s.nodes[n].parent.value in s.nodes
    ensures Inv(DeletedAt(s, n))
  {
    var t := s.(leaf := LeavesAbove(s, n));
    LeavesAboveInv(s, n);
    SubtreeDroppable(t, n);
    DroppedInv(t, Subtree(t.nodes, n));
  }
}
