/** Adding a received block. */
module BlockCacheAdd {
  import opened Basics
  import opened Blocks
  import opened BlockTree
  import opened BlockCacheState

  // ----- Adding a block -----

  /** The block's parent has a node, a virtual one under the single root if it was unknown. */
  function ParentEntered(s: State, blk: Head): State
    requires s.single in s.nodes
  {
    if blk.parentHash in s.byHash then s
    else
      var v := Node(Some(blk.parentHash), Head(NO_HASH, blk.number - 1, "", 0, 0), Some(s.single), {}, Virtual,
                    [], [], []);
      var top := s.nodes[s.single];
      s.(nodes := s.nodes[s.next := v][s.single := top.(children := top.children + {s.next})],
         next := s.next + 1,
         byHash := s.byHash[blk.parentHash := s.next])
  }

  /** The address the block gets: that of its virtual node, or a new one. */
  function AddressOf(s: State, blk: Head): Ptr {
    if HashOf(blk) in s.byHash then s.byHash[HashOf(blk)] else s.next
  }

  /** The node `x` is attached, as a single node, below `p`. */
  function Placed(s: State, blk: Head): State
    requires s.single in s.nodes && blk.parentHash in s.byHash && s.byHash[blk.parentHash] in s.nodes
    requires HashOf(blk) in s.byHash ==> s.byHash[HashOf(blk)] in s.nodes
  {
    var p := s.byHash[blk.parentHash];
    var x := AddressOf(s, blk);
    var top := s.nodes[s.single];
    if HashOf(blk) in s.byHash then
      var nodes := s.nodes[s.single := top.(children := top.children - {x})];
      var placed := nodes[x := nodes[x].(head := blk, parent := Some(p), kind := Single)];
      s.(nodes := placed[p := placed[p].(children := placed[p].children + {x})])
    else
      var placed := s.nodes[x := Node(Some(HashOf(blk)), blk, Some(p), {}, Single, [], [], [])];
      s.(nodes := placed[p := placed[p].(children := placed[p].children + {x})],
         next := s.next + 1, byHash := s.byHash[HashOf(blk) := x])
  }

  predicate Known(s: State, blk: Head) {
    && HashOf(blk) in s.byHash && s.byHash[HashOf(blk)] in s.nodes
    && !s.nodes[s.byHash[HashOf(blk)]].kind.Virtual?
  }

  ghost predicate ReadyToAdd(s: State) {
    && s.single in s.nodes && s.root in s.nodes
    && (forall h :: h in s.byHash ==> s.byHash[h] in s.nodes)
  }

  /** A block not above the root is refused, a known one changes nothing. */
  function Added(s: State, blk: Head): State
    requires ReadyToAdd(s)
  {
    if Number(s, s.root) >= blk.number || Known(s, blk) then s
    else Placed(ParentEntered(s, blk), blk)
  }

  function AddResult(s: State, blk: Head): Option<Ptr>
    requires ReadyToAdd(s)
  {
    if Number(s, s.root) >= blk.number then None
    else if Known(s, blk) then Some(s.byHash[HashOf(blk)])
    else Some(AddressOf(ParentEntered(s, blk), blk))
  }

  // ----- One node is attached, as a virtual or single one -----

  /** `t` is `s` with the new or formerly virtual node `x` hung below `p`. */
  ghost predicate Adopted(s: State, t: State, x: Ptr, p: Ptr) {
    && t.root == s.root && t.single == s.single && t.head == s.head
    && t.leaf == s.leaf && t.byNumber == s.byNumber && t.chain == s.chain
    && t.nodes.Keys == s.nodes.Keys + {x} && p in s.nodes && p != x && x != s.single
    && (forall y :: y in s.nodes && y != x ==> t.nodes[y] == s.nodes[y].(children := ChildrenAfter(s, x, p, y)))
    && Newcomer(s, t, x, p)
  }

  function ChildrenAfter(s: State, x: Ptr, p: Ptr, y: Ptr): set<Ptr>
    requires y in s.nodes
  {
    if y == p then s.nodes[y].children + {x} else s.nodes[y].children - {x}
  }

  predicate Newcomer(s: State, t: State, x: Ptr, p: Ptr)
    requires x in t.nodes && p in s.nodes
  {
    var n := t.nodes[x];
    && n.parent == Some(p) && !n.kind.Linked? && n.valid == [] && n.key.Some?
    && Level(s.nodes[p]) < Level(n)
    && (s.nodes[p].kind.Linked? ==> Attached(s, p))
    && (if n.kind.Virtual? then p == s.single
        else p != s.single && n.key == Some(HashOf(n.head)) && s.nodes[p].key == Some(n.head.parentHash))
    && (if x in s.nodes then s.nodes[x].kind.Virtual? && s.nodes[x].key == n.key
                             && n.children == s.nodes[x].children && t.next == s.next
        else n.children == {} && x == s.next && t.next == x + 1)
    && t.byHash == s.byHash[n.key.value := x]
    && (n.key.value in s.byHash ==> s.byHash[n.key.value] == x)
  }

  lemma AdoptedParent(s: State, t: State, x: Ptr, p: Ptr, y: Ptr)
    requires ShapeOk(s) && Adopted(s, t, x, p) && y in t.nodes
    ensures ParentOk(t.nodes, y)
  {
    assert x in s.nodes ==> NodeOk(s, x);
    assert y in s.nodes ==> ParentOk(s.nodes, y) && NodeOk(s, y);
  }

  lemma AdoptedChild(s: State, t: State, x: Ptr, p: Ptr, q: Ptr, c: Ptr)
    requires ShapeOk(s) && Adopted(s, t, x, p) && q in t.nodes && c in t.nodes[q].children
    ensures ChildOk(t.nodes, t.root, q, c)
  {
    if !(q == p && c == x) {
      assert ChildOk(s.nodes, s.root, q, c);
    }
  }

  lemma AdoptedForest(s: State, t: State, x: Ptr, p: Ptr)
    requires ShapeOk(s) && Adopted(s, t, x, p)
    ensures Forest(t.nodes, t.root)
  {
    forall y | y in t.nodes
      ensures ParentOk(t.nodes, y)
    {
      AdoptedParent(s, t, x, p, y);
    }
    forall q, c | q in t.nodes && c in t.nodes[q].children
      ensures ChildOk(t.nodes, t.root, q, c)
    {
      AdoptedChild(s, t, x, p, q, c);
    }
  }

  lemma AdoptedNode(s: State, t: State, x: Ptr, p: Ptr, y: Ptr)
    requires ShapeOk(s) && Adopted(s, t, x, p)
    ensures y in t.nodes ==> NodeOk(t, y)
    ensures Live(t, y) <==> Live(s, y)
  {
    assert x in s.nodes ==> NodeOk(s, x);
    assert y in s.nodes ==> NodeOk(s, y);
  }

  lemma AdoptedNodes(s: State, t: State, x: Ptr, p: Ptr)
    requires ShapeOk(s) && Adopted(s, t, x, p)
    ensures ShapeOk(t)
    ensures forall y :: Live(t, y) <==> Live(s, y)
  {
    AdoptedForest(s, t, x, p);
    forall y
      ensures y in t.nodes ==> NodeOk(t, y)
      ensures Live(t, y) <==> Live(s, y)
    {
      AdoptedNode(s, t, x, p, y);
    }
  }

  lemma AdoptedIndex(s: State, t: State, x: Ptr, p: Ptr)
    requires ShapeOk(s) && IndexOk(s) && Adopted(s, t, x, p)
    ensures IndexOk(t)
  {
    forall h | h in t.byHash
      ensures EntryOk(t, h)
    {
      assert h in s.byHash ==> EntryOk(s, h);
    }
    forall y | y in t.nodes
      ensures Indexed(t, y)
    {
      assert y in s.nodes ==> Indexed(s, y) && NodeOk(s, y);
    }
  }

  lemma {:induction false} AdoptedVoters(s: State, t: State, x: Ptr, p: Ptr, y: Ptr)
    requires ShapeOk(s) && Adopted(s, t, x, p) && Live(s, y)
    ensures Voters(t.nodes, y) == Voters(s.nodes, y)
    decreases Level(s.nodes[y])
  {
    assert NodeOk(s, y) && ParentOk(s.nodes, y);
    if y != s.root {
      AdoptedVoters(s, t, x, p, s.nodes[y].parent.value);
    }
  }

  lemma AdoptedVotes(s: State, t: State, x: Ptr, p: Ptr)
    requires ShapeOk(s) && QuorumOk(s) && Adopted(s, t, x, p)
    ensures QuorumOk(t)
  {
    AdoptedNodes(s, t, x, p);
    forall y | Live(t, y)
      ensures VotesOk(t, y)
    {
      AdoptedVoters(s, t, x, p, y);
      assert VotesOk(s, y);
    }
  }

  lemma AdoptedEnds(s: State, t: State, x: Ptr, p: Ptr)
    requires LeafOk(s) && HeadOk(s) && ChainOk(s) && Adopted(s, t, x, p)
    requires forall y :: Live(t, y) <==> Live(s, y)
    requires x in s.nodes ==> !s.nodes[x].kind.Linked?
    requires s.nodes[s.root].kind.Linked?
    ensures LeafOk(t) && HeadOk(t) && ChainOk(t)
  {
  }

  lemma AdoptedHeights(s: State, t: State, x: Ptr, p: Ptr)
    requires HeightOk(s) && Adopted(s, t, x, p) && s.nodes[s.head].kind.Linked?
    requires forall y :: Live(t, y) <==> Live(s, y)
    requires forall y :: Live(s, y) && y != s.root ==> s.nodes[y].parent.Some? && Live(s, s.nodes[y].parent.value)
    requires x in s.nodes ==> !s.nodes[x].kind.Linked?
    ensures HeightOk(t)
  {
    forall y | Live(t, y) && y != t.root && Numbered(t, y)
      ensures t.nodes[y].parent.value in t.nodes && Numbered(t, t.nodes[y].parent.value)
    {
      assert Live(s, y) && Numbered(s, y);
    }
  }

  lemma AdoptedInv(s: State, t: State, x: Ptr, p: Ptr)
    requires Inv(s) && Adopted(s, t, x, p)
    ensures Inv(t)
  {
    AdoptedNodes(s, t, x, p);
    AdoptedIndex(s, t, x, p);
    AdoptedVotes(s, t, x, p);
    assert x in s.nodes ==> NodeOk(s, x);
    AdoptedEnds(s, t, x, p);
    assert forall y :: y in s.nodes ==> NodeOk(s, y);
    AdoptedHeights(s, t, x, p);
  }

  // ----- Adding keeps the invariant -----

  lemma NextIsFree(s: State)
    requires ShapeOk(s)
    ensures s.next !in s.nodes
    ensures forall p :: p in s.nodes ==> s.next !in s.nodes[p].children
  {
    assert forall x :: x in s.nodes ==> NodeOk(s, x);
    assert forall p, c :: p in s.nodes && c in s.nodes[p].children ==> ChildOk(s.nodes, s.root, p, c);
  }

  lemma ParentAdopted(s: State, blk: Head)
    requires ShapeOk(s) && blk.parentHash !in s.byHash
    ensures Adopted(s, ParentEntered(s, blk), s.next, s.single)
  {
    NextIsFree(s);
  }

  lemma ParentEnteredInv(s: State, blk: Head)
    requires Inv(s)
    ensures Inv(ParentEntered(s, blk))
  {
    if blk.parentHash !in s.byHash {
      ParentAdopted(s, blk);
      AdoptedInv(s, ParentEntered(s, blk), s.next, s.single);
    }
  }

  /** What `Placed` starts from. */
  ghost predicate Placeable(s: State, blk: Head) {
    && Inv(s) && !Known(s, blk)
    && blk.parentHash in s.byHash && EntryOk(s, blk.parentHash)
    && (HashOf(blk) in s.byHash ==> EntryOk(s, HashOf(blk)))
  }

  /** A virtual node is listed only by the single root, and only while it is attached there. */
  lemma VirtualListedOnce(s: State, x: Ptr, y: Ptr)
    requires ShapeOk(s) && x in s.nodes && s.nodes[x].kind.Virtual? && y in s.nodes && x in s.nodes[y].children
    ensures y == s.single
  {
    assert ChildOk(s.nodes, s.root, y, x) && NodeOk(s, x);
  }

  lemma PlacedNewcomer(s: State, blk: Head)
    requires Placeable(s, blk)
    ensures var x, p := AddressOf(s, blk), s.byHash[blk.parentHash];
            p != x && x != s.single && Newcomer(s, Placed(s, blk), x, p)
  {
    var x, p := AddressOf(s, blk), s.byHash[blk.parentHash];
    NextIsFree(s);
    assert NodeOk(s, p);
    assert x in s.nodes ==> NodeOk(s, x);
  }

  lemma PlacedOthers(s: State, blk: Head, y: Ptr)
    requires Placeable(s, blk) && y in s.nodes && y != AddressOf(s, blk)
    ensures Placed(s, blk).nodes[y] ==
            s.nodes[y].(children := ChildrenAfter(s, AddressOf(s, blk), s.byHash[blk.parentHash], y))
  {
    var x := AddressOf(s, blk);
    NextIsFree(s);
    if x in s.nodes && x in s.nodes[y].children {
      VirtualListedOnce(s, x, y);
    }
  }

  lemma PlacedAdopts(s: State, blk: Head)
    requires Placeable(s, blk)
    ensures Adopted(s, Placed(s, blk), AddressOf(s, blk), s.byHash[blk.parentHash])
  {
    PlacedNewcomer(s, blk);
    forall y | y in s.nodes && y != AddressOf(s, blk) {
      PlacedOthers(s, blk, y);
    }
  }

  lemma PlacedInv(s: State, blk: Head)
    requires Placeable(s, blk)
    ensures Inv(Placed(s, blk))
  {
    PlacedAdopts(s, blk);
    AdoptedInv(s, Placed(s, blk), AddressOf(s, blk), s.byHash[blk.parentHash]);
  }

  lemma ParentEnteredPlaceable(s: State, blk: Head)
    requires Inv(s) && !Known(s, blk)
    ensures Placeable(ParentEntered(s, blk), blk)
  {
    ParentEnteredInv(s, blk);
    var t := ParentEntered(s, blk);
    assert forall h :: h in t.byHash ==> EntryOk(t, h);
    assert !Known(t, blk) by { StillUnknown(s, blk); }
  }

  lemma StillUnknown(s: State, blk: Head)
    requires IndexOk(s) && s.single in s.nodes && s.next !in s.nodes && !Known(s, blk)
    ensures !Known(ParentEntered(s, blk), blk)
  {
    assert HashOf(blk) in s.byHash ==> EntryOk(s, HashOf(blk));
  }

  lemma AddedInv(s: State, blk: Head)
    requires Inv(s)
    ensures ReadyToAdd(s) && Inv(Added(s, blk))
  {
    assert ReadyToAdd(s) by { assert forall h :: h in s.byHash ==> EntryOk(s, h); }
    if Number(s, s.root) < blk.number && !Known(s, blk) {
      ParentEnteredPlaceable(s, blk);
      PlacedInv(ParentEntered(s, blk), blk);
    }
  }

  lemma AdoptedLinked(s: State, t: State, x: Ptr, p: Ptr, y: Ptr)
    requires ShapeOk(s) && Adopted(s, t, x, p)
    ensures SameLinked(s, t, y)
  {
    AdoptedNode(s, t, x, p, y);
  }

  /** `y` is live and linked in `t` just as in `s`, and if linked the same but for its children. */
  ghost predicate SameLinked(s: State, t: State, y: Ptr) {
    && (Live(t, y) <==> Live(s, y))
    && (y in t.nodes && t.nodes[y].kind.Linked? <==> y in s.nodes && s.nodes[y].kind.Linked?)
    && (y in s.nodes && s.nodes[y].kind.Linked? ==> t.nodes[y] == s.nodes[y].(children := t.nodes[y].children))
  }

  lemma ParentEnteredLinked(s: State, blk: Head, y: Ptr)
    requires Inv(s)
    ensures SameLinked(s, ParentEntered(s, blk), y)
  {
    if blk.parentHash !in s.byHash {
      ParentAdopted(s, blk);
      AdoptedLinked(s, ParentEntered(s, blk), s.next, s.single, y);
    }
  }

  lemma PlacedLinked(s: State, blk: Head, y: Ptr)
    requires Placeable(s, blk)
    ensures SameLinked(s, Placed(s, blk), y)
  {
    PlacedAdopts(s, blk);
    AdoptedLinked(s, Placed(s, blk), AddressOf(s, blk), s.byHash[blk.parentHash], y);
  }

  /** Adding links nothing, unlinks nothing and changes no linked block. */
  lemma AddedLinked(s: State, blk: Head, y: Ptr)
    requires Inv(s) && ReadyToAdd(s)
    ensures SameLinked(s, Added(s, blk), y)
  {
    if Number(s, s.root) < blk.number && !Known(s, blk) {
      ParentEnteredLinked(s, blk, y);
      ParentEnteredPlaceable(s, blk);
      PlacedLinked(ParentEntered(s, blk), blk, y);
    }
  }

  /** Afterwards the answered address is the one the hash index gives for the block. */
  lemma AddedIsFound(s: State, blk: Head)
    requires Inv(s) && ReadyToAdd(s)
    ensures AddResult(s, blk).None? <==> blk.number <= Number(s, s.root)
    ensures AddResult(s, blk).Some? ==>
              Known(Added(s, blk), blk) && Added(s, blk).byHash[HashOf(blk)] == AddResult(s, blk).value
  {
    if Number(s, s.root) < blk.number && !Known(s, blk) {
      ParentEnteredPlaceable(s, blk);
      PlacedIsFound(ParentEntered(s, blk), blk);
    }
  }

  lemma PlacedIsFound(s: State, blk: Head)
    requires Placeable(s, blk)
    ensures Known(Placed(s, blk), blk) && Placed(s, blk).byHash[HashOf(blk)] == AddressOf(s, blk)
  {
    PlacedAdopts(s, blk);
  }
}
