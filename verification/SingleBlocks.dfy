/** Blocks that wait for their parents, and the leaves of the tree, over runs of the block cache. */
module SingleBlocks {
  import opened Basics
  import opened Blocks
  import opened BlockTree
  import opened BlockCacheState
  import opened BlockCacheSteps
  import opened BlockCacheAdd
  import opened Finality

  // ----- Waiting for a parent -----

  /** A block whose parent is unknown hangs below a virtual node, one number lower, that stands for the parent. */
  lemma WaitsForParent(s: State, blk: Head)
    requires Inv(s) && ReadyToAdd(s) && blk.number > Number(s, s.root) && !Known(s, blk) && blk.parentHash !in s.byHash
    ensures var t := Added(s, blk);
            && AddResult(s, blk).Some? && AddResult(s, blk).value in t.nodes && blk.parentHash in t.byHash
            && var x, v := AddResult(s, blk).value, t.byHash[blk.parentHash];
               && t.nodes[x].head == blk && t.nodes[x].kind.Single? && t.nodes[x].parent == Some(v)
               && v in t.nodes && t.nodes[v].kind.Virtual? && t.nodes[v].parent == Some(t.single)
               && t.nodes[v].head.number == blk.number - 1
  {
    NextIsFree(s);
    ParentEnteredPlaceable(s, blk);
    var u := ParentEntered(s, blk);
    PlacedNewcomer(u, blk);
    PlacedOthers(u, blk, s.next);
  }

  lemma {:induction false} OutsideTree(s: State, b: Ptr, v: Ptr)
    requires ShapeOk(s) && v in s.nodes && s.nodes[v].parent == Some(s.single)
    ensures v !in Pruned(s, b)
  {
    forall n | n in s.nodes[s.root].children
      ensures !Below(s.nodes, v, n)
    {
      assert ChildOk(s.nodes, s.root, s.root, n) && NodeOk(s, n);
    }
  }

  /** Of the virtual nodes only the outdated ones themselves are cut. */
  lemma StaleTops(t: State, v: Ptr)
    requires ShapeOk(t) && v in t.nodes && t.nodes[v].parent == Some(t.single)
    ensures v in Subtrees(t.nodes, StaleSingles(t)) <==> v in StaleSingles(t)
  {
    forall n | n in StaleSingles(t)
      ensures Below(t.nodes, v, n) <==> v == n
    {
      assert ChildOk(t.nodes, t.root, t.single, n) && NodeOk(t, n);
    }
  }

  lemma WaitingAfterAdvance(s: State, b: Ptr, v: Ptr)
    requires Inv(s) && Live(s, b) && s.nodes[b].parent == Some(s.root)
    requires v in s.nodes && s.nodes[v].parent == Some(s.single)
    ensures var a := Advanced(s, b);
            && ShapeOk(a) && v in a.nodes && a.nodes[v].parent == Some(a.single) && Number(a, v) == Number(s, v)
            && v in a.nodes[a.single].children
  {
    OutsideTree(s, b, v);
    FlushedInv(s, b);
    assert NodeOk(s, b) && NodeOk(s, v);
    assert ParentOk(Advanced(s, b).nodes, v);
  }

  /** Whenever the number of the new root is a multiple of ten, the virtual nodes not above it go; otherwise a flush
      leaves them all. */
  lemma WaitingAfterFlush(s: State, t: State, node: Ptr, v: Ptr)
    requires Inv(s) && FlushStep(s, t, node) && v in s.nodes && s.nodes[v].parent == Some(s.single)
    ensures t.root in t.nodes && v in t.nodes && t.single == s.single
    ensures var root := t.nodes[t.root].head.number;
            t.nodes[v].parent == if root % 10 == 0 && s.nodes[v].head.number <= root then None else Some(t.single)
  {
    var b := NextBlock(s, node);
    NextBlockOk(s, node);
    WaitingAfterAdvance(s, b, v);
    StaleTops(Advanced(s, b), v);
  }

  // ----- Leaves -----

  ghost predicate NoChild(s: State, x: Ptr, y: Ptr) {
    x in s.leaf && Live(s, y) ==> s.nodes[y].parent != Some(x)
  }

  ghost predicate Tips(s: State) {
    forall x, y :: NoChild(s, x, y)
  }

  lemma LinkTips(s: State, n: Ptr, update: Option<seq<string>>, x: Ptr, y: Ptr)
    requires Inv(s) && Verified(s, n) && NoChild(s, x, y)
    ensures NoChild(LinkedAt(s, n, update), x, y)
  {
    assert NodeOk(s, n);
    assert y in s.nodes ==> NodeOk(s, y);
  }

  lemma FlushTips(s: State, t: State, node: Ptr, x: Ptr, y: Ptr)
    requires Sealed(s) && FlushStep(s, t, node) && NoChild(s, x, y)
    ensures NoChild(t, x, y)
  {
    var b := NextBlock(s, node);
    var f := FlushedTree(s, b);
    assert Live(t, y) ==> Live(f, y);
    assert Live(f, y) ==> Live(s, y) by {
      Unsealed(s);
      NextBlockOk(s, node);
      LiveAfterFlush(s, b, y);
    }
    if Live(s, y) {
      FlushKeepsParent(s, b, x, y);
    }
  }

  lemma FlushKeepsParent(s: State, b: Ptr, x: Ptr, y: Ptr)
    requires s.root in s.nodes && b in s.nodes && s.single in s.nodes && y in s.nodes
    ensures var t := FlushedTree(s, b);
            && y in t.nodes && t.leaf.Keys <= s.leaf.Keys
            && (t.nodes[y].parent == Some(x) ==> s.nodes[y].parent == Some(x))
  {
  }

  lemma DeleteTips(s: State, n: Ptr, x: Ptr, y: Ptr)
    requires Inv(s) && n in s.nodes && s.nodes[n].parent.Some? && s.nodes[n].parent.value in s.nodes
    requires NoChild(s, x, y)
    ensures NoChild(DeletedAt(s, n), x, y)
  {
    assert y in s.nodes ==> ParentOk(s.nodes, y);
    assert Below(s.nodes, n, n);
  }

  lemma StepTips(s: State, e: Event, t: State, x: Ptr, y: Ptr)
    requires Sealed(s) && Step(s, e, t) && NoChild(s, x, y)
    ensures NoChild(t, x, y)
  {
    match e
    case Adding(blk) => AddTips(s, blk, x, y);
    case Linking(n, update) =>
      assert NoChild(t, x, y) by {
        Unsealed(s);
        LinkTips(s, n, update, x, y);
      }
    case Flushing(node) => FlushTips(s, t, node, x, y);
    case Deleting(n) =>
      assert NoChild(DeletedAt(s, n), x, y) by {
        Unsealed(s);
        DeleteTips(s, n, x, y);
      }
    case Activating(_) =>
    case Querying =>
  }

  lemma AddTips(s: State, blk: Head, x: Ptr, y: Ptr)
    requires Sealed(s) && ReadyToAdd(s) && NoChild(s, x, y)
    ensures NoChild(Added(s, blk), x, y)
  {
    assert SameLinked(s, Added(s, blk), y) by {
      Unsealed(s);
      AddedLinked(s, blk, y);
    }
  }

  // ----- Blocks without children -----

  ghost predicate ChildlessIsLeaf(s: State, x: Ptr) {
    Live(s, x) && s.nodes[x].children == {} ==> x in s.leaf
  }

  ghost predicate LeavesComplete(s: State) {
    forall x :: ChildlessIsLeaf(s, x)
  }

  lemma ChildOfLive(s: State, x: Ptr, c: Ptr)
    requires ShapeOk(s) && Live(s, x) && c in s.nodes[x].children
    ensures c in s.nodes && s.nodes[c].parent == Some(x) && Level(s.nodes[x]) < Level(s.nodes[c])
  {
    assert ChildOk(s.nodes, s.root, x, c) && ParentOk(s.nodes, c);
  }

  lemma AdoptedKeepsChildren(s: State, t: State, x: Ptr, p: Ptr, y: Ptr)
    requires ShapeOk(s) && Adopted(s, t, x, p) && Live(s, y)
    ensures s.nodes[y].children <= t.nodes[y].children
  {
    if x in s.nodes[y].children {
      ChildOfLive(s, y, x);
      VirtualListedOnce(s, x, y);
    }
  }

  lemma EnterKeepsChildren(s: State, blk: Head, y: Ptr)
    requires ShapeOk(s) && Live(s, y)
    ensures var u := ParentEntered(s, blk);
            y in u.nodes && s.nodes[y].children <= u.nodes[y].children && u.leaf == s.leaf
  {
    if blk.parentHash !in s.byHash {
      ParentAdopted(s, blk);
      AdoptedKeepsChildren(s, ParentEntered(s, blk), s.next, s.single, y);
    }
  }

  lemma PlaceKeepsChildren(s: State, blk: Head, y: Ptr)
    requires Placeable(s, blk) && Live(s, y)
    ensures var t := Placed(s, blk);
            y in t.nodes && s.nodes[y].children <= t.nodes[y].children && t.leaf == s.leaf
  {
    PlacedAdopts(s, blk);
    AdoptedKeepsChildren(s, Placed(s, blk), AddressOf(s, blk), s.byHash[blk.parentHash], y);
  }

  lemma AddKeepsChildren(s: State, blk: Head, y: Ptr)
    requires Inv(s) && ReadyToAdd(s) && Live(s, y)
    ensures y in Added(s, blk).nodes && s.nodes[y].children <= Added(s, blk).nodes[y].children
    ensures Added(s, blk).leaf == s.leaf
  {
    if Number(s, s.root) < blk.number && !Known(s, blk) {
      ParentEnteredPlaceable(s, blk);
      ParentEnteredLinked(s, blk, y);
      EnterKeepsChildren(s, blk, y);
      PlaceKeepsChildren(ParentEntered(s, blk), blk, y);
    }
  }

  lemma AddLeaves(s: State, blk: Head, x: Ptr)
    requires Inv(s) && ReadyToAdd(s) && ChildlessIsLeaf(s, x)
    ensures ChildlessIsLeaf(Added(s, blk), x)
  {
    AddedLinked(s, blk, x);
    if Live(s, x) {
      AddKeepsChildren(s, blk, x);
    }
  }

  lemma LinkLeaves(s: State, n: Ptr, update: Option<seq<string>>, x: Ptr)
    requires Inv(s) && Verified(s, n) && ChildlessIsLeaf(s, x)
    ensures ChildlessIsLeaf(LinkedAt(s, n, update), x)
  {
    assert ParentOk(s.nodes, n);
  }

  lemma DeleteLeaves(s: State, n: Ptr, x: Ptr)
    requires Inv(s) && n in s.nodes && s.nodes[n].parent.Some? && s.nodes[n].parent.value in s.nodes
    requires ChildlessIsLeaf(s, x)
    ensures ChildlessIsLeaf(DeletedAt(s, n), x)
  {
    if Live(DeletedAt(s, n), x) && x !in Subtree(s.nodes, n) {
      forall c | c in s.nodes[x].children && Below(s.nodes, c, n)
        ensures c == n
      {
        ChildOfLive(s, x, c);
      }
      assert ParentOk(s.nodes, n);
    }
  }

  lemma BranchNotPruned(s: State, b: Ptr, x: Ptr)
    requires ShapeOk(s) && Live(s, b) && s.nodes[b].parent == Some(s.root) && Live(s, x) && Below(s.nodes, x, b)
    ensures x !in Pruned(s, b) && x != s.root && s.nodes[x].children !! Pruned(s, b)
  {
    NotPruned(s, b, x);
    forall c | c in s.nodes[x].children
      ensures c !in Pruned(s, b)
    {
      ChildOfLive(s, x, c);
      NotPruned(s, b, c);
    }
    assert ParentOk(s.nodes, b);
    BelowLevel(s.nodes, x, b);
  }

  lemma AdvanceLeaves(s: State, b: Ptr, x: Ptr)
    requires s.root in s.nodes && b in s.nodes && x in s.nodes
    requires x !in Pruned(s, b) && x != s.root && s.nodes[x].children !! Pruned(s, b)
    ensures var a := Advanced(s, b);
            x in a.nodes && s.nodes[x].children == a.nodes[x].children && (x in s.leaf ==> x in a.leaf)
  {
  }

  lemma StaleLeaves(a: State, x: Ptr)
    requires ShapeOk(a) && Live(a, x)
    ensures var t := Dropped(a, Subtrees(a.nodes, StaleSingles(a)));
            t.nodes[x].children == a.nodes[x].children && (x in a.leaf ==> x in t.leaf)
  {
    LiveNotStale(a, x);
    forall c | c in a.nodes[x].children
      ensures c !in Subtrees(a.nodes, StaleSingles(a))
    {
      ChildOfLive(a, x, c);
      forall v | v in StaleSingles(a)
        ensures !Below(a.nodes, c, v)
      {
        assert ChildOk(a.nodes, a.root, a.single, v);
      }
    }
  }

  lemma FlushLeaves(s: State, b: Ptr, x: Ptr)
    requires Inv(s) && Live(s, b) && s.nodes[b].parent == Some(s.root) && ChildlessIsLeaf(s, x)
    ensures ChildlessIsLeaf(FlushedTree(s, b), x)
  {
    LiveAfterFlush(s, b, x);
    if Live(FlushedTree(s, b), x) {
      BranchNotPruned(s, b, x);
      AdvanceLeaves(s, b, x);
      FlushedInv(s, b);
      LiveAfterDrop(Advanced(s, b), x);
      StaleLeaves(Advanced(s, b), x);
    }
  }

  lemma LiveAfterDrop(a: State, x: Ptr)
    requires a.root in a.nodes && a.single in a.nodes && Live(Dropped(a, Subtrees(a.nodes, StaleSingles(a))), x)
    ensures Live(a, x)
  {
  }

  lemma StepLeaves(s: State, e: Event, t: State, x: Ptr)
    requires Sealed(s) && Step(s, e, t) && ChildlessIsLeaf(s, x)
    ensures ChildlessIsLeaf(t, x)
  {
    match e
    case Adding(blk) =>
      assert ChildlessIsLeaf(t, x) by {
        Unsealed(s);
        AddLeaves(s, blk, x);
      }
    case Linking(n, update) =>
      assert ChildlessIsLeaf(t, x) by {
        Unsealed(s);
        LinkLeaves(s, n, update, x);
      }
    case Flushing(node) =>
      assert ChildlessIsLeaf(FlushedTree(s, NextBlock(s, node)), x) by {
        Unsealed(s);
        NextBlockOk(s, node);
        FlushLeaves(s, NextBlock(s, node), x);
      }
    case Deleting(n) =>
      assert ChildlessIsLeaf(DeletedAt(s, n), x) by {
        Unsealed(s);
        DeleteLeaves(s, n, x);
      }
    case Activating(_) =>
    case Querying =>
  }

  // ----- Over runs -----

  lemma RunSealed(ss: seq<State>, es: seq<Event>, i: nat)
    requires Run(ss, es) && i < |ss|
    ensures Sealed(ss[i]) && LeafOk(ss[i])
  {
    RunInv(ss, es, i);
    Unsealed(ss[i]);
  }

  lemma StartsWithTips(s: State)
    requires Init(s)
    ensures Tips(s) && LeavesComplete(s)
  {
  }

  /** In every state of every run the leaves are linked blocks, entered with their numbers, that no linked block
      follows; and all linked blocks are among them that nothing follows at all. */
  lemma {:induction false} LeavesAreTips(ss: seq<State>, es: seq<Event>, i: nat)
    requires Run(ss, es) && i < |ss|
    ensures LeafOk(ss[i]) && Tips(ss[i]) && LeavesComplete(ss[i])
    decreases i
  {
    RunSealed(ss, es, i);
    if i == 0 {
      StartsWithTips(ss[0]);
    } else {
      LeavesAreTips(ss, es, i - 1);
      RunSealed(ss, es, i - 1);
      assert StepAt(ss, es, i - 1);
      TipsAfter(ss[i - 1], es[i - 1], ss[i]);
    }
  }

  lemma TipsAfter(s: State, e: Event, t: State)
    requires Sealed(s) && Step(s, e, t) && Tips(s) && LeavesComplete(s)
    ensures Tips(t) && LeavesComplete(t)
  {
    forall x, y
      ensures NoChild(t, x, y)
    {
      assert NoChild(s, x, y);
      StepTips(s, e, t, x, y);
    }
    forall x
      ensures ChildlessIsLeaf(t, x)
    {
      assert ChildlessIsLeaf(s, x);
      StepLeaves(s, e, t, x);
    }
  }
}
