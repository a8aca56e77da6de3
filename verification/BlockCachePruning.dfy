/** Deleting node by node, and withdrawing a vote child by child, add up to the one-step descriptions. */
module BlockCachePruning {
  import opened Basics
  import opened BlockTree
  import opened BlockCacheState
  import opened BlockCacheSteps

  // ----- Deleting subtrees one after the other -----

  /** Dropping one more subtree. */
  lemma DropMore(s: State, tops: set<Ptr>, c: Ptr)
    requires Forest(s.nodes, s.root) && c in s.nodes && c !in Subtrees(s.nodes, tops)
    ensures var t := Dropped(s, Subtrees(s.nodes, tops));
            Dropped(t, Subtree(t.nodes, c)) == Dropped(s, Subtrees(s.nodes, tops + {c}))
  {
    var cut := Subtrees(s.nodes, tops);
    var t := Dropped(s, cut);
    var more := Subtree(t.nodes, c);
    SubtreesClosed(s.nodes, s.root, tops);
    forall x | x in s.nodes
      ensures Below(t.nodes, x, c) <==> Below(s.nodes, x, c) && x !in cut
    {
      BelowAfterCut(s.nodes, cut, x, c);
    }
    var all := Subtrees(s.nodes, tops + {c});
    assert cut + more == all;
    CutTwice(s.nodes, cut, more);
    assert Hashes(s.nodes, cut) + Hashes(t.nodes, more) == Hashes(s.nodes, all) by {
      assert forall x :: x in more ==> HeadHash(t.nodes[x]) == HeadHash(s.nodes[x]);
    }
    assert s.byHash - Hashes(s.nodes, cut) - Hashes(t.nodes, more) == s.byHash - Hashes(s.nodes, all);
    assert s.leaf - cut - more == s.leaf - all;
  }

  lemma DropNothing(s: State)
    ensures Dropped(s, Subtrees(s.nodes, {})) == s
  {
    assert Subtrees(s.nodes, {}) == {};
    assert Cut(s.nodes, {}) == s.nodes by {
      forall x | x in s.nodes
        ensures Cut(s.nodes, {})[x] == s.nodes[x]
      {
        assert s.nodes[x].children - {} == s.nodes[x].children;
      }
    }
    assert Hashes(s.nodes, {}) == {};
    assert s.byHash - {} == s.byHash && s.leaf - {} == s.leaf;
  }

  /** The effect of removing a single node that has no children left. */
  function NodeRemoved(s: State, n: Ptr): State
    requires n in s.nodes && (s.nodes[n].parent.Some? ==> s.nodes[n].parent.value in s.nodes)
  {
    var detached :=
      if s.nodes[n].parent.None? then s.nodes
      else
        var p := s.nodes[n].parent.value;
        var nodes := s.nodes[p := s.nodes[p].(children := s.nodes[p].children - {n})];
        nodes[n := nodes[n].(parent := None)];
    s.(nodes := detached, byHash := s.byHash - {HeadHash(s.nodes[n])}, leaf := s.leaf - {n})
  }

  /** While the children of `n` are deleted one by one, those of `done` so far. */
  ghost predicate PartlyDeleted(s: State, n: Ptr, done: set<Ptr>, t: State) {
    && n in s.nodes && done <= s.nodes[n].children
    && t == Dropped(s, Subtrees(s.nodes, done)).(leaf := t.leaf)
    && t.leaf - {n} == s.leaf - Subtrees(s.nodes, done) - {n}
    && n !in Subtrees(s.nodes, done)
  }

  /** No node lies below its own child, nor does its parent. */
  lemma AboveItsChildren(s: State, n: Ptr, done: set<Ptr>)
    requires Forest(s.nodes, s.root) && n in s.nodes && s.nodes[n].parent.Some? && done <= s.nodes[n].children
    ensures n !in Subtrees(s.nodes, done) && s.nodes[n].parent.value !in Subtrees(s.nodes, done)
    ensures forall c :: c in s.nodes[n].children ==>
              c in s.nodes && s.nodes[c].parent == Some(n) && n !in Subtree(s.nodes, c)
    ensures forall c :: c in s.nodes[n].children && c !in done ==> c !in Subtrees(s.nodes, done)
  {
    assert ParentOk(s.nodes, n);
    forall c | c in s.nodes[n].children
      ensures c in s.nodes && s.nodes[c].parent == Some(n) && n !in Subtree(s.nodes, c)
      ensures !Below(s.nodes, s.nodes[n].parent.value, c)
    {
      assert ChildOk(s.nodes, s.root, n, c) && ParentOk(s.nodes, c);
      if Below(s.nodes, n, c) { BelowLevel(s.nodes, n, c); }
      if Below(s.nodes, s.nodes[n].parent.value, c) { BelowLevel(s.nodes, s.nodes[n].parent.value, c); }
    }
    forall c, d | c in s.nodes[n].children && d in done && c != d
      ensures !Below(s.nodes, c, d)
    {
      assert ParentOk(s.nodes, c) && ParentOk(s.nodes, d);
      SiblingsDisjoint(s.nodes, c, c, d, n);
    }
  }

  lemma DeletingBegins(s: State, n: Ptr)
    requires n in s.nodes
    ensures PartlyDeleted(s, n, {}, s)
  {
    DropNothing(s);
    assert Subtrees(s.nodes, {}) == {};
    assert s.leaf - {n} == s.leaf - {} - {n};
  }

  lemma DeletingReady(s: State, n: Ptr, done: set<Ptr>, t: State, c: Ptr)
    requires Forest(s.nodes, s.root) && s.root in s.nodes && s.nodes[s.root].parent.None?
    requires PartlyDeleted(s, n, done, t) && s.nodes[n].parent.Some? && c in t.nodes[n].children
    ensures Forest(t.nodes, t.root) && c in t.nodes && t.nodes[c].parent == Some(n) && c !in done
    ensures t.root in t.nodes && t.nodes[t.root].parent.None?
    ensures Subtree(t.nodes, c) < Subtree(s.nodes, n)
  {
    var cut := Subtrees(s.nodes, done);
    AboveItsChildren(s, n, done);
    SubtreesClosed(s.nodes, s.root, done);
    assert s.root !in cut by {
      assert forall d :: d in done ==> !Below(s.nodes, s.root, d);
    }
    CutForest(s.nodes, s.root, cut);
    assert c !in done by {
      assert c in done ==> Below(s.nodes, c, c);
    }
    forall x | x in Subtree(t.nodes, c)
      ensures x in Subtree(s.nodes, n)
    {
      BelowAfterCut(s.nodes, cut, x, c);
      assert ParentOk(s.nodes, c) && Below(s.nodes, c, n);
      BelowTransitive(s.nodes, x, c, n);
    }
    BelowAfterCut(s.nodes, cut, n, c);
    assert n in Subtree(s.nodes, n) && n !in Subtree(t.nodes, c);
  }

  /** After one more child is gone. */
  lemma DeletingGrows(s: State, n: Ptr, done: set<Ptr>, t: State, c: Ptr)
    requires Forest(s.nodes, s.root) && PartlyDeleted(s, n, done, t) && c in s.nodes && c !in Subtrees(s.nodes, done)
    ensures Subtrees(s.nodes, done) + Subtree(t.nodes, c) == Subtrees(s.nodes, done + {c})
  {
    SubtreesClosed(s.nodes, s.root, done);
    forall x | x in s.nodes
      ensures Below(t.nodes, x, c) <==> Below(s.nodes, x, c) && x !in Subtrees(s.nodes, done)
    {
      BelowAfterCut(s.nodes, Subtrees(s.nodes, done), x, c);
    }
  }

  lemma DeletingGoesOn(s: State, n: Ptr, done: set<Ptr>, t: State, c: Ptr)
    requires Forest(s.nodes, s.root) && s.root in s.nodes && s.nodes[s.root].parent.None?
    requires PartlyDeleted(s, n, done, t) && s.nodes[n].parent.Some? && c in t.nodes[n].children
    requires c in t.nodes && t.nodes[c].parent == Some(n)
    ensures PartlyDeleted(s, n, done + {c}, DeletedAt(t, c))
  {
    assert c !in Subtrees(s.nodes, done) && c in s.nodes && n !in Subtrees(s.nodes, done + {c}) by {
      DeletingReady(s, n, done, t, c);
      AboveItsChildren(s, n, done);
      AboveItsChildren(s, n, done + {c});
    }
    DropMore(s, done, c);
    DeletingGrows(s, n, done, t, c);
    DeletedLeaves(t, c, n);
    assert t.leaf - {n} - Subtree(t.nodes, c) == s.leaf - Subtrees(s.nodes, done + {c}) - {n};
  }

  lemma DeletedLeaves(t: State, c: Ptr, n: Ptr)
    requires n in t.nodes && c in t.nodes && t.nodes[c].parent == Some(n)
    ensures DeletedAt(t, c).leaf - {n} == t.leaf - {n} - Subtree(t.nodes, c)
  {
  }

  lemma DeletingShrinks(s: State, n: Ptr, done: set<Ptr>, t: State)
    requires Forest(s.nodes, s.root) && PartlyDeleted(s, n, done, t) && s.nodes[n].parent.Some?
    ensures t.nodes[n].children == s.nodes[n].children - done
  {
    AboveItsChildren(s, n, done);
    assert forall c :: c in done ==> c in s.nodes && Below(s.nodes, c, c);
  }

  lemma DeletingEnds(s: State, n: Ptr, t: State)
    requires Forest(s.nodes, s.root)
    requires n in s.nodes && PartlyDeleted(s, n, s.nodes[n].children, t) && s.nodes[n].parent.Some?
    requires s.nodes[n].parent.value in s.nodes
    ensures t.nodes[n].parent == s.nodes[n].parent && t.nodes.Keys == s.nodes.Keys
    ensures NodeRemoved(t.(leaf := LeavesAbove(t, n)), n) == DeletedAt(s, n)
  {
    var cut := Subtrees(s.nodes, s.nodes[n].children);
    SubtreeIsChildrens(s, n);
    DeletingNodes(s, n, t);
    assert Hashes(s.nodes, cut + {n}) == Hashes(s.nodes, cut) + {HeadHash(s.nodes[n])};
    assert s.byHash - Hashes(s.nodes, cut) - {HeadHash(s.nodes[n])} == s.byHash - Hashes(s.nodes, cut + {n});
    DeletingLeaves(s, n, t);
  }

  lemma DeletingNodes(s: State, n: Ptr, t: State)
    requires Forest(s.nodes, s.root)
    requires n in s.nodes && PartlyDeleted(s, n, s.nodes[n].children, t) && s.nodes[n].parent.Some?
    requires s.nodes[n].parent.value in s.nodes
    ensures NodeRemoved(t, n).nodes == Cut(s.nodes, Subtrees(s.nodes, s.nodes[n].children) + {n})
  {
    var cut := Subtrees(s.nodes, s.nodes[n].children);
    var p := s.nodes[n].parent.value;
    AboveItsChildren(s, n, s.nodes[n].children);
    DeletingShrinks(s, n, s.nodes[n].children, t);
    assert ParentOk(s.nodes, n);
    var u := NodeRemoved(t, n);
    forall x | x in s.nodes
      ensures u.nodes[x] == Cut(s.nodes, cut + {n})[x]
    {
      if x !in cut && x != n {
        OtherChildrenStay(s, n, x);
        assert s.nodes[x].children - (cut + {n}) == s.nodes[x].children - cut - {n};
      }
    }
  }

  lemma DeletingLeaves(s: State, n: Ptr, t: State)
    requires Forest(s.nodes, s.root) && s.nodes.Keys == t.nodes.Keys
    requires n in s.nodes && PartlyDeleted(s, n, s.nodes[n].children, t) && s.nodes[n].parent.Some?
    requires s.nodes[n].parent.value in s.nodes && t.nodes[n].parent == s.nodes[n].parent
    ensures LeavesAbove(t, n) - {n} == LeavesAbove(s, n) - (Subtrees(s.nodes, s.nodes[n].children) + {n})
  {
    var cut := Subtrees(s.nodes, s.nodes[n].children);
    var p := s.nodes[n].parent.value;
    AboveItsChildren(s, n, s.nodes[n].children);
    assert ParentOk(s.nodes, n);
    OtherChildrenStay(s, n, p);
    var one := s.nodes[p].children == {n} && s.nodes[p].kind.Linked?;
    assert one == (t.nodes[p].children == {n} && t.nodes[p].kind.Linked?);
    if one {
      assert LeavesAbove(t, n) - {n} == (t.leaf - {n})[p := Number(s, p)];
      assert LeavesAbove(s, n) - (cut + {n}) == (s.leaf - cut - {n})[p := Number(s, p)];
    } else {
      assert s.leaf - (cut + {n}) == s.leaf - cut - {n};
    }
  }

  lemma SubtreeIsChildrens(s: State, n: Ptr)
    requires Forest(s.nodes, s.root) && n in s.nodes && s.nodes[n].parent.Some?
    ensures Subtree(s.nodes, n) == Subtrees(s.nodes, s.nodes[n].children) + {n}
  {
    forall x | x in Subtree(s.nodes, n) && x != n
      ensures x in Subtrees(s.nodes, s.nodes[n].children)
    {
      var c := Branch(s.nodes, x, n);
      assert ParentOk(s.nodes, c);
    }
    forall x | x in Subtrees(s.nodes, s.nodes[n].children)
      ensures Below(s.nodes, x, n)
    {
      var c :| c in s.nodes[n].children && Below(s.nodes, x, c);
      assert ChildOk(s.nodes, s.root, n, c) && ParentOk(s.nodes, c) && Below(s.nodes, c, n);
      BelowTransitive(s.nodes, x, c, n);
    }
  }

  /** A node outside the subtree of `n` loses at most `n` itself, and only if it is `n`'s parent. */
  lemma OtherChildrenStay(s: State, n: Ptr, q: Ptr)
    requires Forest(s.nodes, s.root) && n in s.nodes && s.nodes[n].parent.Some? && q in s.nodes && q != n
    requires q !in Subtrees(s.nodes, s.nodes[n].children)
    ensures s.nodes[q].children - Subtrees(s.nodes, s.nodes[n].children) == s.nodes[q].children
    ensures n in s.nodes[q].children ==> Some(q) == s.nodes[n].parent
  {
    if n in s.nodes[q].children {
      assert ChildOk(s.nodes, s.root, q, n);
    }
    forall x, c | x in s.nodes[q].children && x in s.nodes && c in s.nodes[n].children
      ensures !Below(s.nodes, x, c)
    {
      assert ChildOk(s.nodes, s.root, q, x) && ChildOk(s.nodes, s.root, n, c);
      assert s.nodes[x].parent == Some(q) ==> !Below(s.nodes, q, c);
    }
  }

  // ----- Withdrawing a vote child by child -----

  ghost function ReachedAll(nodes: Nodes, tops: set<Ptr>, b: Ptr): set<Ptr>
    requires b in nodes
  {
    set y | y in nodes && exists c :: c in tops && Reached(nodes, y, c, b)
  }

  lemma {:induction false} ReachedIsBelow(nodes: Nodes, y: Ptr, x: Ptr, b: Ptr)
    requires y in nodes && x in nodes && b in nodes && Reached(nodes, y, x, b)
    ensures Below(nodes, y, x) && (x == b || nodes[x].head.producer != nodes[b].head.producer)
    decreases Level(nodes[y])
  {
    if y != x {
      ReachedIsBelow(nodes, nodes[y].parent.value, x, b);
    }
  }

  /** Withdrawing votes does not change where the withdrawal gets to. */
  lemma {:induction false} ReachedAfterWithdrawal(nodes: Nodes, hit: set<Ptr>, y: Ptr, x: Ptr, b: Ptr)
    requires y in nodes && b in nodes
    ensures Reached(Withdrawn(nodes, hit, b), y, x, b) <==> Reached(nodes, y, x, b)
    decreases Level(nodes[y])
  {
    if nodes[y].parent.Some? && nodes[y].parent.value in nodes {
      var p := nodes[y].parent.value;
      assert Level(Withdrawn(nodes, hit, b)[p]) == Level(nodes[p]);
      if Level(nodes[p]) < Level(nodes[y]) {
        ReachedAfterWithdrawal(nodes, hit, p, x, b);
      }
    }
  }

  lemma {:induction false} BelowAfterWithdrawal(nodes: Nodes, hit: set<Ptr>, b: Ptr, y: Ptr, x: Ptr)
    requires y in nodes && b in nodes
    ensures Below(Withdrawn(nodes, hit, b), y, x) <==> Below(nodes, y, x)
    decreases Level(nodes[y])
  {
    if nodes[y].parent.Some? && nodes[y].parent.value in nodes {
      var p := nodes[y].parent.value;
      assert Level(Withdrawn(nodes, hit, b)[p]) == Level(nodes[p]);
      if Level(nodes[p]) < Level(nodes[y]) {
        BelowAfterWithdrawal(nodes, hit, b, p, x);
      }
    }
  }

  lemma ForestAfterWithdrawal(nodes: Nodes, root: Ptr, hit: set<Ptr>, b: Ptr)
    requires Forest(nodes, root) && b in nodes
    ensures Forest(Withdrawn(nodes, hit, b), root)
  {
    var after := Withdrawn(nodes, hit, b);
    forall x | x in after
      ensures ParentOk(after, x)
    {
      assert ParentOk(nodes, x);
    }
    forall p, c | p in after && c in after[p].children
      ensures ChildOk(after, root, p, c)
    {
      assert ChildOk(nodes, root, p, c);
    }
  }

  /** The withdrawal from `x` is stopped at once, or gets to `x` and goes on to its children. */
  lemma ReachedSplit(nodes: Nodes, root: Ptr, x: Ptr, b: Ptr)
    requires Forest(nodes, root) && x in nodes && b in nodes && nodes[x].parent.Some?
    ensures ReachedFrom(nodes, x, b) ==
            if x != b && nodes[x].head.producer == nodes[b].head.producer then {}
            else {x} + ReachedAll(nodes, nodes[x].children, b)
  {
    forall y | y in nodes && Reached(nodes, y, x, b) && y != x
      ensures y in ReachedAll(nodes, nodes[x].children, b)
    {
      ReachedThroughChild(nodes, root, y, x, b);
    }
    forall y | y in nodes && Reached(nodes, y, x, b)
      ensures x == b || nodes[x].head.producer != nodes[b].head.producer
    {
      ReachedIsBelow(nodes, y, x, b);
    }
    forall y, c | y in nodes && c in nodes[x].children && Reached(nodes, y, c, b)
      ensures x == b || nodes[x].head.producer != nodes[b].head.producer ==> Reached(nodes, y, x, b)
    {
      assert ChildOk(nodes, root, x, c) && ParentOk(nodes, c);
      if x == b || nodes[x].head.producer != nodes[b].head.producer {
        ReachedFromParent(nodes, y, c, x, b);
      }
    }
  }

  lemma {:induction false} ReachedThroughChild(nodes: Nodes, root: Ptr, y: Ptr, x: Ptr, b: Ptr)
    requires Forest(nodes, root) && y in nodes && x in nodes && b in nodes && Reached(nodes, y, x, b) && y != x
    ensures y in ReachedAll(nodes, nodes[x].children, b)
    decreases Level(nodes[y])
  {
    assert ParentOk(nodes, y);
    var p := nodes[y].parent.value;
    if p == x {
      assert Reached(nodes, y, y, b);
    } else {
      ReachedThroughChild(nodes, root, p, x, b);
      var c :| c in nodes[x].children && Reached(nodes, p, c, b);
      assert Reached(nodes, y, c, b);
    }
  }

  lemma {:induction false} ReachedFromParent(nodes: Nodes, y: Ptr, c: Ptr, x: Ptr, b: Ptr)
    requires y in nodes && c in nodes && x in nodes && b in nodes && Reached(nodes, y, c, b)
    requires nodes[c].parent == Some(x) && Level(nodes[x]) < Level(nodes[c])
    requires x == b || nodes[x].head.producer != nodes[b].head.producer
    ensures Reached(nodes, y, x, b)
    decreases Level(nodes[y])
  {
    if y != c && y != x {
      ReachedFromParent(nodes, nodes[y].parent.value, c, x, b);
    }
  }

  /** The vote was withdrawn at `x` and from its children in `done` on. */
  ghost predicate PartlyWithdrawn(before: Nodes, x: Ptr, b: Ptr, done: set<Ptr>, now: Nodes) {
    b in before && now == Withdrawn(before, {x} + ReachedAll(before, done, b), b)
  }

  lemma WithdrawalBegins(before: Nodes, x: Ptr, b: Ptr, now: Nodes)
    requires x in before && b in before
    requires now == before[x := before[x].(valid := Without(before[x].valid, before[b].head.producer))]
    ensures PartlyWithdrawn(before, x, b, {}, now)
  {
    assert ReachedAll(before, {}, b) == {};
  }

  /** Going on to one more child `c` of `x` withdraws no vote twice. */
  lemma WithdrawalGoesOn(before: Nodes, root: Ptr, x: Ptr, b: Ptr, done: set<Ptr>, c: Ptr, now: Nodes)
    requires Forest(before, root) && x in before && b in before && before[x].parent.Some?
    requires done <= before[x].children && c in before[x].children && c !in done
    requires PartlyWithdrawn(before, x, b, done, now)
    ensures b in now && PartlyWithdrawn(before, x, b, done + {c}, Withdrawn(now, ReachedFrom(now, c, b), b))
    ensures Subtree(now, c) < Subtree(before, x)
    ensures Forest(now, root) && c in now && now[c].parent == Some(x)
  {
    var hit := {x} + ReachedAll(before, done, b);
    assert ChildOk(before, root, x, c) && ParentOk(before, c);
    ForestAfterWithdrawal(before, root, hit, b);
    SameReach(before, hit, b, c);
    ChildSubtreeSmaller(before, x, c);
    NoDoubleWithdrawal(before, root, x, b, done, c);
    assert hit + ReachedFrom(before, c, b) == {x} + ReachedAll(before, done + {c}, b);
    WithdrawnTwice(before, hit, ReachedFrom(before, c, b), b);
  }

  lemma WithdrawnTwice(nodes: Nodes, h1: set<Ptr>, h2: set<Ptr>, b: Ptr)
    requires b in nodes && h1 !! h2
    ensures Withdrawn(Withdrawn(nodes, h1, b), h2, b) == Withdrawn(nodes, h1 + h2, b)
  {
  }

  lemma SameReach(nodes: Nodes, hit: set<Ptr>, b: Ptr, c: Ptr)
    requires b in nodes
    ensures ReachedFrom(Withdrawn(nodes, hit, b), c, b) == ReachedFrom(nodes, c, b)
    ensures Subtree(Withdrawn(nodes, hit, b), c) == Subtree(nodes, c)
  {
    forall y | y in nodes
      ensures Reached(Withdrawn(nodes, hit, b), y, c, b) <==> Reached(nodes, y, c, b)
      ensures Below(Withdrawn(nodes, hit, b), y, c) <==> Below(nodes, y, c)
    {
      ReachedAfterWithdrawal(nodes, hit, y, c, b);
      BelowAfterWithdrawal(nodes, hit, b, y, c);
    }
  }

  lemma NoDoubleWithdrawal(nodes: Nodes, root: Ptr, x: Ptr, b: Ptr, done: set<Ptr>, c: Ptr)
    requires Forest(nodes, root) && x in nodes && b in nodes && nodes[x].parent.Some?
    requires done <= nodes[x].children && c in nodes[x].children && c !in done
    ensures ReachedFrom(nodes, c, b) !! {x} + ReachedAll(nodes, done, b)
  {
    assert ChildOk(nodes, root, x, c) && ParentOk(nodes, c);
    forall y | y in ReachedFrom(nodes, c, b)
      ensures y !in {x} + ReachedAll(nodes, done, b)
    {
      ReachedIsBelow(nodes, y, c, b);
      BelowLevel(nodes, y, c);
      forall d | d in done
        ensures !Reached(nodes, y, d, b)
      {
        assert ChildOk(nodes, root, x, d) && ParentOk(nodes, d);
        if Reached(nodes, y, d, b) {
          ReachedIsBelow(nodes, y, d, b);
          SiblingsDisjoint(nodes, y, c, d, x);
        }
      }
    }
  }

  lemma ChildSubtreeSmaller(nodes: Nodes, x: Ptr, c: Ptr)
    requires x in nodes && c in nodes && nodes[c].parent == Some(x) && Level(nodes[x]) < Level(nodes[c])
    ensures Subtree(nodes, c) < Subtree(nodes, x)
  {
    assert Below(nodes, c, x);
    forall y | y in Subtree(nodes, c)
      ensures y in Subtree(nodes, x)
    {
      BelowTransitive(nodes, y, c, x);
    }
    if Below(nodes, x, c) {
      BelowLevel(nodes, x, c);
    }
    assert x in Subtree(nodes, x);
  }
}
