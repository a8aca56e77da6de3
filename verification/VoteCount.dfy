/** The votes at a node are exactly the producers after the root, so a block is confirmed exactly when it should be. */
module VoteCount {
  import opened Basics
  import opened Blocks
  import opened BlockTree
  import opened BlockCacheState
  import opened BlockCacheSteps
  import opened BlockCacheAdd
  import opened Finality

  /** Wherever `w` produced a block after the root, its vote is there. */
  ghost predicate Counted(s: State, w: string) {
    forall x :: Live(s, x) ==> CountedAt(s, w, x)
  }

  predicate CountedAt(s: State, w: string, x: Ptr)
    requires x in s.nodes
  {
    w in Voters(s.nodes, x) ==> w in s.nodes[x].valid
  }

  // ----- Adding -----

  lemma ParentEnteredVoters(s: State, blk: Head, y: Ptr)
    requires Inv(s) && Live(s, y)
    ensures y in ParentEntered(s, blk).nodes && Voters(ParentEntered(s, blk).nodes, y) == Voters(s.nodes, y)
  {
    if blk.parentHash !in s.byHash {
      ParentAdopted(s, blk);
      AdoptedVoters(s, ParentEntered(s, blk), s.next, s.single, y);
    }
  }

  lemma PlacedVoters(s: State, blk: Head, y: Ptr)
    requires Placeable(s, blk) && Live(s, y)
    ensures y in Placed(s, blk).nodes && Voters(Placed(s, blk).nodes, y) == Voters(s.nodes, y)
  {
    PlacedAdopts(s, blk);
    AdoptedVoters(s, Placed(s, blk), AddressOf(s, blk), s.byHash[blk.parentHash], y);
  }

  lemma AddedVoters(s: State, blk: Head, y: Ptr)
    requires Inv(s) && ReadyToAdd(s) && Live(s, y)
    ensures y in Added(s, blk).nodes && Voters(Added(s, blk).nodes, y) == Voters(s.nodes, y)
  {
    if Number(s, s.root) < blk.number && !Known(s, blk) {
      ParentEnteredVoters(s, blk, y);
      ParentEnteredLinked(s, blk, y);
      ParentEnteredPlaceable(s, blk);
      PlacedVoters(ParentEntered(s, blk), blk, y);
    }
  }

  lemma AddingCounts(s: State, blk: Head, w: string, y: Ptr)
    requires Inv(s) && ReadyToAdd(s) && Counted(s, w) && Live(Added(s, blk), y)
    ensures CountedAt(Added(s, blk), w, y)
  {
    AddedLinked(s, blk, y);
    AddedVoters(s, blk, y);
    assert CountedAt(s, w, y);
  }

  // ----- Linking -----

  lemma LinkingCounts(s: State, n: Ptr, update: Option<seq<string>>, w: string, x: Ptr)
    requires Inv(s) && Verified(s, n) && Counted(s, w) && w != "" && Live(LinkedAt(s, n, update), x)
    ensures CountedAt(LinkedAt(s, n, update), w, x)
  {
    VotersAfterLink(s, n, update, x);
    if x == n && s.nodes[s.nodes[n].parent.value].kind.Linked? {
      NewNodeCounts(s, n, update, w);
    } else {
      StillLive(s, n, update, x);
      assert CountedAt(s, w, x);
    }
  }

  lemma StillLive(s: State, n: Ptr, update: Option<seq<string>>, x: Ptr)
    requires ShapeOk(s) && Verified(s, n) && Live(LinkedAt(s, n, update), x)
    requires x != n || !s.nodes[s.nodes[n].parent.value].kind.Linked?
    ensures Live(s, x) && LinkedAt(s, n, update).nodes[x].valid == s.nodes[x].valid
  {
    if s.nodes[s.nodes[n].parent.value].kind.Linked? {
      LinkedShape(s, n, update);
    }
  }

  lemma NewNodeCounts(s: State, n: Ptr, update: Option<seq<string>>, w: string)
    requires Inv(s) && Verified(s, n) && Counted(s, w) && w != "" && s.nodes[s.nodes[n].parent.value].kind.Linked?
    ensures w in Voters(s.nodes, n) ==> w in LinkedAt(s, n, update).nodes[n].valid
  {
    var p := s.nodes[n].parent.value;
    assert NodeOk(s, n) && ParentOk(s.nodes, n);
    assert CountedAt(s, w, p);
  }

  // ----- Flushing -----

  lemma DroppedCounts(s: State, cut: set<Ptr>, w: string)
    requires ShapeOk(s) && Droppable(s, cut) && Counted(s, w)
    ensures Counted(Dropped(s, cut), w)
  {
    DroppedShape(s, cut);
    forall x | Live(Dropped(s, cut), x)
      ensures CountedAt(Dropped(s, cut), w, x)
    {
      VotersAfterCut(s, cut, x);
      assert CountedAt(s, w, x);
    }
  }

  /** After promotion: a voter is one from before, and the promoted block's producer only where its vote stays. */
  lemma {:induction false} PromotedVoters(s: State, b: Ptr, x: Ptr, w: string)
    requires ShapeOk(s) && Promotable(s, b) && x in s.nodes && Below(s.nodes, x, b)
    requires w in Voters(Promoted(s, b).nodes, x)
    ensures w in Voters(s.nodes, x) && (w == s.nodes[b].head.producer ==> !Reached(s.nodes, x, b, b))
    decreases Level(s.nodes[x])
  {
    assert ParentOk(s.nodes, x);
    if x != b {
      var p := s.nodes[x].parent.value;
      if w != s.nodes[x].head.producer {
        PromotedVoters(s, b, p, w);
      }
    }
  }

  lemma PromotedCounts(s: State, b: Ptr, w: string)
    requires ShapeOk(s) && Promotable(s, b) && Counted(s, w)
    ensures Counted(Promoted(s, b), w)
  {
    var t := Promoted(s, b);
    forall x | Live(t, x)
      ensures CountedAt(t, w, x)
    {
      PromotedCountsAt(s, b, w, x);
    }
  }

  lemma PromotedCountsAt(s: State, b: Ptr, w: string, x: Ptr)
    requires ShapeOk(s) && Promotable(s, b) && Counted(s, w) && Live(Promoted(s, b), x)
    ensures CountedAt(Promoted(s, b), w, x)
  {
    LiveAfterPromotion(s, b, x);
    assert CountedAt(s, w, x);
    if w in Voters(Promoted(s, b).nodes, x) {
      PromotedVoters(s, b, x, w);
      VoteStays(s, b, x, w);
    }
  }

  lemma VoteStays(s: State, b: Ptr, x: Ptr, w: string)
    requires s.root in s.nodes && b in s.nodes && x in s.nodes && w in s.nodes[x].valid
    requires w == s.nodes[b].head.producer ==> !Reached(s.nodes, x, b, b)
    ensures w in Promoted(s, b).nodes[x].valid
  {
    var votes, gone := s.nodes[x].valid, s.nodes[b].head.producer;
    if Reached(s.nodes, x, b, b) {
      assert w in Elements(votes) - {gone};
      assert Promoted(s, b).nodes[x].valid == Without(votes, gone);
    } else {
      assert Promoted(s, b).nodes[x].valid == votes;
    }
  }

  lemma FlushingCounts(s: State, b: Ptr, w: string)
    requires Inv(s) && Live(s, b) && s.nodes[b].parent == Some(s.root) && Counted(s, w)
    ensures Counted(FlushedTree(s, b), w)
  {
    PrunedKeepsBranch(s, b);
    var a := Dropped(s, Pruned(s, b));
    DroppedCounts(s, Pruned(s, b), w);
    DroppedShape(s, Pruned(s, b));
    PromotedCounts(a, b, w);
    PromotedShape(a, b);
    var t := Promoted(a, b);
    StaleDroppable(t);
    DroppedCounts(t, Subtrees(t.nodes, StaleSingles(t)), w);
  }

  // ----- Every step -----

  lemma ActivatingCounts(s: State, n: Ptr, w: string)
    requires ShapeOk(s) && Live(s, n) && Counted(s, w) && w in s.nodes[s.root].pending
    ensures Counted(Activated(s, n), w)
  {
    var t := Activated(s, n);
    SameShape(s, t);
    forall x | Live(t, x)
      ensures CountedAt(t, w, x)
    {
      SameVoters(s, t, x);
      assert CountedAt(s, w, x);
      if x == n && w in s.nodes[x].valid {
        assert w in Elements(Kept(s.nodes[n].valid, s.nodes[s.root].pending));
      }
    }
  }

  lemma DeletingCounts(s: State, n: Ptr, w: string)
    requires ShapeOk(s) && n in s.nodes && s.nodes[n].parent.Some? && s.nodes[n].parent.value in s.nodes
    requires Counted(s, w)
    ensures Counted(DeletedAt(s, n), w)
  {
    var u := s.(leaf := LeavesAbove(s, n));
    SameShape(s, u);
    assert Counted(u, w) by {
      forall x | Live(u, x)
        ensures CountedAt(u, w, x)
      {
        assert CountedAt(s, w, x);
      }
    }
    SubtreeDroppable(u, n);
    DroppedCounts(u, Subtree(u.nodes, n), w);
  }

  /** No step but the activation of a list without `w` loses a vote of `w`. */
  lemma StepCounts(s: State, e: Event, t: State, w: string)
    requires Inv(s) && Step(s, e, t) && Counted(s, w) && w != ""
    requires e.Activating? ==> s.root in s.nodes && w in s.nodes[s.root].pending
    ensures Counted(t, w)
  {
    match e
    case Adding(blk) =>
      forall x | Live(t, x)
        ensures CountedAt(t, w, x)
      {
        AddingCounts(s, blk, w, x);
      }
    case Linking(n, update) =>
      forall x | Live(t, x)
        ensures CountedAt(t, w, x)
      {
        LinkingCounts(s, n, update, w, x);
      }
    case Flushing(node) =>
      NextBlockOk(s, node);
      FlushingCounts(s, NextBlock(s, node), w);
      SameCounts(FlushedTree(s, NextBlock(s, node)), t, w);
    case Activating(node) => ActivatingCounts(s, node, w);
    case Deleting(n) =>
      DeletingCounts(s, n, w);
      SameCounts(DeletedAt(s, n), t, w);
    case Querying => SameCounts(s, t, w);
  }

  lemma SameCounts(s: State, t: State, w: string)
    requires t.nodes == s.nodes && t.root == s.root && Counted(s, w)
    ensures Counted(t, w)
  {
    forall x | Live(t, x)
      ensures CountedAt(t, w, x)
    {
      assert Live(s, x) && CountedAt(s, w, x);
    }
  }

  // ----- Over runs -----

  /** No list without `w` was activated in the first `j` steps. */
  ghost predicate Spared(ss: seq<State>, es: seq<Event>, j: nat, w: string)
    requires |ss| == |es| + 1 && j <= |es|
  {
    forall i :: 0 <= i < j && es[i].Activating? ==> SparedAt(ss[i], w)
  }

  predicate SparedAt(s: State, w: string) {
    s.root in s.nodes && w in s.nodes[s.root].pending
  }

  lemma {:induction false} RunCounts(ss: seq<State>, es: seq<Event>, j: nat, w: string)
    requires Run(ss, es) && j < |ss| && w != "" && Spared(ss, es, j, w)
    ensures Counted(ss[j], w)
  {
    if j == 0 {
      NoVotersYet(ss[0], w);
    } else {
      RunCounts(ss, es, j - 1, w);
      RunInv(ss, es, j - 1);
      assert StepAt(ss, es, j - 1);
      assert es[j - 1].Activating? ==> SparedAt(ss[j - 1], w);
      StepCounts(ss[j - 1], es[j - 1], ss[j], w);
    }
  }

  lemma NoVotersYet(s: State, w: string)
    requires Init(s)
    ensures Counted(s, w)
  {
    assert Voters(s.nodes, s.root) == {};
  }

  /** Over every run: as long as no list without `w` was activated, `w` has its vote at a node exactly if it produced a
      block after the root up to the node. */
  lemma VotesAreProducers(ss: seq<State>, es: seq<Event>, j: nat, x: Ptr, w: string)
    requires Run(ss, es) && j < |ss| && Live(ss[j], x) && w != "" && Spared(ss, es, j, w)
    ensures w in ss[j].nodes[x].valid <==> w in Voters(ss[j].nodes, x)
  {
    RunInv(ss, es, j);
    RunCounts(ss, es, j, w);
    assert VotesOk(ss[j], x) && CountedAt(ss[j], w, x);
  }

  /** The limit is the least number above two thirds. */
  lemma LimitIsTwoThirds(n: nat, votes: nat)
    ensures votes >= ConfirmLimit(n) <==> 3 * votes > 2 * n
  {
  }

  /** So a node confirms blocks exactly if it is under the list the root waits for and more than two thirds as many
      witnesses as there are have produced a block after the root up to it. */
  lemma ConfirmsIff(ss: seq<State>, es: seq<Event>, j: nat, x: Ptr)
    requires Run(ss, es) && j < |ss| && Live(ss[j], x) && x != ss[j].root && ss[j].root in ss[j].nodes
    requires forall w :: w in Voters(ss[j].nodes, x) ==> w != "" && Spared(ss, es, j, w)
    ensures CanFlush(ss[j], x) <==>
              && ss[j].nodes[x].active == ss[j].nodes[ss[j].root].pending
              && 3 * |Voters(ss[j].nodes, x)| > 2 * ss[j].witnessNum
  {
    var votes := ss[j].nodes[x].valid;
    RunInv(ss, es, j);
    assert VotesOk(ss[j], x);
    forall w | w in Voters(ss[j].nodes, x)
      ensures w in Elements(votes)
    {
      VotesAreProducers(ss, es, j, x, w);
    }
    assert Elements(votes) == Voters(ss[j].nodes, x);
    NoDuplicatesCount(votes);
    LimitIsTwoThirds(ss[j].witnessNum, |votes|);
  }
}
