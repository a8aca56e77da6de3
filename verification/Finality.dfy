/** Flushing confirmed blocks, runs of the block cache, and what holds over every run:
    confirmed blocks are never taken back and each is backed by a quorum of witnesses. */
module Finality {
  import opened Basics
  import opened Blocks
  import opened BlockTree
  import opened BlockCacheState
  import opened BlockCacheSteps
  import opened BlockCacheAdd
  import opened BlockCacheQuery

  // ----- Flushing one block -----

  function ConfirmLimit(witnessNum: nat): nat {
    witnessNum * 2 / 3 + 1
  }

  /** Every branch off the root other than `b`'s. */
  ghost function Pruned(s: State, b: Ptr): set<Ptr>
    requires s.root in s.nodes
  {
    Subtrees(s.nodes, s.nodes[s.root].children - {b})
  }

  /** Virtual nodes not above the new root, looked at every tenth block. */
  function StaleSingles(s: State): set<Ptr>
    requires s.root in s.nodes && s.single in s.nodes
  {
    if Number(s, s.root) % DEL_SINGLE_BLOCK_TIME != 0 then {}
    else set v | v in s.nodes[s.single].children && v in s.nodes && Number(s, v) <= Number(s, s.root)
  }

  ghost function Advanced(s: State, b: Ptr): State
    requires s.root in s.nodes && b in s.nodes
  {
    Promoted(Dropped(s, Pruned(s, b)), b)
  }

  /** The state after `b` became the root, with the head still to be chosen. */
  ghost function FlushedTree(s: State, b: Ptr): State
    requires s.root in s.nodes && b in s.nodes && s.single in s.nodes
  {
    var t := Advanced(s, b);
    Dropped(t, Subtrees(t.nodes, StaleSingles(t)))
  }

  lemma SubtreesDroppable(s: State, tops: set<Ptr>)
    requires ShapeOk(s)
    requires forall n :: n in tops ==> n in s.nodes && s.nodes[n].parent.Some?
    ensures Droppable(s, Subtrees(s.nodes, tops))
  {
    SubtreesClosed(s.nodes, s.root, tops);
    forall x | x in Subtrees(s.nodes, tops)
      ensures x in s.nodes && s.nodes[x].parent.Some?
    {
      var n :| n in tops && Below(s.nodes, x, n);
    }
  }

  lemma PrunedKeepsBranch(s: State, b: Ptr)
    requires ShapeOk(s) && Live(s, b) && s.nodes[b].parent == Some(s.root)
    ensures Droppable(s, Pruned(s, b)) && Promotable(Dropped(s, Pruned(s, b)), b)
  {
    var rest := s.nodes[s.root].children - {b};
    assert ParentOk(s.nodes, b);
    forall n | n in rest
      ensures n in s.nodes && s.nodes[n].parent == Some(s.root)
    {
      assert ChildOk(s.nodes, s.root, s.root, n);
    }
    SubtreesDroppable(s, rest);
    assert b !in Pruned(s, b) by {
      forall n | n in rest
        ensures !Below(s.nodes, b, n)
      {
        assert ParentOk(s.nodes, n);
        SiblingsDisjoint(s.nodes, b, b, n, s.root);
      }
    }
    assert s.nodes[s.root].children - Pruned(s, b) == {b} by {
      forall n | n in rest
        ensures n in Pruned(s, b)
      {
        assert Below(s.nodes, n, n);
      }
    }
  }

  lemma FlushedInv(s: State, b: Ptr)
    requires Inv(s) && Live(s, b) && s.nodes[b].parent == Some(s.root)
    ensures Inv(Advanced(s, b)) && Inv(FlushedTree(s, b))
  {
    PrunedKeepsBranch(s, b);
    var a := Dropped(s, Pruned(s, b));
    DroppedInv(s, Pruned(s, b));
    PromotedInv(a, b);
    var t := Promoted(a, b);
    StaleDroppable(t);
    DroppedInv(t, Subtrees(t.nodes, StaleSingles(t)));
  }

  lemma StaleDroppable(t: State)
    requires ShapeOk(t)
    ensures Droppable(t, Subtrees(t.nodes, StaleSingles(t)))
  {
    forall v | v in StaleSingles(t)
      ensures v in t.nodes && t.nodes[v].parent.Some?
    {
      assert ChildOk(t.nodes, t.root, t.single, v);
    }
    SubtreesDroppable(t, StaleSingles(t));
  }

  lemma NotPruned(s: State, b: Ptr, x: Ptr)
    requires ShapeOk(s) && Live(s, b) && s.nodes[b].parent == Some(s.root) && x in s.nodes && Below(s.nodes, x, b)
    ensures x !in Pruned(s, b)
  {
    assert ParentOk(s.nodes, b);
    forall n | n in s.nodes[s.root].children - {b}
      ensures !Below(s.nodes, x, n)
    {
      assert ChildOk(s.nodes, s.root, s.root, n) && ParentOk(s.nodes, n);
      SiblingsDisjoint(s.nodes, x, b, n, s.root);
    }
  }

  lemma {:induction false} LiveNotStale(t: State, x: Ptr)
    requires ShapeOk(t) && Live(t, x)
    ensures x !in Subtrees(t.nodes, StaleSingles(t))
    decreases Level(t.nodes[x])
  {
    assert NodeOk(t, x);
    forall v | v in StaleSingles(t)
      ensures !Below(t.nodes, x, v)
    {
      assert ChildOk(t.nodes, t.root, t.single, v) && NodeOk(t, v);
      if x != t.root {
        LiveNotStale(t, t.nodes[x].parent.value);
        assert ParentOk(t.nodes, x);
      }
    }
  }

  /** What survives a flush of `b`: its own branch. */
  lemma LiveAfterFlush(s: State, b: Ptr, x: Ptr)
    requires Inv(s) && Live(s, b) && s.nodes[b].parent == Some(s.root)
    ensures Live(FlushedTree(s, b), x) <==> Live(s, x) && Below(s.nodes, x, b)
    ensures Live(FlushedTree(s, b), x) ==> x != s.root
  {
    PrunedKeepsBranch(s, b);
    FlushedInv(s, b);
    var a := Dropped(s, Pruned(s, b));
    var t := Promoted(a, b);
    DroppedShape(s, Pruned(s, b));
    DroppedInv(s, Pruned(s, b));
    LiveAfterPromotion(a, b, x);
    StaleDroppable(t);
    DroppedShape(t, Subtrees(t.nodes, StaleSingles(t)));
    if Live(s, x) && Below(s.nodes, x, b) {
      NotPruned(s, b, x);
      BelowLevel(s.nodes, x, b);
      assert ParentOk(s.nodes, b);
      assert Live(t, x);
      LiveNotStale(t, x);
    } else if Live(a, x) {
      BelowAfterCut(s.nodes, Pruned(s, b), x, b);
    }
  }

  /** The confirmation rule at `node`: enough votes, under the list the root waits for. */
  predicate CanFlush(s: State, node: Ptr) {
    && s.root in s.nodes && Live(s, node) && node != s.root
    && |s.nodes[node].valid| >= ConfirmLimit(s.witnessNum)
    && s.nodes[node].active == s.nodes[s.root].pending
  }

  /** The root's child on the way to `node`. */
  function NextBlock(s: State, node: Ptr): Ptr
    requires s.root in s.nodes && node in s.nodes
  {
    Ancestor(s.nodes, node, Number(s, s.root) + 1)
  }

  lemma {:induction false} AncestorIsLive(s: State, x: Ptr, k: int)
    requires ShapeOk(s) && Live(s, x) && Number(s, s.root) <= k <= Number(s, x)
    ensures Live(s, Ancestor(s.nodes, x, k)) && Number(s, Ancestor(s.nodes, x, k)) == k
    ensures Below(s.nodes, x, Ancestor(s.nodes, x, k))
    decreases Level(s.nodes[x])
  {
    assert NodeOk(s, x) && ParentOk(s.nodes, x);
    if Number(s, x) > k {
      AncestorIsLive(s, s.nodes[x].parent.value, k);
    }
  }

  /** One step further up. */
  lemma {:induction false} AncestorStep(s: State, x: Ptr, k: int)
    requires ShapeOk(s) && Live(s, x) && Number(s, s.root) < k <= Number(s, x)
    ensures Live(s, Ancestor(s.nodes, x, k))
    ensures s.nodes[Ancestor(s.nodes, x, k)].parent == Some(Ancestor(s.nodes, x, k - 1))
    decreases Level(s.nodes[x])
  {
    assert NodeOk(s, x) && ParentOk(s.nodes, x);
    var p := s.nodes[x].parent.value;
    if Number(s, x) > k {
      AncestorStep(s, p, k);
    } else {
      assert Ancestor(s.nodes, p, k - 1) == p;
    }
  }

  lemma NextBlockOk(s: State, node: Ptr)
    requires ShapeOk(s) && Live(s, node) && node != s.root
    ensures Live(s, NextBlock(s, node)) && s.nodes[NextBlock(s, node)].parent == Some(s.root)
    ensures Below(s.nodes, node, NextBlock(s, node))
    ensures Number(s, NextBlock(s, node)) == Number(s, s.root) + 1
  {
    LiveBelowRoot(s, node);
    NextBlockAt(s, node, Number(s, s.root) + 1);
  }

  lemma NextBlockAt(s: State, node: Ptr, k: int)
    requires ShapeOk(s) && Live(s, node) && k == Number(s, s.root) + 1 <= Number(s, node)
    ensures var b := Ancestor(s.nodes, node, k);
            Live(s, b) && s.nodes[b].parent == Some(s.root) && Below(s.nodes, node, b) && Number(s, b) == k
  {
    AncestorIsLive(s, node, k);
    ChildOfRoot(s, Ancestor(s.nodes, node, k));
  }

  lemma ChildOfRoot(s: State, b: Ptr)
    requires ShapeOk(s) && Live(s, b) && Number(s, b) == Number(s, s.root) + 1
    ensures s.nodes[b].parent == Some(s.root)
  {
    assert NodeOk(s, b);
    LiveBelowRoot(s, s.nodes[b].parent.value);
  }

  ghost predicate FlushStep(s: State, t: State, node: Ptr) {
    && CanFlush(s, node) && s.single in s.nodes && NextBlock(s, node) in s.nodes
    && var f := FlushedTree(s, NextBlock(s, node));
       Longest(f, t.head) && t == f.(head := t.head)
  }

  // ----- Blocks and their producers, told from the heads alone -----

  /** `b` is `tip` or one of its ancestors, numbers counting up one by one. */
  predicate Path(b: Head, tip: Head) {
    || tip == b
    || (tip.parentHash.HashOf? && Extends(tip.parentHash.head, tip) && Path(b, tip.parentHash.head))
  }

  /** The producers of the blocks from `b` up to `tip`. */
  function Authors(b: Head, tip: Head): set<string>
    requires Path(b, tip)
  {
    if tip == b then {tip.producer} else {tip.producer} + Authors(b, tip.parentHash.head)
  }

  /** Enough distinct witnesses of the list produced `b` or a block on top of it. */
  ghost predicate Confirms(b: Head, tip: Head, active: seq<string>, witnessNum: nat) {
    Path(b, tip) && |Authors(b, tip) * Elements(active)| >= ConfirmLimit(witnessNum)
  }

  lemma {:induction false} LivePath(s: State, x: Ptr, b: Ptr)
    requires ShapeOk(s) && Live(s, x) && Live(s, b) && Below(s.nodes, x, b)
    ensures Path(s.nodes[b].head, s.nodes[x].head)
    decreases Level(s.nodes[x])
  {
    if x != b {
      assert NodeOk(s, x);
      if x == s.root {
        assert false;
      } else {
        var p := s.nodes[x].parent.value;
        assert NodeOk(s, p);
        LivePath(s, p, b);
      }
    }
  }

  lemma {:induction false} VotersAreAuthors(s: State, x: Ptr, b: Ptr)
    requires ShapeOk(s) && Live(s, x) && Live(s, b) && s.nodes[b].parent == Some(s.root) && Below(s.nodes, x, b)
    ensures Path(s.nodes[b].head, s.nodes[x].head)
    ensures Voters(s.nodes, x) <= Authors(s.nodes[b].head, s.nodes[x].head)
    decreases Level(s.nodes[x])
  {
    LivePath(s, x, b);
    assert NodeOk(s, x) && ParentOk(s.nodes, x);
    if x == b {
      assert Voters(s.nodes, s.root) == {};
    } else {
      var p := s.nodes[x].parent.value;
      assert NodeOk(s, p);
      BelowLevel(s.nodes, p, b);
      VotersAreAuthors(s, p, b);
      if s.nodes[x].head == s.nodes[b].head {
        assert NodeOk(s, b);
        SameKeySameDepth(s, x, b);
      }
    }
  }

  lemma SameKeySameDepth(s: State, x: Ptr, b: Ptr)
    requires ShapeOk(s) && Live(s, x) && Live(s, b) && x != b && Below(s.nodes, x, b)
    ensures s.nodes[x].head != s.nodes[b].head
  {
    assert NodeOk(s, x) && NodeOk(s, b);
    BelowLevel(s.nodes, x, b);
  }

  /** Every flushed block is backed by more than two thirds of the witnesses, all of them in the active
      list, each having produced it or a block on top of it. */
  lemma FlushIsBacked(s: State, t: State, node: Ptr)
    requires Inv(s) && FlushStep(s, t, node)
    ensures t.chain == s.chain + [s.nodes[NextBlock(s, node)].head]
    ensures Confirms(s.nodes[NextBlock(s, node)].head, s.nodes[node].head, s.nodes[node].active, s.witnessNum)
  {
    var b := NextBlock(s, node);
    NextBlockOk(s, node);
    VotersAreAuthors(s, node, b);
    assert VotesOk(s, node);
    NoDuplicatesCount(s.nodes[node].valid);
    SubsetCount(Elements(s.nodes[node].valid),
                Authors(s.nodes[b].head, s.nodes[node].head) * Elements(s.nodes[node].active));
  }

  // ----- Two confirmations -----

  /** Below a block there is at most one block of a given number. */
  lemma {:induction false} OneAncestorPerNumber(a: Head, b: Head, tip: Head)
    requires Path(a, tip) && Path(b, tip) && a.number == b.number
    ensures a == b
  {
    PathNumbers(a, tip);
    PathNumbers(b, tip);
    if tip != a && tip != b {
      OneAncestorPerNumber(a, b, tip.parentHash.head);
    }
  }

  lemma {:induction false} PathNumbers(b: Head, tip: Head)
    requires Path(b, tip)
    ensures b.number <= tip.number && (b.number == tip.number ==> b == tip)
  {
    if tip != b {
      PathNumbers(b, tip.parentHash.head);
    }
  }

  /** A producer named among the authors made one of the blocks. */
  lemma {:induction false} AuthorMadeBlock(b: Head, tip: Head, w: string) returns (d: Head)
    requires Path(b, tip) && w in Authors(b, tip)
    ensures Path(b, d) && Path(d, tip) && d.producer == w
  {
    if tip == b || tip.producer == w {
      d := tip;
    } else {
      d := AuthorMadeBlock(b, tip.parentHash.head, w);
    }
  }

  /** The common witnesses of two confirmations under one list of `witnessNum` entries. */
  lemma QuorumsIntersect(b1: Head, t1: Head, b2: Head, t2: Head, active: seq<string>, witnessNum: nat)
    requires |active| == witnessNum
    requires Confirms(b1, t1, active, witnessNum) && Confirms(b2, t2, active, witnessNum)
    ensures |Authors(b1, t1) * Authors(b2, t2) * Elements(active)| >= witnessNum / 3 + 1
  {
    var q1 := Authors(b1, t1) * Elements(active);
    var q2 := Authors(b2, t2) * Elements(active);
    ElementsBound(active);
    SubsetCount(q1 + q2, Elements(active));
    assert |q1 + q2| == |q1| + |q2| - |q1 * q2|;
    assert q1 * q2 == Authors(b1, t1) * Authors(b2, t2) * Elements(active);
  }

  /** `w` produced one block on top of `b1` and a different one on top of `b2`. */
  ghost predicate MadeBoth(w: string, b1: Head, t1: Head, b2: Head, t2: Head) {
    exists d1, d2 ::
      && Path(b1, d1) && Path(d1, t1) && d1.producer == w
      && Path(b2, d2) && Path(d2, t2) && d2.producer == w && d1 != d2
  }

  /** If two different blocks of one number are confirmed under the same list, more than a third of the
      witnesses produced blocks on both of the two branches. */
  lemma ConflictNeedsDoubleProducers(b1: Head, t1: Head, b2: Head, t2: Head, active: seq<string>, witnessNum: nat)
    returns (both: set<string>)
    requires |active| == witnessNum && b1.number == b2.number && b1 != b2
    requires Confirms(b1, t1, active, witnessNum) && Confirms(b2, t2, active, witnessNum)
    ensures |both| >= witnessNum / 3 + 1
    ensures both <= Elements(active)
    ensures forall w :: w in both ==> MadeBoth(w, b1, t1, b2, t2)
  {
    both := Authors(b1, t1) * Authors(b2, t2) * Elements(active);
    QuorumsIntersect(b1, t1, b2, t2, active, witnessNum);
    forall w | w in both
      ensures MadeBoth(w, b1, t1, b2, t2)
    {
      var d1 := AuthorMadeBlock(b1, t1, w);
      var d2 := AuthorMadeBlock(b2, t2, w);
      if d1 == d2 {
        OneAncestorPerNumber(b1, b2, d1);
      }
    }
  }

  // ----- Runs -----

  datatype Event =
    | Adding(blk: Head)
    | Linking(n: Ptr, update: Option<seq<string>>)
    | Flushing(node: Ptr)
    | Activating(node: Ptr)
    | Deleting(n: Ptr)
    | Querying

  ghost predicate Step(s: State, e: Event, t: State) {
    match e
    case Adding(blk) => ReadyToAdd(s) && t == Added(s, blk)
    case Linking(n, update) => s.head in s.nodes && Verified(s, n) && t == LinkedAt(s, n, update)
    case Flushing(node) => FlushStep(s, t, node)
    case Activating(node) => s.root in s.nodes && Live(s, node) && t == Activated(s, node)
    case Deleting(n) =>
      && n in s.nodes && s.nodes[n].parent.Some? && s.nodes[n].parent.value in s.nodes
      && Longest(DeletedAt(s, n), t.head) && t == DeletedAt(s, n).(head := t.head)
    case Querying => s.head in s.nodes && t == Queried(s)
  }

  /** A new cache: the last pushed block as root and head, voting under its own pending list. */
  ghost predicate Init(s: State) {
    && s.root != s.single && s.head == s.root && s.next > s.root && s.next > s.single
    && s.nodes.Keys == {s.root, s.single}
    && s.nodes[s.root] == Node(Some(HashOf(s.nodes[s.root].head)), s.nodes[s.root].head, None, {}, Linked, [],
                               s.nodes[s.root].pending, s.nodes[s.root].pending)
    && s.nodes[s.single] == Node(None, s.nodes[s.single].head, None, {}, Virtual, [], [], [])
    && s.byHash == map[HashOf(s.nodes[s.root].head) := s.root] && s.byNumber == map[]
    && s.leaf == map[s.root := Number(s, s.root)] && s.rootWitness == []
    && s.witnessNum == |s.nodes[s.root].pending| && ChainOk(s)
  }

  ghost predicate Run(ss: seq<State>, es: seq<Event>) {
    && |ss| == |es| + 1 && Init(ss[0])
    && (forall i :: 0 <= i < |es| ==> StepAt(ss, es, i))
  }

  ghost predicate StepAt(ss: seq<State>, es: seq<Event>, i: nat)
    requires |ss| == |es| + 1 && i < |es|
  {
    Step(ss[i], es[i], ss[i + 1])
  }

  lemma InitInv(s: State)
    requires Init(s)
    ensures Inv(s)
  {
    assert Elements<string>([]) == {};
  }

  lemma StepInv(s: State, e: Event, t: State)
    requires Inv(s) && Step(s, e, t)
    ensures Inv(t)
  {
    match e
    case Adding(blk) => AddedInv(s, blk);
    case Linking(n, update) => LinkedInv(s, n, update);
    case Flushing(node) =>
      NextBlockOk(s, node);
      FlushedInv(s, NextBlock(s, node));
      LongestIsOldHead(FlushedTree(s, NextBlock(s, node)), t.head);
    case Activating(node) => ActivatedInv(s, node);
    case Deleting(n) =>
      DeletedInv(s, n);
      LongestIsOldHead(DeletedAt(s, n), t.head);
    case Querying => QueriedInv(s);
  }

  /** The invariant holds in every state of every run. */
  lemma {:induction false} RunInv(ss: seq<State>, es: seq<Event>, i: nat)
    requires Run(ss, es) && i < |ss|
    ensures Inv(ss[i])
  {
    if i == 0 {
      InitInv(ss[0]);
    } else {
      RunInv(ss, es, i - 1);
      assert StepAt(ss, es, i - 1);
      StepInv(ss[i - 1], es[i - 1], ss[i]);
    }
  }

  /** Only a flush pushes a block, and it pushes exactly the one after the root on the way to its node. */
  lemma StepChain(s: State, e: Event, t: State)
    requires Step(s, e, t)
    ensures if e.Flushing? then CanFlush(s, e.node) && NextBlock(s, e.node) in s.nodes
                                && t.chain == s.chain + [s.nodes[NextBlock(s, e.node)].head]
            else t.chain == s.chain
    ensures t.witnessNum == s.witnessNum
  {
  }

  lemma LiveDescend(s: State)
    requires ShapeOk(s) && ChainOk(s)
    ensures forall x :: Live(s, x) ==> Path(s.chain[|s.chain| - 1], s.nodes[x].head)
  {
    forall x | Live(s, x)
      ensures Path(s.chain[|s.chain| - 1], s.nodes[x].head)
    {
      LiveBelowRoot(s, x);
      LivePath(s, x, s.root);
    }
  }

  /** Irreversibility: over every run what was pushed stays, in place; it is always one chain of
      consecutive blocks; and every surviving linked block descends from the last pushed one. */
  lemma Irreversible(ss: seq<State>, es: seq<Event>, i: nat, j: nat)
    requires Run(ss, es) && i <= j < |ss|
    ensures ss[i].chain <= ss[j].chain
    ensures ChainOk(ss[j])
    ensures forall x :: Live(ss[j], x) ==> Path(ss[j].chain[|ss[j].chain| - 1], ss[j].nodes[x].head)
  {
    ChainGrows(ss, es, i, j);
    RunInv(ss, es, j);
    LiveDescend(ss[j]);
  }

  lemma {:induction false} ChainGrows(ss: seq<State>, es: seq<Event>, i: nat, j: nat)
    requires Run(ss, es) && i <= j < |ss|
    ensures ss[i].chain <= ss[j].chain
    decreases j
  {
    if i < j {
      ChainGrows(ss, es, i, j - 1);
      RunPush(ss, es, j - 1);
    }
  }

  lemma RunPush(ss: seq<State>, es: seq<Event>, i: nat)
    requires Run(ss, es) && i < |es|
    ensures ss[i].chain <= ss[i + 1].chain && |ss[i + 1].chain| <= |ss[i].chain| + 1
    ensures |ss[i].chain| < |ss[i + 1].chain| ==>
              && es[i].Flushing? && CanFlush(ss[i], es[i].node)
              && Confirms(ss[i + 1].chain[|ss[i].chain|], ss[i].nodes[es[i].node].head,
                          ss[i].nodes[es[i].node].active, ss[i].witnessNum)
  {
    RunInv(ss, es, i);
    assert StepAt(ss, es, i);
    StepChain(ss[i], es[i], ss[i + 1]);
    if es[i].Flushing? {
      FlushIsBacked(ss[i], ss[i + 1], es[i].node);
    }
  }

  /** Every block pushed during a run was pushed by one flush, which confirms it. */
  lemma {:induction false} PushedIsConfirmed(ss: seq<State>, es: seq<Event>, j: nat, k: nat) returns (i: nat)
    requires Run(ss, es) && j < |ss| && |ss[0].chain| <= k < |ss[j].chain|
    ensures i < j && es[i].Flushing? && CanFlush(ss[i], es[i].node) && |ss[i].chain| == k
    ensures Confirms(ss[j].chain[k], ss[i].nodes[es[i].node].head, ss[i].nodes[es[i].node].active, ss[i].witnessNum)
  {
    RunPush(ss, es, j - 1);
    if k < |ss[j - 1].chain| {
      i := PushedIsConfirmed(ss, es, j - 1, k);
    } else {
      i := j - 1;
    }
  }

  /** Two nodes of the network that pushed different blocks of one number, confirmed under the same list
      of as many entries as there are witnesses: more than a third of them produced on both branches. */
  lemma Agreement(s: State, s': State, m: Ptr, t: State, t': State, n: Ptr) returns (both: set<string>)
    requires Inv(s) && FlushStep(s, s', m) && Inv(t) && FlushStep(t, t', n)
    requires s.witnessNum == t.witnessNum == |s.nodes[m].active| && s.nodes[m].active == t.nodes[n].active
    requires Number(s, NextBlock(s, m)) == Number(t, NextBlock(t, n))
    requires s.nodes[NextBlock(s, m)].head != t.nodes[NextBlock(t, n)].head
    ensures |both| >= s.witnessNum / 3 + 1 && both <= Elements(s.nodes[m].active)
    ensures forall w :: w in both ==>
              MadeBoth(w, s.nodes[NextBlock(s, m)].head, s.nodes[m].head,
                       t.nodes[NextBlock(t, n)].head, t.nodes[n].head)
  {
    FlushIsBacked(s, s', m);
    FlushIsBacked(t, t', n);
    both := ConflictNeedsDoubleProducers(s.nodes[NextBlock(s, m)].head, s.nodes[m].head,
                                         t.nodes[NextBlock(t, n)].head, t.nodes[n].head,
                                         s.nodes[m].active, s.witnessNum);
  }

  /** Every flush of the run was confirmed under `list`. */
  ghost predicate ConfirmsUnder(ss: seq<State>, es: seq<Event>, list: seq<string>)
    requires |ss| == |es| + 1
  {
    forall i :: 0 <= i < |es| && es[i].Flushing? && es[i].node in ss[i].nodes ==> ss[i].nodes[es[i].node].active == list
  }

  lemma {:induction false} WitnessNumStays(ss: seq<State>, es: seq<Event>, i: nat)
    requires Run(ss, es) && i < |ss|
    ensures ss[i].witnessNum == ss[0].witnessNum
  {
    if i > 0 {
      WitnessNumStays(ss, es, i - 1);
      assert StepAt(ss, es, i - 1);
      StepChain(ss[i - 1], es[i - 1], ss[i]);
    }
  }

  lemma {:induction false} ChainNumbers(s: State, k: nat)
    requires ChainOk(s) && k < |s.chain|
    ensures s.chain[k].number == s.chain[0].number + k
  {
    if k > 0 {
      ChainNumbers(s, k - 1);
      assert Extends(s.chain[k - 1], s.chain[k]);
    }
  }

  lemma {:induction false} FirstDifference<T>(a: seq<T>, b: seq<T>) returns (k: nat)
    requires !(a <= b) && !(b <= a)
    ensures k < |a| && k < |b| && a[..k] == b[..k] && a[k] != b[k]
  {
    if a[0] != b[0] {
      k := 0;
    } else {
      var j := FirstDifference(a[1..], b[1..]);
      k := j + 1;
      assert a[..k] == [a[0]] + a[1..][..j] && b[..k] == [b[0]] + b[1..][..j];
    }
  }

  /** What confirmed the `k`-th block of the chain of a run, all of whose flushes were confirmed under `list`. */
  lemma PushedUnder(ss: seq<State>, es: seq<Event>, i: nat, k: nat, list: seq<string>) returns (tip: Head)
    requires Run(ss, es) && i < |ss| && |ss[0].chain| <= k < |ss[i].chain| && ConfirmsUnder(ss, es, list)
    ensures Confirms(ss[i].chain[k], tip, list, ss[0].witnessNum)
  {
    var j := PushedIsConfirmed(ss, es, i, k);
    WitnessNumStays(ss, es, j);
    tip := ss[j].nodes[es[j].node].head;
  }

  /** Two nodes of the network that started from one stored chain and confirm under one list: either the chain
      one has pushed continues the other's, or, from where the chains first differ, more than a third of the
      witnesses produced on both branches. */
  lemma RunsAgree(ss: seq<State>, es: seq<Event>, i: nat, tt: seq<State>, fs: seq<Event>, j: nat, list: seq<string>)
    returns (k: nat, tip1: Head, tip2: Head, both: set<string>)
    requires Run(ss, es) && i < |ss| && ConfirmsUnder(ss, es, list)
    requires Run(tt, fs) && j < |tt| && ConfirmsUnder(tt, fs, list)
    requires ss[0].chain == tt[0].chain && ss[0].witnessNum == tt[0].witnessNum == |list|
    requires !(ss[i].chain <= tt[j].chain) && !(tt[j].chain <= ss[i].chain)
    ensures k < |ss[i].chain| && k < |tt[j].chain| && ss[i].chain[..k] == tt[j].chain[..k]
    ensures ss[i].chain[k] != tt[j].chain[k]
    ensures |both| >= |list| / 3 + 1 && both <= Elements(list)
    ensures forall w :: w in both ==> MadeBoth(w, ss[i].chain[k], tip1, tt[j].chain[k], tip2)
  {
    k := FirstDifference(ss[i].chain, tt[j].chain);
    DifferenceIsConflict(ss, es, i, tt, fs, j, k);
    tip1 := PushedUnder(ss, es, i, k, list);
    tip2 := PushedUnder(tt, fs, j, k, list);
    both := ConflictNeedsDoubleProducers(ss[i].chain[k], tip1, tt[j].chain[k], tip2, list, |list|);
  }

  lemma DifferenceIsConflict(ss: seq<State>, es: seq<Event>, i: nat, tt: seq<State>, fs: seq<Event>, j: nat, k: nat)
    requires Run(ss, es) && i < |ss| && Run(tt, fs) && j < |tt| && ss[0].chain == tt[0].chain
    requires k < |ss[i].chain| && k < |tt[j].chain| && ss[i].chain[k] != tt[j].chain[k]
    ensures |ss[0].chain| <= k && ss[i].chain[k].number == tt[j].chain[k].number
  {
    Irreversible(ss, es, 0, i);
    Irreversible(tt, fs, 0, j);
    assert ChainOk(ss[0]);
    ChainNumbers(ss[i], k);
    ChainNumbers(tt[j], k);
  }

  // ----- The head and the height index over runs -----

  /** In every state of every run whose head is in the tree, a lookup by number answers the head's ancestor. */
  lemma QueryOverRuns(ss: seq<State>, es: seq<Event>, i: nat, k: int)
    requires Run(ss, es) && i < |ss| && ss[i].head in ss[i].nodes && ss[i].root in ss[i].nodes
    requires Live(ss[i], ss[i].head) && Number(ss[i], ss[i].root) <= k <= Number(ss[i], ss[i].head)
    ensures k in Queried(ss[i]).byNumber
    ensures Queried(ss[i]).byNumber[k] == Ancestor(ss[i].nodes, ss[i].head, k)
    ensures Live(ss[i], Ancestor(ss[i].nodes, ss[i].head, k))
    ensures Number(ss[i], Ancestor(ss[i].nodes, ss[i].head, k)) == k
  {
    RunInv(ss, es, i);
    QueryAnswersAncestor(ss[i], k);
  }

  /** Linking `n` makes it the head. */
  predicate TakesOver(s: State, n: Ptr) {
    && Verified(s, n) && s.head in s.nodes
    && s.nodes[s.nodes[n].parent.value].kind.Linked? && Better(s.nodes, n, s.head)
  }

  /** Whether the head will be in the tree after a step, told from the state before it. */
  predicate HeadKept(s: State, e: Event) {
    match e
    case Linking(n, update) => Live(s, s.head) || TakesOver(s, n)
    case Flushing(node) =>
      Live(s, s.head) && s.root in s.nodes && node in s.nodes && Below(s.nodes, s.head, NextBlock(s, node))
    case Deleting(n) => Live(s, s.head) && !Below(s.nodes, s.head, n)
    case _ => Live(s, s.head)
  }

  /** Only linking a block that beats the head moves the head; the search after a pruning never does. */
  lemma HeadMoves(s: State, e: Event, t: State)
    requires Inv(s) && Step(s, e, t)
    ensures t.head == if e.Linking? && TakesOver(s, e.n) then e.n else s.head
  {
    match e
    case Flushing(node) =>
      NextBlockOk(s, node);
      FlushedInv(s, NextBlock(s, node));
      LongestIsOldHead(FlushedTree(s, NextBlock(s, node)), t.head);
    case Deleting(n) =>
      DeletedInv(s, n);
      LongestIsOldHead(DeletedAt(s, n), t.head);
    case _ =>
  }

  /** When the head is in the tree after a step: exactly if it was and the step neither flushes another branch
      nor deletes its own, or the step linked a block that beats it. */
  lemma HeadInTreeIff(s: State, e: Event, t: State)
    requires Inv(s) && Step(s, e, t)
    ensures Live(t, t.head) <==> HeadKept(s, e)
  {
    HeadMoves(s, e, t);
    match e
    case Adding(blk) => AddedLinked(s, blk, s.head);
    case Linking(n, update) => LiveAfterLink(s, n, update);
    case Flushing(node) =>
      NextBlockOk(s, node);
      LiveAfterFlush(s, NextBlock(s, node), s.head);
    case Activating(node) => SameShape(s, t);
    case Deleting(n) => LiveAfterDelete(s, n, s.head);
    case Querying =>
  }

  lemma LiveAfterLink(s: State, n: Ptr, update: Option<seq<string>>)
    requires ShapeOk(s) && Verified(s, n) && s.nodes[s.head].kind.Linked?
    ensures Live(LinkedAt(s, n, update), s.head) <==> Live(s, s.head)
    ensures TakesOver(s, n) ==> Live(LinkedAt(s, n, update), n)
  {
    if s.nodes[s.nodes[n].parent.value].kind.Linked? {
      LinkedShape(s, n, update);
    }
  }

  /** What survives a deletion: all that is not below the deleted node. */
  lemma LiveAfterDelete(s: State, n: Ptr, x: Ptr)
    requires ShapeOk(s) && n in s.nodes && s.nodes[n].parent.Some? && s.nodes[n].parent.value in s.nodes
    ensures Live(DeletedAt(s, n), x) <==> Live(s, x) && !Below(s.nodes, x, n)
  {
    var u := s.(leaf := LeavesAbove(s, n));
    SameShape(s, u);
    SubtreeDroppable(u, n);
    DroppedShape(u, Subtree(u.nodes, n));
  }

  /** Both over runs. */
  lemma HeadOverRuns(ss: seq<State>, es: seq<Event>, i: nat)
    requires Run(ss, es) && i < |es|
    ensures ss[i + 1].head == if es[i].Linking? && TakesOver(ss[i], es[i].n) then es[i].n else ss[i].head
    ensures Live(ss[i + 1], ss[i + 1].head) <==> HeadKept(ss[i], es[i])
  {
    RunInv(ss, es, i);
    assert StepAt(ss, es, i);
    HeadMoves(ss[i], es[i], ss[i + 1]);
    HeadInTreeIff(ss[i], es[i], ss[i + 1]);
  }

  predicate LinkedNode(s: State, x: Ptr) {
    x in s.nodes && s.nodes[x].kind.Linked?
  }

  /** No step unlinks a node or changes the block of a linked one, and only linking links one. */
  lemma LinkedKeepsBlock(s: State, e: Event, t: State, x: Ptr)
    requires Inv(s) && Step(s, e, t)
    ensures LinkedNode(s, x) ==> LinkedNode(t, x) && t.nodes[x].head == s.nodes[x].head
    ensures LinkedNode(t, x) && !LinkedNode(s, x) ==> e.Linking? && x == e.n && t.nodes[x].head == s.nodes[x].head
  {
    match e
    case Adding(blk) => AddedLinked(s, blk, x);
    case Flushing(node) => FlushedKeepsBlock(s, NextBlock(s, node), x);
    case Linking(n, update) => LinkingKeepsBlock(s, n, update, x);
    case Deleting(n) => CutKeepsBlock(s, Subtree(s.nodes, n), x);
    case _ =>
  }

  lemma LinkingKeepsBlock(s: State, n: Ptr, update: Option<seq<string>>, x: Ptr)
    requires Verified(s, n) && s.head in s.nodes
    ensures var t := LinkedAt(s, n, update);
            && (LinkedNode(s, x) ==> LinkedNode(t, x))
            && (LinkedNode(t, x) && !LinkedNode(s, x) ==> x == n)
            && (LinkedNode(t, x) ==> t.nodes[x].head == s.nodes[x].head)
  {
  }

  lemma CutKeepsBlock(s: State, cut: set<Ptr>, x: Ptr)
    ensures var nodes := Cut(s.nodes, cut);
            && (LinkedNode(s, x) <==> x in nodes && nodes[x].kind.Linked?)
            && (LinkedNode(s, x) ==> nodes[x].head == s.nodes[x].head)
  {
  }

  lemma FlushedKeepsBlock(s: State, b: Ptr, x: Ptr)
    requires s.root in s.nodes && b in s.nodes && s.single in s.nodes
    ensures LinkedNode(FlushedTree(s, b), x) <==> LinkedNode(s, x)
    ensures LinkedNode(s, x) ==> FlushedTree(s, b).nodes[x].head == s.nodes[x].head
  {
    var a := Dropped(s, Pruned(s, b));
    var t := Promoted(a, b);
    assert LinkedNode(a, x) <==> LinkedNode(s, x);
    assert LinkedNode(t, x) <==> LinkedNode(a, x);
    assert LinkedNode(s, x) ==> a.nodes[x].head == s.nodes[x].head && t.nodes[x].head == a.nodes[x].head;
  }

  lemma HeadNotBeaten(s: State, e: Event, t: State)
    requires Inv(s) && Inv(t) && Step(s, e, t)
    ensures s.head in s.nodes && t.head in t.nodes && !Beats(s.nodes[s.head].head, t.nodes[t.head].head)
  {
    HeadMoves(s, e, t);
    LinkedKeepsBlock(s, e, t, s.head);
  }

  lemma HeadImproves(ss: seq<State>, es: seq<Event>, i: nat)
    requires Run(ss, es) && i < |es|
    ensures ss[i].head in ss[i].nodes && ss[i + 1].head in ss[i + 1].nodes
    ensures !Beats(ss[i].nodes[ss[i].head].head, ss[i + 1].nodes[ss[i + 1].head].head)
  {
    RunInv(ss, es, i);
    RunInv(ss, es, i + 1);
    assert StepAt(ss, es, i);
    HeadNotBeaten(ss[i], es[i], ss[i + 1]);
  }

  /** In every state of every run the head is the best block there ever was in the tree, though it need not be
      in the tree any more: any other is lower, or as high and not earlier. */
  lemma {:induction false} HeadIsBestSoFar(ss: seq<State>, es: seq<Event>, j: nat, i: nat, x: Ptr)
    requires Run(ss, es) && j <= i < |ss| && Live(ss[j], x)
    ensures ss[i].head in ss[i].nodes
    ensures var b, head := ss[j].nodes[x].head, ss[i].nodes[ss[i].head].head;
            b.number < head.number || (b.number == head.number && head.time <= b.time)
    decreases i
  {
    if j < i {
      HeadIsBestSoFar(ss, es, j, i - 1, x);
      HeadImproves(ss, es, i - 1);
    } else {
      RunInv(ss, es, i);
      assert !Better(ss[i].nodes, x, ss[i].head);
    }
  }
}
