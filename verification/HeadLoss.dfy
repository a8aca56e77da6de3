/** A run of the block cache in which a confirmation prunes the head: four witnesses, one of which made a branch
    of three blocks before the three others, who had not seen it, made another. */
module HeadLoss {
  import opened Basics
  import opened Blocks
  import opened BlockTree
  import opened BlockCacheState
  import opened BlockCacheSteps
  import opened BlockCacheAdd
  import opened BlockCacheQuery
  import opened Finality
  import RecentBlocks
  import Slots

  const LIST := ["w1", "w2", "w3", "w4"]
  const START := Head(Raw(1), 0, "w4", 0, 0)
  const A1 := Head(HashOf(START), 1, "w1", 1, 0)
  const A2 := Head(HashOf(A1), 2, "w1", 2, 0)
  const A3 := Head(HashOf(A2), 3, "w1", 3, 0)
  const B1 := Head(HashOf(START), 1, "w2", 3_000_000_000, 0)
  const B2 := Head(HashOf(B1), 2, "w3", 6_000_000_000, 0)
  const B3 := Head(HashOf(B2), 3, "w4", 9_000_000_000, 0)

  /** A cache that holds nothing but its root. */
  function NewCache(start: Head, list: seq<string>): State {
    State(map[0 := Node(Some(HashOf(start)), start, None, {}, Linked, [], list, list),
              1 := Node(None, start, None, {}, Virtual, [], [], [])],
          2, 0, 1, 0, map[HashOf(start) := 0], map[], map[0 := start.number], [], |list|, [start])
  }

  const EMPTY := NewCache(START, LIST)

  /** The block follows its parent in number and time, and is made by the witness scheduled for its time. */
  predicate Due(blk: Head, parent: Head, active: seq<string>) {
    && RecentBlocks.VerifyBlockHead(blk, parent)
    && 0 <= blk.time && active != [] && blk.producer == Slots.WitnessOf(blk.time, active)
  }

  /** A new block of a linked parent comes in and is verified. */
  predicate CanGrow(s: State, blk: Head, p: Ptr) {
    && Live(s, p) && Due(blk, s.nodes[p].head, s.nodes[p].active)
    && HashOf(blk) !in s.byHash && blk.number % VOTE_INTERVAL != 0
  }

  /** Every block linked in the run was due. */
  ghost predicate AllDue(ss: seq<State>, es: seq<Event>)
    requires |ss| == |es| + 1
  {
    forall i :: 0 <= i < |es| && es[i].Linking? ==> LinksDue(ss[i], es[i].n)
  }

  predicate LinksDue(s: State, n: Ptr) {
    && n in s.nodes && s.nodes[n].parent.Some? && s.nodes[n].parent.value in s.nodes
    && Due(s.nodes[n].head, s.nodes[s.nodes[n].parent.value].head, s.nodes[s.nodes[n].parent.value].active)
  }

  /** The state after it was added and linked. */
  function Grown(s: State, blk: Head, p: Ptr): State
    requires p in s.nodes && s.head in s.nodes
  {
    var parent := s.nodes[p];
    var node := Node(Some(HashOf(blk)), blk, Some(p), {}, Linked, AddVote(parent.valid, blk.producer),
                     parent.active, parent.pending);
    s.(nodes := s.nodes[s.next := node][p := parent.(children := parent.children + {s.next})],
       next := s.next + 1, byHash := s.byHash[HashOf(blk) := s.next],
       leaf := (s.leaf - {p})[s.next := blk.number],
       head := if Beats(blk, s.nodes[s.head].head) then s.next else s.head)
  }

  lemma ParentIsKnown(s: State, p: Ptr)
    requires Inv(s) && Live(s, p)
    ensures ReadyToAdd(s) && s.next !in s.nodes && p != s.single && Number(s, s.root) <= Number(s, p)
    ensures HashOf(s.nodes[p].head) in s.byHash && s.byHash[HashOf(s.nodes[p].head)] == p
  {
    AddedInv(s, s.nodes[p].head);
    NextIsFree(s);
    LiveBelowRoot(s, p);
    assert Indexed(s, p);
  }

  lemma Enters(s: State, blk: Head, p: Ptr)
    requires CanGrow(s, blk, p) && ReadyToAdd(s) && s.next !in s.nodes && Number(s, s.root) <= Number(s, p)
    requires blk.parentHash in s.byHash && s.byHash[blk.parentHash] == p
    ensures Added(s, blk) ==
            s.(nodes := s.nodes[s.next := Node(Some(HashOf(blk)), blk, Some(p), {}, Single, [], [], [])]
                               [p := s.nodes[p].(children := s.nodes[p].children + {s.next})],
               next := s.next + 1, byHash := s.byHash[HashOf(blk) := s.next])
  {
  }

  lemma Grows(s: State, blk: Head, p: Ptr)
    requires CanGrow(s, blk, p) && ReadyToAdd(s) && s.next !in s.nodes && Number(s, s.root) <= Number(s, p)
    requires blk.parentHash in s.byHash && s.byHash[blk.parentHash] == p && s.head in s.nodes
    ensures Verified(Added(s, blk), s.next) && LinksDue(Added(s, blk), s.next)
    ensures LinkedAt(Added(s, blk), s.next, None) == Grown(s, blk, p)
  {
    Enters(s, blk, p);
    var t := LinkedAt(Added(s, blk), s.next, None);
    assert [] + AddVote(s.nodes[p].valid, blk.producer) == AddVote(s.nodes[p].valid, blk.producer);
    assert t.nodes == Grown(s, blk, p).nodes;
  }

  lemma RunGrows(ss: seq<State>, es: seq<Event>, blk: Head, p: Ptr) returns (tt: seq<State>, fs: seq<Event>)
    requires Run(ss, es) && AllDue(ss, es) && CanGrow(ss[|es|], blk, p)
    ensures Run(tt, fs) && AllDue(tt, fs) && ss[|es|].head in ss[|es|].nodes && tt[|fs|] == Grown(ss[|es|], blk, p)
  {
    var s := ss[|es|];
    RunInv(ss, es, |es|);
    ParentIsKnown(s, p);
    Grows(s, blk, p);
    RunMore(ss, es, Adding(blk), Added(s, blk));
    tt, fs := ss + [Added(s, blk)], es + [Adding(blk)];
    RunMore(tt, fs, Linking(s.next, None), Grown(s, blk, p));
    tt, fs := tt + [Grown(s, blk, p)], fs + [Linking(s.next, None)];
  }

  /** A run goes on by a step. */
  lemma RunMore(ss: seq<State>, es: seq<Event>, e: Event, t: State)
    requires Run(ss, es) && AllDue(ss, es) && Step(ss[|es|], e, t) && (e.Linking? ==> LinksDue(ss[|es|], e.n))
    ensures Run(ss + [t], es + [e]) && AllDue(ss + [t], es + [e])
  {
    forall i | 0 <= i < |es| + 1
      ensures StepAt(ss + [t], es + [e], i)
    {
      SameStep(ss, es, e, t, i);
    }
  }

  lemma SameStep(ss: seq<State>, es: seq<Event>, e: Event, t: State, i: nat)
    requires Run(ss, es) && Step(ss[|es|], e, t) && i <= |es|
    ensures StepAt(ss + [t], es + [e], i)
  {
    assert i < |es| ==> StepAt(ss, es, i);
  }

  lemma BlocksDue()
    ensures Due(A1, START, LIST) && Due(A2, A1, LIST) && Due(A3, A2, LIST)
    ensures Due(B1, START, LIST) && Due(B2, B1, LIST) && Due(B3, B2, LIST)
  {
  }

  /** The first branch: three blocks of one witness. */
  predicate AfterFirst(s: State) {
    && s.root == 0 && s.head == 4 && s.next == 5 && s.witnessNum == 4 && s.nodes.Keys == {0, 1, 2, 3, 4}
    && s.byHash.Keys == {HashOf(START), HashOf(A1), HashOf(A2), HashOf(A3)}
    && s.nodes[0].head == START && s.nodes[0].kind.Linked? && s.nodes[0].valid == []
    && s.nodes[0].active == s.nodes[0].pending == LIST && s.nodes[4].head == A3 && s.nodes[4].kind.Linked?
    && s.nodes[0].parent == None && s.nodes[2].parent == Some(0) && s.nodes[3].parent == Some(2)
    && s.nodes[4].parent == Some(3)
  }

  const FIRST := Grown(Grown(Grown(EMPTY, A1, 0), A2, 2), A3, 3)

  lemma FirstNodes()
    ensures AfterFirst(FIRST)
  {
  }

  lemma FirstBranch() returns (ss: seq<State>, es: seq<Event>)
    ensures Run(ss, es) && AllDue(ss, es) && ss[|es|] == FIRST
  {
    ss, es := [EMPTY], [];
    assert Init(EMPTY);
    BlocksDue();
    ss, es := RunGrows(ss, es, A1, 0);
    ss, es := RunGrows(ss, es, A2, 2);
    ss, es := RunGrows(ss, es, A3, 3);
  }

  /** The second branch: three blocks of the three others, as high but later. */
  predicate AfterSecond(s: State) {
    && s.root == 0 && s.head == 4 && s.witnessNum == 4 && {0, 2, 3, 4, 5, 6, 7} <= s.nodes.Keys
    && s.nodes[0].parent == None && s.nodes[2].parent == s.nodes[5].parent == Some(0)
    && s.nodes[3].parent == Some(2) && s.nodes[4].parent == Some(3)
    && s.nodes[6].parent == Some(5) && s.nodes[7].parent == Some(6)
    && s.nodes[4].kind.Linked? && s.nodes[7].kind.Linked? && |s.nodes[7].valid| == 3
    && s.nodes[7].active == s.nodes[0].pending && s.nodes[0].head == START && s.nodes[5].head == B1
    && s.nodes[6].head == B2 && s.nodes[7].head == B3
  }

  function Second(s: State): State
    requires AfterFirst(s)
  {
    Grown(Grown(Grown(s, B1, 0), B2, 5), B3, 6)
  }

  lemma SecondNodes(s: State)
    requires AfterFirst(s)
    ensures AfterSecond(Second(s))
  {
  }

  lemma SecondCanGrow(s: State)
    requires AfterFirst(s)
    ensures CanGrow(s, B1, 0) && CanGrow(Grown(s, B1, 0), B2, 5) && CanGrow(Grown(Grown(s, B1, 0), B2, 5), B3, 6)
  {
    BlocksDue();
  }

  lemma SecondBranch(ss: seq<State>, es: seq<Event>) returns (tt: seq<State>, fs: seq<Event>)
    requires Run(ss, es) && AllDue(ss, es) && AfterFirst(ss[|es|])
    ensures Run(tt, fs) && AllDue(tt, fs) && tt[|fs|] == Second(ss[|es|])
  {
    SecondCanGrow(ss[|es|]);
    tt, fs := RunGrows(ss, es, B1, 0);
    tt, fs := RunGrows(tt, fs, B2, 5);
    tt, fs := RunGrows(tt, fs, B3, 6);
  }

  lemma TwoBranches() returns (ss: seq<State>, es: seq<Event>)
    ensures Run(ss, es) && AllDue(ss, es) && AfterSecond(ss[|es|])
  {
    ss, es := FirstBranch();
    FirstNodes();
    SecondNodes(ss[|es|]);
    ss, es := SecondBranch(ss, es);
  }

  lemma NextIsB1(s: State)
    requires Forest(s.nodes, s.root) && AfterSecond(s)
    ensures CanFlush(s, 7) && NextBlock(s, 7) == 5
  {
    var n := s.nodes;
    assert ParentOk(n, 7) && ParentOk(n, 6);
    assert Ancestor(n, 5, 1) == 5;
    assert Ancestor(n, 6, 1) == Ancestor(n, 5, 1);
  }

  lemma HeadIsElsewhere(s: State)
    requires AfterSecond(s)
    ensures s.head == 4 && Live(s, 4) && !Below(s.nodes, 4, 5)
  {
    var n := s.nodes;
    assert !Below(n, 0, 5);
    assert !Below(n, 2, 5);
    assert !Below(n, 3, 5);
  }

  lemma CanFlushFlushes(s: State, node: Ptr) returns (t: State)
    requires Inv(s) && CanFlush(s, node)
    ensures Step(s, Flushing(node), t)
  {
    NextBlockOk(s, node);
    FlushedInv(s, NextBlock(s, node));
    t := FlushedTree(s, NextBlock(s, node));
    HeadChosen(t);
  }

  lemma HeadChosen(s: State)
    requires Inv(s)
    ensures Longest(s, s.head)
  {
  }

  lemma RunFlushes(ss: seq<State>, es: seq<Event>, node: Ptr) returns (t: State)
    requires Run(ss, es) && AllDue(ss, es) && CanFlush(ss[|es|], node)
    ensures Run(ss + [t], es + [Flushing(node)]) && AllDue(ss + [t], es + [Flushing(node)])
  {
    RunInv(ss, es, |es|);
    t := CanFlushFlushes(ss[|es|], node);
    RunMore(ss, es, Flushing(node), t);
  }

  /** Confirming the second branch leaves the cache with a head that is not in the tree, in a run of blocks that are
      each made by the witness scheduled for their time. */
  lemma HeadIsLost() returns (ss: seq<State>, es: seq<Event>)
    ensures Run(ss, es) && AllDue(ss, es) && |es| > 0 && es[|es| - 1] == Flushing(7)
    ensures Live(ss[|es| - 1], ss[|es| - 1].head) && !Live(ss[|es|], ss[|es|].head)
  {
    ss, es := TwoBranches();
    var n := |es|;
    RunInv(ss, es, n);
    NextIsB1(ss[n]);
    HeadIsElsewhere(ss[n]);
    var t := RunFlushes(ss, es, 7);
    ss, es := ss + [t], es + [Flushing(7)];
    HeadOverRuns(ss, es, n);
  }
}
