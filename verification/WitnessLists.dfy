/** What the witness lists and the votes hold over every run: the root's witnesses, the pending lists, the votes. */
module WitnessLists {
  import opened Basics
  import opened Blocks
  import opened BlockTree
  import opened BlockCacheState
  import opened BlockCacheSteps
  import opened BlockCacheAdd
  import opened Finality
  import opened BlockCache

  // ----- The root's witnesses -----

  /** The list the root waits for. */
  function RootList(s: State): seq<string> {
    if s.root in s.nodes then s.nodes[s.root].pending else []
  }

  /** The producer of the block pushed last. */
  function LastProducer(s: State): string {
    if s.chain == [] then "" else s.chain[|s.chain| - 1].producer
  }

  /** The `i`-th step flushes a block whose pending list is not the old root's. */
  predicate ListChanges(ss: seq<State>, es: seq<Event>, i: nat)
    requires |ss| == |es| + 1 && i < |es|
  {
    es[i].Flushing? && RootList(ss[i]) != RootList(ss[i + 1])
  }

  /** The last step before `j` that changes the list, or the start. */
  function Since(ss: seq<State>, es: seq<Event>, j: nat): (k: nat)
    requires |ss| == |es| + 1 && j <= |es|
    ensures k <= j && (k == 0 || (k < j && ListChanges(ss, es, k)))
    ensures forall i :: k < i < j ==> !ListChanges(ss, es, i)
  {
    if j == 0 then 0
    else if ListChanges(ss, es, j - 1) then j - 1
    else Since(ss, es, j - 1)
  }

  /** The producers of the blocks that the steps from `k` up to `j` flushed. */
  function Flushed(ss: seq<State>, es: seq<Event>, k: nat, j: nat): set<string>
    requires |ss| == |es| + 1 && j <= |es|
  {
    set i | k <= i < j && es[i].Flushing? :: LastProducer(ss[i + 1])
  }

  lemma FlushWitness(s: State, t: State, node: Ptr)
    requires Inv(s) && FlushStep(s, t, node)
    ensures t.rootWitness == AddVote(if RootList(s) == RootList(t) then s.rootWitness else [], LastProducer(t))
  {
    var b := NextBlock(s, node);
    NextBlockOk(s, node);
    FlushedLists(s, b, b);
    FlushedLists(s, b, s.root);
    FlushedWitness(s, b);
  }

  /** A flush leaves the lists of every node alone. */
  lemma FlushedLists(s: State, b: Ptr, x: Ptr)
    requires s.root in s.nodes && b in s.nodes && s.single in s.nodes && x in s.nodes
    ensures x in FlushedTree(s, b).nodes
    ensures FlushedTree(s, b).nodes[x].pending == s.nodes[x].pending
    ensures FlushedTree(s, b).nodes[x].active == s.nodes[x].active
  {
    var a := Dropped(s, Pruned(s, b));
    assert a.nodes[x].pending == s.nodes[x].pending && a.nodes[x].active == s.nodes[x].active;
    var p := Promoted(a, b);
    assert p.nodes[x].pending == a.nodes[x].pending && p.nodes[x].active == a.nodes[x].active;
  }

  lemma FlushedWitness(s: State, b: Ptr)
    requires s.root in s.nodes && b in s.nodes && s.single in s.nodes
    ensures var f := FlushedTree(s, b);
            && f.root == b && f.chain == s.chain + [s.nodes[b].head]
            && f.rootWitness == AddVote(if s.nodes[s.root].pending == s.nodes[b].pending then s.rootWitness else [],
                                        s.nodes[b].head.producer)
  {
    var a := Dropped(s, Pruned(s, b));
    assert a.nodes[b].pending == s.nodes[b].pending && a.nodes[s.root].pending == s.nodes[s.root].pending;
  }

  lemma OtherWitness(s: State, e: Event, t: State)
    requires Step(s, e, t) && !e.Flushing?
    ensures t.rootWitness == s.rootWitness
  {
  }

  /** Over every run: the root's witnesses are, without repeats, exactly the producers of the blocks flushed since the
      pending list last changed, the block that changed it included. */
  lemma {:induction false} RootWitnessIs(ss: seq<State>, es: seq<Event>, j: nat)
    requires Run(ss, es) && j < |ss|
    ensures NoDuplicates(ss[j].rootWitness)
    ensures Elements(ss[j].rootWitness) == Flushed(ss, es, Since(ss, es, j), j) - {""}
  {
    if j == 0 {
      NoWitnessYet(ss, es);
    } else {
      RootWitnessIs(ss, es, j - 1);
      WitnessStep(ss, es, j - 1);
      WitnessNext(ss, es, j);
    }
  }

  lemma WitnessNext(ss: seq<State>, es: seq<Event>, j: nat)
    requires |ss| == |es| + 1 && 0 < j <= |es|
    requires var was := ss[j - 1].rootWitness;
             && NoDuplicates(was) && Elements(was) == Flushed(ss, es, Since(ss, es, j - 1), j - 1) - {""}
             && ss[j].rootWitness == if es[j - 1].Flushing?
                                     then AddVote(if ListChanges(ss, es, j - 1) then [] else was, LastProducer(ss[j]))
                                     else was
    ensures NoDuplicates(ss[j].rootWitness)
    ensures Elements(ss[j].rootWitness) == Flushed(ss, es, Since(ss, es, j), j) - {""}
  {
    FlushedMore(ss, es, j);
    WitnessGrows(ss[j - 1].rootWitness, Flushed(ss, es, Since(ss, es, j - 1), j - 1), es[j - 1].Flushing?,
                 ListChanges(ss, es, j - 1), LastProducer(ss[j]));
  }

  lemma NoWitnessYet(ss: seq<State>, es: seq<Event>)
    requires Run(ss, es)
    ensures ss[0].rootWitness == [] && Flushed(ss, es, Since(ss, es, 0), 0) == {}
  {
  }

  lemma WitnessGrows(votes: seq<string>, before: set<string>, flushed: bool, changed: bool, w: string)
    requires NoDuplicates(votes) && Elements(votes) == before - {""} && (changed ==> flushed)
    ensures var now := if flushed then AddVote(if changed then [] else votes, w) else votes;
            && NoDuplicates(now)
            && Elements(now) == (if changed then {} else before) + (if flushed then {w} else {}) - {""}
  {
    OneMoreVote(if changed then [] else votes, w);
  }

  lemma WitnessStep(ss: seq<State>, es: seq<Event>, i: nat)
    requires Run(ss, es) && i < |es|
    ensures ss[i + 1].rootWitness ==
            if es[i].Flushing?
            then AddVote(if ListChanges(ss, es, i) then [] else ss[i].rootWitness, LastProducer(ss[i + 1]))
            else ss[i].rootWitness
  {
    RunInv(ss, es, i);
    assert StepAt(ss, es, i);
    if es[i].Flushing? {
      FlushWitness(ss[i], ss[i + 1], es[i].node);
    } else {
      OtherWitness(ss[i], es[i], ss[i + 1]);
    }
  }

  lemma OneMoreVote(votes: seq<string>, w: string)
    requires NoDuplicates(votes)
    ensures NoDuplicates(AddVote(votes, w))
    ensures Elements(AddVote(votes, w)) == Elements(votes) + ({w} - {""})
  {
    assert Elements(votes + [w]) == Elements(votes) + {w};
  }

  lemma FlushedMore(ss: seq<State>, es: seq<Event>, j: nat)
    requires |ss| == |es| + 1 && 0 < j <= |es|
    ensures var before := if ListChanges(ss, es, j - 1) then {} else Flushed(ss, es, Since(ss, es, j - 1), j - 1);
            Flushed(ss, es, Since(ss, es, j), j) ==
            before + if es[j - 1].Flushing? then {LastProducer(ss[j])} else {}
  {
  }

  // ----- The switch to the pending list -----

  lemma {:induction false} NewVotesCount(votes: seq<string>, rootWitness: seq<string>)
    requires NoDuplicates(votes) && NoDuplicates(rootWitness)
    ensures |rootWitness| + NewVotes(votes, rootWitness) == |Elements(rootWitness) + Elements(votes)|
  {
    if votes == [] {
      NoDuplicatesCount(rootWitness);
      assert Elements(rootWitness) + Elements(votes) == Elements(rootWitness);
    } else {
      var last := |votes| - 1;
      NewVotesCount(votes[..last], rootWitness);
      var before := Elements(rootWitness) + Elements(votes[..last]);
      assert Elements(votes) == Elements(votes[..last]) + {votes[last]};
      assert Elements(rootWitness) + Elements(votes) == before + {votes[last]};
      assert votes[last] !in Elements(votes[..last]);
    }
  }

  /** Over every run, when `UpdateLib` moves a node to the list the root waits for: if it had enough votes and flushing
      got to a root that waits for another list, or if it lives under another list, has votes, and these and the
      producers flushed since the list changed together reach the limit. */
  lemma SwitchIff(ss: seq<State>, es: seq<Event>, j: nat, t: State, node: Ptr)
    requires Run(ss, es) && j < |ss| && Live(ss[j], node) && node in t.nodes && t.root in t.nodes
    ensures var s := ss[j];
            var votes := s.nodes[node].valid;
            SwitchesActive(s, t, node) <==>
            if |votes| >= ConfirmLimit(s.witnessNum) then t.nodes[node].active != RootList(t)
            else && s.nodes[node].active != RootList(s) && votes != []
                 && |(Flushed(ss, es, Since(ss, es, j), j) - {""}) + Elements(votes)| >= ConfirmLimit(s.witnessNum)
  {
    RunInv(ss, es, j);
    RootWitnessIs(ss, es, j);
    assert VotesOk(ss[j], node);
    NewVotesCount(ss[j].nodes[node].valid, ss[j].rootWitness);
  }

  // ----- The pending and active lists -----

  /** The `i`-th step links `x`. */
  predicate LinksNode(ss: seq<State>, es: seq<Event>, i: nat, x: Ptr)
    requires |ss| == |es| + 1 && i < |es|
  {
    es[i].Linking? && es[i].n == x && LinkedNode(ss[i + 1], x) && !LinkedNode(ss[i], x)
  }

  function ParentIn(s: State, x: Ptr): Ptr {
    if x in s.nodes && s.nodes[x].parent.Some? then s.nodes[x].parent.value else x
  }

  /** The list read when `x`, if at a vote interval, or else its last ancestor there was linked; the start's if there
      is none. */
  function ListRead(ss: seq<State>, es: seq<Event>, j: nat, x: Ptr): Option<seq<string>>
    requires |ss| == |es| + 1 && j <= |es|
  {
    if j == 0 then if x == ss[0].root then Some(RootList(ss[0])) else None
    else if !LinksNode(ss, es, j - 1, x) then ListRead(ss, es, j - 1, x)
    else if Number(ss[j], x) % 1200 == 0 && es[j - 1].update.Some? then es[j - 1].update
    else ListRead(ss, es, j - 1, ParentIn(ss[j - 1], x))
  }

  /** The list the root waited for when `x` was last activated; before that, its parent's when it was linked. */
  function ListActive(ss: seq<State>, es: seq<Event>, j: nat, x: Ptr): Option<seq<string>>
    requires |ss| == |es| + 1 && j <= |es|
  {
    if j == 0 then if x == ss[0].root then Some(RootList(ss[0])) else None
    else if es[j - 1] == Activating(x) then Some(RootList(ss[j - 1]))
    else if LinksNode(ss, es, j - 1, x) then ListActive(ss, es, j - 1, ParentIn(ss[j - 1], x))
    else ListActive(ss, es, j - 1, x)
  }

  /** What one step does to the lists of a node. */
  predicate ListsMove(s: State, e: Event, t: State, x: Ptr) {
    && (LinkedNode(s, x) ==>
          && LinkedNode(t, x) && t.nodes[x].pending == s.nodes[x].pending
          && t.nodes[x].active == if e == Activating(x) then RootList(s) else s.nodes[x].active)
    && (LinkedNode(t, x) && !LinkedNode(s, x) ==>
          && e.Linking? && e.n == x && LinkedNode(s, ParentIn(s, x))
          && t.nodes[x].active == s.nodes[ParentIn(s, x)].active
          && t.nodes[x].pending == if Number(t, x) % VOTE_INTERVAL == 0 && e.update.Some? then e.update.value
                                   else s.nodes[ParentIn(s, x)].pending)
  }

  lemma ListsMoveAt(s: State, e: Event, t: State, x: Ptr)
    requires Inv(s) && Step(s, e, t)
    ensures ListsMove(s, e, t, x)
  {
    match e
    case Adding(blk) => AddedLinked(s, blk, x);
    case Flushing(node) => FlushingLists(s, t, node, x);
    case Linking(n, update) => LinkingLists(s, n, update, x);
    case Deleting(n) => DeletingLists(s, n, t, x);
    case _ =>
  }

  lemma FlushingLists(s: State, t: State, node: Ptr, x: Ptr)
    requires FlushStep(s, t, node)
    ensures ListsMove(s, Flushing(node), t, x)
  {
    FlushedKeepsBlock(s, NextBlock(s, node), x);
    if LinkedNode(s, x) {
      FlushedLists(s, NextBlock(s, node), x);
    }
  }

  lemma DeletingLists(s: State, n: Ptr, t: State, x: Ptr)
    requires t.nodes == Cut(s.nodes, Subtree(s.nodes, n))
    ensures ListsMove(s, Deleting(n), t, x)
  {
  }

  lemma LinkingLists(s: State, n: Ptr, update: Option<seq<string>>, x: Ptr)
    requires Verified(s, n) && s.head in s.nodes
    ensures ListsMove(s, Linking(n, update), LinkedAt(s, n, update), x)
  {
  }

  lemma RunListsMove(ss: seq<State>, es: seq<Event>, i: nat, x: Ptr)
    requires Run(ss, es) && i < |es|
    ensures ListsMove(ss[i], es[i], ss[i + 1], x)
  {
    RunInv(ss, es, i);
    assert StepAt(ss, es, i);
    ListsMoveAt(ss[i], es[i], ss[i + 1], x);
  }

  /** Over every run: the pending list of a linked node is the one read last on the way to it, its active list the one
      it was last moved to. */
  lemma {:induction false} ListsAre(ss: seq<State>, es: seq<Event>, j: nat, x: Ptr)
    requires Run(ss, es) && j < |ss| && LinkedNode(ss[j], x)
    ensures ListRead(ss, es, j, x) == Some(ss[j].nodes[x].pending)
    ensures ListActive(ss, es, j, x) == Some(ss[j].nodes[x].active)
  {
    if j == 0 {
      assert Init(ss[0]);
    } else {
      RunListsMove(ss, es, j - 1, x);
      if LinkedNode(ss[j - 1], x) {
        ListsAre(ss, es, j - 1, x);
      } else {
        ListsAre(ss, es, j - 1, ParentIn(ss[j - 1], x));
      }
    }
  }
}
