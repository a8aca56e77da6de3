/** The block cache itself: the object whose methods change the forest, the indexes and the root step by
    step.  Each method is proved to do what the state machine's step says. */
module BlockCache {
  import opened Basics
  import opened Blocks
  import opened BlockTree
  import opened BlockCacheState
  import opened BlockCacheSteps
  import opened BlockCacheAdd
  import opened BlockCacheQuery
  import opened BlockCachePruning
  import opened Finality

  class BlockCacheImpl {
    var nodes: Nodes
    var next: Ptr
    var root: Ptr
    var single: Ptr
    var head: Ptr
    var byHash: map<Hash, Ptr>
    var byNumber: map<int, Ptr>
    var leaf: map<Ptr, int>
    var rootWitness: seq<string>
    var witnessNum: nat
    var chain: seq<Head>

    function St(): State
      reads this
    {
      State(nodes, next, root, single, head, byHash, byNumber, leaf, rootWitness, witnessNum, chain)
    }

    ghost predicate Valid()
      reads this
    {
      root in nodes && single in nodes && head in nodes && Sealed(St())
    }

    /** `pushed` is the stored chain, whose last block becomes the root; `pending` is the witness list read
        from the state database for it. */
    constructor (pushed: seq<Head>, pending: seq<string>)
      requires |pushed| > 0 && forall i :: 0 <= i < |pushed| - 1 ==> Extends(pushed[i], pushed[i + 1])
      ensures Init(St()) && Valid() && chain == pushed && nodes[root].pending == pending
    {
      var lib := pushed[|pushed| - 1];
      var rootNode := Node(Some(HashOf(lib)), lib, None, {}, Linked, [], pending, pending);
      var singleNode := Node(None, Head(NO_HASH, -1, "", 0, 0), None, {}, Virtual, [], [], []);
      nodes := map[0 := rootNode, 1 := singleNode];
      root, single, head, next := 0, 1, 0, 2;
      byHash, byNumber, leaf := map[HashOf(lib) := 0], map[], map[0 := lib.number];
      rootWitness, witnessNum, chain := [], |pending|, pushed;
      new;
      assert Init(St());
      InitInv(St());
      Unsealed(St());
    }

    // ----- Add -----

    /** Finds the node of the block's parent, making a virtual one under the single root if it is unknown. */
    method EnterParent(blk: Head) returns (parent: Ptr)
      requires single in nodes && next != single
      modifies this`nodes, this`next, this`byHash
      ensures St() == ParentEntered(old(St()), blk) && blk.parentHash in byHash && parent == byHash[blk.parentHash]
    {
      if blk.parentHash in byHash {
        return byHash[blk.parentHash];
      }
      parent := next;
      nodes := nodes[parent := Node(Some(blk.parentHash), Head(NO_HASH, blk.number - 1, "", 0, 0), Some(single), {},
                                    Virtual, [], [], [])];
      nodes := nodes[single := nodes[single].(children := nodes[single].children + {parent})];
      byHash := byHash[blk.parentHash := parent];
      next := next + 1;
    }

    /** Attaches the block's node, which was virtual or is new, below `parent`. */
    method Place(blk: Head, parent: Ptr) returns (x: Ptr)
      requires single in nodes && blk.parentHash in byHash && parent == byHash[blk.parentHash] && parent in nodes
      requires HashOf(blk) in byHash ==> byHash[HashOf(blk)] in nodes
      modifies this`nodes, this`next, this`byHash
      ensures St() == Placed(old(St()), blk) && x == AddressOf(old(St()), blk)
    {
      if HashOf(blk) in byHash {
        x := byHash[HashOf(blk)];
        nodes := nodes[single := nodes[single].(children := nodes[single].children - {x})];
        nodes := nodes[x := nodes[x].(head := blk, parent := Some(parent), kind := Single)];
      } else {
        x := next;
        nodes := nodes[x := Node(Some(HashOf(blk)), blk, Some(parent), {}, Single, [], [], [])];
        next := next + 1;
        byHash := byHash[HashOf(blk) := x];
      }
      nodes := nodes[parent := nodes[parent].(children := nodes[parent].children + {x})];
    }

    method Add(blk: Head) returns (r: Option<Ptr>)
      requires Valid()
      modifies this`nodes, this`next, this`byHash
      ensures ReadyToAdd(old(St())) && St() == Added(old(St()), blk) && r == AddResult(old(St()), blk)
      ensures Valid()
    {
      AddSealed(St(), blk);
      AddReady(St(), blk);
      if nodes[root].head.number >= blk.number {
        return None;
      }
      if HashOf(blk) in byHash && !nodes[byHash[HashOf(blk)]].kind.Virtual? {
        return Some(byHash[HashOf(blk)]);
      }
      var parent := EnterParent(blk);
      var x := Place(blk, parent);
      r := Some(x);
    }

    // ----- Link -----

    /** The node's own producer votes after those its parent counted, once. */
    method UpdateValidWitness(n: Ptr, p: Ptr)
      requires n in nodes && p in nodes
      modifies this`nodes
      ensures nodes == old(nodes)[n := old(nodes)[n].(
                valid := old(nodes)[n].valid + AddVote(old(nodes)[p].valid, old(nodes)[n].head.producer))]
    {
      var producer := nodes[n].head.producer;
      var votes := nodes[p].valid;
      var own := nodes[n].valid;
      for i := 0 to |votes|
        invariant nodes == old(nodes)
        invariant own == nodes[n].valid + votes[..i]
        invariant producer == if nodes[n].head.producer in votes[..i] then "" else nodes[n].head.producer
      {
        own := own + [votes[i]];
        if votes[i] == producer {
          producer := "";
        }
      }
      assert votes[..|votes|] == votes;
      if producer != "" {
        own := own + [producer];
      }
      assert own == nodes[n].valid + AddVote(votes, nodes[n].head.producer);
      nodes := nodes[n := nodes[n].(valid := own)];
    }

    method LinkNode(n: Ptr, update: Option<seq<string>>)
      requires Verified(St(), n) && head in nodes && nodes[n].parent != Some(n)
      modifies this`nodes, this`leaf, this`head
      ensures St() == LinkedAt(old(St()), n, update)
    {
      var p := nodes[n].parent.value;
      if !nodes[p].kind.Linked? {
        return;
      }
      nodes := nodes[n := nodes[n].(kind := Linked)];
      leaf := leaf - {p};
      leaf := leaf[n := nodes[n].head.number];
      UpdateValidWitness(n, p);
      nodes := nodes[n := nodes[n].(active := nodes[p].active, pending := nodes[p].pending)];
      if nodes[n].head.number % VOTE_INTERVAL == 0 && update.Some? {
        nodes := nodes[n := nodes[n].(pending := update.value)];
      }
      if Better(nodes, n, head) {
        head := n;
      }
    }

    method Link(n: Ptr, update: Option<seq<string>>)
      requires Valid() && Verified(St(), n)
      modifies this`nodes, this`leaf, this`head
      ensures St() == LinkedAt(old(St()), n, update)
      ensures Valid()
    {
      LinkSealed(St(), n, update);
      LinkNode(n, update);
    }

    // ----- Deleting -----

    method DelNode(n: Ptr)
      requires n in nodes && (nodes[n].parent.Some? ==> nodes[n].parent.value in nodes)
      modifies this`nodes, this`byHash, this`leaf
      ensures St() == NodeRemoved(old(St()), n)
    {
      var hash := HeadHash(nodes[n]);
      if nodes[n].parent.Some? {
        var p := nodes[n].parent.value;
        nodes := nodes[p := nodes[p].(children := nodes[p].children - {n})];
        nodes := nodes[n := nodes[n].(parent := None)];
      }
      byHash := byHash - {hash};
      leaf := leaf - {n};
    }

    /** Deletes the whole subtree, children first, in whatever order the children come. */
    method DeleteTree(n: Ptr)
      requires Forest(nodes, root) && root in nodes && nodes[root].parent.None?
      requires n in nodes && nodes[n].parent.Some? && nodes[n].parent.value in nodes
      modifies this`nodes, this`byHash, this`leaf
      ensures St() == DeletedAt(old(St()), n)
      decreases Subtree(nodes, n)
    {
      ghost var s := St();
      ghost var done: set<Ptr> := {};
      DeletingBegins(s, n);
      while nodes[n].children != {}
        invariant s == old(St())
        invariant St() == s.(nodes := nodes, byHash := byHash, leaf := leaf)
        invariant PartlyDeleted(s, n, done, St())
        invariant nodes[n].children == s.nodes[n].children - done
        decreases nodes[n].children
      {
        var c :| c in nodes[n].children;
        DeletingReady(s, n, done, St(), c);
        DeletingGoesOn(s, n, done, St(), c);
        DeleteTree(c);
        done := done + {c};
        DeletingShrinks(s, n, done, St());
      }
      assert done == s.nodes[n].children;
      DeletingEnds(s, n, St());
      var p := nodes[n].parent.value;
      if nodes[p].children == {n} && nodes[p].kind.Linked? {
        leaf := leaf[p := nodes[p].head.number];
      }
      DelNode(n);
    }

    /** If the head's hash is gone, the best leaf takes over, provided it beats the old head. */
    method UpdateLongest()
      requires head in nodes && forall x :: x in leaf ==> x in nodes
      modifies this`head
      ensures Longest(old(St()), head)
    {
      if HeadHash(nodes[head]) in byHash {
        return;
      }
      var todo := leaf.Keys;
      while todo != {}
        invariant todo <= leaf.Keys && head in nodes
        invariant head == old(head) || (head in leaf && Better(nodes, head, old(head)))
        invariant forall x :: x in leaf && x !in todo ==> !Better(nodes, x, head)
        decreases todo
      {
        var x :| x in todo;
        if Better(nodes, x, head) {
          head := x;
        }
        todo := todo - {x};
      }
    }

    method Del(n: Ptr)
      requires Valid() && n in nodes && nodes[n].parent.Some?
      modifies this
      ensures ParentOk(old(nodes), n) && Longest(DeletedAt(old(St()), n), head)
      ensures St() == DeletedAt(old(St()), n).(head := head)
      ensures Valid() && head == old(head)
    {
      ghost var s := St();
      DeleteReady(s, n);
      DeleteTree(n);
      UpdateLongest();
      DeleteSealed(s, n, head);
    }

    // ----- Flushing -----

    /** Withdraws the vote of `b`'s producer below `x`, stopping at blocks by the same producer. */
    method RemoveValidWitness(x: Ptr, b: Ptr)
      requires Forest(nodes, root) && x in nodes && b in nodes && nodes[x].parent.Some?
      modifies this`nodes
      ensures nodes == Withdrawn(old(nodes), ReachedFrom(old(nodes), x, b), b)
      decreases Subtree(nodes, x), 1
    {
      ReachedSplit(nodes, root, x, b);
      if x != b && nodes[x].head.producer == nodes[b].head.producer {
        return;
      }
      RemoveFromChildren(x, b);
    }

    method RemoveFromChildren(x: Ptr, b: Ptr)
      requires Forest(nodes, root) && x in nodes && b in nodes && nodes[x].parent.Some?
      modifies this`nodes
      ensures nodes == Withdrawn(old(nodes), {x} + ReachedAll(old(nodes), old(nodes)[x].children, b), b)
      decreases Subtree(nodes, x), 0
    {
      ghost var before := nodes;
      nodes := nodes[x := nodes[x].(valid := Without(nodes[x].valid, nodes[b].head.producer))];
      var todo := nodes[x].children;
      ghost var done: set<Ptr> := {};
      WithdrawalBegins(before, x, b, nodes);
      while todo != {}
        invariant before == old(nodes)
        invariant todo + done == before[x].children && todo !! done
        invariant PartlyWithdrawn(before, x, b, done, nodes)
        decreases todo
      {
        var c :| c in todo;
        WithdrawalGoesOn(before, root, x, b, done, c, nodes);
        RemoveValidWitness(c, b);
        todo, done := todo - {c}, done + {c};
      }
      assert done == before[x].children;
    }

    /** Deletes every branch off the root but `b`'s. */
    method PruneSiblings(b: Ptr)
      requires ShapeOk(St()) && Live(St(), b) && nodes[b].parent == Some(root)
      modifies this`nodes, this`byHash, this`leaf
      ensures St() == Dropped(old(St()), Pruned(old(St()), b))
    {
      ghost var s := St();
      var todo := nodes[root].children - {b};
      ghost var done: set<Ptr> := {};
      DropNothing(s);
      while todo != {}
        invariant s == old(St())
        invariant todo + done == s.nodes[root].children - {b} && todo !! done
        invariant St() == Dropped(s, Subtrees(s.nodes, done))
        decreases todo
      {
        var c :| c in todo;
        SiblingReady(s, b, done, c);
        DropMore(s, done, c);
        assert LeavesAbove(St(), c) == leaf;
        DeleteTree(c);
        todo, done := todo - {c}, done + {c};
      }
      assert done == s.nodes[root].children - {b};
    }

    /** Every tenth block, deletes the virtual nodes that are not above the root. */
    method DelSingle()
      requires ShapeOk(St())
      modifies this`nodes, this`byHash, this`leaf
      ensures St() == Dropped(old(St()), Subtrees(old(nodes), StaleSingles(old(St()))))
    {
      ghost var s := St();
      DropNothing(s);
      if nodes[root].head.number % DEL_SINGLE_BLOCK_TIME != 0 {
        return;
      }
      var height := nodes[root].head.number;
      var todo := nodes[single].children;
      ghost var done: set<Ptr> := {};
      while todo != {}
        invariant s == old(St())
        invariant todo <= s.nodes[single].children
        invariant forall v :: v in s.nodes[single].children && v !in todo ==>
                    (v in done <==> v in StaleSingles(s))
        invariant done <= StaleSingles(s) - todo
        invariant St() == Dropped(s, Subtrees(s.nodes, done))
        decreases todo
      {
        var c :| c in todo;
        assert ChildOk(s.nodes, s.root, s.single, c);
        StaleReady(s, done, c);
        if nodes[c].head.number <= height {
          DropMore(s, done, c);
          assert LeavesAbove(St(), c) == leaf;
          DeleteTree(c);
          done := done + {c};
        }
        todo := todo - {c};
      }
      assert done == StaleSingles(s);
    }

    /** Retires the root, puts `b` in its place and pushes `b`'s block. */
    method Install(b: Ptr)
      requires root in nodes && b in nodes && nodes[root].parent.None?
      modifies this`nodes, this`byHash, this`leaf, this`byNumber, this`rootWitness, this`root, this`chain
      ensures St() == Installed(old(St()), b)
      ensures byNumber == old(byNumber) - {old(nodes[root].head.number)}
    {
      var parent := root;
      if nodes[parent].pending != nodes[b].pending {
        rootWitness := [];
      }
      if nodes[b].head.producer != "" && nodes[b].head.producer !in rootWitness {
        rootWitness := rootWitness + [nodes[b].head.producer];
      }
      byNumber := byNumber - {nodes[parent].head.number};
      DelNode(parent);
      chain := chain + [nodes[b].head];
      nodes := nodes[b := nodes[b].(parent := None)];
      root := b;
    }

    method Advance(b: Ptr)
      requires ShapeOk(St()) && Live(St(), b) && nodes[b].parent == Some(root)
      requires var a := Dropped(St(), Pruned(St(), b));
               Forest(a.nodes, a.root) && a.nodes[a.root].parent.None? && a.nodes[b].parent.Some?
      modifies this`nodes, this`byHash, this`leaf, this`byNumber, this`rootWitness, this`root, this`chain
      ensures St() == Advanced(old(St()), b)
    {
      PruneSiblings(b);
      ghost var a := St();
      RemoveValidWitness(b, b);
      assert St() == a.(nodes := Unvoted(a.nodes, b));
      Install(b);
    }

    /** The changes of a flush to the forest and its indexes; the head is left alone. */
    method Reroot(b: Ptr)
      requires ShapeOk(St()) && Live(St(), b) && nodes[b].parent == Some(root) && FlushShape(St(), b)
      modifies this
      ensures St() == FlushedTree(old(St()), b)
    {
      Advance(b);
      DelSingle();
    }

    /** Makes the root's child `b` the new root: prunes its siblings, withdraws its vote, pushes its block. */
    method Flush(b: Ptr)
      requires Valid() && Live(St(), b) && nodes[b].parent == Some(root)
      modifies this
      ensures FlushesTo(old(St()), b, St())
      ensures Valid() && head == old(head)
    {
      ghost var s := St();
      FlushReady(s, b);
      Reroot(b);
      UpdateLongest();
      FlushSealed(s, b, St());
    }

    // ----- UpdateLib -----

    /** Flushes the next block towards `node`. */
    method FlushNext(node: Ptr, blockList: map<int, Ptr>, ghost run: seq<State>) returns (ghost more: seq<State>)
      requires Valid() && CanFlush(St(), node) && OnPath(St(), node, blockList)
      requires LibRun(run, node) && run[|run| - 1] == St()
      modifies this
      ensures Valid() && Live(St(), node) && OnPath(St(), node, blockList)
      ensures nodes[root].head.number + 1 in blockList <==> node != root
      ensures LibRun(more, node) && more[0] == run[0] && more[|more| - 1] == St()
      ensures Distance(St(), node) < Distance(old(St()), node)
    {
      ghost var s := St();
      NextListed(s, node, blockList);
      var b := blockList[nodes[root].head.number + 1];
      Flush(b);
      more := FlushProgress(s, St(), node, b, blockList, run);
    }

    /** Flushes block after block towards `node` as long as the confirmation rule holds there. */
    method FlushConfirmed(node: Ptr) returns (ghost run: seq<State>)
      requires Valid() && Live(St(), node) && node != root
      modifies this
      ensures Valid() && Live(St(), node)
      ensures LibRun(run, node) && run[0] == old(St()) && run[|run| - 1] == St()
      ensures !CanFlush(St(), node)
    {
      run := [St()];
      if nodes[node].active != nodes[root].pending {
        return;
      }
      var blockList := PathTo(node);
      while |nodes[node].valid| >= ConfirmLimit(witnessNum) && nodes[node].active == nodes[root].pending
            && nodes[root].head.number + 1 in blockList
        invariant Valid() && Live(St(), node) && OnPath(St(), node, blockList)
        invariant nodes[root].head.number + 1 in blockList <==> node != root
        invariant LibRun(run, node) && run[0] == old(St()) && run[|run| - 1] == St()
        decreases Distance(St(), node)
      {
        run := FlushNext(node, blockList, run);
      }
    }

    /** The blocks after the root up to `node`, by number. */
    method PathTo(node: Ptr) returns (blockList: map<int, Ptr>)
      requires Valid() && Live(St(), node) && node != root
      ensures OnPath(St(), node, blockList)
      ensures nodes[root].head.number + 1 in blockList <==> node != root
    {
      blockList := map[nodes[node].head.number := node];
      StepUp(St(), node, node);
      var it := nodes[node].parent.value;
      ListedFirst(nodes, node);
      while it != root
        invariant Live(St(), it) && it == Ancestor(nodes, node, Number(St(), it))
        invariant Number(St(), it) < Number(St(), node)
        invariant ListedAbove(nodes, node, blockList, Number(St(), it))
        decreases Level(nodes[it])
      {
        StepUp(St(), node, it);
        ListedMore(nodes, node, blockList, nodes[it].head.number);
        blockList := blockList[nodes[it].head.number := it];
        it := nodes[it].parent.value;
      }
      PathEnds(St(), node, blockList);
    }

    /** Whether the votes at the node and those already at the root together reach the limit. */
    method CheckUpdateActive(node: Ptr, confirmLimit: nat) returns (r: bool)
      requires node in nodes
      ensures r <==> |nodes[node].valid| > 0
                     && |rootWitness| + NewVotes(nodes[node].valid, rootWitness) >= confirmLimit
    {
      var votes := nodes[node].valid;
      var cnt := |rootWitness|;
      for i := 0 to |votes|
        invariant cnt == |rootWitness| + NewVotes(votes[..i], rootWitness)
        invariant i > 0 ==> cnt < confirmLimit
      {
        var inc := true;
        var j := 0;
        while j < |rootWitness| && inc
          invariant 0 <= j <= |rootWitness|
          invariant inc <==> votes[i] !in rootWitness[..j]
        {
          if rootWitness[j] == votes[i] {
            inc := false;
          }
          j := j + 1;
        }
        assert inc <==> votes[i] !in rootWitness by { assert inc ==> rootWitness[..j] == rootWitness; }
        assert votes[..i + 1][..i] == votes[..i];
        if inc {
          cnt := cnt + 1;
        }
        if cnt >= confirmLimit {
          NewVotesGrow(votes, rootWitness, i + 1);
          return true;
        }
      }
      assert votes[..|votes|] == votes;
      return false;
    }

    /** Moves the node to the root's pending list, keeping only the votes of witnesses on that list. */
    method UpdateActive(node: Ptr)
      requires node in nodes && root in nodes
      modifies this`nodes
      ensures St() == Activated(old(St()), node)
    {
      var votes, pending := nodes[node].valid, nodes[root].pending;
      var kept: seq<string> := [];
      for i := 0 to |votes|
        invariant kept == Kept(votes[..i], pending)
      {
        var j := 0;
        while j < |pending| && votes[i] != pending[j]
          invariant 0 <= j <= |pending| && votes[i] !in pending[..j]
        {
          j := j + 1;
        }
        assert votes[..i + 1][..i] == votes[..i];
        assert votes[i] in pending <==> j < |pending| by {
          assert j == |pending| ==> pending[..j] == pending;
        }
        if j < |pending| {
          kept := kept + [votes[i]];
        }
      }
      assert votes[..|votes|] == votes;
      nodes := nodes[node := nodes[node].(valid := kept, active := pending)];
    }

    /** After a node was linked: flush what it confirms, then move it to the root's pending list if the
        root waits for another list and enough witnesses stand behind the switch. */
    method UpdateLib(node: Ptr) returns (ghost run: seq<State>)
      requires Valid() && Live(St(), node) && node != root
      modifies this
      ensures LibRun(run, node) && run[0] == old(St())
      ensures var s := run[|run| - 1];
              && !CanFlush(s, node) && Live(s, node) && s.root in s.nodes
              && St() == if SwitchesActive(run[0], s, node) then Activated(s, node) else s
      ensures Valid()
    {
      var confirmLimit := ConfirmLimit(witnessNum);
      var updateActive := false;
      run := [St()];
      NewVotesBound(nodes[node].valid, rootWitness);
      if |nodes[node].valid| >= confirmLimit {
        run := FlushConfirmed(node);
        if nodes[node].active != nodes[root].pending {
          updateActive := true;
        }
      } else if |nodes[node].valid| + |rootWitness| >= confirmLimit && nodes[node].active != nodes[root].pending {
        updateActive := CheckUpdateActive(node, confirmLimit);
      }
      assert updateActive == SwitchesActive(run[0], St(), node);
      if updateActive {
        ActivateSealed(St(), node);
        UpdateActive(node);
      }
    }

    // ----- Queries -----

    method Find(hash: Hash) returns (r: Option<Ptr>)
      requires Valid()
      ensures r.Some? ==> hash in byHash && r.value == byHash[hash]
      ensures r.Some? <==> exists x :: x in nodes && Attached(St(), x) && !nodes[x].kind.Virtual?
                                       && HeadHash(nodes[x]) == hash
    {
      Unsealed(St());
      if hash in byHash {
        assert EntryOk(St(), hash) && NodeOk(St(), byHash[hash]);
      }
      forall x | x in nodes && Attached(St(), x) && !nodes[x].kind.Virtual? && HeadHash(nodes[x]) == hash
        ensures hash in byHash && byHash[hash] == x
      {
        assert Indexed(St(), x);
      }
      if hash !in byHash || nodes[byHash[hash]].kind.Virtual? {
        return None;
      }
      return Some(byHash[hash]);
    }

    /** Answers the block of the head's chain at the asked height, and indexes the chain on the way. */
    method GetBlockByNumber(num: int) returns (r: Option<Head>)
      requires Valid()
      modifies this`byNumber
      ensures Valid()
      ensures num < Number(old(St()), root) || num > Number(old(St()), head) ==> r.None? && St() == old(St())
      ensures Number(old(St()), root) <= num <= Number(old(St()), head) ==> St() == Queried(old(St()))
      ensures Live(old(St()), head) && Number(old(St()), root) <= num <= Number(old(St()), head) ==>
                Ancestor(nodes, head, num) in nodes && r == Some(nodes[Ancestor(nodes, head, num)].head)
      ensures Number(old(St()), root) <= num <= Number(old(St()), head) ==>
                if num in byNumber then byNumber[num] in nodes && r == Some(nodes[byNumber[num]].head) else r.None?
    {
      if num < nodes[root].head.number || num > nodes[head].head.number {
        return None;
      }
      ghost var s := St();
      QuerySealed(s, num);
      var it := Some(head);
      while it.Some? && !(nodes[it.value].head.number in byNumber && byNumber[nodes[it.value].head.number] == it.value)
        invariant ParentsDeeper(nodes)
        invariant it.Some? ==> it.value in nodes
        invariant Walked(nodes, byNumber, it) == Walked(s.nodes, s.byNumber, Some(s.head))
        decreases if it.Some? then 1 + Level(nodes[it.value]) else 0
      {
        byNumber := byNumber[nodes[it.value].head.number := it.value];
        it := nodes[it.value].parent;
      }
      if num in byNumber {
        return Some(nodes[byNumber[num]].head);
      }
      return None;
    }
  }

  // ----- What the methods rely on -----

  predicate Listed(nodes: Nodes, node: Ptr, blockList: map<int, Ptr>, k: int)
    requires node in nodes
  {
    k in blockList && blockList[k] == Ancestor(nodes, node, k)
  }

  ghost predicate ListedAbove(nodes: Nodes, node: Ptr, blockList: map<int, Ptr>, low: int)
    requires node in nodes
  {
    && (forall k :: low < k <= nodes[node].head.number ==> Listed(nodes, node, blockList, k))
    && (forall k :: k in blockList ==> k <= nodes[node].head.number)
  }

  lemma ListedFirst(nodes: Nodes, node: Ptr)
    requires node in nodes
    ensures var k := nodes[node].head.number; ListedAbove(nodes, node, map[k := node], k - 1)
  {
    var k := nodes[node].head.number;
    assert Listed(nodes, node, map[k := node], k);
  }

  lemma ListedMore(nodes: Nodes, node: Ptr, blockList: map<int, Ptr>, low: int)
    requires node in nodes && low <= nodes[node].head.number && ListedAbove(nodes, node, blockList, low)
    ensures ListedAbove(nodes, node, blockList[low := Ancestor(nodes, node, low)], low - 1)
  {
    var more := blockList[low := Ancestor(nodes, node, low)];
    forall k | low - 1 < k <= nodes[node].head.number
      ensures Listed(nodes, node, more, k)
    {
      if k != low {
        assert Listed(nodes, node, blockList, k);
      }
    }
  }

  /** `blockList` lists the blocks after the root up to `node`, by number, and nothing higher. */
  ghost predicate OnPath(s: State, node: Ptr, blockList: map<int, Ptr>) {
    node in s.nodes && s.root in s.nodes && ListedAbove(s.nodes, node, blockList, Number(s, s.root))
  }

  lemma StepUp(s: State, node: Ptr, it: Ptr)
    requires Sealed(s) && Live(s, node) && Live(s, it) && it != s.root
    requires it == Ancestor(s.nodes, node, Number(s, it)) && Number(s, it) <= Number(s, node)
    ensures s.nodes[it].parent.Some? && Live(s, s.nodes[it].parent.value)
    ensures Number(s, s.nodes[it].parent.value) == Number(s, it) - 1
    ensures Level(s.nodes[s.nodes[it].parent.value]) < Level(s.nodes[it])
    ensures s.nodes[it].parent.value == Ancestor(s.nodes, node, Number(s, it) - 1)
  {
    Unsealed(s);
    ParentIsAncestor(s, node, it);
  }

  lemma PathEnds(s: State, node: Ptr, blockList: map<int, Ptr>)
    requires Sealed(s) && Live(s, node) && OnPath(s, node, blockList)
    ensures Number(s, s.root) + 1 in blockList <==> node != s.root
  {
    Unsealed(s);
    OnPathEnds(s, node, blockList);
  }

  lemma ParentIsAncestor(s: State, node: Ptr, it: Ptr)
    requires ShapeOk(s) && Live(s, node) && Live(s, it) && it != s.root
    requires it == Ancestor(s.nodes, node, Number(s, it)) && Number(s, it) <= Number(s, node)
    ensures s.nodes[it].parent.Some? && Live(s, s.nodes[it].parent.value)
    ensures Number(s, s.nodes[it].parent.value) == Number(s, it) - 1
    ensures Level(s.nodes[s.nodes[it].parent.value]) < Level(s.nodes[it])
    ensures s.nodes[it].parent.value == Ancestor(s.nodes, node, Number(s, it) - 1)
  {
    LiveBelowRoot(s, it);
    AncestorStep(s, node, Number(s, it));
    assert ParentOk(s.nodes, it) && NodeOk(s, it);
  }

  /** One flush after the other, all confirmed at the same node. */
  ghost predicate LibRun(run: seq<State>, node: Ptr) {
    |run| > 0 && forall i :: 0 <= i < |run| - 1 ==> FlushStepAt(run, node, i)
  }

  ghost predicate FlushStepAt(run: seq<State>, node: Ptr, i: nat)
    requires i + 1 < |run|
  {
    SealedFlush(run[i], run[i + 1], node)
  }

  ghost predicate SealedFlush(s: State, t: State, node: Ptr) {
    forall seal :: FlushStepUnder(s, t, node, seal)
  }

  ghost predicate FlushStepUnder(s: State, t: State, node: Ptr, seal: Seal) {
    FlushStep(s, t, node)
  }

  lemma LibRunGrows(run: seq<State>, t: State, node: Ptr)
    requires LibRun(run, node) && SealedFlush(run[|run| - 1], t, node)
    ensures LibRun(run + [t], node)
  {
    forall i | 0 <= i < |run|
      ensures FlushStepAt(run + [t], node, i)
    {
      assert i < |run| - 1 ==> FlushStepAt(run, node, i);
    }
  }

  /** How many entries of `votes` are not among the root's witnesses. */
  function NewVotes(votes: seq<string>, rootWitness: seq<string>): nat {
    if votes == [] then 0
    else
      var last := |votes| - 1;
      NewVotes(votes[..last], rootWitness) + (if votes[last] in rootWitness then 0 else 1)
  }

  lemma {:induction false} NewVotesGrow(votes: seq<string>, rootWitness: seq<string>, i: nat)
    requires i <= |votes|
    ensures NewVotes(votes[..i], rootWitness) <= NewVotes(votes, rootWitness)
    decreases |votes| - i
  {
    if i < |votes| {
      assert votes[..i + 1][..i] == votes[..i];
      NewVotesGrow(votes, rootWitness, i + 1);
    } else {
      assert votes[..i] == votes;
    }
  }

  lemma {:induction false} NewVotesBound(votes: seq<string>, rootWitness: seq<string>)
    ensures NewVotes(votes, rootWitness) <= |votes|
  {
    if votes != [] {
      NewVotesBound(votes[..|votes| - 1], rootWitness);
    }
  }

  /** When `UpdateLib`, which began at `s` and has flushed to `t`, moves the node to the pending list. */
  predicate SwitchesActive(s: State, t: State, node: Ptr) {
    var limit := ConfirmLimit(s.witnessNum);
    && node in s.nodes && s.root in s.nodes && node in t.nodes && t.root in t.nodes
    && if |s.nodes[node].valid| >= limit then t.nodes[node].active != t.nodes[t.root].pending
    else
      && s.nodes[node].active != s.nodes[s.root].pending && |s.nodes[node].valid| > 0
      && |s.rootWitness| + NewVotes(s.nodes[node].valid, s.rootWitness) >= limit
  }

  lemma AddSealed(s: State, blk: Head)
    requires Sealed(s)
    ensures ReadyToAdd(s) && Sealed(Added(s, blk))
  {
    Unsealed(s);
    AddedInv(s, blk);
    Unsealed(Added(s, blk));
  }

  /** What entering the parent and placing the block find. */
  lemma AddReady(s: State, blk: Head)
    requires Sealed(s)
    ensures s.single in s.nodes && s.next != s.single
    ensures var t := ParentEntered(s, blk);
            && t.single in t.nodes && blk.parentHash in t.byHash && t.byHash[blk.parentHash] in t.nodes
            && (HashOf(blk) in t.byHash ==> t.byHash[HashOf(blk)] in t.nodes)
  {
    Unsealed(s);
    NextIsFree(s);
    assert forall h :: h in s.byHash ==> EntryOk(s, h);
  }

  lemma LinkSealed(s: State, n: Ptr, update: Option<seq<string>>)
    requires Sealed(s) && Verified(s, n)
    ensures s.head in s.nodes && s.nodes[n].parent != Some(n) && Sealed(LinkedAt(s, n, update))
  {
    Unsealed(s);
    assert ParentOk(s.nodes, n);
    LinkedInv(s, n, update);
    Unsealed(LinkedAt(s, n, update));
  }

  lemma ActivateSealed(s: State, n: Ptr)
    requires Sealed(s) && Live(s, n)
    ensures s.root in s.nodes && Sealed(Activated(s, n))
  {
    Unsealed(s);
    ActivatedInv(s, n);
    Unsealed(Activated(s, n));
  }

  lemma DeleteReady(s: State, n: Ptr)
    requires Sealed(s) && n in s.nodes && s.nodes[n].parent.Some?
    ensures Forest(s.nodes, s.root) && s.root in s.nodes && s.nodes[s.root].parent.None?
    ensures ParentOk(s.nodes, n)
    ensures var t := DeletedAt(s, n); Inv(t) && t.head in t.nodes && forall x :: x in t.leaf ==> x in t.nodes
  {
    Unsealed(s);
    assert ParentOk(s.nodes, n);
    DeletedInv(s, n);
    LeavesAreNodes(DeletedAt(s, n));
  }

  lemma DeleteSealed(s: State, n: Ptr, h: Ptr)
    requires Sealed(s) && n in s.nodes && s.nodes[n].parent.Some? && s.nodes[n].parent.value in s.nodes
    requires Longest(DeletedAt(s, n), h)
    ensures Sealed(DeletedAt(s, n).(head := h)) && h in s.nodes && h == s.head
  {
    DeleteReady(s, n);
    LongestIsOldHead(DeletedAt(s, n), h);
    Unsealed(DeletedAt(s, n).(head := h));
  }

  /** `t` is what remains of `s` after `b` became the root. */
  ghost predicate FlushesTo(s: State, b: Ptr, t: State) {
    forall seal :: FlushesUnder(s, b, t, seal)
  }

  ghost predicate FlushesUnder(s: State, b: Ptr, t: State, seal: Seal) {
    && s.root in s.nodes && b in s.nodes && s.single in s.nodes
    && Longest(FlushedTree(s, b), t.head) && t == FlushedTree(s, b).(head := t.head)
  }

  lemma FlushSealed(s: State, b: Ptr, t: State)
    requires Sealed(s) && s.root in s.nodes && Live(s, b) && s.nodes[b].parent == Some(s.root) && s.single in s.nodes
    requires Longest(FlushedTree(s, b), t.head) && t == FlushedTree(s, b).(head := t.head)
    ensures FlushesTo(s, b, t) && Sealed(t)
    ensures t.head in t.nodes && t.root in t.nodes && t.single in t.nodes && t.head == s.head
  {
    Unsealed(s);
    FlushedInv(s, b);
    LongestIsOldHead(FlushedTree(s, b), t.head);
    Unsealed(t);
  }

  ghost predicate ParentsDeeper(nodes: Nodes) {
    forall x :: x in nodes && nodes[x].parent.Some? ==>
      nodes[x].parent.value in nodes && Level(nodes[nodes[x].parent.value]) < Level(nodes[x])
  }

  lemma QuerySealed(s: State, num: int)
    requires Sealed(s) && s.root in s.nodes && s.head in s.nodes
    requires Number(s, s.root) <= num <= Number(s, s.head)
    ensures ParentsDeeper(s.nodes) && Sealed(Queried(s))
    ensures forall k :: k in Queried(s).byNumber ==> Queried(s).byNumber[k] in s.nodes
    ensures Live(s, s.head) ==>
              && num in Queried(s).byNumber && Queried(s).byNumber[num] == Ancestor(s.nodes, s.head, num)
              && Ancestor(s.nodes, s.head, num) in s.nodes
  {
    Unsealed(s);
    assert forall x :: x in s.nodes ==> ParentOk(s.nodes, x);
    QueriedInv(s);
    Unsealed(Queried(s));
    if Live(s, s.head) {
      QueryAnswersAncestor(s, num);
    }
  }

  lemma LeavesAreNodes(s: State)
    requires Inv(s)
    ensures s.head in s.nodes && forall x :: x in s.leaf ==> x in s.nodes
  {
  }

  /** What the stages of a flush need of the state they find. */
  ghost predicate FlushShape(s: State, b: Ptr)
    requires s.root in s.nodes && b in s.nodes && s.single in s.nodes
  {
    var a := Dropped(s, Pruned(s, b));
    var f := FlushedTree(s, b);
    && Forest(a.nodes, a.root) && a.nodes[a.root].parent.None? && a.nodes[b].parent.Some?
    && ShapeOk(Promoted(a, b))
    && f.head in f.nodes && forall x :: x in f.leaf ==> x in f.nodes
  }

  lemma FlushReady(s: State, b: Ptr)
    requires Sealed(s) && Live(s, b) && s.nodes[b].parent == Some(s.root)
    ensures ShapeOk(s) && FlushShape(s, b)
  {
    Unsealed(s);
    PrunedKeepsBranch(s, b);
    FlushedInv(s, b);
    DroppedShape(s, Pruned(s, b));
    LeavesAreNodes(FlushedTree(s, b));
  }

  lemma SiblingReady(s: State, b: Ptr, done: set<Ptr>, c: Ptr)
    requires ShapeOk(s) && Live(s, b) && s.nodes[b].parent == Some(s.root)
    requires done <= s.nodes[s.root].children - {b} && c in s.nodes[s.root].children && c != b && c !in done
    ensures c in s.nodes && c !in Subtrees(s.nodes, done) && s.root !in Subtrees(s.nodes, done)
    ensures var t := Dropped(s, Subtrees(s.nodes, done));
            && Forest(t.nodes, t.root) && t.nodes[c].parent == Some(s.root)
            && {b, c} <= t.nodes[s.root].children
  {
    assert forall d :: d in done ==> ChildOk(s.nodes, s.root, s.root, d) && ParentOk(s.nodes, d);
    assert ChildOk(s.nodes, s.root, s.root, c) && ParentOk(s.nodes, c) && ParentOk(s.nodes, b);
    SubtreesDroppable(s, done);
    CutForest(s.nodes, s.root, Subtrees(s.nodes, done));
    forall d | d in done
      ensures !Below(s.nodes, c, d) && !Below(s.nodes, b, d)
    {
      SiblingsDisjoint(s.nodes, c, c, d, s.root);
      SiblingsDisjoint(s.nodes, b, b, d, s.root);
    }
  }

  lemma StaleReady(s: State, done: set<Ptr>, c: Ptr)
    requires ShapeOk(s) && done <= StaleSingles(s) && c in s.nodes[s.single].children && c !in done
    ensures c in s.nodes && c !in Subtrees(s.nodes, done)
    ensures var t := Dropped(s, Subtrees(s.nodes, done));
            && Forest(t.nodes, t.root) && t.nodes[c].parent == Some(s.single)
            && t.nodes[c].head == s.nodes[c].head && t.nodes[s.single].kind.Virtual?
            && t.nodes[t.root].parent.None?
  {
    assert forall d :: d in done ==> ChildOk(s.nodes, s.root, s.single, d) && ParentOk(s.nodes, d);
    assert ChildOk(s.nodes, s.root, s.single, c) && ParentOk(s.nodes, c);
    SubtreesDroppable(s, done);
    CutForest(s.nodes, s.root, Subtrees(s.nodes, done));
    forall d | d in done
      ensures !Below(s.nodes, c, d)
    {
      SiblingsDisjoint(s.nodes, c, c, d, s.single);
    }
  }

  predicate SameIdentity(m: Node, n: Node) {
    n.head == m.head && n.key == m.key && (n.parent == m.parent || n.parent == None)
  }

  /** In `t` every node has the block it has in `s`, and the same parent or none. */
  ghost predicate FewerEdges(s: Nodes, t: Nodes) {
    t.Keys == s.Keys && forall x :: x in s ==> SameIdentity(s[x], t[x])
  }

  lemma OnPathEnds(s: State, node: Ptr, blockList: map<int, Ptr>)
    requires ShapeOk(s) && Live(s, node) && OnPath(s, node, blockList)
    ensures Number(s, s.root) + 1 in blockList <==> node != s.root
    ensures node != s.root ==> Number(s, s.root) < Number(s, node)
  {
    LiveBelowRoot(s, node);
    if node != s.root {
      assert Listed(s.nodes, node, blockList, Number(s, s.root) + 1);
    }
  }

  lemma FlushedNode(s: State, b: Ptr, x: Ptr)
    requires s.root in s.nodes && b in s.nodes && s.single in s.nodes && x in s.nodes
    ensures x in FlushedTree(s, b).nodes && SameIdentity(s.nodes[x], FlushedTree(s, b).nodes[x])
  {
    var a := Dropped(s, Pruned(s, b));
    assert SameIdentity(s.nodes[x], a.nodes[x]);
    var t := Promoted(a, b);
    assert SameIdentity(a.nodes[x], t.nodes[x]);
    assert SameIdentity(t.nodes[x], FlushedTree(s, b).nodes[x]);
  }

  lemma FlushedEdges(s: State, b: Ptr)
    requires s.root in s.nodes && b in s.nodes && s.single in s.nodes
    ensures FewerEdges(s.nodes, FlushedTree(s, b).nodes)
  {
    var f := FlushedTree(s, b);
    assert f.nodes.Keys == s.nodes.Keys;
    forall x | x in s.nodes
      ensures SameIdentity(s.nodes[x], f.nodes[x])
    {
      FlushedNode(s, b, x);
    }
  }

  /** What a flush of `b` means for the tree, as far as paths are concerned. */
  ghost predicate FlushEffect(s: State, t: State, b: Ptr) {
    && t.root == b && FewerEdges(s.nodes, t.nodes)
    && (forall x :: Live(t, x) ==> Live(s, x) && x != s.root)
    && (forall x :: Live(s, x) && Below(s.nodes, x, b) ==> Live(t, x))
  }

  lemma FlushHasEffect(s: State, t: State, b: Ptr)
    requires Inv(s) && Live(s, b) && s.nodes[b].parent == Some(s.root)
    requires t == FlushedTree(s, b).(head := t.head)
    ensures FlushEffect(s, t, b)
  {
    var f := FlushedTree(s, b);
    FlushedEdges(s, b);
    forall x
      ensures Live(t, x) ==> Live(s, x) && x != s.root
      ensures Live(s, x) && x in s.nodes && Below(s.nodes, x, b) ==> Live(t, x)
    {
      LiveAfterFlush(s, b, x);
      assert Live(t, x) <==> Live(f, x);
    }
  }

  /** Above the new root, the ancestors of a surviving node stay what they were. */
  lemma {:induction false} EffectKeepsAncestor(s: State, t: State, b: Ptr, x: Ptr, k: int)
    requires ShapeOk(s) && ShapeOk(t) && FlushEffect(s, t, b) && Live(t, x) && Number(t, b) <= k
    ensures Ancestor(t.nodes, x, k) == Ancestor(s.nodes, x, k)
    decreases Level(s.nodes[x])
  {
    assert SameIdentity(s.nodes[x], t.nodes[x]);
    if Number(t, x) > k {
      assert NodeOk(t, x) && ParentOk(t.nodes, x) && ParentOk(s.nodes, x);
      EffectKeepsAncestor(s, t, b, t.nodes[x].parent.value, k);
    }
  }

  lemma EffectKeepsPath(s: State, t: State, b: Ptr, node: Ptr, blockList: map<int, Ptr>)
    requires ShapeOk(s) && ShapeOk(t) && FlushEffect(s, t, b) && Live(t, node) && OnPath(s, node, blockList)
    requires s.root in s.nodes && b in s.nodes && Number(s, s.root) < Number(s, b)
    ensures OnPath(t, node, blockList)
  {
    assert SameIdentity(s.nodes[node], t.nodes[node]) && SameIdentity(s.nodes[b], t.nodes[b]);
    forall k | Number(t, t.root) < k <= Number(t, node)
      ensures Listed(t.nodes, node, blockList, k)
    {
      EffectKeepsAncestor(s, t, b, node, k);
      assert Listed(s.nodes, node, blockList, k);
    }
  }

  /** How many blocks lie between the root and the node. */
  function Distance(s: State, node: Ptr): int {
    if s.root in s.nodes && node in s.nodes then Number(s, node) - Number(s, s.root) else 0
  }

  lemma NextListed(s: State, node: Ptr, blockList: map<int, Ptr>)
    requires Sealed(s) && s.root in s.nodes && Live(s, node) && node != s.root && OnPath(s, node, blockList)
    ensures Number(s, s.root) + 1 in blockList && blockList[Number(s, s.root) + 1] == NextBlock(s, node)
    ensures Live(s, NextBlock(s, node)) && s.nodes[NextBlock(s, node)].parent == Some(s.root)
  {
    Unsealed(s);
    NextBlockOk(s, node);
    LiveBelowRoot(s, node);
    assert Listed(s.nodes, node, blockList, Number(s, s.root) + 1);
  }

  lemma FlushProgress(s: State, t: State, node: Ptr, b: Ptr, blockList: map<int, Ptr>, run: seq<State>)
    returns (more: seq<State>)
    requires Sealed(s) && CanFlush(s, node) && b == NextBlock(s, node) && b in s.nodes && s.single in s.nodes
    requires FlushesTo(s, b, t) && Sealed(t) && OnPath(s, node, blockList) && LibRun(run, node) && run[|run| - 1] == s
    ensures Live(t, node) && OnPath(t, node, blockList)
    ensures Number(t, t.root) + 1 in blockList <==> node != t.root
    ensures LibRun(more, node) && more[0] == run[0] && more[|more| - 1] == t
    ensures 0 <= Distance(t, node) < Distance(s, node)
  {
    Unsealed(s);
    Unsealed(t);
    assert FlushesUnder(s, b, t, Seal);
    NextBlockOk(s, node);
    FlushHasEffect(s, t, b);
    more := run + [t];
    LibRunGrows(run, t, node);
    EffectKeepsPath(s, t, b, node, blockList);
    OnPathEnds(t, node, blockList);
  }
}
