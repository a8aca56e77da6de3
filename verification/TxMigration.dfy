/** Moving transactions between the chain and the pending ones when the head changes. */
module TxMigration {
  import opened Basics
  import opened Blocks
  import opened BlockTree
  import opened BlockCacheState
  import opened PendingTxs
  import opened RecentBlocks

  // ----- The path from a node up -----

  predicate IsLinked(nodes: Nodes, x: Ptr) {
    x in nodes && nodes[x].kind.Linked?
  }

  /** The parent of a linked node is linked, holds the parent block and is one lower. */
  predicate ParentLinked(nodes: Nodes, x: Ptr)
    requires IsLinked(nodes, x)
  {
    nodes[x].parent.Some? ==>
      var p := nodes[x].parent.value;
      && IsLinked(nodes, p) && Level(nodes[p]) < Level(nodes[x])
      && nodes[x].head.parentHash == HashOf(nodes[p].head) && nodes[x].head.number == nodes[p].head.number + 1
  }

  ghost predicate Rooted(nodes: Nodes) {
    forall x :: IsLinked(nodes, x) ==> ParentLinked(nodes, x)
  }

  /** The block cache's forest is always of that kind. */
  lemma CacheIsRooted(s: State)
    requires Inv(s)
    ensures Rooted(s.nodes)
  {
    forall x | IsLinked(s.nodes, x)
      ensures ParentLinked(s.nodes, x)
    {
      assert NodeOk(s, x) && ParentOk(s.nodes, x);
      if s.nodes[x].parent.Some? {
        assert NodeOk(s, s.nodes[x].parent.value);
      }
    }
  }

  ghost function Up(nodes: Nodes, x: Ptr): seq<Ptr>
    requires Rooted(nodes) && IsLinked(nodes, x)
    decreases Level(nodes[x])
  {
    assert ParentLinked(nodes, x);
    if nodes[x].parent.None? then [x] else [x] + Up(nodes, nodes[x].parent.value)
  }

  /** `a` is `x` or one of its ancestors. */
  ghost predicate Above(nodes: Nodes, a: Ptr, x: Ptr)
    requires Rooted(nodes) && IsLinked(nodes, x)
  {
    a in Up(nodes, x)
  }

  lemma {:induction false} AboveIsLower(nodes: Nodes, a: Ptr, x: Ptr)
    requires Rooted(nodes) && IsLinked(nodes, x) && Above(nodes, a, x)
    ensures IsLinked(nodes, a) && (a == x || nodes[a].head.number < nodes[x].head.number)
    decreases Level(nodes[x])
  {
    assert ParentLinked(nodes, x);
    if a != x {
      AboveIsLower(nodes, a, nodes[x].parent.value);
    }
  }

  lemma {:induction false} AboveTransitive(nodes: Nodes, a: Ptr, b: Ptr, x: Ptr)
    requires Rooted(nodes) && IsLinked(nodes, x) && Above(nodes, b, x)
    requires IsLinked(nodes, b) && Above(nodes, a, b)
    ensures Above(nodes, a, x)
    decreases Level(nodes[x])
  {
    assert ParentLinked(nodes, x);
    if b != x {
      AboveTransitive(nodes, a, b, nodes[x].parent.value);
    }
  }

  ghost predicate Common(nodes: Nodes, a: Ptr, x: Ptr, y: Ptr)
    requires Rooted(nodes) && IsLinked(nodes, x) && IsLinked(nodes, y)
  {
    Above(nodes, a, x) && Above(nodes, a, y)
  }

  /** What is left to find lies above where the search stands. */
  ghost predicate Narrowed(nodes: Nodes, newHead: Ptr, oldHead: Ptr, n: Ptr, o: Option<Ptr>)
    requires Rooted(nodes) && IsLinked(nodes, newHead) && IsLinked(nodes, oldHead)
  {
    && IsLinked(nodes, n) && Above(nodes, n, newHead)
    && (o.Some? ==> IsLinked(nodes, o.value) && Above(nodes, o.value, oldHead))
    && (forall a :: Common(nodes, a, newHead, oldHead) ==> o.Some? && Common(nodes, a, n, o.value))
  }

  lemma NarrowOld(nodes: Nodes, newHead: Ptr, oldHead: Ptr, n: Ptr, o: Ptr)
    requires Rooted(nodes) && IsLinked(nodes, newHead) && IsLinked(nodes, oldHead)
    requires Narrowed(nodes, newHead, oldHead, n, Some(o)) && nodes[o].head.number > nodes[n].head.number
    ensures Narrowed(nodes, newHead, oldHead, n, nodes[o].parent)
  {
    assert ParentLinked(nodes, o);
    forall a | Common(nodes, a, newHead, oldHead)
      ensures nodes[o].parent.Some? && Common(nodes, a, n, nodes[o].parent.value)
    {
      AboveIsLower(nodes, a, n);
    }
    if nodes[o].parent.Some? {
      AboveTransitive(nodes, nodes[o].parent.value, o, oldHead);
    }
  }

  lemma NarrowNew(nodes: Nodes, newHead: Ptr, oldHead: Ptr, n: Ptr, o: Ptr)
    requires Rooted(nodes) && IsLinked(nodes, newHead) && IsLinked(nodes, oldHead)
    requires Narrowed(nodes, newHead, oldHead, n, Some(o)) && nodes[o].head.number <= nodes[n].head.number && n != o
    ensures nodes[n].parent.Some? ==> Narrowed(nodes, newHead, oldHead, nodes[n].parent.value, Some(o))
    ensures nodes[n].parent.None? ==> forall a :: !Common(nodes, a, newHead, oldHead)
  {
    assert ParentLinked(nodes, n);
    forall a | Common(nodes, a, newHead, oldHead)
      ensures nodes[n].parent.Some? && Common(nodes, a, nodes[n].parent.value, o)
    {
      AboveIsLower(nodes, a, o);
    }
    if nodes[n].parent.Some? {
      AboveTransitive(nodes, nodes[n].parent.value, n, newHead);
    }
  }

  /** Finds the highest common ancestor of two heads, if their paths meet. */
  method FindFork(nodes: Nodes, newHead: Ptr, oldHead: Ptr) returns (fork: Option<Ptr>)
    requires Rooted(nodes) && IsLinked(nodes, newHead) && IsLinked(nodes, oldHead)
    ensures fork.None? <==> forall a :: !Common(nodes, a, newHead, oldHead)
    ensures fork.Some? ==> IsLinked(nodes, fork.value) && Common(nodes, fork.value, newHead, oldHead)
    ensures fork.Some? ==> forall a :: Common(nodes, a, newHead, oldHead) ==> Above(nodes, a, fork.value)
  {
    var n, o := newHead, Some(oldHead);
    while true
      invariant Narrowed(nodes, newHead, oldHead, n, o)
      decreases Level(nodes[n])
    {
      while o.Some? && nodes[o.value].head.number > nodes[n].head.number
        invariant Narrowed(nodes, newHead, oldHead, n, o)
        decreases if o.Some? then 1 + Level(nodes[o.value]) else 0
      {
        NarrowOld(nodes, newHead, oldHead, n, o.value);
        assert ParentLinked(nodes, o.value);
        o := nodes[o.value].parent;
      }
      if o.None? {
        return None;
      }
      if o.value == n {
        AboveSelf(nodes, n);
        assert Common(nodes, n, newHead, oldHead);
        return o;
      }
      NarrowNew(nodes, newHead, oldHead, n, o.value);
      assert ParentLinked(nodes, n);
      if nodes[n].parent.None? {
        return None;
      }
      n := nodes[n].parent.value;
    }
  }

  // ----- The transactions of a branch -----

  /** The transactions from `x` up to, and without, `stop`, or until a block is older than `limit`. */
  function BranchTxs(nodes: Nodes, txsOf: Head -> seq<Tx>, x: Option<Ptr>, stop: Ptr, limit: int): seq<Tx>
    requires Rooted(nodes) && (x.Some? ==> IsLinked(nodes, x.value))
    decreases if x.Some? then 1 + Level(nodes[x.value]) else 0
  {
    if x.None? || x.value == stop || nodes[x.value].head.time < limit then []
    else
      assert ParentLinked(nodes, x.value);
      txsOf(nodes[x.value].head) + BranchTxs(nodes, txsOf, nodes[x.value].parent, stop, limit)
  }

  method CollectBranch(nodes: Nodes, txsOf: Head -> seq<Tx>, head: Ptr, stop: Ptr, limit: int) returns (txs: seq<Tx>)
    requires Rooted(nodes) && IsLinked(nodes, head)
    ensures txs == BranchTxs(nodes, txsOf, Some(head), stop, limit)
  {
    txs := [];
    var x := Some(head);
    while !(x.None? || x.value == stop || nodes[x.value].head.time < limit)
      invariant x.Some? ==> IsLinked(nodes, x.value)
      invariant txs + BranchTxs(nodes, txsOf, x, stop, limit) == BranchTxs(nodes, txsOf, Some(head), stop, limit)
      decreases if x.Some? then 1 + Level(nodes[x.value]) else 0
    {
      assert ParentLinked(nodes, x.value);
      assert txs + (txsOf(nodes[x.value].head) + BranchTxs(nodes, txsOf, nodes[x.value].parent, stop, limit)) ==
             (txs + txsOf(nodes[x.value].head)) + BranchTxs(nodes, txsOf, nodes[x.value].parent, stop, limit);
      txs := txs + txsOf(nodes[x.value].head);
      x := nodes[x.value].parent;
    }
  }

  /** The transactions of the block `h` and its parents, as far as they are held and no older than `limit`. */
  function RecentTxs(ch: Chain, list: BlockList, h: Hash, limit: int): set<Tx>
    requires ListOk(ch, list)
    decreases Depth(h)
  {
    if h !in list || list[h].time < limit then {}
    else list[h].txMap.Values + RecentTxs(ch, list, list[h].parentHash, limit)
  }

  method CollectRecent(w: BlockchainWrapper, head: Head, limit: int) returns (txs: seq<Tx>)
    requires w.Valid()
    ensures Elements(txs) == RecentTxs(w.ch, w.blockList, HashOf(head), limit)
  {
    txs := [];
    var h := HashOf(head);
    while h in w.blockList && w.blockList[h].time >= limit
      invariant Elements(txs) + RecentTxs(w.ch, w.blockList, h, limit) ==
                RecentTxs(w.ch, w.blockList, HashOf(head), limit)
      decreases Depth(h)
    {
      var todo := w.blockList[h].txMap.Values;
      ghost var before := Elements(txs);
      while todo != {}
        invariant todo <= w.blockList[h].txMap.Values
        invariant Elements(txs) + todo == before + w.blockList[h].txMap.Values
        decreases todo
      {
        var t :| t in todo;
        assert Elements(txs + [t]) == Elements(txs) + {t};
        txs := txs + [t];
        todo := todo - {t};
      }
      h := w.blockList[h].parentHash;
    }
  }

  // ----- Migration -----

  datatype Fork = SameHead | ForkBcn(node: Ptr) | NoForkBcn

  ghost predicate IsFork(nodes: Nodes, newHead: Ptr, oldHead: Ptr, fork: Fork)
    requires Rooted(nodes) && IsLinked(nodes, newHead) && IsLinked(nodes, oldHead)
  {
    match fork
    case SameHead => newHead == oldHead
    case ForkBcn(f) =>
      && newHead != oldHead && IsLinked(nodes, f) && Common(nodes, f, newHead, oldHead)
      && (forall a :: Common(nodes, a, newHead, oldHead) ==> Above(nodes, a, f))
    case NoForkBcn => newHead != oldHead && forall a :: !Common(nodes, a, newHead, oldHead)
  }

  /** The transactions a change of head takes off the chain of `x`, or puts on it. */
  function MovedTxs(nodes: Nodes, ch: Chain, list: BlockList, x: Ptr, fork: Fork, limit: int): set<Tx>
    requires Rooted(nodes) && IsLinked(nodes, x) && ListOk(ch, list)
  {
    match fork
    case SameHead => {}
    case ForkBcn(f) => Elements(BranchTxs(nodes, ch.txsOf, Some(x), f, limit))
    case NoForkBcn => RecentTxs(ch, list, HashOf(nodes[x].head), limit)
  }

  /** The pool as a value: the recent blocks, the first block seen of the greatest number, the pending transactions,
      and the head they were last adjusted to. */
  datatype Pool = Pool(list: BlockList, seen: Head, pending: set<Tx>, head: Ptr)

  /** The new head is the linked node if that is higher than the cache's head, else the cache's head. */
  function HeadAfter(nodes: Nodes, linked: Ptr, head: Ptr): Ptr
    requires IsLinked(nodes, linked) && IsLinked(nodes, head)
  {
    if nodes[linked].head.number > nodes[head].head.number then linked else head
  }

  /** The pool after it was told of a linked node. */
  function Notified(nodes: Nodes, ch: Chain, p: Pool, linked: Ptr, head: Ptr, fork: Fork, now: int): Pool
    requires Rooted(nodes) && IsLinked(nodes, linked) && IsLinked(nodes, head) && IsLinked(nodes, p.head)
    requires ListOk(ch, p.list)
  {
    var b := nodes[linked].head;
    var list := Entered(ch, p.list, b);
    var next := HeadAfter(nodes, linked, head);
    var limit := now - FILTER_TIME;
    var pending :=
      p.pending + MovedTxs(nodes, ch, list, p.head, fork, limit) - MovedTxs(nodes, ch, list, next, fork, limit);
    Pool(list, if p.seen.number < b.number then b else p.seen, pending, next)
  }

  // ----- Offering a transaction -----

  const MAX_CACHE_TXS := 10000
  const MAX_TX_TIME_GAP := 5_000_000_000

  datatype AddResult = AddOk | DupPending | DupChain | CacheFull | RejectDefer | TimeError | VerifyError

  /** The fields `VerifySelf` looks at itself; `rest` stands for the signatures and the other fields. */
  predicate VerifySelf(rest: Tx -> bool, t: Tx) {
    0 < t.time < t.expiration && 100 <= t.gasRatio <= 10000 && rest(t)
  }

  /** The transaction passes by itself. */
  predicate Fit(rest: Tx -> bool, t: Tx, now: int) {
    !IsDefer(t) && IsCreatedBefore(t, now + MAX_TX_TIME_GAP) && !IsExpired(t, now) && VerifySelf(rest, t)
  }

  predicate OnSeenChain(ch: Chain, p: Pool, t: Tx)
    requires ListOk(ch, p.list)
  {
    Search(p.list, ch, ch.hash(t), HashOf(p.seen), p.seen.time - FILTER_TIME).Some?
  }

  function Offered(ch: Chain, rest: Tx -> bool, p: Pool, t: Tx, now: int): Pool
    requires ListOk(ch, p.list)
  {
    if t !in p.pending && !OnSeenChain(ch, p, t) && |p.pending| <= MAX_CACHE_TXS && Fit(rest, t, now)
    then p.(pending := p.pending + {t}) else p
  }

  /** The pool after blocks and transactions too old were cleared. */
  function ClearedPool(p: Pool, root: Head, now: int): Pool {
    p.(list := Cleared(p.list, root.time - FILTER_TIME),
       pending := set t | t in p.pending && (IsExpired(t, now) ==> IsDefer(t)))
  }

  class TxPool {
    const pending: SortedTxMap
    const wrapper: BlockchainWrapper
    var newHead: Ptr

    function St(): Pool
      reads this, pending, wrapper
    {
      Pool(wrapper.blockList, wrapper.head, pending.Contents(), newHead)
    }

    ghost predicate Valid()
      reads this, pending, wrapper
    {
      pending.Valid() && wrapper.Valid() && pending.hash == wrapper.hash
    }

    constructor (pending: SortedTxMap, wrapper: BlockchainWrapper, head: Ptr)
      requires pending.Valid() && wrapper.Valid() && pending.hash == wrapper.hash
      ensures Valid() && this.pending == pending && this.wrapper == wrapper && newHead == head
    {
      this.pending, this.wrapper, this.newHead := pending, wrapper, head;
    }

    /** Moves on to the new head and says where it forks off the old one. */
    method UpdateForkChain(nodes: Nodes, head: Ptr) returns (fork: Fork, oldHead: Ptr)
      requires Rooted(nodes) && IsLinked(nodes, head) && IsLinked(nodes, newHead)
      modifies this
      ensures newHead == head && oldHead == old(newHead) && IsFork(nodes, head, oldHead, fork)
    {
      oldHead := newHead;
      if newHead == head {
        return SameHead, oldHead;
      }
      newHead := head;
      var f := FindFork(nodes, newHead, oldHead);
      fork := if f.Some? then ForkBcn(f.value) else NoForkBcn;
    }

    /** The new head is the linked node if that is higher than the cache's head, else the cache's head. */
    method GetUpdateTxs(nodes: Nodes, linked: Ptr, head: Ptr, now: int)
      returns (txsToAdd: seq<Tx>, txsToDel: seq<Tx>, ghost fork: Fork)
      requires Valid() && Rooted(nodes) && IsLinked(nodes, linked) && IsLinked(nodes, head) && IsLinked(nodes, newHead)
      modifies this
      ensures newHead == if nodes[linked].head.number > nodes[head].head.number then linked else head
      ensures IsFork(nodes, newHead, old(newHead), fork)
      ensures Elements(txsToAdd) ==
              MovedTxs(nodes, wrapper.ch, wrapper.blockList, old(newHead), fork, now - FILTER_TIME)
      ensures Elements(txsToDel) ==
              MovedTxs(nodes, wrapper.ch, wrapper.blockList, newHead, fork, now - FILTER_TIME)
    {
      var next := if nodes[linked].head.number > nodes[head].head.number then linked else head;
      var f, oldHead := UpdateForkChain(nodes, next);
      fork := f;
      var limit := now - FILTER_TIME;
      match f
      case ForkBcn(b) =>
        txsToAdd := CollectBranch(nodes, wrapper.txsOf, oldHead, b, limit);
        txsToDel := CollectBranch(nodes, wrapper.txsOf, newHead, b, limit);
      case NoForkBcn =>
        txsToAdd := CollectRecent(wrapper, nodes[oldHead].head, limit);
        txsToDel := CollectRecent(wrapper, nodes[newHead].head, limit);
      case SameHead =>
        txsToAdd, txsToDel := [], [];
    }

    method AddAll(txs: seq<Tx>)
      requires Valid() && AllRanged(pending.Contents()) && AllRanged(Elements(txs))
      modifies pending
      ensures Valid() && pending.Contents() == old(pending.Contents()) + Elements(txs)
    {
      ghost var before := pending.Contents();
      for i := 0 to |txs|
        invariant Valid() && pending.Contents() == before + Elements(txs[..i])
        invariant AllRanged(pending.Contents())
      {
        OneMore(txs, i);
        assert txs[i] in Elements(txs);
        RangedFits(pending.Contents(), txs[i]);
        pending.Add(txs[i]);
      }
      assert txs[..|txs|] == txs;
    }

    method DelAll(txs: seq<Tx>)
      requires Valid()
      modifies pending
      ensures Valid() && pending.Contents() == old(pending.Contents()) - Elements(txs)
    {
      for i := 0 to |txs|
        invariant Valid() && pending.Contents() == old(pending.Contents()) - Elements(txs[..i])
      {
        OneMore(txs, i);
        pending.Del(pending.hash(txs[i]));
      }
      assert txs[..|txs|] == txs;
    }

    /** A block was linked: what the head's change takes off the chain becomes pending, what it puts on the chain
        no longer is. */
    method AddLinkedNode(nodes: Nodes, linked: Ptr, head: Ptr, now: int) returns (ghost fork: Fork)
      requires Valid() && Rooted(nodes) && IsLinked(nodes, linked) && IsLinked(nodes, head) && IsLinked(nodes, newHead)
      requires AllRanged(pending.Contents())
      requires forall x :: IsLinked(nodes, x) ==> AllRanged(Elements(wrapper.txsOf(nodes[x].head)))
      requires forall b :: HashOf(b) in wrapper.blockList ==> AllRanged(Elements(wrapper.txsOf(b)))
      modifies this, pending, wrapper
      ensures Valid() && AllRanged(pending.Contents())
      ensures IsFork(nodes, HeadAfter(nodes, linked, head), old(newHead), fork)
      ensures St() == Notified(nodes, wrapper.ch, old(St()), linked, head, fork, now)
      ensures newHead == if nodes[linked].head.number > nodes[head].head.number then linked else head
      ensures wrapper.head == if nodes[linked].head.number > old(wrapper.head.number) then nodes[linked].head
                              else old(wrapper.head)
    {
      var ok := wrapper.AddBlock(Some(nodes[linked].head));
      var add, del;
      add, del, fork := GetUpdateTxs(nodes, linked, head, now);
      MovedRanged(nodes, wrapper.ch, wrapper.blockList, old(newHead), fork, now - FILTER_TIME);
      AddAll(add);
      DelAll(del);
    }

    method VerifyDuplicate(t: Tx) returns (r: AddResult)
      requires Valid()
      ensures r == if t in pending.Contents() then DupPending
                   else if OnSeenChain(wrapper.ch, St(), t) then DupChain
                   else AddOk
    {
      var p := pending.Get(pending.hash(t));
      if p.Some? {
        return DupPending;
      }
      var onChain := wrapper.GetTxInChain(wrapper.hash(t), None);
      r := if onChain.Some? then DupChain else AddOk;
    }

    method VerifyTx(rest: Tx -> bool, t: Tx, now: int) returns (r: AddResult)
      requires Valid()
      ensures r.AddOk? <==> |pending.Contents()| <= MAX_CACHE_TXS && Fit(rest, t, now)
      ensures r ==
              if |pending.Contents()| > 10000 then CacheFull
              else if |t.referred| > 0 then RejectDefer
              else if t.time > now + 5_000_000_000 || t.expiration <= now || Wrap64(now - t.time) > 90_000_000_000
              then TimeError
              else if 0 < t.time < t.expiration && 100 <= t.gasRatio <= 10000 && rest(t) then AddOk
              else VerifyError
    {
      SizeIs(pending);
      if |pending.txMap| > MAX_CACHE_TXS {
        return CacheFull;
      }
      if IsDefer(t) {
        return RejectDefer;
      }
      if !IsCreatedBefore(t, now + MAX_TX_TIME_GAP) || IsExpired(t, now) {
        return TimeError;
      }
      r := if VerifySelf(rest, t) then AddOk else VerifyError;
    }

    /** Takes the transaction in unless it is known or does not pass by itself. */
    method AddTx(rest: Tx -> bool, t: Tx, now: int) returns (r: AddResult)
      requires Valid() && AllRanged(pending.Contents()) && Int64(t.time)
      modifies pending
      ensures Valid() && AllRanged(pending.Contents())
      ensures St() == Offered(wrapper.ch, rest, old(St()), t, now)
      ensures r.AddOk? <==> t in pending.Contents() && t !in old(pending.Contents())
      ensures r.DupPending? <==> t in old(pending.Contents())
      ensures r.DupChain? ==> OnSeenChain(wrapper.ch, St(), t)
    {
      r := VerifyDuplicate(t);
      if !r.AddOk? {
        return;
      }
      r := VerifyTx(rest, t, now);
      if !r.AddOk? {
        return;
      }
      RangedFits(pending.Contents(), t);
      pending.Add(t);
    }

    /** Drops the blocks and then the transactions that are too old. */
    method Clear(root: Head, now: int)
      requires Valid()
      modifies wrapper`blockList, pending
      ensures Valid() && St() == ClearedPool(old(St()), root, now)
      ensures forall h :: h in wrapper.blockList <==>
                          h in old(wrapper.blockList) && old(wrapper.blockList)[h].time >= root.time - 90_000_000_000
      ensures forall t :: t in pending.Contents() <==>
                          && t in old(pending.Contents())
                          && (|t.referred| > 0 || (t.expiration > now && Wrap64(now - t.time) <= 90_000_000_000))
    {
      wrapper.ClearBlock(root);
      ghost var before := pending.Contents();
      var todo := pending.Contents();
      while todo != {}
        invariant Valid() && todo <= pending.Contents() <= before
        invariant wrapper.blockList == Cleared(old(wrapper.blockList), root.time - FILTER_TIME)
        invariant forall t :: t in before && t !in todo ==>
                    (t in pending.Contents() <==> (IsExpired(t, now) ==> IsDefer(t)))
        decreases todo
      {
        var t :| t in todo;
        if IsExpired(t, now) && !IsDefer(t) {
          pending.Del(pending.hash(t));
        }
        todo := todo - {t};
      }
      assert pending.Contents() == ClearedPool(old(St()), root, now).pending;
    }
  }

  /** The map has as many entries as there are transactions. */
  lemma SizeIs(m: SortedTxMap)
    requires m.Valid()
    ensures |m.txMap| == |m.Contents()|
  {
    ValuesCount(m.hash, m.txMap);
  }

  lemma {:induction false} ValuesCount(hash: Tx -> Bytes, m: map<Bytes, Tx>)
    requires forall k :: k in m ==> hash(m[k]) == k
    ensures |m| == |m.Values|
    decreases |m|
  {
    if m != map[] {
      assert m.Keys != {};
      var k :| k in m;
      var less := m - {k};
      ValuesCount(hash, less);
      assert m.Values == less.Values + {m[k]} by {
        forall t | t in m.Values
          ensures t in less.Values + {m[k]}
        {
          var l :| l in m && m[l] == t;
          assert l == k || (l in less && less[l] == t);
        }
      }
      assert m[k] !in less.Values;
    }
  }

  lemma OneMore(txs: seq<Tx>, i: nat)
    requires i < |txs|
    ensures Elements(txs[..i + 1]) == Elements(txs[..i]) + {txs[i]}
  {
    assert txs[..i + 1] == txs[..i] + [txs[i]];
  }

  /** Times and gas ratios that are not negative: such transactions can be compared. */
  ghost predicate AllRanged(s: set<Tx>) {
    forall t :: t in s ==> Ranged(t)
  }

  predicate Ranged(t: Tx) {
    0 <= t.time < TWO_63 && 0 <= t.gasRatio < TWO_63
  }

  lemma RangedFits(s: set<Tx>, t: Tx)
    requires AllRanged(s) && Ranged(t)
    ensures FitsWith(t, s) && AllRanged(s + {t})
  {
    forall u | u in s
      ensures Comparable(t, u)
    {
      assert Ranged(u);
    }
  }

  lemma {:induction false} BranchRanged(nodes: Nodes, txsOf: Head -> seq<Tx>, x: Option<Ptr>, stop: Ptr, limit: int)
    requires Rooted(nodes) && (x.Some? ==> IsLinked(nodes, x.value))
    requires forall y :: IsLinked(nodes, y) ==> AllRanged(Elements(txsOf(nodes[y].head)))
    ensures AllRanged(Elements(BranchTxs(nodes, txsOf, x, stop, limit)))
    decreases if x.Some? then 1 + Level(nodes[x.value]) else 0
  {
    if !(x.None? || x.value == stop || nodes[x.value].head.time < limit) {
      assert ParentLinked(nodes, x.value);
      BranchRanged(nodes, txsOf, nodes[x.value].parent, stop, limit);
      var first, rest := txsOf(nodes[x.value].head), BranchTxs(nodes, txsOf, nodes[x.value].parent, stop, limit);
      assert AllRanged(Elements(first));
      assert Elements(first + rest) == Elements(first) + Elements(rest);
    }
  }

  lemma {:induction false} MapHoldsTxs(hash: Tx -> Bytes, txs: seq<Tx>)
    ensures TxMapOf(hash, txs).Values <= Elements(txs)
  {
    if txs != [] {
      var last := |txs| - 1;
      var before := TxMapOf(hash, txs[..last]);
      MapHoldsTxs(hash, txs[..last]);
      forall t | t in TxMapOf(hash, txs).Values
        ensures t in Elements(txs)
      {
        var k :| k in TxMapOf(hash, txs) && TxMapOf(hash, txs)[k] == t;
        assert t == txs[last] || (k in before && before[k] == t && t in Elements(txs[..last]));
      }
    }
  }

  lemma {:induction false} RecentRanged(ch: Chain, list: BlockList, h: Hash, limit: int)
    requires ListOk(ch, list)
    requires forall b :: HashOf(b) in list ==> AllRanged(Elements(ch.txsOf(b)))
    ensures AllRanged(RecentTxs(ch, list, h, limit))
    decreases Depth(h)
  {
    if h in list && list[h].time >= limit {
      RecentRanged(ch, list, list[h].parentHash, limit);
      MapHoldsTxs(ch.hash, ch.txsOf(h.head));
    }
  }

  lemma MovedRanged(nodes: Nodes, ch: Chain, list: BlockList, x: Ptr, fork: Fork, limit: int)
    requires Rooted(nodes) && IsLinked(nodes, x) && ListOk(ch, list)
    requires forall y :: IsLinked(nodes, y) ==> AllRanged(Elements(ch.txsOf(nodes[y].head)))
    requires forall b :: HashOf(b) in list ==> AllRanged(Elements(ch.txsOf(b)))
    ensures AllRanged(MovedTxs(nodes, ch, list, x, fork, limit))
  {
    match fork
    case SameHead =>
    case ForkBcn(f) => BranchRanged(nodes, ch.txsOf, Some(x), f, limit);
    case NoForkBcn => RecentRanged(ch, list, HashOf(nodes[x].head), limit);
  }

  // ----- Pending and on the chain: never both -----

  /** All transactions of the chain that ends in the block hashed. */
  ghost function ChainTxs(txsOf: Head -> seq<Tx>, h: Hash): set<Tx> {
    match h
    case Raw(_) => {}
    case HashOf(b) => Elements(txsOf(b)) + ChainTxs(txsOf, b.parentHash)
  }

  /** No transaction is in two blocks of the chain. */
  ghost predicate NoRepeats(txsOf: Head -> seq<Tx>, h: Hash) {
    match h
    case Raw(_) => true
    case HashOf(b) => Elements(txsOf(b)) !! ChainTxs(txsOf, b.parentHash) && NoRepeats(txsOf, b.parentHash)
  }

  /** No block from `x` up to the fork is older than `limit`. */
  ghost predicate BranchWithin(nodes: Nodes, x: Ptr, f: Ptr, limit: int)
    requires Rooted(nodes) && IsLinked(nodes, x) && IsLinked(nodes, f)
  {
    forall y :: Above(nodes, y, x) && !Above(nodes, y, f) ==> y in nodes && nodes[y].head.time >= limit
  }

  /** A chain is its branch beyond the fork and the chain of the fork; without repeats the two share nothing. */
  lemma {:induction false} ChainSplits(nodes: Nodes, txsOf: Head -> seq<Tx>, x: Ptr, f: Ptr, limit: int)
    requires Rooted(nodes) && IsLinked(nodes, x) && IsLinked(nodes, f) && Above(nodes, f, x)
    ensures var branch := Elements(BranchTxs(nodes, txsOf, Some(x), f, limit));
            var below := ChainTxs(txsOf, HashOf(nodes[f].head));
            var all := ChainTxs(txsOf, HashOf(nodes[x].head));
            && branch + below <= all
            && (BranchWithin(nodes, x, f, limit) ==> all == branch + below)
            && (NoRepeats(txsOf, HashOf(nodes[x].head)) ==> branch !! below)
    decreases Level(nodes[x])
  {
    assert ParentLinked(nodes, x);
    if x != f {
      var p := nodes[x].parent.value;
      AboveIsLower(nodes, f, p);
      ChainSplits(nodes, txsOf, p, f, limit);
      AboveSelf(nodes, x);
      if Above(nodes, x, f) {
        AboveIsLower(nodes, x, f);
      }
      assert BranchWithin(nodes, x, f, limit) ==> BranchWithin(nodes, p, f, limit);
      assert BranchWithin(nodes, x, f, limit) ==> nodes[x].head.time >= limit;
      BranchStep(nodes, txsOf, x, f, limit);
    } else {
      AboveIsLower(nodes, x, x);
    }
  }

  lemma AboveSelf(nodes: Nodes, x: Ptr)
    requires Rooted(nodes) && IsLinked(nodes, x)
    ensures Above(nodes, x, x)
    ensures nodes[x].parent.Some? ==>
              forall y :: IsLinked(nodes, nodes[x].parent.value) && Above(nodes, y, nodes[x].parent.value) ==>
                Above(nodes, y, x)
  {
    assert ParentLinked(nodes, x);
  }

  lemma BranchStep(nodes: Nodes, txsOf: Head -> seq<Tx>, x: Ptr, f: Ptr, limit: int)
    requires Rooted(nodes) && IsLinked(nodes, x) && x != f && nodes[x].parent.Some?
    ensures IsLinked(nodes, nodes[x].parent.value)
    ensures Elements(BranchTxs(nodes, txsOf, Some(x), f, limit)) ==
            if nodes[x].head.time < limit then {}
            else Elements(txsOf(nodes[x].head)) + Elements(BranchTxs(nodes, txsOf, nodes[x].parent, f, limit))
  {
    assert ParentLinked(nodes, x);
    assert forall t :: t in BranchTxs(nodes, txsOf, Some(x), f, limit) <==>
                       nodes[x].head.time >= limit
                       && (t in txsOf(nodes[x].head) || t in BranchTxs(nodes, txsOf, nodes[x].parent, f, limit));
  }

  /** If nothing pending was on the old chain and that chain repeats nothing, then after the move nothing
      pending is on the new chain, as long as the new branch lies within the time limit. */
  lemma PendingStaysOffChain(nodes: Nodes, ch: Chain, list: BlockList, newHead: Ptr, oldHead: Ptr, f: Ptr,
                             limit: int, pending: set<Tx>)
    requires Rooted(nodes) && IsLinked(nodes, newHead) && IsLinked(nodes, oldHead) && ListOk(ch, list)
    requires IsFork(nodes, newHead, oldHead, ForkBcn(f))
    requires pending !! ChainTxs(ch.txsOf, HashOf(nodes[oldHead].head))
    requires NoRepeats(ch.txsOf, HashOf(nodes[oldHead].head))
    requires BranchWithin(nodes, newHead, f, limit)
    ensures pending + MovedTxs(nodes, ch, list, oldHead, ForkBcn(f), limit)
            - MovedTxs(nodes, ch, list, newHead, ForkBcn(f), limit)
            !! ChainTxs(ch.txsOf, HashOf(nodes[newHead].head))
  {
    ChainSplits(nodes, ch.txsOf, oldHead, f, limit);
    ChainSplits(nodes, ch.txsOf, newHead, f, limit);
  }

  /** Nothing is lost: a transaction of the abandoned branch, if that lies within the limit, is pending afterwards or on
      the new chain. */
  lemma NothingIsLost(nodes: Nodes, ch: Chain, list: BlockList, newHead: Ptr, oldHead: Ptr, f: Ptr,
                      limit: int, pending: set<Tx>, t: Tx)
    requires Rooted(nodes) && IsLinked(nodes, newHead) && IsLinked(nodes, oldHead) && ListOk(ch, list)
    requires IsFork(nodes, newHead, oldHead, ForkBcn(f))
    requires BranchWithin(nodes, oldHead, f, limit)
    requires t in pending || t in ChainTxs(ch.txsOf, HashOf(nodes[oldHead].head))
    ensures || t in pending + MovedTxs(nodes, ch, list, oldHead, ForkBcn(f), limit)
                    - MovedTxs(nodes, ch, list, newHead, ForkBcn(f), limit)
            || t in ChainTxs(ch.txsOf, HashOf(nodes[newHead].head))
  {
    ChainSplits(nodes, ch.txsOf, oldHead, f, limit);
    ChainSplits(nodes, ch.txsOf, newHead, f, limit);
  }
}
