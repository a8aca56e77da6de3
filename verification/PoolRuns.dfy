/** Runs of block cache and transaction pool together: when a pending transaction can be on the head's chain. */
module PoolRuns {
  import opened Basics
  import opened Blocks
  import opened BlockTree
  import opened BlockCacheState
  import opened Finality
  import opened PendingTxs
  import opened RecentBlocks
  import opened TxMigration
  import opened PoolChains

  /** `waiting` is a node that was linked and of which the pool has not been told yet. */
  datatype Joint = Joint(cache: State, pool: Pool, waiting: Option<Ptr>, now: int)

  datatype Act =
    | Cache(e: Event)
    | Link(n: Ptr, update: Option<seq<string>>)
    | Notify(fork: Fork)
    | Offer(t: Tx)
    | Clear
    | Forget(t: Tx)
    | Wait(now: int)

  // ----- Steps -----

  /** What verification establishes of a block before it is linked. */
  ghost predicate Acceptable(ch: Chain, nodes: Nodes, n: Ptr) {
    && n in nodes && nodes[n].parent.Some? && IsLinked(nodes, nodes[n].parent.value)
    && VerifyBlockHead(nodes[n].head, nodes[nodes[n].parent.value].head)
    && forall t :: t in ch.txsOf(nodes[n].head) ==> IsCreatedBefore(t, nodes[n].head.time)
  }

  ghost predicate Ready(ch: Chain, s: Joint) {
    && Rooted(s.cache.nodes) && ListOk(ch, s.pool.list)
    && IsLinked(s.cache.nodes, s.cache.head) && IsLinked(s.cache.nodes, s.pool.head)
    && (s.waiting.Some? ==> IsLinked(s.cache.nodes, s.waiting.value))
  }

  ghost predicate NotifyStep(ch: Chain, s: Joint, fork: Fork, t: Joint) {
    && Ready(ch, s) && s.waiting.Some?
    && var nodes, n, head := s.cache.nodes, s.waiting.value, s.cache.head;
       && IsFork(nodes, HeadAfter(nodes, n, head), s.pool.head, fork)
       && t == s.(pool := Notified(nodes, ch, s.pool, n, head, fork, s.now), waiting := None)
  }

  /** One block at a time is linked and made known to the pool; everything else can come in between. */
  ghost predicate JointStep(ch: Chain, rest: Tx -> bool, s: Joint, a: Act, t: Joint) {
    match a
    case Cache(e) => !e.Linking? && Step(s.cache, e, t.cache) && t == s.(cache := t.cache)
    case Link(n, update) =>
      && s.waiting.None? && Acceptable(ch, s.cache.nodes, n)
      && Step(s.cache, Linking(n, update), t.cache) && t == s.(cache := t.cache, waiting := Some(n))
    case Notify(fork) => NotifyStep(ch, s, fork, t)
    case Offer(x) => ListOk(ch, s.pool.list) && t == s.(pool := Offered(ch, rest, s.pool, x, s.now))
    case Clear =>
      && s.cache.root in s.cache.nodes && s.cache.nodes[s.cache.root].head.time <= s.now
      && t == s.(pool := ClearedPool(s.pool, s.cache.nodes[s.cache.root].head, s.now))
    case Forget(x) => t == s.(pool := s.pool.(pending := s.pool.pending - {x}))
    case Wait(now) => s.now <= now < TWO_63 && t == s.(now := now)
  }

  /** A new cache and a pool without transactions that holds the recent blocks of the stored chain. */
  ghost predicate JointInit(ch: Chain, s: Joint) {
    && Init(s.cache) && s.waiting.None? && 0 <= s.now < TWO_63
    && s.cache.root in s.cache.nodes
    && s.pool == Pool(s.pool.list, s.cache.nodes[s.cache.root].head, {}, s.cache.root)
    && ListOk(ch, s.pool.list) && GoodChain(ch, s.pool.list, HashOf(s.pool.seen), s.now)
  }

  ghost predicate JointRun(ch: Chain, rest: Tx -> bool, ss: seq<Joint>, acts: seq<Act>) {
    && |ss| == |acts| + 1 && JointInit(ch, ss[0])
    && forall i :: 0 <= i < |acts| ==> JointStepAt(ch, rest, ss, acts, i)
  }

  ghost predicate JointStepAt(ch: Chain, rest: Tx -> bool, ss: seq<Joint>, acts: seq<Act>, i: nat)
    requires |ss| == |acts| + 1 && i < |acts|
  {
    JointStep(ch, rest, ss[i], acts[i], ss[i + 1])
  }

  // ----- Invariant -----

  ghost predicate GoodChain(ch: Chain, list: BlockList, h: Hash, now: int) {
    Fine(ch, h) && Held(list, h, now - FILTER_TIME)
  }

  ghost predicate GoodNode(ch: Chain, list: BlockList, nodes: Nodes, x: Ptr, now: int) {
    IsLinked(nodes, x) ==> GoodChain(ch, list, HashOf(nodes[x].head), now)
  }

  ghost predicate PoolOk(ch: Chain, nodes: Nodes, p: Pool, waiting: Option<Ptr>, now: int) {
    && 0 <= now < TWO_63 && ListOk(ch, p.list)
    && IsLinked(nodes, p.head) && waiting != Some(p.head) && GoodChain(ch, p.list, HashOf(p.seen), now)
    && (forall x: Ptr :: waiting != Some(x) ==> GoodNode(ch, p.list, nodes, x, now))
    && (waiting.Some? ==> WaitingOk(ch, nodes, p.list, waiting.value, now))
  }

  ghost predicate WaitingOk(ch: Chain, nodes: Nodes, list: BlockList, n: Ptr, now: int) {
    && IsLinked(nodes, n) && Fine(ch, HashOf(nodes[n].head))
    && Held(list, nodes[n].head.parentHash, now - FILTER_TIME)
  }

  ghost predicate JointOk(ch: Chain, s: Joint) {
    Sealed(s.cache) && PoolOk(ch, s.cache.nodes, s.pool, s.waiting, s.now)
  }

  // ----- The cache moves -----

  /** The same nodes are linked and hold the same blocks, but for one that may be new. */
  ghost predicate SameLinks(nodes: Nodes, nodes': Nodes, fresh': Option<Ptr>) {
    && (forall x: Ptr :: IsLinked(nodes, x) ==> IsLinked(nodes', x) && nodes'[x].head == nodes[x].head)
    && (forall x: Ptr :: IsLinked(nodes', x) && !IsLinked(nodes, x) ==> fresh' == Some(x))
  }

  lemma CacheMoves(s: State, e: Event, t: State)
    requires Sealed(s) && Step(s, e, t)
    ensures Sealed(t) && SameLinks(s.nodes, t.nodes, if e.Linking? then Some(e.n) else None)
  {
    SealedStep(s, e, t);
    forall x: Ptr
      ensures LinkMoves(s, e, t, x)
    {
      LinkMovesAt(s, e, t, x);
    }
    assert forall x: Ptr :: IsLinked(s.nodes, x) || IsLinked(t.nodes, x) ==> LinkMoves(s, e, t, x);
  }

  lemma SealedStep(s: State, e: Event, t: State)
    requires Sealed(s) && Step(s, e, t)
    ensures Sealed(t)
  {
    Unsealed(s);
    StepInv(s, e, t);
    Unsealed(t);
  }

  predicate LinkMoves(s: State, e: Event, t: State, x: Ptr) {
    && (IsLinked(s.nodes, x) ==> IsLinked(t.nodes, x) && t.nodes[x].head == s.nodes[x].head)
    && (IsLinked(t.nodes, x) && !IsLinked(s.nodes, x) ==> e.Linking? && e.n == x)
  }

  lemma LinkMovesAt(s: State, e: Event, t: State, x: Ptr)
    requires Sealed(s) && Step(s, e, t)
    ensures LinkMoves(s, e, t, x)
  {
    Unsealed(s);
    LinkedKeepsBlock(s, e, t, x);
  }

  lemma CacheKeepsPool(ch: Chain, nodes: Nodes, nodes': Nodes, p: Pool, waiting: Option<Ptr>, now: int)
    requires PoolOk(ch, nodes, p, waiting, now) && SameLinks(nodes, nodes', None)
    ensures PoolOk(ch, nodes', p, waiting, now) && nodes'[p.head].head == nodes[p.head].head
  {
    forall x: Ptr | waiting != Some(x)
      ensures GoodNode(ch, p.list, nodes', x, now)
    {
      assert GoodNode(ch, p.list, nodes, x, now);
    }
  }

  lemma LinkKeepsPool(ch: Chain, nodes: Nodes, nodes': Nodes, p: Pool, n: Ptr, now: int)
    requires PoolOk(ch, nodes, p, None, now) && SameLinks(nodes, nodes', Some(n)) && Acceptable(ch, nodes, n)
    requires !IsLinked(nodes, n) && IsLinked(nodes', n) && nodes'[n].head == nodes[n].head
    ensures PoolOk(ch, nodes', p, Some(n), now) && nodes'[p.head].head == nodes[p.head].head
  {
    assert GoodNode(ch, p.list, nodes, nodes[n].parent.value, now);
    forall x: Ptr | x != n
      ensures GoodNode(ch, p.list, nodes', x, now)
    {
      assert GoodNode(ch, p.list, nodes, x, now);
    }
  }

  lemma LinkingLinks(s: State, n: Ptr, update: Option<seq<string>>, t: State)
    requires Step(s, Linking(n, update), t) && n in s.nodes && s.nodes[n].parent.Some?
    requires IsLinked(s.nodes, s.nodes[n].parent.value)
    ensures !IsLinked(s.nodes, n) && IsLinked(t.nodes, n) && t.nodes[n].head == s.nodes[n].head
  {
  }

  // ----- The pool moves -----

  lemma ListTimes(ch: Chain, list: BlockList)
    requires ListOk(ch, list)
    ensures forall k :: k in list ==> k.HashOf? && list[k].time == k.head.time
  {
  }

  /** A change of the list, or of the clock, after which all recent blocks are still there. */
  lemma ListKeepsPool(ch: Chain, nodes: Nodes, p: Pool, p': Pool, waiting: Option<Ptr>, now: int, now': int)
    requires PoolOk(ch, nodes, p, waiting, now) && now <= now' < TWO_63 && ListOk(ch, p'.list)
    requires p'.seen == p.seen && p'.head == p.head
    requires forall k :: k in p.list && p.list[k].time >= now' - FILTER_TIME ==> k in p'.list
    ensures PoolOk(ch, nodes, p', waiting, now')
  {
    var before, after := now - FILTER_TIME, now' - FILTER_TIME;
    ListTimes(ch, p.list);
    HeldStays(p.list, p'.list, HashOf(p.seen), before, after);
    forall x: Ptr | waiting != Some(x)
      ensures GoodNode(ch, p'.list, nodes, x, now')
    {
      assert GoodNode(ch, p.list, nodes, x, now);
      if IsLinked(nodes, x) {
        HeldStays(p.list, p'.list, HashOf(nodes[x].head), before, after);
      }
    }
    if waiting.Some? {
      HeldStays(p.list, p'.list, nodes[waiting.value].head.parentHash, before, after);
    }
  }

  lemma NotifyKeepsPool(ch: Chain, s: Joint, fork: Fork, t: Joint)
    requires JointOk(ch, s) && NotifyStep(ch, s, fork, t)
    ensures JointOk(ch, t)
  {
    var nodes, n, now := s.cache.nodes, s.waiting.value, s.now;
    var b, list, list' := nodes[n].head, s.pool.list, t.pool.list;
    var limit := now - FILTER_TIME;
    ListTimes(ch, list);
    HeldStays(list, list', b.parentHash, limit, limit);
    assert GoodChain(ch, list', HashOf(b), now);
    HeldStays(list, list', HashOf(s.pool.seen), limit, limit);
    forall x: Ptr
      ensures GoodNode(ch, list', nodes, x, now)
    {
      if x != n && IsLinked(nodes, x) {
        assert GoodNode(ch, list, nodes, x, now);
        HeldStays(list, list', HashOf(nodes[x].head), limit, limit);
      }
    }
  }

  /** The invariant is kept by every step. */
  lemma JointStepOk(ch: Chain, rest: Tx -> bool, s: Joint, a: Act, t: Joint)
    requires JointOk(ch, s) && JointStep(ch, rest, s, a, t)
    ensures JointOk(ch, t)
  {
    match a
    case Cache(e) =>
      CacheMoves(s.cache, e, t.cache);
      CacheKeepsPool(ch, s.cache.nodes, t.cache.nodes, s.pool, s.waiting, s.now);
    case Link(n, update) =>
      CacheMoves(s.cache, Linking(n, update), t.cache);
      LinkingLinks(s.cache, n, update, t.cache);
      LinkKeepsPool(ch, s.cache.nodes, t.cache.nodes, s.pool, n, s.now);
    case Notify(fork) => NotifyKeepsPool(ch, s, fork, t);
    case _ =>
      ListKeepsPool(ch, s.cache.nodes, s.pool, t.pool, s.waiting, s.now, t.now);
  }

  lemma JointInitOk(ch: Chain, s: Joint)
    requires JointInit(ch, s)
    ensures JointOk(ch, s)
  {
    InitInv(s.cache);
    Unsealed(s.cache);
    forall x: Ptr
      ensures GoodNode(ch, s.pool.list, s.cache.nodes, x, s.now)
    {
    }
  }

  lemma {:induction false} JointRunOk(ch: Chain, rest: Tx -> bool, ss: seq<Joint>, acts: seq<Act>, i: nat)
    requires JointRun(ch, rest, ss, acts) && i < |ss|
    ensures JointOk(ch, ss[i])
  {
    if i == 0 {
      JointInitOk(ch, ss[0]);
    } else {
      JointRunOk(ch, rest, ss, acts, i - 1);
      assert JointStepAt(ch, rest, ss, acts, i - 1);
      JointStepOk(ch, rest, ss[i - 1], acts[i - 1], ss[i]);
    }
  }

  // ----- Pending and on the chain -----

  function TipHash(s: Joint): Hash
    requires IsLinked(s.cache.nodes, s.pool.head)
  {
    HashOf(s.cache.nodes[s.pool.head].head)
  }

  /** No pending transaction that could still get into a block is on the chain of the pool's head. */
  ghost predicate OffChain(ch: Chain, s: Joint) {
    && IsLinked(s.cache.nodes, s.pool.head)
    && AllOff(ch, s.pool.pending, TipHash(s), s.now)
  }

  /** An offered transaction that would be taken in although the head's chain has it: the chain of the first block
      seen of the greatest number does not have it among its blocks of the last 90 seconds. */
  ghost predicate Overlooked(ch: Chain, rest: Tx -> bool, s: Joint, t: Tx) {
    && t !in s.pool.pending && |s.pool.pending| <= MAX_CACHE_TXS && Fit(rest, t, s.now)
    && IsLinked(s.cache.nodes, s.pool.head) && t in ChainTxs(ch.txsOf, TipHash(s))
    && t !in WindowTxs(ch.txsOf, HashOf(s.pool.seen), s.pool.seen.time - FILTER_TIME)
  }

  /** A transaction that the abandoned branch repeats: the chain up to the fork has it too, the new branch does not. */
  ghost predicate Repeated(ch: Chain, nodes: Nodes, oldHead: Ptr, newHead: Ptr, f: Ptr, now: int, t: Tx) {
    && Rooted(nodes) && IsLinked(nodes, oldHead) && IsLinked(nodes, newHead) && IsLinked(nodes, f)
    && !Aged(t, now) && t in ChainTxs(ch.txsOf, HashOf(nodes[f].head))
    && t in BranchTxs(nodes, ch.txsOf, Some(oldHead), f, now - FILTER_TIME)
    && t !in BranchTxs(nodes, ch.txsOf, Some(newHead), f, now - FILTER_TIME)
  }

  /** The steps after which a pending transaction is on the head's chain, told from the state before. */
  ghost predicate Breaks(ch: Chain, rest: Tx -> bool, s: Joint, a: Act) {
    match a
    case Offer(t) => Overlooked(ch, rest, s, t)
    case Notify(fork) =>
      && fork.ForkBcn? && Ready(ch, s) && s.waiting.Some?
      && var next := HeadAfter(s.cache.nodes, s.waiting.value, s.cache.head);
         exists t :: Repeated(ch, s.cache.nodes, s.pool.head, next, fork.node, s.now, t)
    case _ => false
  }

  lemma FitIsYoung(rest: Tx -> bool, t: Tx, now: int)
    requires Fit(rest, t, now) && 0 <= now < TWO_63
    ensures !Aged(t, now)
  {
    WrapSmall(now - t.time);
  }

  lemma OfferIff(ch: Chain, rest: Tx -> bool, s: Joint, x: Tx, t: Joint)
    requires Injective(ch.hash) && PoolOk(ch, s.cache.nodes, s.pool, s.waiting, s.now) && OffChain(ch, s)
    requires t == s.(pool := Offered(ch, rest, s.pool, x, s.now))
    ensures OffChain(ch, t) <==> !Overlooked(ch, rest, s, x)
  {
    OfferedIff(ch, rest, s.pool, x, TipHash(s), s.now);
  }

  lemma OfferedIff(ch: Chain, rest: Tx -> bool, p: Pool, x: Tx, h: Hash, now: int)
    requires Injective(ch.hash) && 0 <= now < TWO_63 && AllOff(ch, p.pending, h, now)
    requires ListOk(ch, p.list) && GoodChain(ch, p.list, HashOf(p.seen), now)
    ensures AllOff(ch, Offered(ch, rest, p, x, now).pending, h, now) <==>
            !(&& x !in p.pending && |p.pending| <= MAX_CACHE_TXS && Fit(rest, x, now) && x in ChainTxs(ch.txsOf, h)
              && x !in WindowTxs(ch.txsOf, HashOf(p.seen), p.seen.time - FILTER_TIME))
  {
    if Fit(rest, x, now) {
      SeenIsWindow(ch, rest, p, x, now);
      OneMoreOff(ch, p.pending, x, h, now);
    }
  }

  /** The lookup of an offered transaction is exact. */
  lemma SeenIsWindow(ch: Chain, rest: Tx -> bool, p: Pool, x: Tx, now: int)
    requires Injective(ch.hash) && 0 <= now < TWO_63 && Fit(rest, x, now)
    requires ListOk(ch, p.list) && GoodChain(ch, p.list, HashOf(p.seen), now)
    ensures !Aged(x, now)
    ensures OnSeenChain(ch, p, x) <==> x in WindowTxs(ch.txsOf, HashOf(p.seen), p.seen.time - FILTER_TIME)
  {
    FitIsYoung(rest, x, now);
    LookupIsWindow(ch, p.list, HashOf(p.seen), p.seen.time - FILTER_TIME, now - FILTER_TIME, x);
  }

  lemma OneMoreOff(ch: Chain, pending: set<Tx>, x: Tx, h: Hash, now: int)
    requires AllOff(ch, pending, h, now)
    ensures AllOff(ch, pending + {x}, h, now) <==> (x in ChainTxs(ch.txsOf, h) ==> Aged(x, now))
  {
    assert x in pending + {x};
  }

  /** No transaction of `pending` that could still get into a block is on the chain. */
  ghost predicate AllOff(ch: Chain, pending: set<Tx>, h: Hash, now: int) {
    forall t :: t in pending && t in ChainTxs(ch.txsOf, h) ==> Aged(t, now)
  }

  /** A change of head over a fork. */
  lemma ForkAt(ch: Chain, nodes: Nodes, oldHead: Ptr, newHead: Ptr, f: Ptr, now: int, pending: set<Tx>, t: Tx)
    requires Rooted(nodes) && IsLinked(nodes, oldHead) && IsLinked(nodes, newHead)
    requires IsFork(nodes, newHead, oldHead, ForkBcn(f)) && Fine(ch, HashOf(nodes[newHead].head))
    requires AllOff(ch, pending, HashOf(nodes[oldHead].head), now)
    ensures var limit := now - FILTER_TIME;
            var after := pending + Elements(BranchTxs(nodes, ch.txsOf, Some(oldHead), f, limit))
                         - Elements(BranchTxs(nodes, ch.txsOf, Some(newHead), f, limit));
            t in after && t in ChainTxs(ch.txsOf, HashOf(nodes[newHead].head)) && !Aged(t, now) <==>
            Repeated(ch, nodes, oldHead, newHead, f, now, t)
  {
    var limit := now - FILTER_TIME;
    ChainSplits(nodes, ch.txsOf, oldHead, f, limit);
    ChainSplits(nodes, ch.txsOf, newHead, f, limit);
    if t in ChainTxs(ch.txsOf, HashOf(nodes[newHead].head)) && !Aged(t, now) {
      YoungOnBranch(nodes, ch, newHead, f, limit, t);
    }
  }

  lemma ForkIff(ch: Chain, nodes: Nodes, oldHead: Ptr, newHead: Ptr, f: Ptr, now: int, pending: set<Tx>)
    requires Rooted(nodes) && IsLinked(nodes, oldHead) && IsLinked(nodes, newHead)
    requires IsFork(nodes, newHead, oldHead, ForkBcn(f)) && Fine(ch, HashOf(nodes[newHead].head))
    requires AllOff(ch, pending, HashOf(nodes[oldHead].head), now)
    ensures var limit := now - FILTER_TIME;
            var after := pending + Elements(BranchTxs(nodes, ch.txsOf, Some(oldHead), f, limit))
                         - Elements(BranchTxs(nodes, ch.txsOf, Some(newHead), f, limit));
            AllOff(ch, after, HashOf(nodes[newHead].head), now) <==>
            forall t :: !Repeated(ch, nodes, oldHead, newHead, f, now, t)
  {
    forall t {
      ForkAt(ch, nodes, oldHead, newHead, f, now, pending, t);
    }
  }

  /** A change of head without a fork, by the list of recent blocks. */
  lemma NoForkKeeps(ch: Chain, list: BlockList, h: Hash, now: int, pending: set<Tx>)
    requires Injective(ch.hash) && ListOk(ch, list) && GoodChain(ch, list, h, now)
    ensures AllOff(ch, pending - RecentTxs(ch, list, h, now - FILTER_TIME), h, now)
  {
    forall t | t in pending - RecentTxs(ch, list, h, now - FILTER_TIME) && t in ChainTxs(ch.txsOf, h)
      ensures Aged(t, now)
    {
      if !Aged(t, now) {
        YoungIsRecent(ch, list, h, now - FILTER_TIME, t);
      }
    }
  }

  lemma MovedIff(
    ch: Chain, nodes: Nodes, list: BlockList, oldHead: Ptr, newHead: Ptr, fork: Fork, now: int, pending: set<Tx>)
    requires Injective(ch.hash) && Rooted(nodes) && IsLinked(nodes, oldHead) && IsLinked(nodes, newHead)
    requires ListOk(ch, list) && GoodChain(ch, list, HashOf(nodes[newHead].head), now)
    requires IsFork(nodes, newHead, oldHead, fork) && AllOff(ch, pending, HashOf(nodes[oldHead].head), now)
    ensures var limit := now - FILTER_TIME;
            var after := pending + MovedTxs(nodes, ch, list, oldHead, fork, limit)
                         - MovedTxs(nodes, ch, list, newHead, fork, limit);
            AllOff(ch, after, HashOf(nodes[newHead].head), now) <==>
            (fork.ForkBcn? ==> forall t :: !Repeated(ch, nodes, oldHead, newHead, fork.node, now, t))
  {
    match fork
    case SameHead =>
    case ForkBcn(f) => ForkIff(ch, nodes, oldHead, newHead, f, now, pending);
    case NoForkBcn =>
      var moved := MovedTxs(nodes, ch, list, oldHead, fork, now - FILTER_TIME);
      NoForkKeeps(ch, list, HashOf(nodes[newHead].head), now, pending + moved);
  }

  lemma NotifyIff(ch: Chain, rest: Tx -> bool, s: Joint, fork: Fork, t: Joint)
    requires Injective(ch.hash) && JointOk(ch, s) && OffChain(ch, s) && NotifyStep(ch, s, fork, t)
    ensures OffChain(ch, t) <==> !Breaks(ch, rest, s, Notify(fork))
  {
    NotifyKeepsPool(ch, s, fork, t);
    assert GoodNode(ch, t.pool.list, s.cache.nodes, t.pool.head, s.now);
    MovedIff(ch, s.cache.nodes, t.pool.list, s.pool.head, t.pool.head, fork, s.now, s.pool.pending);
  }

  /** Exactly which steps put a pending transaction onto the head's chain. */
  lemma StepIff(ch: Chain, rest: Tx -> bool, s: Joint, a: Act, t: Joint)
    requires Injective(ch.hash) && JointOk(ch, s) && OffChain(ch, s) && JointStep(ch, rest, s, a, t)
    ensures OffChain(ch, t) <==> !Breaks(ch, rest, s, a)
  {
    match a
    case Cache(e) => CacheMoves(s.cache, e, t.cache);
    case Link(n, update) => CacheMoves(s.cache, Linking(n, update), t.cache);
    case Notify(fork) => NotifyIff(ch, rest, s, fork, t);
    case Offer(x) => OfferIff(ch, rest, s, x, t);
    case _ =>
  }

  /** Over every run of cache and pool: no pending transaction that could still get into a block is ever on the chain
      of the pool's head, exactly if no offered one was overlooked and no abandoned branch repeated one. */
  lemma PendingOffChainIff(ch: Chain, rest: Tx -> bool, ss: seq<Joint>, acts: seq<Act>)
    requires Injective(ch.hash) && JointRun(ch, rest, ss, acts)
    ensures (forall i :: 0 <= i < |ss| ==> OffChain(ch, ss[i])) <==>
            (forall i :: 0 <= i < |acts| ==> !Breaks(ch, rest, ss[i], acts[i]))
  {
    if forall i :: 0 <= i < |acts| ==> !Breaks(ch, rest, ss[i], acts[i]) {
      forall i | 0 <= i < |ss|
        ensures OffChain(ch, ss[i])
      {
        UnbrokenIsOff(ch, rest, ss, acts, i);
      }
    }
    if forall i :: 0 <= i < |ss| ==> OffChain(ch, ss[i]) {
      forall i | 0 <= i < |acts|
        ensures !Breaks(ch, rest, ss[i], acts[i])
      {
        RunStepIff(ch, rest, ss, acts, i);
      }
    }
  }

  lemma RunStepIff(ch: Chain, rest: Tx -> bool, ss: seq<Joint>, acts: seq<Act>, i: nat)
    requires Injective(ch.hash) && JointRun(ch, rest, ss, acts) && i < |acts| && OffChain(ch, ss[i])
    ensures OffChain(ch, ss[i + 1]) <==> !Breaks(ch, rest, ss[i], acts[i])
  {
    JointRunOk(ch, rest, ss, acts, i);
    assert JointStepAt(ch, rest, ss, acts, i);
    StepIff(ch, rest, ss[i], acts[i], ss[i + 1]);
  }

  lemma {:induction false} UnbrokenIsOff(ch: Chain, rest: Tx -> bool, ss: seq<Joint>, acts: seq<Act>, i: nat)
    requires Injective(ch.hash) && JointRun(ch, rest, ss, acts) && i < |ss|
    requires forall j :: 0 <= j < i ==> !Breaks(ch, rest, ss[j], acts[j])
    ensures OffChain(ch, ss[i])
  {
    if i == 0 {
      JointInitOk(ch, ss[0]);
    } else {
      UnbrokenIsOff(ch, rest, ss, acts, i - 1);
      RunStepIff(ch, rest, ss, acts, i - 1);
    }
  }

  // ----- When that does not happen -----

  /** Nothing is overlooked while the two heads are the same block and that is not in the future. */
  lemma SameHeadOverlooksNothing(ch: Chain, rest: Tx -> bool, s: Joint, t: Tx)
    requires PoolOk(ch, s.cache.nodes, s.pool, s.waiting, s.now)
    requires HashOf(s.pool.seen) == TipHash(s) && s.pool.seen.time <= s.now
    ensures !Overlooked(ch, rest, s, t)
  {
    if Overlooked(ch, rest, s, t) {
      FitIsYoung(rest, t, s.now);
      YoungInWindow(ch, HashOf(s.pool.seen), s.pool.seen.time - FILTER_TIME, t);
    }
  }

  /** An abandoned chain without repeats brings nothing back onto the new one. */
  lemma NoRepeatsNothingBreaks(ch: Chain, nodes: Nodes, oldHead: Ptr, newHead: Ptr, f: Ptr, now: int, t: Tx)
    requires Rooted(nodes) && IsLinked(nodes, oldHead) && IsLinked(nodes, newHead)
    requires IsFork(nodes, newHead, oldHead, ForkBcn(f)) && NoRepeats(ch.txsOf, HashOf(nodes[oldHead].head))
    ensures !Repeated(ch, nodes, oldHead, newHead, f, now, t)
  {
    ChainSplits(nodes, ch.txsOf, oldHead, f, now - FILTER_TIME);
  }

  /** So while every transaction is offered at such a moment and no abandoned chain has repeats, no pending
      transaction that could still get into a block is on the chain of the pool's head. */
  lemma CarefulRunIsOff(ch: Chain, rest: Tx -> bool, ss: seq<Joint>, acts: seq<Act>, i: nat)
    requires Injective(ch.hash) && JointRun(ch, rest, ss, acts) && i < |ss|
    requires forall j :: 0 <= j < |acts| ==> Careful(ch, ss[j], acts[j])
    ensures OffChain(ch, ss[i])
  {
    forall j | 0 <= j < |acts|
      ensures !Breaks(ch, rest, ss[j], acts[j])
    {
      JointRunOk(ch, rest, ss, acts, j);
      assert JointStepAt(ch, rest, ss, acts, j);
      CarefulStep(ch, rest, ss[j], acts[j], ss[j + 1]);
    }
    PendingOffChainIff(ch, rest, ss, acts);
  }

  ghost predicate Careful(ch: Chain, s: Joint, a: Act) {
    IsLinked(s.cache.nodes, s.pool.head) ==>
      && (a.Offer? ==> HashOf(s.pool.seen) == TipHash(s) && s.pool.seen.time <= s.now)
      && (a.Notify? ==> NoRepeats(ch.txsOf, TipHash(s)))
  }

  lemma CarefulStep(ch: Chain, rest: Tx -> bool, s: Joint, a: Act, t: Joint)
    requires JointOk(ch, s) && JointStep(ch, rest, s, a, t) && Careful(ch, s, a)
    ensures !Breaks(ch, rest, s, a)
  {
    match a
    case Offer(x) => SameHeadOverlooksNothing(ch, rest, s, x);
    case Notify(fork) =>
      if fork.ForkBcn? {
        var next := HeadAfter(s.cache.nodes, s.waiting.value, s.cache.head);
        forall x {
          NoRepeatsNothingBreaks(ch, s.cache.nodes, s.pool.head, next, fork.node, s.now, x);
        }
      }
    case _ =>
  }

  // ----- The two heads -----

  /** Between blocks the pool is at the cache's head.  The first block seen of the greatest number is as high. */
  ghost predicate SameHeight(s: Joint) {
    && IsLinked(s.cache.nodes, s.pool.head)
    && s.pool.seen.number == s.cache.nodes[s.pool.head].head.number
    && match s.waiting
       case None => s.cache.head == s.pool.head
       case Some(n) =>
         && IsLinked(s.cache.nodes, n)
         && s.cache.head == if Better(s.cache.nodes, n, s.pool.head) then n else s.pool.head
  }

  lemma HeadStays(s: State, e: Event, t: State)
    requires Sealed(s) && Step(s, e, t)
    ensures t.head == if e.Linking? && TakesOver(s, e.n) then e.n else s.head
  {
    Unsealed(s);
    HeadMoves(s, e, t);
  }

  lemma LevelStep(ch: Chain, rest: Tx -> bool, s: Joint, a: Act, t: Joint)
    requires JointOk(ch, s) && SameHeight(s) && JointStep(ch, rest, s, a, t)
    ensures SameHeight(t)
  {
    match a
    case Cache(e) =>
      CacheMoves(s.cache, e, t.cache);
      HeadStays(s.cache, e, t.cache);
    case Link(n, update) =>
      CacheMoves(s.cache, Linking(n, update), t.cache);
      HeadStays(s.cache, Linking(n, update), t.cache);
      LinkingLinks(s.cache, n, update, t.cache);
    case _ =>
  }

  /** In every state of every run. */
  lemma {:induction false} LevelRun(ch: Chain, rest: Tx -> bool, ss: seq<Joint>, acts: seq<Act>, i: nat)
    requires JointRun(ch, rest, ss, acts) && i < |ss|
    ensures SameHeight(ss[i])
  {
    if i > 0 {
      LevelRun(ch, rest, ss, acts, i - 1);
      JointRunOk(ch, rest, ss, acts, i - 1);
      assert JointStepAt(ch, rest, ss, acts, i - 1);
      LevelStep(ch, rest, ss[i - 1], acts[i - 1], ss[i]);
    }
  }

  /** The two heads are the same block after a notification exactly if the new block is higher than all before, or
      they were and it does not take over; a block that takes over at the same height parts them. */
  lemma HeadsMeetIff(ch: Chain, s: Joint, fork: Fork, t: Joint)
    requires SameHeight(s) && NotifyStep(ch, s, fork, t)
    ensures var b := s.cache.nodes[s.waiting.value].head;
            HashOf(t.pool.seen) == TipHash(t) <==>
            || b.number > s.pool.seen.number
            || (if Better(s.cache.nodes, s.waiting.value, s.pool.head) then b == s.pool.seen
                else HashOf(s.pool.seen) == TipHash(s))
  {
  }
}
