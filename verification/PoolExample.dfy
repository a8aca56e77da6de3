/** A run in which a transaction becomes pending although it is on the chain of the pool's head, and a block that
    repeats it and is accepted.  Of two blocks of one number the later one comes in first; the other one takes over,
    but the pool still looks transactions up from the one seen first. */
module PoolExample {
  import opened Basics
  import opened Blocks
  import opened BlockTree
  import opened BlockCacheState
  import opened BlockCacheAdd
  import opened Finality
  import opened HeadLoss
  import opened PendingTxs
  import opened RecentBlocks
  import opened TxMigration
  import opened PoolChains
  import opened PoolRuns

  const NOW := 20_000_000_000
  const FIRST_BLOCK := Head(Raw(1), 10, "w4", 9_000_000_000, 0)
  const LATE := Head(HashOf(FIRST_BLOCK), 11, "w2", 15_000_000_000, 0)
  const EARLY := Head(HashOf(FIRST_BLOCK), 11, "w1", 12_000_000_000, 0)
  const NEXT := Head(HashOf(EARLY), 12, "w3", 18_000_000_000, 0)

  const REPEATED := Tx(10_000_000_000, 60_000_000_000, 100, [], 0)

  function BaseTx(b: Head): Tx {
    Tx(b.time, b.time + 1, 100, [], 1)
  }

  function TxsOf(b: Head): seq<Tx> {
    if b == EARLY || b == NEXT then [BaseTx(b), REPEATED] else []
  }

  function ChainWith(hash: Tx -> Bytes): Chain {
    Chain(TxsOf, hash)
  }

  // ----- A block comes in -----

  lemma JointMore(ch: Chain, rest: Tx -> bool, ss: seq<Joint>, acts: seq<Act>, a: Act, t: Joint)
    requires JointRun(ch, rest, ss, acts) && JointStep(ch, rest, ss[|acts|], a, t)
    ensures JointRun(ch, rest, ss + [t], acts + [a])
  {
    forall i | 0 <= i < |acts| + 1
      ensures JointStepAt(ch, rest, ss + [t], acts + [a], i)
    {
      assert i < |acts| ==> JointStepAt(ch, rest, ss, acts, i);
    }
  }

  /** It is added and linked. */
  lemma JointGrows(ch: Chain, rest: Tx -> bool, ss: seq<Joint>, acts: seq<Act>, blk: Head, p: Ptr)
    returns (tt: seq<Joint>, more: seq<Act>)
    requires JointRun(ch, rest, ss, acts) && ss[|acts|].waiting.None? && CanGrow(ss[|acts|].cache, blk, p)
    requires forall t :: t in ch.txsOf(blk) ==> IsCreatedBefore(t, blk.time)
    ensures JointRun(ch, rest, tt, more) && ss <= tt && ss[|acts|].cache.head in ss[|acts|].cache.nodes
    ensures var s := ss[|acts|];
            tt[|more|] == s.(cache := Grown(s.cache, blk, p), waiting := Some(s.cache.next))
  {
    var s := ss[|acts|];
    JointRunOk(ch, rest, ss, acts, |acts|);
    GrowSteps(ch, rest, s, blk, p);
    var added := s.(cache := Added(s.cache, blk));
    JointMore(ch, rest, ss, acts, Cache(Adding(blk)), added);
    tt, more := ss + [added], acts + [Cache(Adding(blk))];
    var linked := s.(cache := Grown(s.cache, blk, p), waiting := Some(s.cache.next));
    JointMore(ch, rest, tt, more, Link(s.cache.next, None), linked);
    tt, more := tt + [linked], more + [Link(s.cache.next, None)];
  }

  lemma GrowSteps(ch: Chain, rest: Tx -> bool, s: Joint, blk: Head, p: Ptr)
    requires Sealed(s.cache) && s.waiting.None? && CanGrow(s.cache, blk, p)
    requires forall t :: t in ch.txsOf(blk) ==> IsCreatedBefore(t, blk.time)
    ensures ReadyToAdd(s.cache) && s.cache.head in s.cache.nodes
    ensures var added := s.(cache := Added(s.cache, blk));
            var linked := s.(cache := Grown(s.cache, blk, p), waiting := Some(s.cache.next));
            && JointStep(ch, rest, s, Cache(Adding(blk)), added)
            && JointStep(ch, rest, added, Link(s.cache.next, None), linked)
  {
    GrowsJointly(ch, s.cache, blk, p);
  }

  lemma GrowsJointly(ch: Chain, s: State, blk: Head, p: Ptr)
    requires Sealed(s) && CanGrow(s, blk, p)
    requires forall t :: t in ch.txsOf(blk) ==> IsCreatedBefore(t, blk.time)
    ensures ReadyToAdd(s) && s.head in s.nodes && Step(s, Adding(blk), Added(s, blk))
    ensures Step(Added(s, blk), Linking(s.next, None), Grown(s, blk, p))
    ensures Acceptable(ch, Added(s, blk).nodes, s.next)
  {
    Unsealed(s);
    ParentIsKnown(s, p);
    Grows(s, blk, p);
    Enters(s, blk, p);
  }

  // ----- Two children of the root -----

  predicate ChildOfZero(nodes: Nodes, x: Ptr) {
    && IsLinked(nodes, 0) && nodes[0].parent.None? && IsLinked(nodes, x) && nodes[x].parent == Some(0)
  }

  /** The heads fork at the root. */
  lemma ForkIsZero(nodes: Nodes, x: Ptr, y: Ptr)
    requires Rooted(nodes) && ChildOfZero(nodes, x) && x != y && (y == 0 || ChildOfZero(nodes, y))
    ensures IsFork(nodes, x, y, ForkBcn(0))
  {
    assert Up(nodes, 0) == [0];
    assert Up(nodes, x) == [x] + Up(nodes, 0) == [x, 0];
    assert y != 0 ==> Up(nodes, y) == [y] + Up(nodes, 0) == [y, 0];
    assert 0 in Up(nodes, x) && 0 in Up(nodes, y);
  }

  lemma ShortBranch(nodes: Nodes, txsOf: Head -> seq<Tx>, x: Ptr, limit: int)
    requires Rooted(nodes) && ChildOfZero(nodes, x) && x != 0 && nodes[x].head.time >= limit
    ensures BranchTxs(nodes, txsOf, Some(x), 0, limit) == txsOf(nodes[x].head)
    ensures BranchTxs(nodes, txsOf, Some(0), 0, limit) == []
  {
    assert ParentLinked(nodes, x);
  }

  // ----- The run -----

  const CACHE0 := NewCache(FIRST_BLOCK, LIST)
  const CACHE1 := Grown(CACHE0, LATE, 0)
  const CACHE2 := Grown(CACHE1, EARLY, 0)

  function List0(hash: Tx -> Bytes): BlockList {
    map[HashOf(FIRST_BLOCK) := BlockTxOf(ChainWith(hash), FIRST_BLOCK)]
  }

  function List1(hash: Tx -> Bytes): BlockList {
    Entered(ChainWith(hash), List0(hash), LATE)
  }

  function List2(hash: Tx -> Bytes): BlockList {
    Entered(ChainWith(hash), List1(hash), EARLY)
  }

  lemma Nodes1()
    ensures CanGrow(CACHE0, LATE, 0) && CACHE0.next == 2 && CACHE1.head == 2 && CACHE1.next == 3
    ensures ChildOfZero(CACHE1.nodes, 2) && CACHE1.nodes[2].head == LATE && CACHE1.nodes[0].head == FIRST_BLOCK
  {
  }

  lemma Nodes2()
    ensures CanGrow(CACHE1, EARLY, 0) && CACHE2.head == 3
    ensures ChildOfZero(CACHE2.nodes, 2) && CACHE2.nodes[2].head == LATE
    ensures ChildOfZero(CACHE2.nodes, 3) && CACHE2.nodes[3].head == EARLY
  {
  }

  lemma Starts(hash: Tx -> Bytes)
    ensures JointInit(ChainWith(hash), Joint(CACHE0, Pool(List0(hash), FIRST_BLOCK, {}, 0), None, NOW))
  {
    assert Held(List0(hash), Raw(1), NOW - FILTER_TIME);
    assert Held(List0(hash), HashOf(FIRST_BLOCK), NOW - FILTER_TIME);
    assert Fine(ChainWith(hash), Raw(1));
  }

  /** The later block comes in first. */
  lemma LateArrives(hash: Tx -> Bytes, rest: Tx -> bool) returns (ss: seq<Joint>, acts: seq<Act>)
    ensures JointRun(ChainWith(hash), rest, ss, acts)
    ensures ss[|acts|] == Joint(CACHE1, Pool(List1(hash), LATE, {}, 2), None, NOW)
  {
    var ch := ChainWith(hash);
    ss, acts := [Joint(CACHE0, Pool(List0(hash), FIRST_BLOCK, {}, 0), None, NOW)], [];
    Starts(hash);
    Nodes1();
    ss, acts := JointGrows(ch, rest, ss, acts, LATE, 0);
    JointRunOk(ch, rest, ss, acts, |acts|);
    var t := LateNotified(hash, ss[|acts|]);
    JointMore(ch, rest, ss, acts, Notify(ForkBcn(0)), t);
    ss, acts := ss + [t], acts + [Notify(ForkBcn(0))];
  }

  lemma LateNotified(hash: Tx -> Bytes, s: Joint) returns (t: Joint)
    requires s == Joint(CACHE1, Pool(List0(hash), FIRST_BLOCK, {}, 0), Some(2), NOW) && Sealed(s.cache)
    ensures NotifyStep(ChainWith(hash), s, ForkBcn(0), t)
    ensures t == Joint(CACHE1, Pool(List1(hash), LATE, {}, 2), None, NOW)
  {
    Nodes1();
    CacheRooted(s.cache);
    ForkIsZero(s.cache.nodes, 2, 0);
    ShortBranch(s.cache.nodes, TxsOf, 2, NOW - FILTER_TIME);
    t := Joint(CACHE1, Pool(List1(hash), LATE, {}, 2), None, NOW);
  }

  lemma CacheRooted(s: State)
    requires Sealed(s)
    ensures Rooted(s.nodes)
  {
    Unsealed(s);
    CacheIsRooted(s);
  }

  /** The other one takes over, though not as the block seen first. */
  lemma EarlyArrives(hash: Tx -> Bytes, rest: Tx -> bool)
    returns (ss: seq<Joint>, acts: seq<Act>, k: nat)
    ensures JointRun(ChainWith(hash), rest, ss, acts) && k < |ss|
    ensures ss[k] == Joint(CACHE1, Pool(List1(hash), LATE, {}, 2), None, NOW)
    ensures ss[|acts|] == Joint(CACHE2, Pool(List2(hash), LATE, {}, 3), None, NOW)
  {
    var ch := ChainWith(hash);
    ss, acts := LateArrives(hash, rest);
    k := |acts|;
    Nodes1();
    Nodes2();
    ss, acts := JointGrows(ch, rest, ss, acts, EARLY, 0);
    JointRunOk(ch, rest, ss, acts, |acts|);
    var t := EarlyNotified(hash, ss[|acts|]);
    JointMore(ch, rest, ss, acts, Notify(ForkBcn(0)), t);
    ss, acts := ss + [t], acts + [Notify(ForkBcn(0))];
  }

  lemma EarlyNotified(hash: Tx -> Bytes, s: Joint) returns (t: Joint)
    requires s == Joint(CACHE2, Pool(List1(hash), LATE, {}, 2), Some(3), NOW) && Sealed(s.cache)
    ensures NotifyStep(ChainWith(hash), s, ForkBcn(0), t)
    ensures t == Joint(CACHE2, Pool(List2(hash), LATE, {}, 3), None, NOW)
  {
    Nodes2();
    CacheRooted(s.cache);
    ForkIsZero(s.cache.nodes, 3, 2);
    ShortBranch(s.cache.nodes, TxsOf, 2, NOW - FILTER_TIME);
    ShortBranch(s.cache.nodes, TxsOf, 3, NOW - FILTER_TIME);
    t := Joint(CACHE2, Pool(List2(hash), LATE, {}, 3), None, NOW);
  }

  lemma NotSeen(hash: Tx -> Bytes)
    requires Injective(hash)
    ensures var ch := ChainWith(hash);
            && ListOk(ch, List1(hash)) && ListOk(ch, List2(hash))
            && Search(List2(hash), ch, hash(REPEATED), HashOf(LATE), LATE.time - FILTER_TIME).None?
            && Search(List1(hash), ch, hash(REPEATED), HashOf(FIRST_BLOCK), FIRST_BLOCK.time - FILTER_TIME).None?
  {
    var ch, list := ChainWith(hash), List2(hash);
    assert TxMapOf(hash, TxsOf(LATE)) == map[] && TxMapOf(hash, TxsOf(FIRST_BLOCK)) == map[];
    assert Search(list, ch, hash(REPEATED), Raw(1), LATE.time - FILTER_TIME).None?;
    assert Search(list, ch, hash(REPEATED), HashOf(FIRST_BLOCK), LATE.time - FILTER_TIME).None?;
  }

  /** A transaction of the head's block becomes pending. */
  lemma OfferTakenIn(hash: Tx -> Bytes) returns (ss: seq<Joint>, acts: seq<Act>, k: nat)
    requires Injective(hash)
    ensures JointRun(ChainWith(hash), t => true, ss, acts) && k < |ss| && !OffChain(ChainWith(hash), ss[|acts|])
    ensures ss[k].pool.list == List1(hash) && ss[k].pool.pending == {}
    ensures ss[|acts|].pool == Pool(List2(hash), LATE, {REPEATED}, 3)
  {
    ss, acts, k := EarlyArrives(hash, t => true);
    var t := OfferStep(hash, ss[|acts|]);
    JointMore(ChainWith(hash), t => true, ss, acts, Offer(REPEATED), t);
    ss, acts := ss + [t], acts + [Offer(REPEATED)];
  }

  lemma OfferStep(hash: Tx -> Bytes, s: Joint) returns (t: Joint)
    requires Injective(hash) && s == Joint(CACHE2, Pool(List2(hash), LATE, {}, 3), None, NOW)
    ensures JointStep(ChainWith(hash), t => true, s, Offer(REPEATED), t) && !OffChain(ChainWith(hash), t)
    ensures t.pool == Pool(List2(hash), LATE, {REPEATED}, 3)
  {
    t := s.(pool := s.pool.(pending := {REPEATED}));
    TakenIn(hash, s.pool);
    OnTheHead(hash, t);
  }

  lemma TakenIn(hash: Tx -> Bytes, p: Pool)
    requires Injective(hash) && p == Pool(List2(hash), LATE, {}, 3)
    ensures ListOk(ChainWith(hash), p.list)
    ensures Offered(ChainWith(hash), t => true, p, REPEATED, NOW) == p.(pending := {REPEATED})
  {
    NotSeen(hash);
    WrapSmall(NOW - REPEATED.time);
    assert Fit(t => true, REPEATED, NOW);
    assert {} + {REPEATED} == {REPEATED};
  }

  lemma OnTheHead(hash: Tx -> Bytes, s: Joint)
    requires s.cache == CACHE2 && s.pool.head == 3 && REPEATED in s.pool.pending && s.now == NOW
    ensures !OffChain(ChainWith(hash), s)
  {
    Nodes2();
    assert REPEATED in TxsOf(EARLY);
    assert REPEATED in ChainTxs(TxsOf, HashOf(EARLY));
  }

  // ----- The repetition -----

  const REPEATING := [FIRST_BLOCK, EARLY, NEXT]

  lemma EarlyAccepted(hash: Tx -> Bytes, at: seq<Moment>)
    requires Injective(hash) && |at| == 3 && at[1] == Moment(List1(hash), {})
    ensures AcceptedAt(ChainWith(hash), t => true, REPEATING, at, 1)
  {
    NotSeen(hash);
    TimelyBlock(hash, EARLY);
    assert NoDuplicates([BaseTx(EARLY), REPEATED]);
  }

  lemma TimelyBlock(hash: Tx -> Bytes, b: Head)
    requires b == EARLY || b == NEXT
    ensures Timely(ChainWith(hash), b)
  {
    WrapSmall(b.time - REPEATED.time);
  }

  lemma NextAccepted(hash: Tx -> Bytes, at: seq<Moment>)
    requires Injective(hash) && |at| == 3 && at[2] == Moment(List2(hash), {REPEATED})
    ensures AcceptedAt(ChainWith(hash), t => true, REPEATING, at, 2)
  {
    NotSeen(hash);
    TimelyBlock(hash, NEXT);
    assert NoDuplicates([BaseTx(NEXT), REPEATED]);
  }

  /** In this run, a chain of three blocks that is accepted, block by block, by the pools of the run, and has the
      transaction twice. */
  lemma PendingIsRepeated(hash: Tx -> Bytes) returns (ss: seq<Joint>, acts: seq<Act>, k: nat, at: seq<Moment>)
    requires Injective(hash)
    ensures JointRun(ChainWith(hash), t => true, ss, acts) && k < |ss| && !OffChain(ChainWith(hash), ss[|acts|])
    ensures |at| == 3 && at[1] == Moment(ss[k].pool.list, ss[k].pool.pending)
    ensures at[2] == Moment(ss[|acts|].pool.list, ss[|acts|].pool.pending)
    ensures AcceptedChain(ChainWith(hash), t => true, REPEATING, at)
    ensures !IsDefer(REPEATED) && forall j :: 1 <= j <= 2 ==> REPEATED in UserTxs(ChainWith(hash), REPEATING[j])
  {
    ss, acts, k := OfferTakenIn(hash);
    at := [Moment(map[], {}), Moment(ss[k].pool.list, {}), Moment(ss[|acts|].pool.list, {REPEATED})];
    EarlyAccepted(hash, at);
    NextAccepted(hash, at);
    forall j | 1 <= j <= 2
      ensures REPEATED in UserTxs(ChainWith(hash), REPEATING[j])
    {
      assert UserTxs(ChainWith(hash), REPEATING[j]) == [REPEATED];
    }
  }
}
