/** The transactions of a chain, told from the hash of its last block: which of them the pool still finds. */
module PoolChains {
  import opened Basics
  import opened Blocks
  import opened PendingTxs
  import opened RecentBlocks
  import opened TxMigration
  import opened BlockTree

  /** Too old for a block now. */
  predicate Aged(t: Tx, now: int) {
    now - t.time > MAX_EXPIRATION
  }

  /** Block times rise along the chain, and no transaction is later than its block. */
  ghost predicate Fine(ch: Chain, h: Hash) {
    match h
    case Raw(_) => true
    case HashOf(b) =>
      && (forall t :: t in ch.txsOf(b) ==> t.time <= b.time)
      && (b.parentHash.HashOf? ==> b.parentHash.head.time < b.time)
      && Fine(ch, b.parentHash)
  }

  /** The blocks of the chain that are not older than `limit` are in the list. */
  ghost predicate Held(list: BlockList, h: Hash, limit: int) {
    match h
    case Raw(_) => true
    case HashOf(b) => (b.time >= limit ==> h in list) && Held(list, b.parentHash, limit)
  }

  /** The transactions of the chain's blocks, down to the first that is older than `limit`. */
  ghost function WindowTxs(txsOf: Head -> seq<Tx>, h: Hash, limit: int): set<Tx> {
    match h
    case Raw(_) => {}
    case HashOf(b) => if b.time < limit then {} else Elements(txsOf(b)) + WindowTxs(txsOf, b.parentHash, limit)
  }

  lemma {:induction false} HeldStays(list: BlockList, list': BlockList, h: Hash, limit: int, limit': int)
    requires Held(list, h, limit) && limit <= limit'
    requires forall k :: k in list && list[k].time >= limit' ==> k in list'
    requires forall k :: k in list ==> k.HashOf? && list[k].time == k.head.time
    ensures Held(list', h, limit')
  {
    if h.HashOf? {
      HeldStays(list, list', h.head.parentHash, limit, limit');
    }
  }

  lemma {:induction false} NotLater(ch: Chain, h: Hash, t: Tx)
    requires Fine(ch, h) && t in ChainTxs(ch.txsOf, h)
    ensures h.HashOf? && t.time <= h.head.time
  {
    if t !in ch.txsOf(h.head) {
      NotLater(ch, h.head.parentHash, t);
    }
  }

  lemma {:induction false} WindowOnChain(txsOf: Head -> seq<Tx>, h: Hash, limit: int)
    ensures WindowTxs(txsOf, h, limit) <= ChainTxs(txsOf, h)
  {
    if h.HashOf? {
      WindowOnChain(txsOf, h.head.parentHash, limit);
    }
  }

  // ----- What is collected -----

  /** Held blocks from `h` on, each the parent of the one before, none older than `limit`. */
  ghost predicate Trail(list: BlockList, h: Hash, limit: int, c: seq<Head>) {
    && |c| > 0 && HashOf(c[0]) == h
    && (forall i :: 0 <= i < |c| - 1 ==> c[i].parentHash == HashOf(c[i + 1]))
    && (forall i :: 0 <= i < |c| ==> HashOf(c[i]) in list && c[i].time >= limit)
  }

  ghost predicate EndsWith(txsOf: Head -> seq<Tx>, c: seq<Head>, t: Tx) {
    |c| > 0 && t in txsOf(c[|c| - 1])
  }

  /** From recent blocks exactly the transactions are collected that a trail leads to. */
  lemma {:induction false} RecentTxsAre(ch: Chain, list: BlockList, h: Hash, limit: int, t: Tx)
    requires Injective(ch.hash) && ListOk(ch, list)
    ensures t in RecentTxs(ch, list, h, limit) <==>
            exists c :: Trail(list, h, limit, c) && EndsWith(ch.txsOf, c, t)
    decreases Depth(h)
  {
    if h in list && list[h].time >= limit {
      var p := h.head.parentHash;
      RecentTxsAre(ch, list, p, limit, t);
      TxMapHolds(ch.hash, ch.txsOf(h.head), t);
      TxMapValues(ch.hash, ch.txsOf(h.head), t);
      if t in ch.txsOf(h.head) {
        assert Trail(list, h, limit, [h.head]) && EndsWith(ch.txsOf, [h.head], t);
      } else if t in RecentTxs(ch, list, p, limit) {
        var c :| Trail(list, p, limit, c) && EndsWith(ch.txsOf, c, t);
        assert Trail(list, h, limit, [h.head] + c) && EndsWith(ch.txsOf, [h.head] + c, t);
      }
      if c :| Trail(list, h, limit, c) && EndsWith(ch.txsOf, c, t) && |c| > 1 {
        assert Trail(list, p, limit, c[1..]) && EndsWith(ch.txsOf, c[1..], t);
      }
    }
  }

  lemma {:induction false} TxMapValues(hash: Tx -> Bytes, txs: seq<Tx>, t: Tx)
    requires Injective(hash)
    ensures t in TxMapOf(hash, txs).Values <==> t in txs
  {
    TxMapHolds(hash, txs, t);
    MapsToHashed(hash, txs);
    if t in txs {
      assert hash(t) in TxMapOf(hash, txs).Keys;
    }
  }

  lemma {:induction false} MapsToHashed(hash: Tx -> Bytes, txs: seq<Tx>)
    ensures forall k :: k in TxMapOf(hash, txs) ==> hash(TxMapOf(hash, txs)[k]) == k
  {
    if txs != [] {
      MapsToHashed(hash, txs[..|txs| - 1]);
    }
  }

  /** Linked nodes from `x` up, without `stop` and none older than `limit`. */
  ghost predicate Climb(nodes: Nodes, x: Ptr, stop: Ptr, limit: int, p: seq<Ptr>) {
    && |p| > 0 && p[0] == x
    && (forall i :: 0 <= i < |p| ==> IsLinked(nodes, p[i]) && p[i] != stop && nodes[p[i]].head.time >= limit)
    && (forall i :: 0 <= i < |p| - 1 ==> nodes[p[i]].parent == Some(p[i + 1]))
  }

  ghost predicate ClimbsTo(nodes: Nodes, txsOf: Head -> seq<Tx>, p: seq<Ptr>, t: Tx) {
    |p| > 0 && p[|p| - 1] in nodes && t in txsOf(nodes[p[|p| - 1]].head)
  }

  /** From a branch exactly the transactions are collected that such a climb leads to. */
  lemma {:induction false} BranchTxsAre(
    nodes: Nodes, txsOf: Head -> seq<Tx>, x: Ptr, stop: Ptr, limit: int, t: Tx)
    requires Rooted(nodes) && IsLinked(nodes, x)
    ensures t in BranchTxs(nodes, txsOf, Some(x), stop, limit) <==>
            exists p :: Climb(nodes, x, stop, limit, p) && ClimbsTo(nodes, txsOf, p, t)
    decreases Level(nodes[x])
  {
    if x != stop && nodes[x].head.time >= limit {
      assert ParentLinked(nodes, x);
      var up := nodes[x].parent;
      if t in txsOf(nodes[x].head) {
        assert Climb(nodes, x, stop, limit, [x]) && ClimbsTo(nodes, txsOf, [x], t);
      }
      if up.Some? {
        BranchTxsAre(nodes, txsOf, up.value, stop, limit, t);
        if p :| Climb(nodes, up.value, stop, limit, p) && ClimbsTo(nodes, txsOf, p, t) {
          assert Climb(nodes, x, stop, limit, [x] + p) && ClimbsTo(nodes, txsOf, [x] + p, t);
        }
      }
      if p :| Climb(nodes, x, stop, limit, p) && ClimbsTo(nodes, txsOf, p, t) && |p| > 1 {
        assert nodes[p[0]].parent == Some(p[1]);
        assert Climb(nodes, up.value, stop, limit, p[1..]) && ClimbsTo(nodes, txsOf, p[1..], t);
      }
    }
  }

  /** A transaction of the chain that is not older than the limit is in the window. */
  lemma {:induction false} YoungInWindow(ch: Chain, h: Hash, limit: int, t: Tx)
    requires Fine(ch, h) && t in ChainTxs(ch.txsOf, h) && limit <= t.time
    ensures t in WindowTxs(ch.txsOf, h, limit)
  {
    NotLater(ch, h, t);
    if t !in ch.txsOf(h.head) {
      YoungInWindow(ch, h.head.parentHash, limit, t);
    }
  }

  /** ... and, if the blocks are held, among the transactions collected from the recent blocks. */
  lemma {:induction false} YoungIsRecent(ch: Chain, list: BlockList, h: Hash, limit: int, t: Tx)
    requires Injective(ch.hash) && ListOk(ch, list) && Fine(ch, h) && Held(list, h, limit)
    requires t in ChainTxs(ch.txsOf, h) && limit <= t.time
    ensures t in RecentTxs(ch, list, h, limit)
  {
    NotLater(ch, h, t);
    if t in ch.txsOf(h.head) {
      TxMapHolds(ch.hash, ch.txsOf(h.head), t);
      assert list[h].txMap[ch.hash(t)] == t;
    } else {
      YoungIsRecent(ch, list, h.head.parentHash, limit, t);
    }
  }

  /** For a transaction whose blocks would be held, the lookup is exact: it finds those of the window. */
  lemma {:induction false} LookupIsWindow(ch: Chain, list: BlockList, h: Hash, limit: int, held: int, t: Tx)
    requires Injective(ch.hash) && ListOk(ch, list) && Fine(ch, h) && Held(list, h, held) && held <= t.time
    requires h.HashOf? && h.head.time >= limit
    ensures Search(list, ch, ch.hash(t), h, limit).Some? <==> t in WindowTxs(ch.txsOf, h, limit)
  {
    WindowOnChain(ch.txsOf, h, limit);
    if h !in list {
      if t in ChainTxs(ch.txsOf, h) {
        NotLater(ch, h, t);
      }
    } else {
      TxMapHolds(ch.hash, ch.txsOf(h.head), t);
      var p := h.head.parentHash;
      if t !in ch.txsOf(h.head) && p.HashOf? && p.head.time >= limit {
        LookupIsWindow(ch, list, p, limit, held, t);
      }
    }
  }

  /** A transaction of a chain that is not older than the limit is on the branch collected or on the fork's chain. */
  lemma {:induction false} YoungOnBranch(nodes: Nodes, ch: Chain, x: Ptr, f: Ptr, limit: int, t: Tx)
    requires Rooted(nodes) && IsLinked(nodes, x) && IsLinked(nodes, f) && Above(nodes, f, x)
    requires Fine(ch, HashOf(nodes[x].head)) && t in ChainTxs(ch.txsOf, HashOf(nodes[x].head)) && limit <= t.time
    ensures || t in BranchTxs(nodes, ch.txsOf, Some(x), f, limit)
            || t in ChainTxs(ch.txsOf, HashOf(nodes[f].head))
    decreases Level(nodes[x])
  {
    if x != f {
      assert ParentLinked(nodes, x);
      NotLater(ch, HashOf(nodes[x].head), t);
      if t !in ch.txsOf(nodes[x].head) {
        YoungOnBranch(nodes, ch, nodes[x].parent.value, f, limit, t);
      }
    }
  }
}
