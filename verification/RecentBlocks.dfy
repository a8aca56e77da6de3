/** The recent blocks the pool keeps, and the duplicate check that relies on them. */
module RecentBlocks {
  import opened Basics
  import opened Blocks
  import opened PendingTxs

  const FILTER_TIME := 90_000_000_000

  /** `txsOf` gives the transactions a block head commits to by its merkle root, the base one first; `hash` is
      the transactions' hash. */
  datatype Chain = Chain(txsOf: Head -> seq<Tx>, hash: Tx -> Bytes)

  datatype BlockTx = BlockTx(txMap: map<Bytes, Tx>, parentHash: Hash, time: int)

  type BlockList = map<Hash, BlockTx>

  function TxMapOf(hash: Tx -> Bytes, txs: seq<Tx>): map<Bytes, Tx> {
    if txs == [] then map[]
    else
      var last := |txs| - 1;
      TxMapOf(hash, txs[..last])[hash(txs[last]) := txs[last]]
  }

  lemma {:induction false} TxMapHolds(hash: Tx -> Bytes, txs: seq<Tx>, t: Tx)
    requires Injective(hash)
    ensures hash(t) in TxMapOf(hash, txs) <==> t in txs
    ensures t in txs ==> TxMapOf(hash, txs)[hash(t)] == t
  {
    if txs != [] {
      var last := |txs| - 1;
      TxMapHolds(hash, txs[..last], t);
      assert txs == txs[..last] + [txs[last]];
    }
  }

  function BlockTxOf(ch: Chain, b: Head): BlockTx {
    BlockTx(TxMapOf(ch.hash, ch.txsOf(b)), b.parentHash, b.time)
  }

  /** Every entry is that of the block hashed. */
  ghost predicate ListOk(ch: Chain, list: BlockList) {
    forall h :: h in list ==> h.HashOf? && list[h] == BlockTxOf(ch, h.head)
  }

  // ----- Looking a transaction up along the parents -----

  /** Looks in the block `h` and on along its parents, until one is not held or lies before `limit`. */
  function Search(list: BlockList, ch: Chain, th: Bytes, h: Hash, limit: int): Option<Tx>
    requires ListOk(ch, list)
    decreases Depth(h)
  {
    if h !in list then None
    else if th in list[h].txMap then Some(list[h].txMap[th])
    else
      var p := list[h].parentHash;
      if p in list && list[p].time < limit then None else Search(list, ch, th, p, limit)
  }

  class BlockchainWrapper {
    ghost const ch: Chain
    const hash: Tx -> Bytes
    const txsOf: Head -> seq<Tx>
    var blockList: BlockList
    var head: Head

    ghost predicate Valid()
      reads this
    {
      ch == Chain(txsOf, hash) && ListOk(ch, blockList)
    }

    constructor (hash: Tx -> Bytes, txsOf: Head -> seq<Tx>, head: Head)
      ensures Valid() && ch == Chain(txsOf, hash) && blockList == map[] && this.head == head
    {
      this.hash, this.txsOf, this.head := hash, txsOf, head;
      ch := Chain(txsOf, hash);
      blockList := map[];
    }

    method NewBlockTx(b: Head) returns (e: BlockTx)
      requires Valid()
      ensures e == BlockTxOf(ch, b)
    {
      var txs := txsOf(b);
      var m: map<Bytes, Tx> := map[];
      for i := 0 to |txs|
        invariant m == TxMapOf(hash, txs[..i])
      {
        m := m[hash(txs[i]) := txs[i]];
        assert txs[..i + 1][..i] == txs[..i];
      }
      assert txs[..|txs|] == txs;
      e := BlockTx(m, b.parentHash, b.time);
    }

    /** Enters the block unless it is there; the head becomes the highest block seen. */
    method AddBlock(b: Option<Head>) returns (ok: bool)
      requires Valid()
      modifies this
      ensures Valid() && ok == b.Some?
      ensures b.None? ==> blockList == old(blockList) && head == old(head)
      ensures b.Some? ==> blockList == Entered(ch, old(blockList), b.value)
      ensures b.Some? ==> head == if old(head).number < b.value.number then b.value else old(head)
    {
      if b.None? {
        return false;
      }
      if HashOf(b.value) !in blockList {
        var e := NewBlockTx(b.value);
        blockList := blockList[HashOf(b.value) := e];
      }
      if head.number < b.value.number {
        head := b.value;
      }
      ok := true;
    }

    /** Looks the transaction up from a block on, from the head if none is given. */
    method GetTxInChain(th: Bytes, b: Option<Head>) returns (t: Option<Tx>)
      requires Valid()
      ensures var from := if b.Some? then b.value else head;
              t == Search(blockList, ch, th, HashOf(from), from.time - FILTER_TIME)
    {
      var from := if b.Some? then b.value else head;
      var h := HashOf(from);
      var limit := from.time - FILTER_TIME;
      while true
        invariant Search(blockList, ch, th, h, limit) == Search(blockList, ch, th, HashOf(from), limit)
        decreases Depth(h)
      {
        if h in blockList && th in blockList[h].txMap {
          return Some(blockList[h].txMap[th]);
        }
        if h !in blockList {
          return None;
        }
        h := blockList[h].parentHash;
        if h in blockList {
          if blockList[h].time < limit {
            return None;
          }
        }
      }
    }

    /** Forgets the blocks too old for any lookup from the linked root on. */
    method ClearBlock(root: Head)
      requires Valid()
      modifies this`blockList
      ensures Valid() && blockList == Cleared(old(blockList), root.time - FILTER_TIME)
    {
      var limit := root.time - FILTER_TIME;
      var todo := blockList.Keys;
      ghost var all := blockList;
      while todo != {}
        invariant todo <= blockList.Keys <= all.Keys
        invariant forall h :: h in blockList ==> blockList[h] == all[h]
        invariant forall h :: h in all && h !in todo ==> (h in blockList <==> all[h].time >= limit)
        decreases todo
      {
        var h :| h in todo;
        if blockList[h].time < limit {
          blockList := blockList - {h};
        }
        todo := todo - {h};
      }
    }
  }

  // ----- The blocks held -----

  function Entered(ch: Chain, list: BlockList, b: Head): BlockList {
    if HashOf(b) in list then list else list[HashOf(b) := BlockTxOf(ch, b)]
  }

  function Cleared(list: BlockList, limit: int): BlockList {
    map h | h in list && list[h].time >= limit :: list[h]
  }

  datatype ListStep = Enter(b: Head) | Clear(root: Head)

  function Replay(ch: Chain, list: BlockList, steps: seq<ListStep>): BlockList {
    if steps == [] then list
    else
      var last := |steps| - 1;
      var before := Replay(ch, list, steps[..last]);
      match steps[last]
      case Enter(b) => Entered(ch, before, b)
      case Clear(root) => Cleared(before, root.time - FILTER_TIME)
  }

  /** Over every run: a block that was entered and is not older than 90 seconds before any root cleared to is
      still held. */
  lemma {:induction false} RecentStaysHeld(ch: Chain, list: BlockList, steps: seq<ListStep>, b: Head)
    requires ListOk(ch, list) && (HashOf(b) in list || Enter(b) in steps)
    requires forall root :: Clear(root) in steps ==> root.time - FILTER_TIME <= b.time
    ensures ListOk(ch, Replay(ch, list, steps)) && HashOf(b) in Replay(ch, list, steps)
  {
    if steps != [] {
      var last := |steps| - 1;
      assert steps == steps[..last] + [steps[last]];
      assert forall s :: s in steps[..last] ==> s in steps;
      if HashOf(b) in list || Enter(b) in steps[..last] {
        RecentStaysHeld(ch, list, steps[..last], b);
        assert steps[last] in steps;
      } else {
        ReplayOk(ch, list, steps[..last]);
        assert steps[last] == Enter(b);
      }
    }
  }

  lemma {:induction false} ReplayOk(ch: Chain, list: BlockList, steps: seq<ListStep>)
    requires ListOk(ch, list)
    ensures ListOk(ch, Replay(ch, list, steps))
  {
    if steps != [] {
      ReplayOk(ch, list, steps[..|steps| - 1]);
    }
  }

  // ----- Clearing is not seen -----

  lemma {:induction false} SearchCleared(
    list: BlockList, ch: Chain, th: Bytes, h: Hash, limit: int, clearedTo: int)
    requires ListOk(ch, list) && clearedTo <= limit
    requires h in list ==> list[h].time >= clearedTo
    ensures ListOk(ch, Cleared(list, clearedTo))
    ensures Search(Cleared(list, clearedTo), ch, th, h, limit) == Search(list, ch, th, h, limit)
    decreases Depth(h)
  {
    if h in list && th !in list[h].txMap {
      var p := list[h].parentHash;
      if p !in list || list[p].time >= limit {
        SearchCleared(list, ch, th, p, limit, clearedTo);
      } else if p !in Cleared(list, clearedTo) {
        assert Search(Cleared(list, clearedTo), ch, th, p, limit) == None;
      }
    }
  }

  /** Clearing never changes the answer for a block that is no older than the linked root. */
  lemma ClearKeepsLookups(list: BlockList, ch: Chain, th: Bytes, b: Head, root: Head)
    requires ListOk(ch, list) && root.time <= b.time
    ensures ListOk(ch, Cleared(list, root.time - FILTER_TIME))
    ensures Search(Cleared(list, root.time - FILTER_TIME), ch, th, HashOf(b), b.time - FILTER_TIME) ==
            Search(list, ch, th, HashOf(b), b.time - FILTER_TIME)
  {
    SearchCleared(list, ch, th, HashOf(b), b.time - FILTER_TIME, root.time - FILTER_TIME);
  }

  // ----- What the lookup answers -----

  /** Block after block, each the child of the one before and later. */
  ghost predicate Consecutive(c: seq<Head>) {
    forall i :: 0 <= i < |c| - 1 ==> c[i + 1].parentHash == HashOf(c[i]) && c[i].time < c[i + 1].time
  }

  lemma {:induction false} TimesIncrease(c: seq<Head>, i: nat, j: nat)
    requires Consecutive(c) && i <= j < |c|
    ensures i < j ==> c[i].time < c[j].time
    ensures c[i].time <= c[j].time
  {
    if i < j {
      TimesIncrease(c, i, j - 1);
    }
  }

  ghost predicate RecentHeld(list: BlockList, c: seq<Head>, j: nat)
    requires j < |c|
  {
    forall k :: 0 <= k <= j && c[j].time - FILTER_TIME <= c[k].time ==> HashOf(c[k]) in list
  }

  /** A transaction of a block that lies in the window is found. */
  lemma {:induction false} SearchFinds(list: BlockList, ch: Chain, c: seq<Head>, i: nat, j: nat, t: Tx, limit: int)
    requires ListOk(ch, list) && Injective(ch.hash) && Consecutive(c) && i <= j < |c|
    requires limit <= c[i].time && t in ch.txsOf(c[i])
    requires forall k :: i <= k <= j ==> HashOf(c[k]) in list
    ensures Search(list, ch, ch.hash(t), HashOf(c[j]), limit).Some?
  {
    TxMapHolds(ch.hash, ch.txsOf(c[j]), t);
    assert HashOf(c[j]) in list;
    if i < j {
      TimesIncrease(c, i, j - 1);
      SearchFinds(list, ch, c, i, j - 1, t, limit);
    }
  }

  /** What is found along a chain lies in one of its blocks. */
  lemma {:induction false} SearchSound(list: BlockList, ch: Chain, c: seq<Head>, j: nat, t: Tx, limit: int)
    requires ListOk(ch, list) && Injective(ch.hash) && Consecutive(c) && j < |c| && c[0].parentHash.Raw?
    requires Search(list, ch, ch.hash(t), HashOf(c[j]), limit).Some?
    ensures exists i :: 0 <= i <= j && (i == j || limit <= c[i].time) && t in ch.txsOf(c[i])
  {
    TxMapHolds(ch.hash, ch.txsOf(c[j]), t);
    assert c[0].parentHash !in list;
    if t !in ch.txsOf(c[j]) && j > 0 {
      SearchSound(list, ch, c, j - 1, t, limit);
      assert HashOf(c[j - 1]) in list;
    }
  }

  /** On a chain whose recent blocks are held, the lookup from block `j` finds exactly the transactions of that
      block and of the earlier ones at most 90 seconds older. */
  lemma LookupIff(list: BlockList, ch: Chain, c: seq<Head>, j: nat, t: Tx)
    requires ListOk(ch, list) && Injective(ch.hash) && Consecutive(c) && j < |c| && c[0].parentHash.Raw?
    requires RecentHeld(list, c, j)
    ensures Search(list, ch, ch.hash(t), HashOf(c[j]), c[j].time - FILTER_TIME).Some? <==>
            exists i :: 0 <= i <= j && c[j].time - FILTER_TIME <= c[i].time && t in ch.txsOf(c[i])
  {
    var limit := c[j].time - FILTER_TIME;
    if Search(list, ch, ch.hash(t), HashOf(c[j]), limit).Some? {
      SearchSound(list, ch, c, j, t, limit);
    }
    if i :| 0 <= i <= j && limit <= c[i].time && t in ch.txsOf(c[i]) {
      forall k | i <= k <= j
        ensures HashOf(c[k]) in list
      {
        TimesIncrease(c, i, k);
      }
      SearchFinds(list, ch, c, i, j, t, limit);
    }
  }

  // ----- Verifying a block's transactions -----

  datatype Found = NotFound | FoundPending | FoundChain

  /** Pending transactions hide those on the chain. */
  function ExistTxs(list: BlockList, ch: Chain, pending: set<Tx>, t: Tx, parent: Head): Found
    requires ListOk(ch, list)
  {
    if t in pending then FoundPending
    else if Search(list, ch, ch.hash(t), HashOf(parent), parent.time - FILTER_TIME).Some? then FoundChain
    else NotFound
  }

  datatype Verdict = Ok | DoubleTx | TxDup | BadTx

  /** The transactions of a block are pairwise different, and none but the base one was found on the parent's
      chain; one not known at all verifies by itself. */
  ghost predicate TxsAcceptable(list: BlockList, ch: Chain, pending: set<Tx>, selfOk: Tx -> bool, b: Head,
                                parent: Head)
    requires ListOk(ch, list)
  {
    && NoDuplicates(ch.txsOf(b))
    && (forall i :: 1 <= i < |ch.txsOf(b)| ==> TxAcceptable(list, ch, pending, selfOk, ch.txsOf(b)[i], parent))
  }

  ghost predicate TxAcceptable(list: BlockList, ch: Chain, pending: set<Tx>, selfOk: Tx -> bool, t: Tx, parent: Head)
    requires ListOk(ch, list)
  {
    match ExistTxs(list, ch, pending, t, parent)
    case FoundChain => false
    case NotFound => selfOk(t)
    case FoundPending => true
  }

  method ExistTxsIn(w: BlockchainWrapper, pending: SortedTxMap, t: Tx, parent: Head) returns (r: Found)
    requires w.Valid() && pending.Valid() && pending.hash == w.hash
    ensures r == ExistTxs(w.blockList, w.ch, pending.Contents(), t, parent)
  {
    var p := pending.Get(w.hash(t));
    if p.Some? {
      return FoundPending;
    }
    var onChain := w.GetTxInChain(w.hash(t), Some(parent));
    r := if onChain.Some? then FoundChain else NotFound;
  }

  method VerifyBlockTxs(w: BlockchainWrapper, pending: SortedTxMap, selfOk: Tx -> bool, b: Head, parent: Head)
    returns (v: Verdict)
    requires w.Valid() && pending.Valid() && pending.hash == w.hash
    ensures v.Ok? <==> TxsAcceptable(w.blockList, w.ch, pending.Contents(), selfOk, b, parent)
    ensures v.Ok? ==>
              var txs, limit := w.txsOf(b), parent.time - 90_000_000_000;
              forall i :: 1 <= i < |txs| && txs[i] !in pending.Contents() ==>
                selfOk(txs[i]) && Search(w.blockList, w.ch, w.hash(txs[i]), HashOf(parent), limit).None?
    ensures v.DoubleTx? ==> !NoDuplicates(w.txsOf(b))
    ensures v.TxDup? ==> exists i :: 1 <= i < |w.txsOf(b)|
                                  && ExistTxs(w.blockList, w.ch, pending.Contents(), w.txsOf(b)[i], parent).FoundChain?
    ensures v.BadTx? ==> exists i :: 1 <= i < |w.txsOf(b)| && !selfOk(w.txsOf(b)[i])
  {
    var txs := w.txsOf(b);
    var seen: set<Bytes> := {};
    for i := 0 to |txs|
      invariant seen == set k | 0 <= k < i :: w.hash(txs[k])
      invariant NoDuplicates(txs[..i])
      invariant forall k :: 1 <= k < i ==>
                  TxAcceptable(w.blockList, w.ch, pending.Contents(), selfOk, txs[k], parent)
    {
      if w.hash(txs[i]) in seen {
        return DoubleTx;
      }
      seen := seen + {w.hash(txs[i])};
      if i == 0 {
        continue;
      }
      var exist := ExistTxsIn(w, pending, txs[i], parent);
      match exist
      case FoundChain => return TxDup;
      case NotFound =>
        if !selfOk(txs[i]) {
          return BadTx;
        }
      case FoundPending =>
    }
    assert txs[..|txs|] == txs;
    v := Ok;
  }

  // ----- No transaction twice -----

  predicate VerifyBlockHead(b: Head, parent: Head) {
    parent.time < b.time && b.parentHash == HashOf(parent) && b.number == parent.number + 1
  }

  /** Every transaction was created by the time of the block and, unless deferred, had not expired by then. */
  ghost predicate Timely(ch: Chain, b: Head) {
    forall t :: t in ch.txsOf(b) ==> IsCreatedBefore(t, b.time) && (IsExpired(t, b.time) ==> IsDefer(t))
  }

  /** The pool at the moment a block is verified. */
  datatype Moment = Moment(list: BlockList, pending: set<Tx>)

  /** Block `j` passed the tests of its head and times, and the recent blocks of its chain are held. */
  ghost predicate PresentedAt(ch: Chain, c: seq<Head>, at: seq<Moment>, j: nat)
    requires 0 < j < |c| == |at|
  {
    && VerifyBlockHead(c[j], c[j - 1]) && Timely(ch, c[j])
    && ListOk(ch, at[j].list) && RecentHeld(at[j].list, c, j - 1)
  }

  ghost predicate PresentedChain(ch: Chain, c: seq<Head>, at: seq<Moment>) {
    && |c| == |at| > 0
    && (forall j :: 0 < j < |c| ==> PresentedAt(ch, c, at, j))
  }

  ghost predicate AcceptedAt(ch: Chain, selfOk: Tx -> bool, c: seq<Head>, at: seq<Moment>, j: nat)
    requires 0 < j < |c| == |at|
  {
    PresentedAt(ch, c, at, j) && TxsAcceptable(at[j].list, ch, at[j].pending, selfOk, c[j], c[j - 1])
  }

  /** Each block after the first was accepted while the recent blocks of its chain were held. */
  ghost predicate AcceptedChain(ch: Chain, selfOk: Tx -> bool, c: seq<Head>, at: seq<Moment>) {
    && |c| == |at| > 0
    && (forall j :: 0 < j < |c| ==> AcceptedAt(ch, selfOk, c, at, j))
  }

  lemma PresentedConsecutive(ch: Chain, c: seq<Head>, at: seq<Moment>)
    requires PresentedChain(ch, c, at)
    ensures Consecutive(c)
  {
    forall i | 0 <= i < |c| - 1
      ensures c[i + 1].parentHash == HashOf(c[i]) && c[i].time < c[i + 1].time
    {
      assert PresentedAt(ch, c, at, i + 1);
    }
  }

  /** The transactions of a block but the base one. */
  function UserTxs(ch: Chain, b: Head): seq<Tx> {
    if ch.txsOf(b) == [] then [] else ch.txsOf(b)[1..]
  }

  /** A transaction that is still fit for block `j` is found from its parent on if an earlier block has it. */
  lemma StillInWindow(ch: Chain, list: BlockList, c: seq<Head>, i: nat, j: nat, t: Tx)
    requires Injective(ch.hash) && ListOk(ch, list) && Consecutive(c) && i < j < |c|
    requires RecentHeld(list, c, j - 1)
    requires t in ch.txsOf(c[i]) && t.time <= c[i].time && c[j].time - t.time <= MAX_EXPIRATION
    ensures Search(list, ch, ch.hash(t), HashOf(c[j - 1]), c[j - 1].time - FILTER_TIME).Some?
  {
    TimesIncrease(c, j - 1, j);
    forall k | i <= k <= j - 1
      ensures HashOf(c[k]) in list
    {
      TimesIncrease(c, i, k);
    }
    SearchFinds(list, ch, c, i, j - 1, t, c[j - 1].time - FILTER_TIME);
  }

  /** The 90 second window suffices: a transaction that is not deferred and already stands in an earlier block
      passes a second time exactly if it is pending. */
  lemma RepeatAcceptedIff(
    ch: Chain, selfOk: Tx -> bool, c: seq<Head>, at: seq<Moment>, i: nat, j: nat, t: Tx)
    requires Injective(ch.hash) && PresentedChain(ch, c, at) && 0 < i < j < |c|
    requires t in ch.txsOf(c[i]) && t in ch.txsOf(c[j]) && !IsDefer(t) && c[j].time - t.time < TWO_63
    ensures PresentedAt(ch, c, at, j)
    ensures TxAcceptable(at[j].list, ch, at[j].pending, selfOk, t, c[j - 1]) <==> t in at[j].pending
  {
    PresentedConsecutive(ch, c, at);
    TimesIncrease(c, i, j);
    assert t.time <= c[i].time by { assert PresentedAt(ch, c, at, i); }
    assert PresentedAt(ch, c, at, j);
    WrapSmall(c[j].time - t.time);
    StillInWindow(ch, at[j].list, c, i, j, t);
  }

  /** `t` stands in a block of the chain between the first and block `j`. */
  ghost predicate OnChainBefore(ch: Chain, c: seq<Head>, j: nat, t: Tx)
    requires j < |c|
  {
    exists i :: 0 < i < j && t in ch.txsOf(c[i])
  }

  /** A block of nothing but repeated transactions is accepted exactly if they differ and are all pending. */
  lemma RepeatingBlockIff(ch: Chain, selfOk: Tx -> bool, c: seq<Head>, at: seq<Moment>, j: nat)
    requires Injective(ch.hash) && PresentedChain(ch, c, at) && 0 < j < |c|
    requires forall t :: t in UserTxs(ch, c[j]) ==>
               OnChainBefore(ch, c, j, t) && !IsDefer(t) && c[j].time - t.time < TWO_63
    ensures AcceptedAt(ch, selfOk, c, at, j) <==>
              NoDuplicates(ch.txsOf(c[j])) && forall t :: t in UserTxs(ch, c[j]) ==> t in at[j].pending
  {
    var txs := ch.txsOf(c[j]);
    assert PresentedAt(ch, c, at, j);
    forall n | 1 <= n < |txs|
      ensures TxAcceptable(at[j].list, ch, at[j].pending, selfOk, txs[n], c[j - 1]) <==> txs[n] in at[j].pending
      ensures txs[n] in UserTxs(ch, c[j])
    {
      assert UserTxs(ch, c[j])[n - 1] == txs[n];
      var i :| 0 < i < j && txs[n] in ch.txsOf(c[i]);
      RepeatAcceptedIff(ch, selfOk, c, at, i, j, txs[n]);
    }
  }

  /** On an accepted chain a transaction that is not deferred occurs again, other than as a base transaction,
      only if it was pending when the second block was verified. */
  lemma RepeatedOnlyIfPending(
    ch: Chain, selfOk: Tx -> bool, c: seq<Head>, at: seq<Moment>, i: nat, j: nat, t: Tx)
    requires Injective(ch.hash) && AcceptedChain(ch, selfOk, c, at) && 0 < i < j < |c|
    requires t in ch.txsOf(c[i]) && !IsDefer(t) && c[j].time - t.time < TWO_63
    ensures t in UserTxs(ch, c[j]) ==> t in at[j].pending
  {
    if t in UserTxs(ch, c[j]) {
      assert forall k :: 0 < k < |c| ==> AcceptedAt(ch, selfOk, c, at, k) && PresentedAt(ch, c, at, k);
      RepeatAcceptedIff(ch, selfOk, c, at, i, j, t);
      var n :| 1 <= n < |ch.txsOf(c[j])| && ch.txsOf(c[j])[n] == t;
      assert TxAcceptable(at[j].list, ch, at[j].pending, selfOk, ch.txsOf(c[j])[n], c[j - 1]);
    }
  }

  /** No transaction twice, for a pool that keeps what is pending apart from the chain. */
  lemma NoTransactionTwice(
    ch: Chain, selfOk: Tx -> bool, c: seq<Head>, at: seq<Moment>, i: nat, j: nat, t: Tx)
    requires Injective(ch.hash) && AcceptedChain(ch, selfOk, c, at) && 0 < i < j < |c|
    requires forall p :: p in at[j].pending ==> !OnChainBefore(ch, c, j, p)
    requires t in ch.txsOf(c[i]) && !IsDefer(t) && c[j].time - t.time < TWO_63
    ensures t !in UserTxs(ch, c[j])
  {
    RepeatedOnlyIfPending(ch, selfOk, c, at, i, j, t);
    assert OnChainBefore(ch, c, j, t);
  }
}
