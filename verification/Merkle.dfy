/** The merkle tree kept in one array, level by level, against the recursive pairwise hash. */
module Merkle {
  import opened Basics

  type Sha3 = Bytes -> Bytes

  // ----- The recursive definition -----

  /** One level up: neighbours hashed together, a last one without neighbour hashed with itself. */
  function PairUp(sha3: Sha3, level: seq<Bytes>): seq<Bytes> {
    if level == [] then []
    else if |level| == 1 then [sha3(level[0] + level[0])]
    else [sha3(level[0] + level[1])] + PairUp(sha3, level[2..])
  }

  lemma {:induction false} PairUpLength(sha3: Sha3, level: seq<Bytes>)
    ensures |PairUp(sha3, level)| == (|level| + 1) / 2
  {
    if |level| >= 2 {
      PairUpLength(sha3, level[2..]);
    }
  }

  lemma {:induction false} PairUpAt(sha3: Sha3, level: seq<Bytes>, q: nat)
    requires 2 * q < |level|
    ensures q < |PairUp(sha3, level)|
    ensures PairUp(sha3, level)[q] ==
            sha3(level[2 * q] + if 2 * q + 1 < |level| then level[2 * q + 1] else level[2 * q])
  {
    if q > 0 {
      PairUpAt(sha3, level[2..], q - 1);
    }
  }

  /** The only hash left when a level has been paired up again and again. */
  function Top(sha3: Sha3, level: seq<Bytes>): Bytes
    requires level != []
    decreases |level|
  {
    PairUpLength(sha3, level);
    if |level| == 1 then level[0] else Top(sha3, PairUp(sha3, level))
  }

  /** A single leaf is paired up once, too. */
  function Root(sha3: Sha3, data: seq<Bytes>): Bytes
    requires data != []
  {
    PairUpLength(sha3, data);
    Top(sha3, PairUp(sha3, data))
  }

  // ----- The array -----

  function LeavesFor(m: nat): (n: nat)
    requires m > 0
    ensures LeavesOf(n, m)
  {
    if m == 1 then assert Pow2(0) == 1; 1
    else
      var h := LeavesFor((m + 1) / 2);
      assert exists k :: 2 * h == Pow2(k) by {
        var k: nat :| h == Pow2(k);
        assert Pow2(k + 1) == 2 * h;
      }
      2 * h
  }

  /** `n` is the smallest power of two that is not below `m`. */
  ghost predicate LeavesOf(n: nat, m: nat) {
    n < 2 * m <= 2 * n && exists k :: n == Pow2(k)
  }

  function Pow2(k: nat): (r: nat)
    ensures r > 0
  {
    if k == 0 then 1 else 2 * Pow2(k - 1)
  }

  type Cells = seq<Option<Bytes>>

  /** A cell is empty or the hash of its two children, of the left one twice if there is no right one. */
  predicate CellOk(sha3: Sha3, cells: Cells, p: nat)
    requires 2 * p + 2 < |cells|
  {
    var l, r := cells[2 * p + 1], cells[2 * p + 2];
    && (r.Some? ==> l.Some?)
    && cells[p] == if l.None? then None else Some(sha3(l.value + (if r.Some? then r else l).value))
  }

  /** From index `s` on, a power of two less one, the first cells hold `level`, the others of that level nothing. */
  ghost predicate LevelAt(cells: Cells, s: nat, level: seq<Bytes>) {
    && 2 * s + 1 < |cells| && s + 1 < 2 * |level| <= 2 * (s + 1)
    && (forall i :: s <= i <= 2 * s ==> cells[i] == Nth(level, i - s))
  }

  function Nth(level: seq<Bytes>, j: nat): Option<Bytes> {
    if j < |level| then Some(level[j]) else None
  }

  /** The levels from `s` down are done, those above are empty. */
  ghost predicate DoneFrom(sha3: Sha3, cells: Cells, n: nat, s: nat) {
    && |cells| == 2 * n && s < n
    && (forall p :: s <= p < n - 1 ==> CellOk(sha3, cells, p))
    && (forall i :: 0 <= i < s ==> cells[i].None?)
  }

  /** Every inner cell is right. */
  ghost predicate HeapOk(sha3: Sha3, cells: Cells, n: nat) {
    |cells| == 2 * n && forall p :: 0 <= p < n - 1 ==> CellOk(sha3, cells, p)
  }

  /** A finished array: every inner cell is right, and the leaves are the data. */
  ghost predicate Built(sha3: Sha3, cells: Cells, n: nat, data: seq<Bytes>) {
    && LeavesOf(n, |data|) && |cells| == 2 * n
    && cells[0] == Some(Root(sha3, data))
    && HeapOk(sha3, cells, n) && (n > 1 ==> LevelAt(cells, n - 1, data))
  }

  /** Every leaf, and nothing else, has an index at which it is found. */
  ghost predicate Indexed(index: map<Bytes, nat>, n: nat, data: seq<Bytes>) {
    && (forall h :: h in index <==> h in data)
    && (forall h :: h in index ==> n - 1 <= index[h] < n - 1 + |data| && data[index[h] - (n - 1)] == h)
  }

  function Half(i: int): int {
    if i == 0 then 0 else (i - 1) / 2
  }

  class MerkleTree {
    const sha3: Sha3
    var leafNum: nat
    var hashList: array<Option<Bytes>>
    var hash2Idx: map<Bytes, nat>

    constructor (sha3: Sha3)
      ensures this.sha3 == sha3 && leafNum == 0 && fresh(hashList)
    {
      this.sha3 := sha3;
      leafNum, hash2Idx := 0, map[];
      hashList := new Option<Bytes>[0];
    }

    /** Built from `data`, with the last index of every leaf. */
    ghost predicate BuiltFrom(data: seq<Bytes>)
      reads this, hashList
    {
      Built(sha3, hashList[..], leafNum, data) && Indexed(hash2Idx, leafNum, data)
    }

    /** One level: hashes the cells from `start` to `end` in pairs into their parents. */
    method HashLevel(start: nat, end: nat, ghost level: seq<Bytes>, ghost half: nat)
      requires start == 2 * half + 1 && 2 * start < hashList.Length && end == start + |level| - 1
      requires LevelAt(hashList[..], start, level) && (forall i :: 0 <= i < start ==> hashList[i].None?)
      modifies hashList
      ensures SameFrom(old(hashList[..]), hashList[..], start)
      ensures Rehashed(sha3, hashList[..], half, level, (|level| + 1) / 2)
    {
      PairUpLength(sha3, level);
      var i := start;
      ghost var q := 0;
      while i <= end
        invariant i == start + 2 * q && 2 * q <= |level| + 1
        invariant SameFrom(old(hashList[..]), hashList[..], start)
        invariant Rehashed(sha3, hashList[..], half, level, q)
      {
        var p := Half(i);
        PairUpAt(sha3, level, q);
        assert p == half + q && i + 1 <= 2 * start;
        assert hashList[i] == Nth(level, 2 * q) && hashList[i + 1] == Nth(level, 2 * q + 1);
        ghost var before := hashList[..];
        if hashList[i + 1].None? {
          hashList[p] := Some(sha3(hashList[i].value + hashList[i].value));
        } else {
          hashList[p] := Some(sha3(hashList[i].value + hashList[i + 1].value));
        }
        OneMorePair(sha3, before, hashList[..], half, level, q);
        i, q := i + 2, q + 1;
      }
    }

    /** Takes the hashing one level up. */
    method Raise(start: nat, end: nat, ghost data: seq<Bytes>, ghost level: seq<Bytes>, ghost k: nat)
      requires Standing(sha3, hashList[..], leafNum, data, start, level, k)
      requires |level| > 1 && end == start + |level| - 1
      modifies hashList
      ensures k > 0 && Standing(sha3, hashList[..], leafNum, data, Half(start), PairUp(sha3, level), k - 1)
      ensures 0 <= Half(start) < start && PairUp(sha3, level) != []
      ensures Half(end) == Half(start) + |PairUp(sha3, level)| - 1
    {
      Unsealed(sha3, hashList[..], leafNum, data, start, level, k);
      ghost var half := HashingStep(sha3, level, start, k);
      HashLevel(start, end, level, half);
      LevelDone(sha3, old(hashList[..]), hashList[..], leafNum, data, half, level, k);
      TopStays(sha3, level);
    }

    /** Fills the levels above the leaves. */
    method HashUp(data: seq<Bytes>, ghost k: nat)
      requires |data| > 1 && LeavesOf(leafNum, |data|)
      requires Standing(sha3, hashList[..], leafNum, data, leafNum - 1, data, k)
      modifies hashList
      ensures Built(sha3, hashList[..], leafNum, data)
    {
      var start: nat, end: nat := leafNum - 1, leafNum + |data| - 2;
      ghost var level, l := data, k;
      while start != end
        invariant Standing(sha3, hashList[..], leafNum, data, start, level, l)
        invariant level != [] && end == start + |level| - 1
        decreases start
      {
        Raise(start, end, data, level, l);
        level, l := PairUp(sha3, level), l - 1;
        start, end := Half(start), Half(end);
      }
      Hashed(sha3, hashList[..], leafNum, data, start, level, l);
    }

    method Build(data: seq<Bytes>)
      modifies this, hashList
      ensures fresh(hashList)
      ensures data == [] ==> hashList[..] == [None] && leafNum == old(leafNum) && hash2Idx == old(hash2Idx)
      ensures data != [] ==> BuiltFrom(data)
    {
      if |data| == 0 {
        hashList := new Option<Bytes>[1](_ => None);
        return;
      }
      leafNum := LeavesFor(|data|);
      hashList := new Option<Bytes>[2 * leafNum](_ => None);
      CopyLeaves(data);
      if leafNum == 1 {
        hashList[0] := Some(sha3(data[0] + data[0]));
      } else {
        ghost var k := StandsAtLeaves(sha3, hashList[..], leafNum, data);
        HashUp(data, k);
      }
      IndexLeaves(data);
    }

    method CopyLeaves(data: seq<Bytes>)
      requires hashList.Length == 2 * leafNum && 0 < |data| <= leafNum < 2 * |data|
      requires forall i :: 0 <= i < hashList.Length ==> hashList[i].None?
      modifies hashList
      ensures LevelAt(hashList[..], leafNum - 1, data) && DoneFrom(sha3, hashList[..], leafNum, leafNum - 1)
    {
      for j := 0 to |data|
        invariant forall i :: 0 <= i < hashList.Length ==>
                    hashList[i] == if leafNum - 1 <= i < leafNum - 1 + j then Some(data[i - (leafNum - 1)]) else None
      {
        hashList[leafNum - 1 + j] := Some(data[j]);
      }
    }

    method IndexLeaves(data: seq<Bytes>)
      requires leafNum > 0
      modifies this`hash2Idx
      ensures Indexed(hash2Idx, leafNum, data)
    {
      hash2Idx := map[];
      for j := 0 to |data|
        invariant Indexed(hash2Idx, leafNum, data[..j])
      {
        hash2Idx := hash2Idx[data[j] := j + leafNum - 1];
      }
      assert data[..|data|] == data;
    }

    method RootHash() returns (r: Option<Bytes>)
      requires hashList.Length > 0
      ensures r == hashList[0]
      ensures forall data :: BuiltFrom(data) ==> r == Some(Root(sha3, data))
    {
      r := hashList[0];
    }

    /** The siblings on the way from the leaf up; a missing sibling is the node itself. */
    method MerklePath(hash: Bytes, ghost data: seq<Bytes>) returns (path: Option<seq<Bytes>>, ghost leaf: nat)
      requires leafNum == 0 || BuiltFrom(data)
      ensures path.Some? <==> leafNum > 0 && hash in data
      ensures path.Some? ==> leaf < |data| && data[leaf] == hash && leafNum == Pow2(|path.value|)
      ensures path.Some? && |data| > 1 ==> Fold(sha3, leafNum - 1 + leaf, hash, path.value) == Root(sha3, data)
    {
      if leafNum == 0 || hash !in hash2Idx {
        return None, 0;
      }
      var idx := hash2Idx[hash];
      leaf := idx - (leafNum - 1);
      LeafCell(sha3, hashList[..], leafNum, data, leaf);
      LeafPath(sha3, hashList[..], leafNum, data, leaf);
      var mp := PathFrom(idx);
      path := Some(mp);
    }

    method PathFrom(from: nat) returns (mp: seq<Bytes>)
      requires HeapOk(sha3, hashList[..], leafNum) && from < 2 * leafNum - 1 && hashList[from].Some?
      ensures mp == Siblings(sha3, hashList[..], leafNum, from)
    {
      ghost var cells := hashList[..];
      var idx: nat := from;
      mp := [];
      while idx != 0
        invariant idx < leafNum * 2 - 1 && cells[idx].Some?
        invariant mp + Siblings(sha3, cells, leafNum, idx) == Siblings(sha3, cells, leafNum, from)
        decreases idx
      {
        SiblingsOfParent(sha3, cells, leafNum, idx, mp);
        var p: nat := (idx - 1) / 2;
        if hashList[4 * p + 3 - idx].None? {
          mp := mp + [hashList[idx].value];
        } else {
          mp := mp + [hashList[4 * p + 3 - idx].value];
        }
        idx := p;
      }
    }
  }

  // ----- Building -----

  /** The level above, from `half` on, holds the hashes of the first `q` pairs; nothing else is there. */
  ghost predicate Rehashed(sha3: Sha3, cells: Cells, half: nat, level: seq<Bytes>, q: nat) {
    && 2 * half + 1 <= |cells| && q <= |PairUp(sha3, level)|
    && (forall j :: 0 <= j < half ==> cells[j].None?)
    && (forall j :: half <= j <= 2 * half ==> cells[j] == Nth(PairUp(sha3, level)[..q], j - half))
  }

  lemma OneMorePair(sha3: Sha3, before: Cells, after: Cells, half: nat, level: seq<Bytes>, q: nat)
    requires Rehashed(sha3, before, half, level, q) && 2 * q < |level| && half + q <= 2 * half
    requires q < |PairUp(sha3, level)| && after == before[half + q := Some(PairUp(sha3, level)[q])]
    ensures Rehashed(sha3, after, half, level, q + 1)
  {
  }

  /** A cell of the new level is right, given what its children were. */
  lemma NewCell(sha3: Sha3, before: Cells, after: Cells, half: nat, level: seq<Bytes>, p: nat)
    requires half <= p <= 2 * half && LevelAt(before, 2 * half + 1, level) && SameFrom(before, after, 2 * half + 1)
    requires |PairUp(sha3, level)| == (|level| + 1) / 2 && Rehashed(sha3, after, half, level, (|level| + 1) / 2)
    ensures CellOk(sha3, after, p)
  {
    var q := p - half;
    assert before[2 * p + 1] == Nth(level, 2 * q) && before[2 * p + 2] == Nth(level, 2 * q + 1);
    assert after[p] == Nth(PairUp(sha3, level), q);
    if 2 * q < |level| {
      PairUpAt(sha3, level, q);
    }
  }

  /** The cells from `from` on are the same. */
  ghost predicate SameFrom(before: Cells, after: Cells, from: nat) {
    |after| == |before| && forall i :: from <= i < |before| ==> after[i] == before[i]
  }

  lemma CellsDone(sha3: Sha3, before: Cells, after: Cells, n: nat, half: nat, level: seq<Bytes>)
    requires DoneFrom(sha3, before, n, 2 * half + 1) && LevelAt(before, 2 * half + 1, level)
    requires SameFrom(before, after, 2 * half + 1)
    requires |PairUp(sha3, level)| == (|level| + 1) / 2 && Rehashed(sha3, after, half, level, (|level| + 1) / 2)
    ensures DoneFrom(sha3, after, n, half)
  {
    forall p | half <= p < n - 1
      ensures CellOk(sha3, after, p)
    {
      if p <= 2 * half {
        NewCell(sha3, before, after, half, level, p);
      } else {
        assert CellOk(sha3, before, p);
      }
    }
  }

  lemma LevelDone(
    sha3: Sha3, before: Cells, after: Cells, n: nat, data: seq<Bytes>, half: nat, level: seq<Bytes>, k: nat)
    requires Hashing(sha3, before, n, data, 2 * half + 1, level, k) && k > 0 && half + 1 == Pow2(k - 1)
    requires |PairUp(sha3, level)| == (|level| + 1) / 2 && half + 1 < 2 * |PairUp(sha3, level)| <= 2 * (half + 1)
    requires SameFrom(before, after, 2 * half + 1) && Rehashed(sha3, after, half, level, |PairUp(sha3, level)|)
    ensures Hashing(sha3, after, n, data, half, PairUp(sha3, level), k - 1)
  {
    CellsDone(sha3, before, after, n, half, level);
    RehashedLevel(sha3, after, half, level);
    StillLeaves(before, after, n, 2 * half + 1, data);
  }

  /** Where the filling of the levels stands: `level`, at `start`, still has the top of the data. */
  ghost predicate Hashing(sha3: Sha3, cells: Cells, n: nat, data: seq<Bytes>, start: nat, level: seq<Bytes>, k: nat) {
    && start + 1 == Pow2(k) && DoneFrom(sha3, cells, n, start) && LevelAt(cells, start, level)
    && n > 0 && LevelAt(cells, n - 1, data)
  }

  /** The same with the top of the level, in a form that is unfolded only where a lemma asks for it. */
  ghost predicate Standing(sha3: Sha3, cells: Cells, n: nat, data: seq<Bytes>, start: nat, level: seq<Bytes>, k: nat) {
    forall seal :: StandingUnder(sha3, cells, n, data, start, level, k, seal)
  }

  ghost predicate StandingUnder(
    sha3: Sha3, cells: Cells, n: nat, data: seq<Bytes>, start: nat, level: seq<Bytes>, k: nat, seal: Seal)
  {
    && Hashing(sha3, cells, n, data, start, level, k)
    && Top(sha3, level) == Top(sha3, data)
  }

  lemma Unsealed(sha3: Sha3, cells: Cells, n: nat, data: seq<Bytes>, start: nat, level: seq<Bytes>, k: nat)
    requires Standing(sha3, cells, n, data, start, level, k)
    ensures Hashing(sha3, cells, n, data, start, level, k) && Top(sha3, level) == Top(sha3, data)
  {
    assert StandingUnder(sha3, cells, n, data, start, level, k, Seal);
  }

  lemma StandsAtLeaves(sha3: Sha3, cells: Cells, n: nat, data: seq<Bytes>) returns (k: nat)
    requires LeavesOf(n, |data|) && DoneFrom(sha3, cells, n, n - 1) && LevelAt(cells, n - 1, data)
    ensures Standing(sha3, cells, n, data, n - 1, data, k)
  {
    k :| n == Pow2(k);
  }

  lemma TopStays(sha3: Sha3, level: seq<Bytes>)
    requires |level| > 1
    ensures PairUp(sha3, level) != [] && Top(sha3, PairUp(sha3, level)) == Top(sha3, level)
  {
    PairUpLength(sha3, level);
  }

  lemma HashingStep(sha3: Sha3, level: seq<Bytes>, start: nat, k: nat) returns (half: nat)
    requires start + 1 == Pow2(k) && |level| > 1 && start + 1 < 2 * |level| <= 2 * (start + 1)
    ensures k > 0 && start == 2 * half + 1 && half + 1 == Pow2(k - 1) && half == Half(start)
    ensures |PairUp(sha3, level)| == (|level| + 1) / 2
    ensures Half(start + |level| - 1) == half + (|level| + 1) / 2 - 1
    ensures half + 1 < 2 * ((|level| + 1) / 2) <= 2 * (half + 1)
  {
    half := Half(start);
    PairUpLength(sha3, level);
  }

  lemma RehashedLevel(sha3: Sha3, cells: Cells, half: nat, level: seq<Bytes>)
    requires Rehashed(sha3, cells, half, level, |PairUp(sha3, level)|) && 2 * half + 1 < |cells|
    requires half + 1 < 2 * |PairUp(sha3, level)| <= 2 * (half + 1)
    ensures LevelAt(cells, half, PairUp(sha3, level))
  {
    assert PairUp(sha3, level)[..|PairUp(sha3, level)|] == PairUp(sha3, level);
  }

  lemma StillLeaves(before: Cells, after: Cells, n: nat, start: nat, data: seq<Bytes>)
    requires 0 < n && start <= n - 1 && LevelAt(before, n - 1, data) && SameFrom(before, after, start)
    ensures LevelAt(after, n - 1, data)
  {
  }

  lemma Hashed(sha3: Sha3, cells: Cells, n: nat, data: seq<Bytes>, start: nat, level: seq<Bytes>, k: nat)
    requires Standing(sha3, cells, n, data, start, level, k) && |level| == 1
    requires |data| > 1 && LeavesOf(n, |data|)
    ensures Built(sha3, cells, n, data)
  {
    Unsealed(sha3, cells, n, data, start, level, k);
    assert start == 0 && cells[0] == Nth(level, 0);
  }

  // ----- Paths -----

  /** The other child of the cell's parent, or the cell itself if that is empty. */
  function Sibling(cells: Cells, idx: nat): Bytes
    requires 0 < idx && 2 * ((idx - 1) / 2) + 2 < |cells| && cells[idx].Some?
  {
    var other := cells[4 * ((idx - 1) / 2) + 3 - idx];
    if other.None? then cells[idx].value else other.value
  }

  /** The siblings from the cell `idx` up. */
  ghost function Siblings(sha3: Sha3, cells: Cells, n: nat, idx: nat): seq<Bytes>
    requires HeapOk(sha3, cells, n) && idx < 2 * n - 1 && cells[idx].Some?
    decreases idx
  {
    if idx == 0 then []
    else
      assert CellOk(sha3, cells, (idx - 1) / 2);
      [Sibling(cells, idx)] + Siblings(sha3, cells, n, (idx - 1) / 2)
  }

  lemma {:induction false} SiblingsLength(sha3: Sha3, cells: Cells, n: nat, idx: nat, k: nat)
    requires HeapOk(sha3, cells, n) && idx < 2 * n - 1 && cells[idx].Some?
    requires Pow2(k) - 1 <= idx < 2 * Pow2(k) - 1
    ensures |Siblings(sha3, cells, n, idx)| == k
    decreases idx
  {
    if idx > 0 {
      assert CellOk(sha3, cells, (idx - 1) / 2);
      SiblingsLength(sha3, cells, n, (idx - 1) / 2, k - 1);
    }
  }

  lemma LeafCell(sha3: Sha3, cells: Cells, n: nat, data: seq<Bytes>, leaf: nat)
    requires Built(sha3, cells, n, data) && leaf < |data|
    ensures n - 1 + leaf < 2 * n - 1 && cells[n - 1 + leaf].Some?
    ensures |data| > 1 ==> cells[n - 1 + leaf] == Some(data[leaf])
  {
    if |data| > 1 {
      assert cells[n - 1 + leaf] == Nth(data, leaf);
    }
  }

  /** A leaf has as many siblings above it as there are levels. */
  lemma LeafLength(sha3: Sha3, cells: Cells, n: nat, m: nat, idx: nat)
    requires HeapOk(sha3, cells, n) && LeavesOf(n, m) && n - 1 <= idx < 2 * n - 1 && cells[idx].Some?
    ensures n == Pow2(|Siblings(sha3, cells, n, idx)|)
  {
    var k: nat :| n == Pow2(k);
    SiblingsLength(sha3, cells, n, idx, k);
  }

  /** Folding the siblings of a leaf gives the root. */
  lemma LeafFolds(sha3: Sha3, cells: Cells, n: nat, data: seq<Bytes>, leaf: nat)
    requires Built(sha3, cells, n, data) && leaf < |data| && n - 1 + leaf < 2 * n - 1 && cells[n - 1 + leaf].Some?
    ensures |data| > 1 ==>
              Fold(sha3, n - 1 + leaf, data[leaf], Siblings(sha3, cells, n, n - 1 + leaf)) == Root(sha3, data)
  {
    LeafCell(sha3, cells, n, data, leaf);
    PathFolds(sha3, cells, n, n - 1 + leaf);
  }

  lemma LeafPath(sha3: Sha3, cells: Cells, n: nat, data: seq<Bytes>, leaf: nat)
    requires Built(sha3, cells, n, data) && leaf < |data| && n - 1 + leaf < 2 * n - 1 && cells[n - 1 + leaf].Some?
    ensures var path := Siblings(sha3, cells, n, n - 1 + leaf);
            n == Pow2(|path|) && (|data| > 1 ==> Fold(sha3, n - 1 + leaf, data[leaf], path) == Root(sha3, data))
  {
    LeafFolds(sha3, cells, n, data, leaf);
    LeafLength(sha3, cells, n, |data|, n - 1 + leaf);
  }

  lemma SiblingsOfParent(sha3: Sha3, cells: Cells, n: nat, idx: nat, mp: seq<Bytes>)
    requires HeapOk(sha3, cells, n) && 0 < idx < 2 * n - 1 && cells[idx].Some?
    ensures var p := (idx - 1) / 2;
            && 0 <= p && 0 <= 4 * p + 3 - idx < |cells| && cells[p].Some?
            && mp + Siblings(sha3, cells, n, idx) == mp + [Sibling(cells, idx)] + Siblings(sha3, cells, n, p)
  {
    var p := (idx - 1) / 2;
    assert CellOk(sha3, cells, p);
    assert mp + ([Sibling(cells, idx)] + Siblings(sha3, cells, n, p)) ==
           mp + [Sibling(cells, idx)] + Siblings(sha3, cells, n, p);
  }

  /** Hashes a value with the siblings of a path, on the side the index's parity says. */
  function Fold(sha3: Sha3, idx: nat, v: Bytes, path: seq<Bytes>): Bytes
    decreases idx
  {
    if idx == 0 || path == [] then v
    else Fold(sha3, (idx - 1) / 2, sha3(Joined(idx, v, path[0])), path[1..])
  }

  function Joined(idx: nat, v: Bytes, sibling: Bytes): Bytes {
    if idx % 2 == 1 then v + sibling else sibling + v
  }

  lemma {:induction false} PathFolds(sha3: Sha3, cells: Cells, n: nat, idx: nat)
    requires HeapOk(sha3, cells, n) && idx < 2 * n - 1 && cells[idx].Some?
    ensures cells[0] == Some(Fold(sha3, idx, cells[idx].value, Siblings(sha3, cells, n, idx)))
    decreases idx
  {
    if idx != 0 {
      assert CellOk(sha3, cells, (idx - 1) / 2);
      PathFolds(sha3, cells, n, (idx - 1) / 2);
    }
  }

  /** With a single leaf the path is empty, and folding it gives the root only if the leaf hashes to itself. */
  lemma SingleLeaf(sha3: Sha3, leaf: Bytes)
    ensures Fold(sha3, 0, leaf, []) == Root(sha3, [leaf]) <==> sha3(leaf + leaf) == leaf
  {
    assert PairUp(sha3, [leaf]) == [sha3(leaf + leaf)];
  }

  /** Somewhere on the way up, folding hashes other bytes than the tree did to the same hash. */
  ghost predicate Collision(sha3: Sha3, cells: Cells, idx: nat, v: Bytes, path: seq<Bytes>)
    decreases idx
  {
    && idx > 0 && path != [] && 2 * ((idx - 1) / 2) + 2 < |cells|
    && var p := (idx - 1) / 2;
       var l, r := cells[2 * p + 1], cells[2 * p + 2];
       var x := Joined(idx, v, path[0]);
       && l.Some?
       && var y := l.value + (if r.Some? then r else l).value;
          (x != y && sha3(x) == sha3(y)) || Collision(sha3, cells, p, sha3(x), path[1..])
  }

  /** A path binds: a value of the common length that folds to the root by any path of such values is the one in
      the tree, unless the folding meets a hash collision. */
  lemma {:induction false} PathBinds(sha3: Sha3, cells: Cells, n: nat, idx: nat, v: Bytes, path: seq<Bytes>, len: nat)
    requires HeapOk(sha3, cells, n) && idx < 2 * n - 1 && cells[idx].Some?
    requires forall i :: 0 <= i < |cells| && cells[i].Some? ==> |cells[i].value| == len
    requires forall x :: |sha3(x)| == len
    requires |v| == len && (forall i :: 0 <= i < |path| ==> |path[i]| == len)
    requires |path| == |Siblings(sha3, cells, n, idx)|
    requires cells[0] == Some(Fold(sha3, idx, v, path))
    ensures v == cells[idx].value || Collision(sha3, cells, idx, v, path)
    decreases idx
  {
    if idx != 0 && v != cells[idx].value {
      var p := (idx - 1) / 2;
      assert CellOk(sha3, cells, p);
      PathBinds(sha3, cells, n, p, sha3(Joined(idx, v, path[0])), path[1..], len);
      var l, r := cells[2 * p + 1].value, cells[2 * p + 2];
      OtherBytes(idx, v, path[0], l, if r.Some? then r.value else l, len);
    }
  }

  /** Bytes of equal length that differ where the index says differ when joined. */
  lemma OtherBytes(idx: nat, v: Bytes, sibling: Bytes, l: Bytes, r: Bytes, len: nat)
    requires |v| == |sibling| == |l| == |r| == len
    requires v != if idx % 2 == 1 then l else r
    ensures Joined(idx, v, sibling) != l + r
  {
    assert (l + r)[..len] == l && (l + r)[len..] == r;
    var x := Joined(idx, v, sibling);
    assert if idx % 2 == 1 then x[..len] == v else x[len..] == v;
  }
}
