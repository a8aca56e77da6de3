/** A codec that meets what the log's results assume of one, and a torn record they apply to. */
module WalExample {
  import opened Basics
  import opened ByteOrder
  import opened WalFrames
  import opened WalRead
  import opened Wal

  /** `n` ones and a two. */
  function Unary(n: nat): (s: Bytes)
    ensures |s| == n + 1 && s[n] == 2 && forall i :: 0 <= i < n ==> s[i] == 1
  {
    seq(n, i => 1) + [2]
  }

  function Magnitude(k: int): nat {
    if k < 0 then -k else k
  }

  /** A mark, the checksum, the sign and size of the type, and the data. */
  function Marshal(l: Log): Bytes {
    [1] + LittleEndian(l.checksum, 8) + [if l.kind < 0 then 1 else 0] + Unary(Magnitude(l.kind)) + l.data
  }

  function MarshalEntry(e: Entry): Bytes {
    Unary(e.index) + Unary(|e.data|) + e.data + e.extra
  }

  lemma UnaryUnique(m: nat, n: nat, s: Bytes, t: Bytes)
    requires Unary(m) + s == Unary(n) + t
    ensures m == n && s == t
  {
    var x, y := Unary(m) + s, Unary(n) + t;
    assert x[m] == 2 && y[n] == 2;
    assert forall i :: 0 <= i < m ==> x[i] == 1;
    assert forall i :: 0 <= i < n ==> y[i] == 1;
    assert x[m + 1..] == s && y[n + 1..] == t;
  }

  lemma MarshalUnique(a: Log, b: Log)
    requires Marshal(a) == Marshal(b)
    ensures a == b
  {
    Parts(a);
    Parts(b);
    Pow256Of8();
    LittleEndianInverse(a.checksum, 8);
    LittleEndianInverse(b.checksum, 8);
    UnaryUnique(Magnitude(a.kind), Magnitude(b.kind), a.data, b.data);
  }

  lemma Parts(l: Log)
    ensures |Marshal(l)| == 11 + Magnitude(l.kind) + |l.data| && Marshal(l)[0] == 1
    ensures Marshal(l)[1..9] == LittleEndian(l.checksum, 8)
    ensures Marshal(l)[9] == if l.kind < 0 then 1 else 0
    ensures Marshal(l)[10..] == Unary(Magnitude(l.kind)) + l.data
  {
    var checksum, sign := LittleEndian(l.checksum, 8), [if l.kind < 0 then 1 else 0];
    PartsOf([1], checksum, sign, Unary(Magnitude(l.kind)), l.data);
  }

  lemma PartsOf(a: Bytes, b: Bytes, c: Bytes, d: Bytes, e: Bytes)
    requires |a| == 1 && |b| == 8 && |c| == 1
    ensures var x := a + b + c + d + e; x[0] == a[0] && x[1..9] == b && x[9] == c[0] && x[10..] == d + e
  {
    assert a + b + c + d + e == (a + b + c) + (d + e);
  }

  lemma MarshalEntryUnique(a: Entry, b: Entry)
    requires MarshalEntry(a) == MarshalEntry(b)
    ensures a == b
  {
    var s, t := a.data + a.extra, b.data + b.extra;
    assert MarshalEntry(a) == Unary(a.index) + (Unary(|a.data|) + s);
    assert MarshalEntry(b) == Unary(b.index) + (Unary(|b.data|) + t);
    UnaryUnique(a.index, b.index, Unary(|a.data|) + s, Unary(|b.data|) + t);
    UnaryUnique(|a.data|, |b.data|, s, t);
    assert s[..|a.data|] == a.data && t[..|b.data|] == b.data;
    assert s[|a.data|..] == a.extra && t[|b.data|..] == b.extra;
  }

  ghost function Unmarshal(b: Bytes): Option<Log> {
    if exists l :: Marshal(l) == b then
      var l :| Marshal(l) == b;
      Some(l)
    else None
  }

  ghost function UnmarshalEntry(b: Bytes): Option<Entry> {
    if exists e :: MarshalEntry(e) == b then
      var e :| MarshalEntry(e) == b;
      Some(e)
    else None
  }

  function Crc(prev: u64, data: Bytes): u64 {
    (prev + |data| + 1) % 0x1_0000_0000_0000_0000
  }

  ghost const CODEC := Codec(Marshal, Unmarshal, MarshalEntry, UnmarshalEntry, Crc)

  /** The assumptions about the codec can be met. */
  lemma CodecIsFaithful()
    ensures Faithful(CODEC)
  {
    forall l
      ensures CODEC.unmarshal(CODEC.marshal(l)) == Some(l)
    {
      var found := Unmarshal(Marshal(l)).value;
      MarshalUnique(found, l);
    }
    forall e
      ensures CODEC.unmarshalEntry(CODEC.marshalEntry(e)) == Some(e)
    {
      var found := UnmarshalEntry(MarshalEntry(e)).value;
      MarshalEntryUnique(found, e);
    }
  }

  /** Logs can be created, and entries of up to a gigabyte saved while there are fewer than 2^40 of them. */
  lemma CodecFits(meta: Bytes, crc: u64, e: Entry)
    requires |meta| < 0x4000_0000 && |e.data| < 0x4000_0000 && |e.extra| < 0x4000_0000 && e.index < 0x100_0000_0000
    ensures OpeningFits(CODEC, meta) && EntryFits(CODEC, crc, e)
  {
    forall prev: u64
      ensures |CODEC.marshal(CrcLog(CODEC, prev))| < SIZE_LIMIT
      ensures |CODEC.marshal(MetaLog(CODEC, prev, meta))| < SIZE_LIMIT
    {
      assert |CODEC.marshal(CrcLog(CODEC, prev))| == |Marshal(CrcLog(CODEC, prev))| == 19;
      assert |CODEC.marshal(MetaLog(CODEC, prev, meta))| == |Marshal(MetaLog(CODEC, prev, meta))| == 13 + |meta|;
    }
    assert CODEC.marshalEntry(e) == MarshalEntry(e);
    assert |CODEC.marshal(EntryLog(CODEC, crc, e))| == |Marshal(EntryLog(CODEC, crc, e))|;
  }

  /** Without its first byte a record does not decode, so for a record within one sector damage shows. */
  lemma ShortDamageShows(crc: u64, log: Log, offset: nat)
    requires SectorOf(offset, 0) == SectorOf(offset, |Payload(CODEC, log)|)
    ensures DamageShows(CODEC, crc, log, offset)
  {
    var payload := Payload(CODEC, log);
    var n := |CODEC.marshal(log)|;
    assert CODEC.marshal(log) == Marshal(log) && n > 0;
    forall lost: set<nat> | Torn(payload, offset, lost) != payload
      ensures CODEC.unmarshal(Torn(payload, offset, lost)[..n]).None?
    {
      var damaged := Torn(payload, offset, lost);
      assert forall i :: 0 <= i < |payload| ==> SectorOf(offset, i) == SectorOf(offset, 0);
      assert SectorOf(offset, 0) in lost;
      assert damaged[..n][0] == 0;
      assert forall l :: Marshal(l)[0] == 1;
    }
  }

  lemma FrameLength(log: Log)
    ensures |CODEC.marshal(log)| == 11 + Magnitude(log.kind) + |log.data| && CODEC.marshal(log)[0] == 1
    ensures |Frame(CODEC, log)| == 8 + |Payload(CODEC, log)|
    ensures |Payload(CODEC, log)| == |CODEC.marshal(log)| + Padding(|CODEC.marshal(log)|)
  {
    assert CODEC.marshal(log) == Marshal(log);
    Parts(log);
  }

  ghost const OPENING := OpeningLogs(CODEC, 0, [])
  ghost const FIRST := EntryLog(CODEC, OPENING[1].checksum, Entry([7], [], 0))

  /** Opening a log takes 56 bytes. */
  lemma OpeningSize(a: Log, b: Log)
    requires a.kind == CRC_TYPE && |a.data| == 8 && b.kind == META_DATA_TYPE && b.data == []
    ensures |Frames(CODEC, [a, b])| == 56
  {
    FramesOfTwo(CODEC, a, b);
    FrameLength(a);
    FrameLength(b);
  }

  lemma FirstSize()
    ensures |Payload(CODEC, FIRST)| == 24
  {
    assert CODEC.marshalEntry(Entry([7], [], 0)) == MarshalEntry(Entry([7], [], 0));
    assert |MarshalEntry(Entry([7], [], 0))| == 4;
    FrameLength(FIRST);
  }

  /** An entry saved first of all into a new log, and torn: all that the torn-write result assumes is met, and the
      damage is real. */
  lemma TornExample()
    ensures Faithful(CODEC) && AllAccepted(CODEC, 0, [], OPENING + [FIRST]) && FIRST.kind == ENTRY_TYPE
    ensures CrcAfterAll(CODEC, 0, OPENING) == OPENING[1].checksum
    ensures DamageShows(CODEC, OPENING[1].checksum, FIRST, |Frames(CODEC, OPENING)| + 8)
    ensures Torn(Frame(CODEC, FIRST), |Frames(CODEC, OPENING)|, {0}) != Frame(CODEC, FIRST)
  {
    var e := Entry([7], [], 0);
    CodecIsFaithful();
    CodecFits([], OPENING[1].checksum, e);
    OpeningAccepted(CODEC, 0, []);
    assert CODEC.unmarshalEntry(CODEC.marshalEntry(e)) == Some(e);
    AcceptedSnoc(CODEC, 0, [], OPENING, FIRST);
    OpeningSize(OPENING[0], OPENING[1]);
    FirstSize();
    ShortDamageShows(OPENING[1].checksum, FIRST, 64);
    FrameLength(FIRST);
    assert Frame(CODEC, FIRST)[8] == CODEC.marshal(FIRST)[0];
    assert Torn(Frame(CODEC, FIRST), 56, {0})[8] == 0;
  }
}
