/** Reading the log back: decoding records, telling torn writes from corruption, and replaying all
    segments. */
module WalRead {
  import opened Basics
  import opened ByteOrder
  import opened WalFrames

  const MIN_SECTOR_SIZE := 512

  /** The decoder: what is left of each segment, the running checksum, and the offset in the first one. */
  datatype Decoder = Decoder(r: seq<seq<byte>>, crc: u64, lastOffset: nat)

  datatype Outcome = Got(log: Log) | Eof | UnexpectedEof | Corrupt

  // ----- Torn writes -----

  /** All bytes of `data`, which begins at `offset` of the file, that lie in sector `sector` are zero, and
      there are some. */
  ghost predicate ZeroSector(data: seq<byte>, offset: nat, sector: nat) {
    && (exists i :: 0 <= i < |data| && SectorOf(offset, i) == sector)
    && (forall i :: 0 <= i < |data| && SectorOf(offset, i) == sector ==> data[i] == 0)
  }

  function SectorOf(offset: nat, i: nat): nat {
    (offset + i) / MIN_SECTOR_SIZE
  }

  ghost predicate SomeSectorZero(data: seq<byte>, offset: nat) {
    exists sector :: ZeroSector(data, offset, sector)
  }

  /** Only the last segment can be torn: then some sector of the record was never written. */
  ghost predicate TornWrite(segments: nat, lastOffset: nat, data: seq<byte>) {
    segments == 1 && SomeSectorZero(data, lastOffset + 8)
  }

  // ----- Decoding one record -----

  ghost function DecodePayload(c: Codec, d: Decoder, rec: nat, data: seq<byte>): (Decoder, Outcome)
    requires rec <= |data|
  {
    match c.unmarshal(data[..rec])
    case None => (d, if TornWrite(|d.r|, d.lastOffset, data) then UnexpectedEof else Corrupt)
    case Some(log) =>
      if log.kind == CRC_TYPE then (d.(lastOffset := d.lastOffset + 8 + |data|), Got(log))
      else
        var crc := c.crc(d.crc, log.data);
        if log.checksum == crc then (d.(crc := crc, lastOffset := d.lastOffset + 8 + |data|), Got(log))
        else (d.(crc := crc), if TornWrite(|d.r|, d.lastOffset, data) then UnexpectedEof else Corrupt)
  }

  /** The current segment is used up: no bytes are left, or preallocated zeros begin. */
  predicate AtEnd(f: seq<byte>) {
    f == [] || (|f| >= 8 && FromLittleEndian(f[..8]) == 0)
  }

  ghost function Decode(c: Codec, d: Decoder): (Decoder, Outcome)
    decreases |d.r|
  {
    if d.r == [] then (d, Eof)
    else
      var f := d.r[0];
      if AtEnd(f) then
        if |d.r| == 1 then (d.(r := []), Eof) else Decode(c, Decoder(d.r[1..], d.crc, 0))
      else if |f| < 8 then (d.(r := d.r[0 := []]), UnexpectedEof)
      else
        var (rec, pad) := DecodeFrameSize(FromLittleEndian(f[..8]));
        if |f| < 8 + rec + pad then (d.(r := d.r[0 := []]), UnexpectedEof)
        else DecodePayload(c, d.(r := d.r[0 := f[8 + rec + pad..]]), rec, f[8..8 + rec + pad])
  }

  function Size(r: seq<seq<byte>>): nat {
    if r == [] then 0 else |r[0]| + Size(r[1..])
  }

  lemma {:induction false} DecodeConsumes(c: Codec, d: Decoder)
    requires Decode(c, d).1.Got?
    ensures Size(Decode(c, d).0.r) < Size(d.r)
    decreases |d.r|
  {
    var f := d.r[0];
    if AtEnd(f) {
      DecodeConsumes(c, Decoder(d.r[1..], d.crc, 0));
    } else {
      var (rec, pad) := DecodeFrameSize(FromLittleEndian(f[..8]));
      var r := d.r[0 := f[8 + rec + pad..]];
      assert Decode(c, d).0.r == r && r[1..] == d.r[1..];
    }
  }

  // ----- Reading everything -----

  /** The outcome of reading all records; `meta` is empty while no metadata record was seen. */
  datatype ReadResult =
    | Entries(meta: seq<byte>, ents: seq<Entry>)
    | MetadataConflict
    | CrcMismatch
    | BadType
    | Failed

  /** Whether the log's checksum, or for a checksum record its content, is the given one. */
  predicate Check(log: Log, crc: u64) {
    (log.kind == CRC_TYPE && FromBigEndian(log.data) == crc) || log.checksum == crc
  }

  ghost function Read(c: Codec, d: Decoder, meta: seq<byte>, ents: seq<Entry>): ReadResult
    decreases Size(d.r)
  {
    var (d', o) := Decode(c, d);
    match o
    case Eof => Entries(meta, ents)
    case UnexpectedEof => Entries(meta, ents)
    case Corrupt => Failed
    case Got(log) =>
      DecodeConsumes(c, d);
      if log.kind == ENTRY_TYPE then
        match c.unmarshalEntry(log.data)
        case None => Failed
        case Some(e) => Read(c, d', meta, ents + [e])
      else if log.kind == META_DATA_TYPE then
        if meta != [] && meta != log.data then MetadataConflict else Read(c, d', log.data, ents)
      else if log.kind == CRC_TYPE then
        if d'.crc != 0 && !Check(log, d'.crc) then CrcMismatch
        else Read(c, d'.(crc := log.checksum), meta, ents)
      else BadType
  }

  // ----- Logs that read back -----

  /** The record is one the reader accepts after the records before it left the checksum `crc`. */
  ghost predicate Accepted(c: Codec, crc: u64, meta: seq<byte>, log: Log) {
    && Proper(c, log)
    && if log.kind == CRC_TYPE then crc == 0 || Check(log, crc)
       else
         && log.checksum == c.crc(crc, log.data)
         && (|| (log.kind == META_DATA_TYPE && log.data == meta)
             || (log.kind == ENTRY_TYPE && c.unmarshalEntry(log.data).Some?))
  }

  function CrcAfter(c: Codec, crc: u64, log: Log): u64 {
    if log.kind == CRC_TYPE then log.checksum else c.crc(crc, log.data)
  }

  function CrcAfterAll(c: Codec, crc: u64, logs: seq<Log>): u64
    decreases |logs|
  {
    if logs == [] then crc else CrcAfterAll(c, CrcAfter(c, crc, logs[0]), logs[1..])
  }

  ghost predicate AllAccepted(c: Codec, crc: u64, meta: seq<byte>, logs: seq<Log>)
    decreases |logs|
  {
    logs == [] || (Accepted(c, crc, meta, logs[0]) && AllAccepted(c, CrcAfter(c, crc, logs[0]), meta, logs[1..]))
  }

  function EntryOf(c: Codec, log: Log): seq<Entry> {
    if log.kind == ENTRY_TYPE && c.unmarshalEntry(log.data).Some? then [c.unmarshalEntry(log.data).value] else []
  }

  /** The entries among the records, in order. */
  function EntriesIn(c: Codec, logs: seq<Log>): seq<Entry> {
    if logs == [] then [] else EntryOf(c, logs[0]) + EntriesIn(c, logs[1..])
  }

  /** The metadata known after the records. */
  function MetaAfter(logs: seq<Log>, seen: seq<byte>): seq<byte> {
    if logs == [] then seen
    else MetaAfter(logs[1..], if logs[0].kind == META_DATA_TYPE then logs[0].data else seen)
  }

  /** An accepted frame at the front of a segment is decoded to its record. */
  lemma DecodeFrame(c: Codec, log: Log, rest: seq<byte>, more: seq<seq<byte>>, crc: u64, off: nat)
    requires Faithful(c) && Proper(c, log) && (log.kind != CRC_TYPE ==> log.checksum == c.crc(crc, log.data))
    ensures var d := Decoder([Frame(c, log) + rest] + more, crc, off);
            Decode(c, d) == (Decoder([rest] + more, if log.kind == CRC_TYPE then crc else c.crc(crc, log.data),
                                     off + |Frame(c, log)|), Got(log))
  {
    var f := Frame(c, log) + rest;
    var d := Decoder([f] + more, crc, off);
    HeaderDecodes(c, log);
    var n, pad := |c.marshal(log)|, Padding(|c.marshal(log)|);
    assert f[..8] == Header(c, log);
    assert f[8..8 + n + pad] == Payload(c, log);
    assert Payload(c, log)[..n] == c.marshal(log);
    assert f[8 + n + pad..] == rest;
    assert d.r[0 := rest] == [rest] + more;
  }

  /** Where a reading stands: the decoder, the metadata seen and the entries collected. */
  datatype Reading = Reading(d: Decoder, seen: seq<byte>, ents: seq<Entry>)

  ghost predicate ContinuesUnder(c: Codec, a: Reading, b: Reading, seal: Seal) {
    Read(c, a.d, a.seen, a.ents) == Read(c, b.d, b.seen, b.ents)
  }

  /** The reading that stands at `a` ends like the one that stands at `b`. */
  ghost predicate Continues(c: Codec, a: Reading, b: Reading) {
    forall seal :: ContinuesUnder(c, a, b, seal)
  }

  lemma ContinuesIff(c: Codec, a: Reading, b: Reading)
    ensures Continues(c, a, b) <==> Read(c, a.d, a.seen, a.ents) == Read(c, b.d, b.seen, b.ents)
  {
    assert Continues(c, a, b) ==> ContinuesUnder(c, a, b, Seal);
  }

  lemma ContinuesOn(c: Codec, a: Reading, b: Reading, e: Reading)
    requires Continues(c, a, b) && Continues(c, b, e)
    ensures Continues(c, a, e)
  {
    ContinuesIff(c, a, b);
    ContinuesIff(c, b, e);
    ContinuesIff(c, a, e);
  }

  lemma ReadFrame(c: Codec, log: Log, rest: seq<byte>, more: seq<seq<byte>>, crc: u64, off: nat,
                  seen: seq<byte>, meta: seq<byte>, ents: seq<Entry>)
    requires Faithful(c) && Accepted(c, crc, meta, log) && (seen == [] || seen == meta)
    ensures Continues(c, Reading(Decoder([Frame(c, log) + rest] + more, crc, off), seen, ents),
                      Reading(Decoder([rest] + more, CrcAfter(c, crc, log), off + |Frame(c, log)|),
                              if log.kind == META_DATA_TYPE then log.data else seen, ents + EntryOf(c, log)))
  {
    DecodeFrame(c, log, rest, more, crc, off);
    assert log.kind != ENTRY_TYPE ==> ents + EntryOf(c, log) == ents;
  }

  /** Accepted records are replayed one after the other. */
  lemma {:induction false} ReadFrames(c: Codec, logs: seq<Log>, rest: seq<byte>, more: seq<seq<byte>>, crc: u64,
                                      off: nat, seen: seq<byte>, meta: seq<byte>, ents: seq<Entry>)
    requires Faithful(c) && AllAccepted(c, crc, meta, logs) && (seen == [] || seen == meta)
    ensures Continues(c, Reading(Decoder([Frames(c, logs) + rest] + more, crc, off), seen, ents),
                      Reading(Decoder([rest] + more, CrcAfterAll(c, crc, logs), off + |Frames(c, logs)|),
                              MetaAfter(logs, seen), ents + EntriesIn(c, logs)))
    ensures MetaAfter(logs, seen) == [] || MetaAfter(logs, seen) == meta
    decreases |logs|
  {
    if logs == [] {
      assert Frames(c, logs) + rest == rest;
      assert ents + [] == ents;
    } else {
      var log := logs[0];
      var tail := Frames(c, logs[1..]) + rest;
      assert Frames(c, logs) + rest == Frame(c, log) + tail;
      ReadFrame(c, log, tail, more, crc, off, seen, meta, ents);
      var seen' := if log.kind == META_DATA_TYPE then log.data else seen;
      ReadFrames(c, logs[1..], rest, more, CrcAfter(c, crc, log), off + |Frame(c, log)|, seen', meta,
                 ents + EntryOf(c, log));
      assert ents + EntryOf(c, log) + EntriesIn(c, logs[1..]) == ents + EntriesIn(c, logs);
      ContinuesOn(c, Reading(Decoder([Frames(c, logs) + rest] + more, crc, off), seen, ents),
                  Reading(Decoder([tail] + more, CrcAfter(c, crc, log), off + |Frame(c, log)|), seen',
                          ents + EntryOf(c, log)),
                  Reading(Decoder([rest] + more, CrcAfterAll(c, crc, logs), off + |Frames(c, logs)|),
                          MetaAfter(logs, seen), ents + EntriesIn(c, logs)));
    }
  }

  // ----- Segments -----

  /** The files of complete segments. */
  function Files(c: Codec, segs: seq<seq<Log>>): seq<seq<byte>> {
    seq(|segs|, i requires 0 <= i < |segs| => Frames(c, segs[i]))
  }

  function Flat(segs: seq<seq<Log>>): seq<Log> {
    if segs == [] then [] else segs[0] + Flat(segs[1..])
  }

  lemma {:induction false} AcceptedConcat(c: Codec, crc: u64, meta: seq<byte>, a: seq<Log>, b: seq<Log>)
    ensures AllAccepted(c, crc, meta, a + b) <==>
            AllAccepted(c, crc, meta, a) && AllAccepted(c, CrcAfterAll(c, crc, a), meta, b)
    ensures CrcAfterAll(c, crc, a + b) == CrcAfterAll(c, CrcAfterAll(c, crc, a), b)
    decreases |a|
  {
    if a == [] {
      assert a + b == b;
    } else {
      assert (a + b)[1..] == a[1..] + b;
      AcceptedConcat(c, CrcAfter(c, crc, a[0]), meta, a[1..], b);
    }
  }

  lemma {:induction false} EntriesConcat(c: Codec, a: seq<Log>, b: seq<Log>)
    ensures EntriesIn(c, a + b) == EntriesIn(c, a) + EntriesIn(c, b)
  {
    if a == [] {
      assert a + b == b;
    } else {
      assert (a + b)[1..] == a[1..] + b;
      EntriesConcat(c, a[1..], b);
    }
  }

  lemma {:induction false} MetaConcat(a: seq<Log>, b: seq<Log>, seen: seq<byte>)
    ensures MetaAfter(a + b, seen) == MetaAfter(b, MetaAfter(a, seen))
  {
    if a == [] {
      assert a + b == b;
    } else {
      assert (a + b)[1..] == a[1..] + b;
      MetaConcat(a[1..], b, if a[0].kind == META_DATA_TYPE then a[0].data else seen);
    }
  }

  /** After a used-up segment the next one is read from its beginning. */
  lemma NextSegment(c: Codec, more: seq<seq<byte>>, crc: u64, off: nat, seen: seq<byte>, ents: seq<Entry>)
    requires more != []
    ensures Continues(c, Reading(Decoder([[]] + more, crc, off), seen, ents),
                      Reading(Decoder(more, crc, 0), seen, ents))
  {
    var d := Decoder([[]] + more, crc, off);
    assert d.r[1..] == more;
    assert Decode(c, d) == Decode(c, Decoder(more, crc, 0));
  }

  /** The reading after complete segments and the records `logs` of the next one, before the rest `tail` of that one and
      the further files `more`. */
  function AtTail(c: Codec, segs: seq<seq<Log>>, logs: seq<Log>, tail: seq<byte>, more: seq<seq<byte>>, crc: u64,
                  seen: seq<byte>, ents: seq<Entry>): Reading
  {
    Reading(Decoder([tail] + more, CrcAfterAll(c, crc, Flat(segs) + logs), |Frames(c, logs)|),
            MetaAfter(Flat(segs) + logs, seen), ents + EntriesIn(c, Flat(segs) + logs))
  }

  /** The reading that begins with all of that. */
  function AtStart(c: Codec, segs: seq<seq<Log>>, logs: seq<Log>, tail: seq<byte>, more: seq<seq<byte>>, crc: u64,
                   seen: seq<byte>, ents: seq<Entry>): Reading
  {
    Reading(Decoder(Files(c, segs) + ([Frames(c, logs) + tail] + more), crc, 0), seen, ents)
  }

  lemma FlatStep(c: Codec, segs: seq<seq<Log>>, logs: seq<Log>, tail: seq<byte>, more: seq<seq<byte>>, crc: u64,
                 meta: seq<byte>, seen: seq<byte>, ents: seq<Entry>)
    requires segs != []
    ensures var first, rest := segs[0], Flat(segs[1..]) + logs;
            && (AllAccepted(c, crc, meta, Flat(segs) + logs) ==>
                  AllAccepted(c, crc, meta, first) && AllAccepted(c, CrcAfterAll(c, crc, first), meta, rest))
            && AtTail(c, segs, logs, tail, more, crc, seen, ents) ==
               AtTail(c, segs[1..], logs, tail, more, CrcAfterAll(c, crc, first), MetaAfter(first, seen),
                      ents + EntriesIn(c, first))
  {
    var first, rest := segs[0], Flat(segs[1..]) + logs;
    assert Flat(segs) + logs == first + rest;
    AcceptedConcat(c, crc, meta, first, rest);
    EntriesConcat(c, first, rest);
    MetaConcat(first, rest, seen);
    assert ents + EntriesIn(c, first) + EntriesIn(c, rest) == ents + EntriesIn(c, first + rest);
  }

  lemma FilesStep(c: Codec, segs: seq<seq<Log>>, last: seq<seq<byte>>)
    requires segs != []
    ensures Files(c, segs) + last == [Frames(c, segs[0]) + []] + (Files(c, segs[1..]) + last)
  {
    assert Frames(c, segs[0]) + [] == Frames(c, segs[0]);
    assert Files(c, segs) == [Frames(c, segs[0])] + Files(c, segs[1..]);
  }

  lemma ReadFirstSegment(c: Codec, segs: seq<seq<Log>>, logs: seq<Log>, tail: seq<byte>, more: seq<seq<byte>>,
                         crc: u64, seen: seq<byte>, meta: seq<byte>, ents: seq<Entry>)
    requires segs != [] && Faithful(c) && AllAccepted(c, crc, meta, segs[0]) && (seen == [] || seen == meta)
    ensures Continues(c, AtStart(c, segs, logs, tail, more, crc, seen, ents),
                      AtStart(c, segs[1..], logs, tail, more, CrcAfterAll(c, crc, segs[0]), MetaAfter(segs[0], seen),
                              ents + EntriesIn(c, segs[0])))
    ensures MetaAfter(segs[0], seen) == [] || MetaAfter(segs[0], seen) == meta
  {
    var first := segs[0];
    var crc', seen', ents' := CrcAfterAll(c, crc, first), MetaAfter(first, seen), ents + EntriesIn(c, first);
    var later := Files(c, segs[1..]) + ([Frames(c, logs) + tail] + more);
    FilesStep(c, segs, [Frames(c, logs) + tail] + more);
    ReadFrames(c, first, [], later, crc, 0, seen, meta, ents);
    NextSegment(c, later, crc', |Frames(c, first)|, seen', ents');
    ContinuesOn(c, AtStart(c, segs, logs, tail, more, crc, seen, ents),
                Reading(Decoder([[]] + later, crc', |Frames(c, first)|), seen', ents'),
                AtStart(c, segs[1..], logs, tail, more, crc', seen', ents'));
  }

  lemma ReadLastSegment(c: Codec, logs: seq<Log>, tail: seq<byte>, more: seq<seq<byte>>, crc: u64, seen: seq<byte>,
                        meta: seq<byte>, ents: seq<Entry>)
    requires Faithful(c) && AllAccepted(c, crc, meta, logs) && (seen == [] || seen == meta)
    ensures Continues(c, AtStart(c, [], logs, tail, more, crc, seen, ents),
                      AtTail(c, [], logs, tail, more, crc, seen, ents))
  {
    assert Flat([]) + logs == logs;
    assert Files(c, []) + ([Frames(c, logs) + tail] + more) == [Frames(c, logs) + tail] + more;
    ReadFrames(c, logs, tail, more, crc, 0, seen, meta, ents);
  }

  /** Complete segments and the complete records of the next one are replayed; what is left to decide is how it goes
      on. */
  lemma {:induction false} ReadToTail(c: Codec, segs: seq<seq<Log>>, logs: seq<Log>, tail: seq<byte>,
                                      more: seq<seq<byte>>, crc: u64, seen: seq<byte>, meta: seq<byte>,
                                      ents: seq<Entry>)
    requires Faithful(c) && AllAccepted(c, crc, meta, Flat(segs) + logs) && (seen == [] || seen == meta)
    ensures Continues(c, AtStart(c, segs, logs, tail, more, crc, seen, ents),
                      AtTail(c, segs, logs, tail, more, crc, seen, ents))
    decreases |segs|
  {
    if segs == [] {
      assert Flat(segs) + logs == logs;
      ReadLastSegment(c, logs, tail, more, crc, seen, meta, ents);
    } else {
      FlatStep(c, segs, logs, tail, more, crc, meta, seen, ents);
      ReadFirstSegment(c, segs, logs, tail, more, crc, seen, meta, ents);
      var crc', seen', ents' :=
        CrcAfterAll(c, crc, segs[0]), MetaAfter(segs[0], seen), ents + EntriesIn(c, segs[0]);
      ReadToTail(c, segs[1..], logs, tail, more, crc', seen', meta, ents');
      ContinuesOn(c, AtStart(c, segs, logs, tail, more, crc, seen, ents),
                  AtStart(c, segs[1..], logs, tail, more, crc', seen', ents'),
                  AtTail(c, segs, logs, tail, more, crc, seen, ents));
    }
  }

  // ----- How the last file can end -----

  /** Preallocated zeros, however many, end the reading. */
  lemma ZerosEnd(c: Codec, n: nat, crc: u64, off: nat, seen: seq<byte>, ents: seq<Entry>)
    ensures Read(c, Decoder([Zeros(n)], crc, off), seen, ents) == Entries(seen, ents)
  {
    if n >= 8 {
      ZeroBytes(Zeros(n)[..8]);
    }
  }

  lemma LastFile(whole: seq<byte>, tail: seq<byte>)
    ensures [whole] + [] == [whole] && [tail] + [] == [tail]
  {
  }

  /** Round trip: everything accepted into the segments is read back, in order, without any complaint. */
  lemma ReadBack(c: Codec, segs: seq<seq<Log>>, logs: seq<Log>, unused: nat, crc: u64, meta: seq<byte>)
    requires Faithful(c) && AllAccepted(c, crc, meta, Flat(segs) + logs)
    ensures Read(c, Decoder(Files(c, segs) + [Frames(c, logs) + Zeros(unused)], crc, 0), [], []) ==
            Entries(MetaAfter(Flat(segs) + logs, []), EntriesIn(c, Flat(segs) + logs))
  {
    ReadToTail(c, segs, logs, Zeros(unused), [], crc, [], meta, []);
    ContinuesIff(c, AtStart(c, segs, logs, Zeros(unused), [], crc, [], []),
                 AtTail(c, segs, logs, Zeros(unused), [], crc, [], []));
    LastFile(Frames(c, logs) + Zeros(unused), Zeros(unused));
    ZerosEnd(c, unused, CrcAfterAll(c, crc, Flat(segs) + logs), |Frames(c, logs)|,
             MetaAfter(Flat(segs) + logs, []), EntriesIn(c, Flat(segs) + logs));
    assert [] + EntriesIn(c, Flat(segs) + logs) == EntriesIn(c, Flat(segs) + logs);
  }

  // ----- A torn last record -----

  /** What a crash leaves of bytes at `offset` of the file if the sectors in `lost` were never written. */
  function Torn(bytes: seq<byte>, offset: nat, lost: set<nat>): (t: seq<byte>)
    ensures |t| == |bytes|
  {
    seq(|bytes|, i requires 0 <= i < |bytes| => if SectorOf(offset, i) in lost then 0 else bytes[i])
  }

  /** A frame's header never straddles two sectors. */
  lemma HeaderInOneSector(offset: nat, i: nat)
    requires offset % 8 == 0 && i < 8
    ensures SectorOf(offset, i) == SectorOf(offset, 0)
  {
  }

  /** Payloads that lost a sector are not mistaken for records: they do not decode, or their checksum is wrong. */
  ghost predicate DamageShows(c: Codec, crc: u64, log: Log, offset: nat) {
    forall lost: set<nat> ::
      var n := |c.marshal(log)|;
      var damaged := Torn(Payload(c, log), offset, lost);
      damaged != Payload(c, log) ==>
        match c.unmarshal(damaged[..n])
        case None => true
        case Some(l) => l.kind != CRC_TYPE && l.checksum != c.crc(crc, l.data)
  }

  /** A payload that lost bytes has a sector of nothing but zeros. */
  lemma DamageLeavesZeroSector(data: seq<byte>, offset: nat, lost: set<nat>)
    requires Torn(data, offset, lost) != data
    ensures SomeSectorZero(Torn(data, offset, lost), offset)
  {
    var t := Torn(data, offset, lost);
    var i :| 0 <= i < |data| && t[i] != data[i];
    assert ZeroSector(t, offset, SectorOf(offset, i));
  }

  lemma TornParts(c: Codec, log: Log, offset: nat, lost: set<nat>)
    requires offset % 8 == 0
    ensures Torn(Frame(c, log), offset, lost) ==
            (if SectorOf(offset, 0) in lost then Zeros(8) else Header(c, log))
            + Torn(Payload(c, log), offset + 8, lost)
  {
    var t := Torn(Frame(c, log), offset, lost);
    forall i | 0 <= i < 8
      ensures t[i] == if SectorOf(offset, 0) in lost then 0 else Header(c, log)[i]
    {
      HeaderInOneSector(offset, i);
    }
    assert t[8..] == Torn(Payload(c, log), offset + 8, lost) by {
      forall i | 0 <= i < |Payload(c, log)|
        ensures t[8..][i] == Torn(Payload(c, log), offset + 8, lost)[i]
      {
        assert SectorOf(offset, 8 + i) == SectorOf(offset + 8, i);
      }
    }
    assert t == t[..8] + t[8..];
  }

  lemma TornPayloadUnexpected(c: Codec, log: Log, crc: u64, off: nat, lost: set<nat>, rest: seq<byte>)
    requires Faithful(c) && Proper(c, log) && DamageShows(c, crc, log, off + 8)
    requires Torn(Payload(c, log), off + 8, lost) != Payload(c, log)
    ensures Decode(c, Decoder([Header(c, log) + Torn(Payload(c, log), off + 8, lost) + rest], crc, off)).1
            == UnexpectedEof
  {
    var data := Torn(Payload(c, log), off + 8, lost);
    var f := Header(c, log) + data + rest;
    var d := Decoder([f], crc, off);
    assert f[..8] == Header(c, log);
    HeaderDecodes(c, log);
    var n, pad := |c.marshal(log)|, Padding(|c.marshal(log)|);
    assert f[8..8 + n + pad] == data;
    DamageLeavesZeroSector(Payload(c, log), off + 8, lost);
    assert d.r[0 := f[8 + n + pad..]] == [f[8 + n + pad..]];
  }

  /** A last frame that lost sectors, and thereby changed, ends the reading without complaint. */
  lemma TornFrameEnds(c: Codec, log: Log, crc: u64, off: nat, lost: set<nat>, unused: nat,
                      seen: seq<byte>, ents: seq<Entry>)
    requires Faithful(c) && Proper(c, log) && off % 8 == 0 && DamageShows(c, crc, log, off + 8)
    requires Torn(Frame(c, log), off, lost) != Frame(c, log)
    ensures Read(c, Decoder([Torn(Frame(c, log), off, lost) + Zeros(unused)], crc, off), seen, ents)
            == Entries(seen, ents)
  {
    var data := Torn(Payload(c, log), off + 8, lost);
    var f := Torn(Frame(c, log), off, lost) + Zeros(unused);
    TornParts(c, log, off, lost);
    if SectorOf(off, 0) in lost {
      assert f[..8] == Zeros(8);
      ZeroBytes(f[..8]);
    } else {
      TornPayloadUnexpected(c, log, crc, off, lost, Zeros(unused));
    }
  }

  /** How the reading of the last frame ends, whole or torn. */
  lemma TornOrWhole(c: Codec, log: Log, crc: u64, off: nat, lost: set<nat>, unused: nat, meta: seq<byte>,
                    seen: seq<byte>, ents: seq<Entry>)
    requires Faithful(c) && Accepted(c, crc, meta, log) && log.kind == ENTRY_TYPE && (seen == [] || seen == meta)
    requires off % 8 == 0 && DamageShows(c, crc, log, off + 8)
    ensures Read(c, Decoder([Torn(Frame(c, log), off, lost) + Zeros(unused)], crc, off), seen, ents) ==
            Entries(seen, if Torn(Frame(c, log), off, lost) == Frame(c, log) then ents + EntryOf(c, log) else ents)
  {
    if Torn(Frame(c, log), off, lost) == Frame(c, log) {
      WholeFrameEnds(c, log, crc, off, unused, meta, seen, ents);
    } else {
      TornFrameEnds(c, log, crc, off, lost, unused, seen, ents);
    }
  }

  lemma WholeFrameEnds(c: Codec, log: Log, crc: u64, off: nat, unused: nat, meta: seq<byte>, seen: seq<byte>,
                       ents: seq<Entry>)
    requires Faithful(c) && Accepted(c, crc, meta, log) && log.kind == ENTRY_TYPE && (seen == [] || seen == meta)
    ensures Read(c, Decoder([Frame(c, log) + Zeros(unused)], crc, off), seen, ents) ==
            Entries(seen, ents + EntryOf(c, log))
  {
    var tail := Frame(c, log) + Zeros(unused);
    ReadFrame(c, log, Zeros(unused), [], crc, off, seen, meta, ents);
    assert [tail] + [] == [tail] && [Zeros(unused)] + [] == [Zeros(unused)];
    ContinuesIff(c, Reading(Decoder([tail], crc, off), seen, ents),
                 Reading(Decoder([Zeros(unused)], CrcAfter(c, crc, log), off + |Frame(c, log)|), seen,
                         ents + EntryOf(c, log)));
    ZerosEnd(c, unused, CrcAfter(c, crc, log), off + |Frame(c, log)|, seen, ents + EntryOf(c, log));
  }

  /** Torn writes: if of the last record, an entry, any set of sectors is lost in a crash, reading returns all
      entries if that changed nothing and exactly the earlier ones if it did; never an error. */
  lemma TornWriteReadsPrefix(c: Codec, segs: seq<seq<Log>>, logs: seq<Log>, log: Log, lost: set<nat>, unused: nat,
                             crc: u64, meta: seq<byte>)
    requires Faithful(c) && AllAccepted(c, crc, meta, Flat(segs) + logs + [log]) && log.kind == ENTRY_TYPE
    requires DamageShows(c, CrcAfterAll(c, crc, Flat(segs) + logs), log, |Frames(c, logs)| + 8)
    ensures var torn := Torn(Frame(c, log), |Frames(c, logs)|, lost);
            var earlier := EntriesIn(c, Flat(segs) + logs);
            Read(c, Decoder(Files(c, segs) + [Frames(c, logs) + (torn + Zeros(unused))], crc, 0), [], []) ==
            Entries(MetaAfter(Flat(segs) + logs, []),
                    if torn == Frame(c, log) then earlier + EntryOf(c, log) else earlier)
  {
    var off := |Frames(c, logs)|;
    var before := Flat(segs) + logs;
    var tail := Torn(Frame(c, log), off, lost) + Zeros(unused);
    AcceptedConcat(c, crc, meta, before, [log]);
    ReadToTail(c, segs, logs, tail, [], crc, [], meta, []);
    ContinuesIff(c, AtStart(c, segs, logs, tail, [], crc, [], []), AtTail(c, segs, logs, tail, [], crc, [], []));
    LastFile(Frames(c, logs) + tail, tail);
    MetaSeen(c, crc, meta, before, []);
    FramesAligned(c, logs);
    assert [] + EntriesIn(c, before) == EntriesIn(c, before);
    TornOrWhole(c, log, CrcAfterAll(c, crc, before), off, lost, unused, meta, MetaAfter(before, []),
                EntriesIn(c, before));
  }

  lemma {:induction false} MetaSeen(c: Codec, crc: u64, meta: seq<byte>, logs: seq<Log>, seen: seq<byte>)
    requires AllAccepted(c, crc, meta, logs) && (seen == [] || seen == meta)
    ensures MetaAfter(logs, seen) == [] || MetaAfter(logs, seen) == meta
    decreases |logs|
  {
    if logs != [] {
      MetaSeen(c, CrcAfter(c, crc, logs[0]), meta, logs[1..],
               if logs[0].kind == META_DATA_TYPE then logs[0].data else seen);
    }
  }

  // ----- The decoder object -----

  /** Positions `a` to `b` of the data are exactly those of one sector. */
  ghost predicate SectorChunk(data: seq<byte>, offset: nat, a: nat, b: nat) {
    && a < b <= |data|
    && (forall i :: 0 <= i < |data| ==> (SectorOf(offset, i) == SectorOf(offset, a) <==> a <= i < b))
  }

  lemma ChunkIsSector(data: seq<byte>, offset: nat, a: nat, b: nat)
    requires a < |data| && (a == 0 || (offset + a) % MIN_SECTOR_SIZE == 0)
    requires b == if MIN_SECTOR_SIZE - (offset + a) % MIN_SECTOR_SIZE > |data| - a then |data|
                  else a + MIN_SECTOR_SIZE - (offset + a) % MIN_SECTOR_SIZE
    ensures SectorChunk(data, offset, a, b)
    ensures b == |data| || (offset + b) % MIN_SECTOR_SIZE == 0
  {
  }

  class DecoderImpl {
    const codec: Codec
    var r: seq<seq<byte>>
    var crc: u64
    var lastOffset: nat

    constructor (codec: Codec, files: seq<seq<byte>>)
      ensures this.codec == codec && Value() == Decoder(files, 0, 0)
    {
      this.codec := codec;
      r, crc, lastOffset := files, 0, 0;
    }

    function Value(): Decoder
      reads this
    {
      Decoder(r, crc, lastOffset)
    }

    /** Splits the data at sector boundaries and looks for a piece of zeros. */
    method IsTornWrite(data: seq<byte>) returns (torn: bool)
      ensures torn == TornWrite(|r|, lastOffset, data)
    {
      if |r| != 1 {
        return false;
      }
      var start := lastOffset + 8;
      var curOff := 0;
      while curOff < |data|
        invariant 0 <= curOff <= |data|
        invariant curOff == 0 || curOff == |data| || (start + curOff) % MIN_SECTOR_SIZE == 0
        invariant forall i :: 0 <= i < curOff ==> !ZeroSector(data, start, SectorOf(start, i))
      {
        var len := MIN_SECTOR_SIZE - (start + curOff) % MIN_SECTOR_SIZE;
        if len > |data| - curOff {
          len := |data| - curOff;
        }
        ChunkIsSector(data, start, curOff, curOff + len);
        var isZero := true;
        var k := curOff;
        while k < curOff + len && isZero
          invariant curOff <= k <= curOff + len
          invariant isZero <==> forall i :: curOff <= i < k ==> data[i] == 0
        {
          if data[k] != 0 {
            isZero := false;
          }
          k := k + 1;
        }
        if isZero {
          assert ZeroSector(data, start, SectorOf(start, curOff));
          return true;
        }
        assert !ZeroSector(data, start, SectorOf(start, curOff));
        assert forall i :: curOff <= i < curOff + len ==> SectorOf(start, i) == SectorOf(start, curOff);
        curOff := curOff + len;
      }
      return false;
    }

    method DecodeRecord() returns (o: Outcome)
      modifies this
      ensures Value() == Decode(codec, old(Value())).0 && o == Decode(codec, old(Value())).1
      decreases |r|
    {
      if |r| == 0 {
        return Eof;
      }
      var f := r[0];
      if f == [] || (|f| >= 8 && FromLittleEndian(f[..8]) == 0) {
        r := r[1..];
        if |r| == 0 {
          return Eof;
        }
        lastOffset := 0;
        o := DecodeRecord();
        return;
      }
      if |f| < 8 {
        r := r[0 := []];
        return UnexpectedEof;
      }
      var (rec, pad) := DecodeFrameSize(FromLittleEndian(f[..8]));
      if |f| < 8 + rec + pad {
        r := r[0 := []];
        return UnexpectedEof;
      }
      var data := f[8..8 + rec + pad];
      r := r[0 := f[8 + rec + pad..]];
      match codec.unmarshal(data[..rec])
      case None =>
        var torn := IsTornWrite(data);
        return if torn then UnexpectedEof else Corrupt;
      case Some(log) =>
        if log.kind != CRC_TYPE {
          crc := codec.crc(crc, log.data);
          if log.checksum != crc {
            var torn := IsTornWrite(data);
            return if torn then UnexpectedEof else Corrupt;
          }
        }
        lastOffset := lastOffset + 8 + |data|;
        return Got(log);
    }
  }

  /** Replays all records the decoder still has. */
  method ReadAll(d: DecoderImpl) returns (result: ReadResult)
    modifies d
    ensures result == Read(d.codec, old(d.Value()), [], [])
  {
    var meta: seq<byte>, ents: seq<Entry> := [], [];
    while true
      invariant Read(d.codec, d.Value(), meta, ents) == Read(d.codec, old(d.Value()), [], [])
      decreases Size(d.r)
    {
      ghost var before := d.Value();
      var o := d.DecodeRecord();
      match o
      case Eof => return Entries(meta, ents);
      case UnexpectedEof => return Entries(meta, ents);
      case Corrupt => return Failed;
      case Got(log) =>
        DecodeConsumes(d.codec, before);
        if log.kind == ENTRY_TYPE {
          match d.codec.unmarshalEntry(log.data)
          case None => return Failed;
          case Some(e) => ents := ents + [e];
        } else if log.kind == META_DATA_TYPE {
          if meta != [] && meta != log.data {
            return MetadataConflict;
          }
          meta := log.data;
        } else if log.kind == CRC_TYPE {
          if d.crc != 0 && !Check(log, d.crc) {
            return CrcMismatch;
          }
          d.crc := log.checksum;
        } else {
          return BadType;
        }
    }
  }
}
