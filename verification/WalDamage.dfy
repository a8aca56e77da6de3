/** What reading answers to a log that is not in order: damage, records out of place, files cut short. */
module WalDamage {
  import opened Basics
  import opened ByteOrder
  import opened WalFrames
  import opened WalRead
  import opened Wal

  /** Where the reading stands after the records before. */
  function Before(segs: seq<seq<Log>>, logs: seq<Log>): seq<Log> {
    Flat(segs) + logs
  }

  /** The answer for complete segments, then the records `logs` and the bytes `tail` in one file, then the files `more`,
      is that of reading on after the records. */
  lemma Arrive(c: Codec, segs: seq<seq<Log>>, logs: seq<Log>, tail: seq<byte>, more: seq<seq<byte>>, crc: u64,
               meta: seq<byte>)
    requires Faithful(c) && AllAccepted(c, crc, meta, Before(segs, logs))
    ensures var before := Before(segs, logs);
            Read(c, Decoder(Files(c, segs) + ([Frames(c, logs) + tail] + more), crc, 0), [], []) ==
            Read(c, Decoder([tail] + more, CrcAfterAll(c, crc, before), |Frames(c, logs)|), MetaAfter(before, []),
                 EntriesIn(c, before))
  {
    ReadToTail(c, segs, logs, tail, more, crc, [], meta, []);
    ContinuesIff(c, AtStart(c, segs, logs, tail, more, crc, [], []), AtTail(c, segs, logs, tail, more, crc, [], []));
    assert [] + EntriesIn(c, Before(segs, logs)) == EntriesIn(c, Before(segs, logs));
  }

  // ----- A damaged record -----

  /** The header announces `rec` bytes of record and the padding. */
  predicate Announces(header: seq<byte>, rec: nat, pad: nat) {
    |header| == 8 && FromLittleEndian(header) != 0 && DecodeFrameSize(FromLittleEndian(header)) == (rec, pad)
  }

  /** The record does not decode, or its checksum does not follow from `crc`. */
  predicate Damaged(c: Codec, crc: u64, record: seq<byte>) {
    match c.unmarshal(record)
    case None => true
    case Some(l) => l.kind != CRC_TYPE && l.checksum != c.crc(crc, l.data)
  }

  lemma DamagedDecodes(c: Codec, header: seq<byte>, rec: nat, data: seq<byte>, rest: seq<byte>, more: seq<seq<byte>>,
                       crc: u64, off: nat)
    requires rec <= |data| && Announces(header, rec, |data| - rec) && Damaged(c, crc, data[..rec])
    ensures Decode(c, Decoder([header + data + rest] + more, crc, off)).1 ==
            if more == [] && SomeSectorZero(data, off + 8) then UnexpectedEof else Corrupt
  {
    var f := header + data + rest;
    assert f[..8] == header && f[8..8 + |data|] == data;
    var d := Decoder([f] + more, crc, off);
    assert |d.r[0 := f[8 + |data|..]]| == 1 + |more|;
  }

  /** Wherever it stands, after any records in order: a record that does not decode, or whose checksum does not follow,
      is answered with an error exactly if a further file follows or no sector of it is all zero; else it is taken for
      a torn write, and all entries before it are answered. */
  lemma DamageAnswer(c: Codec, segs: seq<seq<Log>>, logs: seq<Log>, header: seq<byte>, rec: nat, data: seq<byte>,
                     rest: seq<byte>, more: seq<seq<byte>>, crc: u64, meta: seq<byte>)
    requires Faithful(c) && AllAccepted(c, crc, meta, Before(segs, logs))
    requires rec <= |data| && Announces(header, rec, |data| - rec)
    requires Damaged(c, CrcAfterAll(c, crc, Before(segs, logs)), data[..rec])
    ensures var before := Before(segs, logs);
            Read(c, Decoder(Files(c, segs) + ([Frames(c, logs) + (header + data + rest)] + more), crc, 0), [], []) ==
            if more != [] || !SomeSectorZero(data, |Frames(c, logs)| + 8) then Failed
            else Entries(MetaAfter(before, []), EntriesIn(c, before))
  {
    Arrive(c, segs, logs, header + data + rest, more, crc, meta);
    DamagedDecodes(c, header, rec, data, rest, more, CrcAfterAll(c, crc, Before(segs, logs)), |Frames(c, logs)|);
  }

  /** A piece of zeros, not empty, that begins and ends at a multiple of 512 bytes of the file or of the data itself. */
  ghost predicate ZeroPiece(data: seq<byte>, offset: nat, a: int, b: int) {
    && 0 <= a < b <= |data| && (forall i :: a <= i < b ==> data[i] == 0)
    && (a == 0 || (offset + a) % 512 == 0) && (b == |data| || (offset + b) % 512 == 0)
  }

  lemma SectorZeroIff(data: seq<byte>, offset: nat)
    ensures SomeSectorZero(data, offset) <==> exists a, b :: ZeroPiece(data, offset, a, b)
  {
    if sector :| ZeroSector(data, offset, sector) {
      SectorIsPiece(data, offset, sector);
    }
    if a, b :| ZeroPiece(data, offset, a, b) {
      PieceHasSector(data, offset, a, b);
    }
  }

  lemma SectorIsPiece(data: seq<byte>, offset: nat, sector: nat)
    requires ZeroSector(data, offset, sector)
    ensures exists a, b :: ZeroPiece(data, offset, a, b)
  {
    var first, next := sector * 512 - offset, sector * 512 + 512 - offset;
    var a, b := if first < 0 then 0 else first, if next > |data| then |data| else next;
    var i :| 0 <= i < |data| && SectorOf(offset, i) == sector;
    assert a <= i < b;
    forall j | a <= j < b
      ensures SectorOf(offset, j) == sector
    {
    }
    assert ZeroPiece(data, offset, a, b);
  }

  lemma PieceHasSector(data: seq<byte>, offset: nat, a: int, b: int)
    requires ZeroPiece(data, offset, a, b)
    ensures SomeSectorZero(data, offset)
  {
    var sector := SectorOf(offset, a);
    forall i | 0 <= i < |data| && SectorOf(offset, i) == sector
      ensures a <= i < b
    {
    }
    assert ZeroSector(data, offset, sector);
  }

  // ----- A record out of place -----

  /** What reading does after a record: it stops with an answer, or goes on with the metadata and entries so far. */
  datatype Next = Stop(answer: ReadResult) | GoOn(seen: seq<byte>, ents: seq<Entry>)

  /** After a record that decodes and whose checksum follows, by its type, where `sum`, `seen` and `ents` are checksum,
      metadata and entries so far: an entry must decode, metadata must be the same as before, a checksum record must
      hold the checksum so far unless that is 0. */
  function AfterRecord(c: Codec, l: Log, sum: u64, seen: seq<byte>, ents: seq<Entry>): Next {
    if l.kind == ENTRY_TYPE then
      match c.unmarshalEntry(l.data)
      case None => Stop(Failed)
      case Some(e) => GoOn(seen, ents + [e])
    else if l.kind == META_DATA_TYPE then
      if seen != [] && seen != l.data then Stop(MetadataConflict) else GoOn(l.data, ents)
    else if l.kind == CRC_TYPE then
      if sum != 0 && FromBigEndian(l.data) != sum && l.checksum != sum then Stop(CrcMismatch) else GoOn(seen, ents)
    else Stop(BadType)
  }

  ghost function Answer(c: Codec, next: Next, d: Decoder): ReadResult {
    match next
    case Stop(answer) => answer
    case GoOn(seen, ents) => Read(c, d, seen, ents)
  }

  ghost predicate AnswersUnder(c: Codec, a: Reading, next: Next, d: Decoder, seal: Seal) {
    Read(c, a.d, a.seen, a.ents) == Answer(c, next, d)
  }

  /** The reading that stands at `a` stops or goes on as `next` says, with `d` left to read. */
  ghost predicate Answers(c: Codec, a: Reading, next: Next, d: Decoder) {
    forall seal :: AnswersUnder(c, a, next, d, seal)
  }

  lemma AnswersOn(c: Codec, a: Reading, b: Reading, next: Next, d: Decoder)
    requires Continues(c, a, b) && Answers(c, b, next, d)
    ensures Answers(c, a, next, d)
  {
    ContinuesIff(c, a, b);
    assert AnswersUnder(c, b, next, d, Seal);
  }

  lemma RecordAnswer(c: Codec, l: Log, rest: seq<byte>, more: seq<seq<byte>>, sum: u64, off: nat, seen: seq<byte>,
                     ents: seq<Entry>)
    requires Faithful(c) && Proper(c, l) && (l.kind != CRC_TYPE ==> l.checksum == c.crc(sum, l.data))
    ensures Answers(c, Reading(Decoder([Frame(c, l) + rest] + more, sum, off), seen, ents),
                    AfterRecord(c, l, sum, seen, ents), Decoder([rest] + more, l.checksum, off + |Frame(c, l)|))
  {
    DecodeFrame(c, l, rest, more, sum, off);
  }

  /** So it is wherever the record stands, after any records in order. */
  lemma NextRecordAnswer(c: Codec, segs: seq<seq<Log>>, logs: seq<Log>, l: Log, rest: seq<byte>, more: seq<seq<byte>>,
                         crc: u64, meta: seq<byte>)
    requires Faithful(c) && AllAccepted(c, crc, meta, Before(segs, logs)) && Proper(c, l)
    requires l.kind != CRC_TYPE ==> l.checksum == c.crc(CrcAfterAll(c, crc, Before(segs, logs)), l.data)
    ensures var before := Before(segs, logs);
            Answers(c, AtStart(c, segs, logs, Frame(c, l) + rest, more, crc, [], []),
                    AfterRecord(c, l, CrcAfterAll(c, crc, before), MetaAfter(before, []), EntriesIn(c, before)),
                    Decoder([rest] + more, l.checksum, |Frames(c, logs)| + |Frame(c, l)|))
  {
    var before, tail := Before(segs, logs), Frame(c, l) + rest;
    var sum, seen, ents := CrcAfterAll(c, crc, before), MetaAfter(before, []), EntriesIn(c, before);
    assert [] + ents == ents;
    ReadToTail(c, segs, logs, tail, more, crc, [], meta, []);
    RecordAnswer(c, l, rest, more, sum, |Frames(c, logs)|, seen, ents);
    AnswersOn(c, AtStart(c, segs, logs, tail, more, crc, [], []), AtTail(c, segs, logs, tail, more, crc, [], []),
              AfterRecord(c, l, sum, seen, ents),
              Decoder([rest] + more, l.checksum, |Frames(c, logs)| + |Frame(c, l)|));
  }

  lemma AfterCrcRecord(c: Codec, prev: u64, sum: u64, seen: seq<byte>, ents: seq<Entry>)
    ensures AfterRecord(c, CrcLog(c, prev), sum, seen, ents) ==
            if sum != 0 && sum != prev && sum != CrcLog(c, prev).checksum then Stop(CrcMismatch) else GoOn(seen, ents)
  {
    Pow256Of8();
    BigEndianInverse(prev, 8);
  }

  /** After complete segments comes a file that was opened after the checksum `prev`, because those between are missing:
      that is answered with a mismatch exactly if the checksum so far is not 0, not `prev` and not the record's own. */
  lemma MissingSegmentAnswer(c: Codec, segs: seq<seq<Log>>, prev: u64, rest: seq<byte>, more: seq<seq<byte>>, crc: u64,
                             meta: seq<byte>)
    requires Faithful(c) && AllAccepted(c, crc, meta, Flat(segs)) && Proper(c, CrcLog(c, prev))
    ensures var l, sum := CrcLog(c, prev), CrcAfterAll(c, crc, Flat(segs));
            Answers(c, AtStart(c, segs, [], Frame(c, l) + rest, more, crc, [], []),
                    if sum != 0 && sum != prev && sum != l.checksum then Stop(CrcMismatch)
                    else GoOn(MetaAfter(Flat(segs), []), EntriesIn(c, Flat(segs))),
                    Decoder([rest] + more, l.checksum, |Frame(c, l)|))
  {
    assert Before(segs, []) == Flat(segs) && Frames(c, []) == [];
    NextRecordAnswer(c, segs, [], CrcLog(c, prev), rest, more, crc, meta);
    AfterCrcRecord(c, prev, CrcAfterAll(c, crc, Flat(segs)), MetaAfter(Flat(segs), []), EntriesIn(c, Flat(segs)));
  }

  // ----- A file cut short -----

  /** A record cut off at the end of its file ends the reading there without an error, even if further files follow. */
  lemma CutOffAnswer(c: Codec, segs: seq<seq<Log>>, logs: seq<Log>, l: Log, n: nat, more: seq<seq<byte>>, crc: u64,
                     meta: seq<byte>)
    requires Faithful(c) && AllAccepted(c, crc, meta, Before(segs, logs)) && Proper(c, l) && 0 < n < |Frame(c, l)|
    ensures var before := Before(segs, logs);
            Read(c, Decoder(Files(c, segs) + ([Frames(c, logs) + Frame(c, l)[..n]] + more), crc, 0), [], []) ==
            Entries(MetaAfter(before, []), EntriesIn(c, before))
  {
    var f := Frame(c, l)[..n];
    Arrive(c, segs, logs, f, more, crc, meta);
    HeaderDecodes(c, l);
    if n >= 8 {
      assert f[..8] == Header(c, l);
    }
  }
}
