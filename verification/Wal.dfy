/** The write-ahead log in append mode: saving entries, cutting segments, removing old segments. */
module Wal {
  import opened Basics
  import opened ByteOrder
  import opened PageWriter
  import opened WalFrames
  import opened WalRead

  const WAL_PAGE_BYTES: nat := 4096
  const DEFAULT_BUFFER_BYTES: nat := 131072

  /** A segment file.  The last one is temporary and has no name yet; a named one tells in its name how many
      entries had been saved when it was cut. */
  datatype File = File(lastIndex: Option<nat>, content: seq<byte>)

  // ----- What a segment holds -----

  /** A segment begins with a checksum record and the metadata. */
  ghost predicate Opened(meta: seq<byte>, logs: seq<Log>) {
    |logs| >= 2 && logs[0].kind == CRC_TYPE && logs[1] == Log(META_DATA_TYPE, meta, logs[1].checksum)
  }

  lemma {:induction false} MetaStays(c: Codec, crc: u64, meta: seq<byte>, logs: seq<Log>)
    requires AllAccepted(c, crc, meta, logs)
    ensures MetaAfter(logs, meta) == meta
    decreases |logs|
  {
    if logs != [] {
      MetaStays(c, CrcAfter(c, crc, logs[0]), meta, logs[1..]);
    }
  }

  lemma OpenedMeta(c: Codec, crc: u64, meta: seq<byte>, logs: seq<Log>, seen: seq<byte>)
    requires AllAccepted(c, crc, meta, logs) && Opened(meta, logs)
    ensures MetaAfter(logs, seen) == meta
  {
    var crc1 := CrcAfter(c, crc, logs[0]);
    assert logs[1..][0] == logs[1];
    assert MetaAfter(logs[1..], seen) == MetaAfter(logs[1..][1..], meta);
    MetaStays(c, CrcAfter(c, crc1, logs[1]), meta, logs[1..][1..]);
  }

  lemma AcceptedSnoc(c: Codec, crc: u64, meta: seq<byte>, logs: seq<Log>, log: Log)
    requires AllAccepted(c, crc, meta, logs) && Accepted(c, CrcAfterAll(c, crc, logs), meta, log)
    ensures AllAccepted(c, crc, meta, logs + [log])
    ensures CrcAfterAll(c, crc, logs + [log]) == CrcAfter(c, CrcAfterAll(c, crc, logs), log)
    ensures EntriesIn(c, logs + [log]) == EntriesIn(c, logs) + EntryOf(c, log)
  {
    AcceptedConcat(c, crc, meta, logs, [log]);
    EntriesConcat(c, logs, [log]);
    assert EntriesIn(c, [log]) == EntryOf(c, log);
    assert [log][1..] == [];
  }

  lemma {:induction false} FlatSnoc(segs: seq<seq<Log>>, logs: seq<Log>)
    ensures Flat(segs + [logs]) == Flat(segs) + logs
  {
    if segs == [] {
      assert Flat([logs]) == logs + Flat([]);
    } else {
      assert (segs + [logs])[1..] == segs[1..] + [logs];
      FlatSnoc(segs[1..], logs);
    }
  }

  lemma {:induction false} FlatSplit(segs: seq<seq<Log>>, k: nat)
    requires k <= |segs|
    ensures Flat(segs) == Flat(segs[..k]) + Flat(segs[k..])
  {
    if k == 0 {
      assert segs[k..] == segs;
    } else {
      assert segs[1..][..k - 1] == segs[..k][1..] && segs[1..][k - 1..] == segs[k..];
      FlatSplit(segs[1..], k - 1);
    }
  }

  /** A reader that begins at a checksum record accepts what follows, whatever went before. */
  lemma AcceptedFromCrc(c: Codec, crc: u64, meta: seq<byte>, logs: seq<Log>)
    requires logs != [] && logs[0].kind == CRC_TYPE && AllAccepted(c, crc, meta, logs)
    ensures AllAccepted(c, 0, meta, logs) && CrcAfterAll(c, 0, logs) == CrcAfterAll(c, crc, logs)
  {
  }

  // ----- The abstract contents -----

  /** All there is to say about a log: its complete segments, the current one, the running checksum, the
      entries saved since it was created, and how many of those were removed with their segments. */
  datatype Contents = Contents(segs: seq<seq<Log>>, logs: seq<Log>, crc: u64, saved: seq<Entry>, dropped: nat)

  ghost predicate ContentsOk(c: Codec, meta: seq<byte>, t: Contents) {
    && AllAccepted(c, 0, meta, Flat(t.segs) + t.logs)
    && CrcAfterAll(c, 0, Flat(t.segs) + t.logs) == t.crc
    && Opened(meta, t.logs) && (forall i :: 0 <= i < |t.segs| ==> Opened(meta, t.segs[i]))
    && t.dropped <= |t.saved|
    && EntriesIn(c, Flat(t.segs) + t.logs) == t.saved[t.dropped..]
    && (forall i :: 0 <= i < |t.saved| ==> t.saved[i].index == i)
  }

  /** How many entries had been saved when segment `i` was cut. */
  function LastIndex(c: Codec, t: Contents, i: nat): nat
    requires i < |t.segs|
  {
    t.dropped + |EntriesIn(c, Flat(t.segs[..i + 1]))|
  }

  function CrcLog(c: Codec, prev: u64): Log {
    Log(CRC_TYPE, BigEndian(prev, 8), c.crc(prev, BigEndian(prev, 8)))
  }

  function MetaLog(c: Codec, crc: u64, meta: seq<byte>): Log {
    Log(META_DATA_TYPE, meta, c.crc(crc, meta))
  }

  function EntryLog(c: Codec, crc: u64, e: Entry): Log {
    Log(ENTRY_TYPE, c.marshalEntry(e), c.crc(crc, c.marshalEntry(e)))
  }

  function OpeningLogs(c: Codec, prev: u64, meta: seq<byte>): seq<Log> {
    [CrcLog(c, prev), MetaLog(c, CrcLog(c, prev).checksum, meta)]
  }

  /** The records that open a segment fit into the length field, after any checksum. */
  ghost predicate OpeningFits(c: Codec, meta: seq<byte>) {
    forall prev: u64 :: |c.marshal(CrcLog(c, prev))| < SIZE_LIMIT && |c.marshal(MetaLog(c, prev, meta))| < SIZE_LIMIT
  }

  /** The record of an entry fits, after the checksum `crc`. */
  predicate EntryFits(c: Codec, crc: u64, e: Entry) {
    |c.marshal(EntryLog(c, crc, e))| < SIZE_LIMIT
  }

  /** The two records that open a segment are accepted after any checksum, and contain no entry. */
  lemma OpeningAccepted(c: Codec, prev: u64, meta: seq<byte>)
    requires OpeningFits(c, meta)
    ensures AllAccepted(c, prev, meta, OpeningLogs(c, prev, meta))
    ensures CrcAfterAll(c, prev, OpeningLogs(c, prev, meta)) == OpeningLogs(c, prev, meta)[1].checksum
    ensures EntriesIn(c, OpeningLogs(c, prev, meta)) == []
    ensures Opened(meta, OpeningLogs(c, prev, meta))
  {
    var logs := OpeningLogs(c, prev, meta);
    Pow256Of8();
    BigEndianInverse(prev, 8);
    assert Accepted(c, prev, meta, logs[0]);
    var l1 := [logs[1]];
    assert logs[1..] == l1 && l1[1..] == [];
    assert CrcAfterAll(c, logs[0].checksum, l1) == CrcAfterAll(c, l1[0].checksum, []);
    assert EntriesIn(c, l1) == [] + EntriesIn(c, []);
  }

  lemma FramesOfTwo(c: Codec, a: Log, b: Log)
    ensures Frames(c, [a, b]) == Frame(c, a) + Frame(c, b)
  {
    assert [a, b][1..] == [b] && [b][1..] == [];
    assert Frames(c, [b]) == Frame(c, b) + Frames(c, []);
  }

  lemma CreatedOk(c: Codec, meta: seq<byte>)
    requires OpeningFits(c, meta)
    ensures var logs := OpeningLogs(c, 0, meta); ContentsOk(c, meta, Contents([], logs, logs[1].checksum, [], 0))
  {
    var logs := OpeningLogs(c, 0, meta);
    OpeningAccepted(c, 0, meta);
    assert Flat([]) + logs == logs;
  }

  /** The contents after an entry was saved. */
  function Saved(c: Codec, t: Contents, e: Entry): Contents {
    var log := EntryLog(c, t.crc, e);
    t.(logs := t.logs + [log], crc := log.checksum, saved := t.saved + [e])
  }

  lemma SavedOk(c: Codec, meta: seq<byte>, t: Contents, e: Entry)
    requires Faithful(c) && ContentsOk(c, meta, t) && e.index == |t.saved| && EntryFits(c, t.crc, e)
    ensures ContentsOk(c, meta, Saved(c, t, e))
  {
    var log := EntryLog(c, t.crc, e);
    AcceptedSnoc(c, 0, meta, Flat(t.segs) + t.logs, log);
    assert Flat(t.segs) + t.logs + [log] == Flat(t.segs) + (t.logs + [log]);
    assert (t.saved + [e])[t.dropped..] == t.saved[t.dropped..] + [e];
  }

  /** The contents after the current segment was cut and a new one opened. */
  function CutAt(c: Codec, meta: seq<byte>, t: Contents): Contents {
    var logs := OpeningLogs(c, t.crc, meta);
    t.(segs := t.segs + [t.logs], logs := logs, crc := logs[1].checksum)
  }

  lemma CutOk(c: Codec, meta: seq<byte>, t: Contents)
    requires ContentsOk(c, meta, t) && OpeningFits(c, meta)
    ensures ContentsOk(c, meta, CutAt(c, meta, t))
    ensures LastIndex(c, CutAt(c, meta, t), |t.segs|) == |t.saved|
    ensures forall i :: 0 <= i < |t.segs| ==> LastIndex(c, CutAt(c, meta, t), i) == LastIndex(c, t, i)
  {
    var u := CutAt(c, meta, t);
    var logs := OpeningLogs(c, t.crc, meta);
    OpeningAccepted(c, t.crc, meta);
    FlatSnoc(t.segs, t.logs);
    AcceptedConcat(c, 0, meta, Flat(t.segs) + t.logs, logs);
    EntriesConcat(c, Flat(t.segs) + t.logs, logs);
    assert t.saved[t.dropped..] + [] == t.saved[t.dropped..];
    assert u.segs[..|t.segs| + 1] == u.segs;
    forall i | 0 <= i < |t.segs|
      ensures LastIndex(c, u, i) == LastIndex(c, t, i)
    {
      assert u.segs[..i + 1] == t.segs[..i + 1];
    }
  }

  /** The contents after the first `k` segments were removed. */
  function Removed(c: Codec, t: Contents, k: nat): Contents
    requires k <= |t.segs|
  {
    t.(segs := t.segs[k..], dropped := if k == 0 then t.dropped else LastIndex(c, t, k - 1))
  }

  lemma RemovedOk(c: Codec, meta: seq<byte>, t: Contents, k: nat)
    requires ContentsOk(c, meta, t) && k <= |t.segs|
    ensures ContentsOk(c, meta, Removed(c, t, k))
    ensures forall i :: 0 <= i < |t.segs| - k ==> LastIndex(c, Removed(c, t, k), i) == LastIndex(c, t, i + k)
  {
    var u := Removed(c, t, k);
    var gone, kept := Flat(t.segs[..k]), Flat(t.segs[k..]) + t.logs;
    FlatSplit(t.segs, k);
    assert Flat(t.segs) + t.logs == gone + kept;
    AcceptedConcat(c, 0, meta, gone, kept);
    EntriesConcat(c, gone, kept);
    assert u.dropped == t.dropped + |EntriesIn(c, gone)| by {
      if k == 0 {
        assert t.segs[..k] == [];
      }
    }
    KeptStartsWithCrc(meta, t, k);
    AcceptedFromCrc(c, CrcAfterAll(c, 0, gone), meta, kept);
    assert t.saved[u.dropped..] == t.saved[t.dropped..][|EntriesIn(c, gone)|..];
    forall i | 0 <= i < |t.segs| - k
      ensures LastIndex(c, u, i) == LastIndex(c, t, i + k)
    {
      var part := t.segs[..i + k + 1];
      FlatSplit(part, k);
      assert part[..k] == t.segs[..k] && part[k..] == u.segs[..i + 1];
      EntriesConcat(c, gone, Flat(u.segs[..i + 1]));
    }
  }

  lemma KeptStartsWithCrc(meta: seq<byte>, t: Contents, k: nat)
    requires k <= |t.segs| && Opened(meta, t.logs) && forall i :: 0 <= i < |t.segs| ==> Opened(meta, t.segs[i])
    ensures var kept := Flat(t.segs[k..]) + t.logs; kept != [] && kept[0].kind == CRC_TYPE
  {
    if k < |t.segs| {
      assert t.segs[k..][0] == t.segs[k];
    } else {
      assert Flat(t.segs[k..]) + t.logs == t.logs;
    }
  }

  /** Names of segments grow. */
  lemma LastIndexGrows(c: Codec, t: Contents, i: nat, j: nat)
    requires i <= j < |t.segs|
    ensures LastIndex(c, t, i) <= LastIndex(c, t, j)
  {
    var part := t.segs[..j + 1];
    FlatSplit(part, i + 1);
    assert part[..i + 1] == t.segs[..i + 1];
    EntriesConcat(c, Flat(t.segs[..i + 1]), Flat(part[i + 1..]));
  }

  /** A recovery over the files of a log in good order returns the metadata and every entry not removed. */
  lemma ContentsReadBack(c: Codec, meta: seq<byte>, t: Contents, unused: nat)
    requires Faithful(c) && ContentsOk(c, meta, t)
    ensures Read(c, Decoder(Files(c, t.segs) + [Frames(c, t.logs) + Zeros(unused)], 0, 0), [], []) ==
            Entries(meta, t.saved[t.dropped..])
  {
    ReadBack(c, t.segs, t.logs, unused, 0, meta);
    AcceptedConcat(c, 0, meta, Flat(t.segs), t.logs);
    MetaConcat(Flat(t.segs), t.logs, []);
    OpenedMeta(c, CrcAfterAll(c, 0, Flat(t.segs)), meta, t.logs, MetaAfter(Flat(t.segs), []));
  }

  // ----- The log object -----

  /** The files of the log, the last one being written by the page writer. */
  ghost predicate FilesOk(c: Codec, t: Contents, files: seq<File>) {
    && |files| == |t.segs| + 1
    && files[|t.segs|] == File(None, Frames(c, t.logs))
    && (forall i :: 0 <= i < |t.segs| ==> files[i] == File(Some(LastIndex(c, t, i)), Frames(c, t.segs[i])))
  }

  lemma SmallerBefore(c: Codec, t: Contents, i: nat, index: nat)
    requires i < |t.segs| && LastIndex(c, t, i) < index
    ensures forall j :: 0 <= j <= i ==> LastIndex(c, t, j) < index
  {
    forall j | 0 <= j <= i
      ensures LastIndex(c, t, j) < index
    {
      LastIndexGrows(c, t, j, i);
    }
  }

  lemma SavedFiles(c: Codec, t: Contents, e: Entry, files: seq<File>)
    requires FilesOk(c, t, files)
    ensures var content := Frames(c, t.logs) + Frame(c, EntryLog(c, t.crc, e));
            && content == Frames(c, Saved(c, t, e).logs)
            && FilesOk(c, Saved(c, t, e), files[|files| - 1 := File(None, content)])
  {
    FramesSnoc(c, t.logs, EntryLog(c, t.crc, e));
    assert forall i :: 0 <= i < |t.segs| ==> LastIndex(c, Saved(c, t, e), i) == LastIndex(c, t, i);
  }

  /** The files with the last one named and a new one behind it. */
  function NamedAndNext(files: seq<File>, index: nat, content: seq<byte>, next: seq<byte>): seq<File>
    requires files != []
  {
    files[|files| - 1 := File(Some(index), content)] + [File(None, next)]
  }

  lemma CutFiles(c: Codec, meta: seq<byte>, t: Contents, files: seq<File>, index: nat)
    requires FilesOk(c, t, files) && index == |t.saved| && ContentsOk(c, meta, t) && OpeningFits(c, meta)
    ensures var u := CutAt(c, meta, t);
            FilesOk(c, u, NamedAndNext(files, index, Frames(c, t.logs), Frames(c, u.logs)))
  {
    CutOk(c, meta, t);
  }

  lemma RemovedFiles(c: Codec, t: Contents, files: seq<File>, k: nat)
    requires k <= |t.segs| && FilesOk(c, t, files)
    requires forall i :: 0 <= i < |t.segs| - k ==> LastIndex(c, Removed(c, t, k), i) == LastIndex(c, t, i + k)
    ensures FilesOk(c, Removed(c, t, k), files[k..])
  {
  }

  /** The bytes of the files, with unused space at the end of the last one. */
  function OnDisk(files: seq<File>, unused: nat): seq<seq<byte>> {
    seq(|files|, i requires 0 <= i < |files| =>
      if i == |files| - 1 then files[i].content + Zeros(unused) else files[i].content)
  }

  lemma OnDiskIsFrames(c: Codec, t: Contents, files: seq<File>, unused: nat)
    requires FilesOk(c, t, files)
    ensures OnDisk(files, unused) == Files(c, t.segs) + [Frames(c, t.logs) + Zeros(unused)]
  {
  }

  class WalImpl {
    const codec: Codec
    const metadata: seq<byte>
    var files: seq<File>
    var w: PageWriterImpl
    var crc: u64
    var lastEntryIndex: nat
    ghost var contents: Contents

    ghost predicate Valid()
      reads this, w, w.buf
    {
      && Faithful(codec) && OpeningFits(codec, metadata) && ContentsOk(codec, metadata, contents)
      && w.Valid() && w.bufferedBytes == 0 && w.sink == Frames(codec, contents.logs)
      && FilesOk(codec, contents, files)
      && crc == contents.crc && lastEntryIndex == |contents.saved|
    }

    constructor (codec: Codec, metadata: seq<byte>)
      requires Faithful(codec) && OpeningFits(codec, metadata)
      ensures Valid() && fresh(w) && fresh(w.buf) && this.codec == codec && this.metadata == metadata
      ensures contents.saved == [] && contents.dropped == 0 && |files| == 1
    {
      this.codec, this.metadata := codec, metadata;
      w := new PageWriterImpl(DEFAULT_BUFFER_BYTES, WAL_PAGE_BYTES, 0);
      files, crc, lastEntryIndex := [File(None, [])], 0, 0;
      contents := Contents([], [], 0, [], 0);
      new;
      OpenSegment();
      CreatedOk(codec, metadata);
      contents := contents.(logs := OpeningLogs(codec, 0, metadata), crc := crc);
    }

    /** Chains the record into the checksum and writes its frame. */
    method Encode(kind: int, data: seq<byte>)
      requires w.Valid()
      modifies this`crc, w, w.buf
      ensures w.Valid() && w.buf == old(w.buf) && crc == codec.crc(old(crc), data)
      ensures w.Contents() == old(w.Contents()) + Frame(codec, Log(kind, data, crc))
    {
      crc := codec.crc(crc, data);
      var bytes := codec.marshal(Log(kind, data, crc));
      var n := w.Write(LittleEndian(EncodeFrameSize(|bytes|), 8));
      var pad := Padding(|bytes|);
      if pad != 0 {
        bytes := bytes + Zeros(pad);
      }
      n := w.Write(bytes);
    }

    method Flush()
      requires w.Valid() && files != []
      modifies this`files, w
      ensures w.Valid() && w.buf == old(w.buf) && w.bufferedBytes == 0 && w.sink == old(w.Contents())
      ensures files == old(files)[|old(files)| - 1 := File(None, w.sink)]
    {
      w.Flush();
      files := files[|files| - 1 := File(None, w.sink)];
    }

    /** Writes the checksum record and the metadata at the head of a new file. */
    method OpenSegment()
      requires w.Valid() && w.Contents() == [] && files != []
      modifies this`crc, this`files, w, w.buf
      ensures w.Valid() && w.buf == old(w.buf) && w.bufferedBytes == 0
      ensures var logs := OpeningLogs(codec, old(crc), metadata);
              && crc == logs[1].checksum && w.sink == Frames(codec, logs)
              && files == old(files)[|old(files)| - 1 := File(None, w.sink)]
    {
      ghost var logs := OpeningLogs(codec, crc, metadata);
      Encode(CRC_TYPE, BigEndian(crc, 8));
      Encode(META_DATA_TYPE, metadata);
      Flush();
      FramesOfTwo(codec, logs[0], logs[1]);
    }

    method SaveEntry(data: seq<byte>, extra: seq<byte>)
      requires Valid() && EntryFits(codec, crc, Entry(data, extra, lastEntryIndex))
      modifies this`crc, this`lastEntryIndex, this`files, this`contents, w, w.buf
      ensures Valid() && w.buf == old(w.buf)
      ensures contents == Saved(codec, old(contents), Entry(data, extra, old(lastEntryIndex)))
    {
      var e := Entry(data, extra, lastEntryIndex);
      SavedFiles(codec, contents, e, files);
      SavedOk(codec, metadata, contents, e);
      lastEntryIndex := lastEntryIndex + 1;
      AppendEntry(e);
      contents := Saved(codec, contents, e);
    }

    /** The record of the entry goes to the current file. */
    method AppendEntry(e: Entry)
      requires w.Valid() && w.bufferedBytes == 0 && files != []
      modifies this`crc, this`files, w, w.buf
      ensures w.Valid() && w.buf == old(w.buf) && w.bufferedBytes == 0
      ensures var log := EntryLog(codec, old(crc), e);
              && crc == log.checksum && w.sink == old(w.sink) + Frame(codec, log)
              && files == old(files)[|old(files)| - 1 := File(None, w.sink)]
    {
      Encode(ENTRY_TYPE, codec.marshalEntry(e));
      Flush();
    }

    /** Names the current file after the number of entries saved and opens a new one. */
    method Cut()
      requires Valid()
      modifies this`files, this`w, this`crc, this`contents
      ensures Valid() && fresh(w) && fresh(w.buf)
      ensures contents == CutAt(codec, metadata, old(contents))
    {
      ghost var t := contents;
      CutOk(codec, metadata, t);
      CutFiles(codec, metadata, t, files, lastEntryIndex);
      NextFile();
      contents := CutAt(codec, metadata, t);
    }

    /** The bookkeeping of files: the current one gets its name, the next one its opening records. */
    method NextFile()
      requires w.Valid() && files != []
      modifies this`files, this`w, this`crc
      ensures w.Valid() && fresh(w) && fresh(w.buf) && w.bufferedBytes == 0
      ensures var logs := OpeningLogs(codec, old(crc), metadata);
              && crc == logs[1].checksum && w.sink == Frames(codec, logs)
              && files == NamedAndNext(old(files), lastEntryIndex, old(w.sink), w.sink)
    {
      files := files[|files| - 1 := File(Some(lastEntryIndex), w.sink)];
      w := new PageWriterImpl(DEFAULT_BUFFER_BYTES, WAL_PAGE_BYTES, 0);
      files := files + [File(None, [])];
      OpenSegment();
    }

    /** Saves one entry under the next index and answers how many entries were saved so far; cuts the segment
        if it has grown to the given size. */
    method SaveSingle(data: seq<byte>, extra: seq<byte>, segmentSizeBytes: nat) returns (index: nat)
      requires Valid() && EntryFits(codec, crc, Entry(data, extra, lastEntryIndex))
      modifies this, w, w.buf
      ensures Valid() && ((w == old(w) && w.buf == old(w.buf)) || (fresh(w) && fresh(w.buf)))
      ensures index == lastEntryIndex == |contents.saved|
      ensures contents.saved == old(contents.saved) + [Entry(data, extra, old(lastEntryIndex))]
      ensures contents.dropped == old(contents.dropped)
      ensures var t := Saved(codec, old(contents), Entry(data, extra, old(lastEntryIndex)));
              var full := |Frames(codec, t.logs)| >= segmentSizeBytes;
              && contents == (if full then CutAt(codec, metadata, t) else t)
              && |files| == |old(files)| + if full then 1 else 0
    {
      SaveEntry(data, extra);
      index := lastEntryIndex;
      if |w.sink| >= segmentSizeBytes {
        Cut();
      }
    }

    /** How many files from the front are named below `index`; the temporary file never is. */
    method CountBefore(index: nat) returns (k: nat)
      requires Valid()
      ensures k <= |contents.segs|
      ensures forall i :: 0 <= i < |contents.segs| ==> (i < k <==> LastIndex(codec, contents, i) < index)
    {
      var fileIndex := -1;
      for i := 0 to |files|
        invariant -1 <= fileIndex < i && fileIndex < |contents.segs|
        invariant forall j :: 0 <= j < i && j < |contents.segs| ==>
                    (j <= fileIndex <==> LastIndex(codec, contents, j) < index)
      {
        if files[i].lastIndex.Some? && files[i].lastIndex.value < index && i != |files| - 1 {
          SmallerBefore(codec, contents, i, index);
          fileIndex := i;
        }
      }
      k := fileIndex + 1;
    }

    /** Removes the segments named below `index`.  Given the index answered for an entry, neither it nor any
        later entry goes. */
    method RemoveFilesBefore(index: nat)
      requires Valid()
      modifies this`files, this`contents
      ensures Valid()
      ensures contents.saved == old(contents.saved) && old(contents.dropped) <= contents.dropped
      ensures contents.dropped == old(contents.dropped) || contents.dropped < index
      ensures forall i :: 0 <= i < |contents.segs| ==> LastIndex(codec, contents, i) >= index
    {
      var k := CountBefore(index);
      RemovedOk(codec, metadata, contents, k);
      RemovedFiles(codec, contents, files, k);
      files := files[k..];
      contents := Removed(codec, contents, k);
    }

    /** Recovering from the files returns the metadata and, in order, all entries that were not removed; the
        last file may have unused space at its end. */
    method Recover(unused: nat) returns (result: ReadResult)
      requires Valid()
      ensures result == Entries(metadata, contents.saved[contents.dropped..])
    {
      var input := OnDisk(files, unused);
      OnDiskIsFrames(codec, contents, files, unused);
      ContentsReadBack(codec, metadata, contents, unused);
      var d := new DecoderImpl(codec, input);
      result := ReadAll(d);
    }
  }
}
