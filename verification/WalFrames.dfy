/** Framing of write-ahead log records: length field, padding to eight bytes, checksum chaining. */
module WalFrames {
  import opened Basics
  import opened ByteOrder

  type u64 = x: int | 0 <= x < 0x1_0000_0000_0000_0000

  const CRC_TYPE := 0
  const META_DATA_TYPE := 2
  const ENTRY_TYPE := 3

  datatype Log = Log(kind: int, data: seq<byte>, checksum: u64)

  datatype Entry = Entry(data: seq<byte>, extra: seq<byte>, index: nat)

  /** The protocol buffer encodings and the checksum, which are libraries of their own. */
  datatype Codec = Codec(marshal: Log -> seq<byte>, unmarshal: seq<byte> -> Option<Log>,
                         marshalEntry: Entry -> seq<byte>, unmarshalEntry: seq<byte> -> Option<Entry>,
                         crc: (u64, seq<byte>) -> u64)

  const SIZE_LIMIT: nat := 0x100_0000_0000_0000

  /** Decoding inverts encoding, and a record with a type or data does not encode to nothing. */
  ghost predicate Faithful(c: Codec) {
    && (forall l :: c.unmarshal(c.marshal(l)) == Some(l))
    && (forall e :: c.unmarshalEntry(c.marshalEntry(e)) == Some(e))
    && (forall l: Log :: l.kind != 0 || l.data != [] ==> 0 < |c.marshal(l)|)
  }

  // ----- The length field -----

  function Padding(n: nat): nat {
    (8 - n % 8) % 8
  }

  /** The size in the low 56 bits; if there is padding, the top bit and, below it, the padding length. */
  function EncodeFrameSize(n: nat): nat {
    if Padding(n) == 0 then n else n + (0x80 + Padding(n)) * SIZE_LIMIT
  }

  function DecodeFrameSize(field: nat): (nat, nat) {
    (field % SIZE_LIMIT, if field >= 0x8000_0000_0000_0000 then field / SIZE_LIMIT % 8 else 0)
  }

  lemma FrameSizeInverse(n: nat)
    requires n < SIZE_LIMIT
    ensures DecodeFrameSize(EncodeFrameSize(n)) == (n, Padding(n))
    ensures EncodeFrameSize(n) < 0x1_0000_0000_0000_0000
    ensures n > 0 ==> EncodeFrameSize(n) > 0
    ensures (n + Padding(n)) % 8 == 0
  {
    PaddingBounds(n);
    if Padding(n) != 0 {
      PaddedField(n, Padding(n));
    }
  }

  /** Size and padding packed into one field. */
  lemma PaddedField(n: nat, p: nat)
    requires n < SIZE_LIMIT && p < 8
    ensures DecodeFrameSize(n + (0x80 + p) * SIZE_LIMIT) == (n, p)
    ensures n + (0x80 + p) * SIZE_LIMIT < 0x1_0000_0000_0000_0000
  {
    TopByte(n, 0x80 + p);
    assert (0x80 + p) % 8 == p;
  }

  lemma PaddingBounds(n: nat)
    ensures 0 <= Padding(n) < 8 && (n + Padding(n)) % 8 == 0
  {
  }

  lemma TopByte(n: nat, top: nat)
    requires n < SIZE_LIMIT && top < 0x100
    ensures (n + top * SIZE_LIMIT) % SIZE_LIMIT == n && (n + top * SIZE_LIMIT) / SIZE_LIMIT == top
    ensures n + top * SIZE_LIMIT < 0x1_0000_0000_0000_0000
  {
  }

  // ----- Frames -----

  function Zeros(n: nat): (s: seq<byte>)
    ensures |s| == n && forall i :: 0 <= i < n ==> s[i] == 0
  {
    seq(n, i => 0)
  }

  function Payload(c: Codec, log: Log): seq<byte> {
    var data := c.marshal(log);
    data + Zeros(Padding(|data|))
  }

  function Header(c: Codec, log: Log): (s: seq<byte>)
    ensures |s| == 8
  {
    LittleEndian(EncodeFrameSize(|c.marshal(log)|), 8)
  }

  function Frame(c: Codec, log: Log): seq<byte> {
    Header(c, log) + Payload(c, log)
  }

  function Frames(c: Codec, logs: seq<Log>): seq<byte> {
    if logs == [] then [] else Frame(c, logs[0]) + Frames(c, logs[1..])
  }

  lemma {:induction false} FramesSnoc(c: Codec, logs: seq<Log>, log: Log)
    ensures Frames(c, logs + [log]) == Frames(c, logs) + Frame(c, log)
  {
    if logs == [] {
      assert Frames(c, [log]) == Frame(c, log) + Frames(c, []);
    } else {
      assert (logs + [log])[1..] == logs[1..] + [log];
      FramesSnoc(c, logs[1..], log);
    }
  }

  /** The record has a type or data, and its size fits into the length field. */
  predicate Proper(c: Codec, log: Log) {
    (log.kind != 0 || log.data != []) && |c.marshal(log)| < SIZE_LIMIT
  }

  /** Frames keep the file at multiples of eight bytes. */
  lemma {:induction false} FramesAligned(c: Codec, logs: seq<Log>)
    ensures |Frames(c, logs)| % 8 == 0
  {
    if logs != [] {
      FrameAligned(c, logs[0]);
      FramesAligned(c, logs[1..]);
      SumAligned(|Frame(c, logs[0])|, |Frames(c, logs[1..])|);
    }
  }

  lemma FrameAligned(c: Codec, log: Log)
    ensures |Frame(c, log)| % 8 == 0
  {
    var n := |c.marshal(log)|;
    PaddingBounds(n);
    SumAligned(8, n + Padding(n));
  }

  lemma SumAligned(a: nat, b: nat)
    requires a % 8 == 0 && b % 8 == 0
    ensures (a + b) % 8 == 0
  {
  }

  /** What the reader makes of a frame's header. */
  lemma HeaderDecodes(c: Codec, log: Log)
    requires Faithful(c) && Proper(c, log)
    ensures FromLittleEndian(Header(c, log)) == EncodeFrameSize(|c.marshal(log)|) > 0
    ensures DecodeFrameSize(EncodeFrameSize(|c.marshal(log)|)) == (|c.marshal(log)|, Padding(|c.marshal(log)|))
  {
    FrameSizeInverse(|c.marshal(log)|);
    Pow256Of8();
    LittleEndianInverse(EncodeFrameSize(|c.marshal(log)|), 8);
  }
}
