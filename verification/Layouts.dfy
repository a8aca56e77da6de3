/** The bytes of log records and transactions, position by position. */
module Layouts {
  import opened ByteOrder
  import opened Encoder
  import opened TxBytes
  import opened WalFrames

  // ----- Log records -----

  lemma LowByte(x: nat, m: nat)
    ensures (x + 256 * m) % 256 == x % 256 && (x + 256 * m) / 256 == x / 256 + m
  {
  }

  lemma OneUp(top: nat, n: nat)
    requires n > 0
    ensures top * Pow256(n) == 256 * (top * Pow256(n - 1))
  {
  }

  /** A byte on top of a number is its last byte. */
  lemma {:induction false} TopByteLast(x: nat, top: nat, n: nat, high: nat)
    requires x < Pow256(n) && top < 256 && high == top * Pow256(n)
    ensures LittleEndian(x + high, n + 1) == LittleEndian(x, n) + [top]
  {
    if n == 0 {
      assert x == 0 && high == top;
    } else {
      var m := top * Pow256(n - 1);
      OneUp(top, n);
      LowByte(x, m);
      TopByteLast(x / 256, top, n - 1, m);
    }
  }

  /** Seven bytes of length, lowest first, and a byte that is 0 or tells of padding. */
  lemma HeaderLayout(c: Codec, log: Log)
    requires |c.marshal(log)| < SIZE_LIMIT
    ensures |Frame(c, log)| >= 8
    ensures var n, pad := |c.marshal(log)|, |Frame(c, log)| - 8 - |c.marshal(log)|;
            && (forall i: nat :: i < 7 ==> Frame(c, log)[i] == n / Pow256(i) % 256)
            && Frame(c, log)[7] == if pad == 0 then 0 else 128 + pad
  {
    var n := |c.marshal(log)|;
    SizeLayout(n, Padding(n));
    assert Frame(c, log)[..8] == Header(c, log);
  }

  lemma SizeLayout(n: nat, pad: nat)
    requires n < SIZE_LIMIT && pad == Padding(n)
    ensures var header, top := LittleEndian(EncodeFrameSize(n), 8), if pad == 0 then 0 else 128 + pad;
            header[7] == top && forall i: nat :: i < 7 ==> header[i] == n / Pow256(i) % 256
  {
    var top := if pad == 0 then 0 else 128 + pad;
    PaddingBounds(n);
    Pow256Of7();
    TopByteLast(n, top, 7, top * SIZE_LIMIT);
    forall i: nat | i < 7
      ensures LittleEndian(n, 7)[i] == n / Pow256(i) % 256
    {
      LittleEndianAt(n, 7, i);
    }
  }

  /** After the header comes the record, and as many zeros as make it a multiple of eight. */
  lemma FrameLayout(c: Codec, log: Log)
    ensures var data, frame := c.marshal(log), Frame(c, log);
            && 8 + |data| <= |frame| < 16 + |data| && |frame| % 8 == 0
            && frame[8..8 + |data|] == data
            && (forall i :: 8 + |data| <= i < |frame| ==> frame[i] == 0)
  {
    FrameAligned(c, log);
    assert Frame(c, log)[8..8 + |c.marshal(log)|] == c.marshal(log);
  }

  lemma Pow256Of7()
    ensures Pow256(7) == SIZE_LIMIT
  {
    assert Pow256(3) == 256 * (256 * (256 * Pow256(0)));
    assert Pow256(7) == 256 * (256 * (256 * (256 * Pow256(3))));
  }

  // ----- Transactions -----

  /** Integers are written highest byte first, negative ones as their two's complement. */
  lemma IntegerLayout(n: int, i: nat)
    ensures i < 8 ==> Int64Bytes(n)[7 - i] == n % 0x1_0000_0000_0000_0000 / Pow256(i) % 256
    ensures i < 4 ==> Int32Bytes(n)[3 - i] == n % 0x1_0000_0000 / Pow256(i) % 256
  {
    if i < 8 {
      BigEndianAt(n % TWO_64, 8, i);
    }
    if i < 4 {
      BigEndianAt(n % TWO_32, 4, i);
    }
  }

  /** What is hashed for the signers, and what for the publisher and the transaction's own hash is added to it. */
  lemma TxLayout(t: SignedTx)
    ensures var base := RecordBytes(TxFields(t, Base));
            && base == RecordBytes(BaseFields(t))
            && RecordBytes(TxFields(t, Publish)) == base + SliceBytes(AllBytes(SIGNATURES, t.signs))
            && RecordBytes(TxFields(t, Full)) ==
               base + SliceBytes(AllBytes(SIGNATURES, t.signs)) + StringBytes(t.referredTx) + StringBytes(t.publisher)
               + SliceBytes(AllBytes(SIGNATURES, t.publishSigns))
  {
    var f := BaseFields(t);
    assert TxFields(t, Base) == f;
    var signs := SliceField(AllBytes(SIGNATURES, t.signs));
    RecordSnoc(f, signs);
    assert TxFields(t, Publish) == f + [signs];
    var referred, publisher := TextField(t.referredTx), TextField(t.publisher);
    RecordSnoc(f + [signs], referred);
    RecordSnoc(f + [signs] + [referred], publisher);
    var publishSigns := SliceField(AllBytes(SIGNATURES, t.publishSigns));
    RecordSnoc(f + [signs] + [referred] + [publisher], publishSigns);
    assert TxFields(t, Full) == f + [signs] + [referred] + [publisher] + [publishSigns];
  }

  /** The numbers come first, in this order, and then the texts. */
  lemma BaseLayout(t: SignedTx)
    ensures RecordBytes(BaseFields(t)) ==
            Int64Bytes(t.time) + (Int64Bytes(t.expiration) + (Int64Bytes(t.gasRatio) + (Int64Bytes(t.gasLimit) +
            (Int64Bytes(t.delay) + (Int32Bytes(t.chainId) + (StringBytes(t.reserved) + (SliceBytes(t.signers) +
            (SliceBytes(AllBytes(ACTIONS, t.actions)) + SliceBytes(AllBytes(AMOUNTS, t.amountLimit))))))))))
  {
    Ten(BaseFields(t));
  }

  lemma Ten(f: seq<Field>)
    requires |f| == 10
    ensures RecordBytes(f) ==
            FieldBytes(f[0]) + (FieldBytes(f[1]) + (FieldBytes(f[2]) + (FieldBytes(f[3]) + (FieldBytes(f[4]) +
            (FieldBytes(f[5]) + (FieldBytes(f[6]) + (FieldBytes(f[7]) + (FieldBytes(f[8]) + FieldBytes(f[9])))))))))
  {
    assert f[0..] == f;
    Rest(f, 0);
    Rest(f, 1);
    Rest(f, 2);
    Rest(f, 3);
    Rest(f, 4);
    Rest(f, 5);
    Rest(f, 6);
    Rest(f, 7);
    Rest(f, 8);
    Rest(f, 9);
  }

  lemma Rest(f: seq<Field>, i: nat)
    requires i < |f|
    ensures RecordBytes(f[i..]) == FieldBytes(f[i]) + RecordBytes(f[i + 1..])
    ensures i == |f| - 1 ==> RecordBytes(f[i..]) == FieldBytes(f[i])
  {
    assert f[i..][1..] == f[i + 1..];
  }
}
