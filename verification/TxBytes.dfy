/** The bytes that transactions and their receipts are hashed and signed as. */
module TxBytes {
  import opened Basics
  import opened Encoder
  import opened Serialize

  datatype Action = Action(contract: Bytes, actionName: Bytes, data: Bytes)
  datatype Amount = Amount(token: Bytes, val: Bytes)
  datatype Signature = Signature(algorithm: byte, sig: Bytes, pubkey: Bytes)

  datatype SignedTx = SignedTx(time: int, expiration: int, gasRatio: int, gasLimit: int, delay: int, chainId: int,
                               reserved: Bytes, signers: seq<Bytes>, actions: seq<Action>, amountLimit: seq<Amount>,
                               signs: seq<Signature>, referredTx: Bytes, publisher: Bytes,
                               publishSigns: seq<Signature>)

  datatype Status = Status(code: int, message: Bytes)
  datatype Receipt = Receipt(funcName: Bytes, content: Bytes)
  datatype TxReceipt = TxReceipt(txHash: Bytes, gasUsage: int, status: Status, ramUsage: map<Bytes, int>,
                                 results: seq<Bytes>, receipts: seq<Receipt>)

  datatype Level = Base | Publish | Full

  // ----- Fields -----

  function ActionFields(a: Action): seq<Field> {
    [TextField(a.contract), TextField(a.actionName), TextField(a.data)]
  }

  function AmountFields(a: Amount): seq<Field> {
    [TextField(a.token), TextField(a.val)]
  }

  function SignatureFields(s: Signature): seq<Field> {
    [ByteField(s.algorithm), TextField(s.sig), TextField(s.pubkey)]
  }

  function StatusFields(s: Status): seq<Field> {
    [Int32Field(s.code), TextField(s.message)]
  }

  function ReceiptFields(r: Receipt): seq<Field> {
    [TextField(r.funcName), TextField(r.content)]
  }

  /** A kind of record that is written as its fields, of which no two have the same. */
  datatype Kind<!T> = Kind(fields: T -> seq<Field>)

  ghost predicate KindOk<T(!new)>(k: Kind<T>) {
    forall x, y :: SameShape(k.fields(x), k.fields(y)) && (k.fields(x) == k.fields(y) ==> x == y)
  }

  /** Each record as a byte string of its own. */
  ghost function AllBytes<T>(k: Kind<T>, xs: seq<T>): (r: seq<Bytes>)
    ensures |r| == |xs|
  {
    seq(|xs|, i requires 0 <= i < |xs| => RecordBytes(k.fields(xs[i])))
  }

  ghost predicate AllFit<T>(k: Kind<T>, xs: seq<T>) {
    && AllShort(AllBytes(k, xs))
    && (forall i :: 0 <= i < |xs| ==> RecordFits(k.fields(xs[i])))
  }

  lemma AllUnique<T(!new)>(k: Kind<T>, xs: seq<T>, ys: seq<T>)
    requires KindOk(k) && AllFit(k, xs) && AllFit(k, ys) && AllBytes(k, xs) == AllBytes(k, ys)
    ensures xs == ys
  {
    forall i | 0 <= i < |xs|
      ensures xs[i] == ys[i]
    {
      assert AllBytes(k, xs)[i] == AllBytes(k, ys)[i];
      assert RecordBytes(k.fields(xs[i])) + [] == RecordBytes(k.fields(ys[i])) + [];
      RecordUnique(k.fields(xs[i]), k.fields(ys[i]), [], []);
    }
  }

  const ACTIONS := Kind(ActionFields)
  const AMOUNTS := Kind(AmountFields)
  const SIGNATURES := Kind(SignatureFields)
  const RECEIPTS := Kind(ReceiptFields)

  lemma KindsOk()
    ensures KindOk(ACTIONS) && KindOk(AMOUNTS) && KindOk(SIGNATURES) && KindOk(RECEIPTS)
  {
    assert KindOk(ACTIONS) by { forall x, y { ActionShape(x, y); } }
    assert KindOk(AMOUNTS) by { forall x, y { AmountShape(x, y); } }
    assert KindOk(SIGNATURES) by { forall x, y { SignatureShape(x, y); } }
    assert KindOk(RECEIPTS) by { forall x, y { ReceiptShape(x, y); } }
  }

  lemma ActionShape(x: Action, y: Action)
    ensures SameShape(ACTIONS.fields(x), ACTIONS.fields(y))
    ensures ACTIONS.fields(x) == ACTIONS.fields(y) ==> x == y
  {
    assert ACTIONS.fields(x) == ActionFields(x) && ACTIONS.fields(y) == ActionFields(y);
    assert ACTIONS.fields(x)[0].text == x.contract && ACTIONS.fields(x)[1].text == x.actionName;
    assert ACTIONS.fields(x)[2].text == x.data;
  }

  lemma AmountShape(x: Amount, y: Amount)
    ensures SameShape(AMOUNTS.fields(x), AMOUNTS.fields(y))
    ensures AMOUNTS.fields(x) == AMOUNTS.fields(y) ==> x == y
  {
    assert AMOUNTS.fields(x) == AmountFields(x) && AMOUNTS.fields(y) == AmountFields(y);
    assert AMOUNTS.fields(x)[0].text == x.token && AMOUNTS.fields(x)[1].text == x.val;
  }

  lemma SignatureShape(x: Signature, y: Signature)
    ensures SameShape(SIGNATURES.fields(x), SIGNATURES.fields(y))
    ensures SIGNATURES.fields(x) == SIGNATURES.fields(y) ==> x == y
  {
    assert SIGNATURES.fields(x) == SignatureFields(x) && SIGNATURES.fields(y) == SignatureFields(y);
    assert SIGNATURES.fields(x)[0].b == x.algorithm && SIGNATURES.fields(x)[1].text == x.sig;
    assert SIGNATURES.fields(x)[2].text == x.pubkey;
  }

  lemma ReceiptShape(x: Receipt, y: Receipt)
    ensures SameShape(RECEIPTS.fields(x), RECEIPTS.fields(y))
    ensures RECEIPTS.fields(x) == RECEIPTS.fields(y) ==> x == y
  {
    assert RECEIPTS.fields(x) == ReceiptFields(x) && RECEIPTS.fields(y) == ReceiptFields(y);
    assert RECEIPTS.fields(x)[0].text == x.funcName && RECEIPTS.fields(x)[1].text == x.content;
  }

  // ----- Transactions -----

  ghost function BaseFields(t: SignedTx): seq<Field> {
    [Int64Field(t.time), Int64Field(t.expiration), Int64Field(t.gasRatio), Int64Field(t.gasLimit),
     Int64Field(t.delay), Uint32Field(t.chainId), TextField(t.reserved), SliceField(t.signers),
     SliceField(AllBytes(ACTIONS, t.actions)), SliceField(AllBytes(AMOUNTS, t.amountLimit))]
  }

  ghost function TxFields(t: SignedTx, l: Level): seq<Field> {
    BaseFields(t)
    + (if l.Base? then [] else [SliceField(AllBytes(SIGNATURES, t.signs))])
    + (if l.Full? then [TextField(t.referredTx), TextField(t.publisher),
                        SliceField(AllBytes(SIGNATURES, t.publishSigns))]
       else [])
  }

  ghost predicate TxFits(t: SignedTx) {
    && RecordFits(TxFields(t, Full))
    && AllFit(ACTIONS, t.actions) && AllFit(AMOUNTS, t.amountLimit)
    && AllFit(SIGNATURES, t.signs) && AllFit(SIGNATURES, t.publishSigns)
  }

  /** The fields an encoding of the level covers. */
  function Covered(t: SignedTx, l: Level): SignedTx {
    match l
    case Base => t.(signs := [], referredTx := [], publisher := [], publishSigns := [])
    case Publish => t.(referredTx := [], publisher := [], publishSigns := [])
    case Full => t
  }

  lemma SameBase(t: SignedTx, u: SignedTx, l: Level)
    requires TxFields(t, l) == TxFields(u, l)
    ensures BaseFields(t) == BaseFields(u)
    ensures !l.Base? ==> AllBytes(SIGNATURES, t.signs) == AllBytes(SIGNATURES, u.signs)
    ensures l.Full? ==> t.referredTx == u.referredTx && t.publisher == u.publisher
                        && AllBytes(SIGNATURES, t.publishSigns) == AllBytes(SIGNATURES, u.publishSigns)
  {
    var f, g := TxFields(t, l), TxFields(u, l);
    assert f[..10] == BaseFields(t) && g[..10] == BaseFields(u);
    if !l.Base? {
      assert f[10].parts == AllBytes(SIGNATURES, t.signs) && g[10].parts == AllBytes(SIGNATURES, u.signs);
    }
    if l.Full? {
      assert f[11].text == t.referredTx && g[11].text == u.referredTx;
      assert f[12].text == t.publisher && g[12].text == u.publisher;
      assert f[13].parts == AllBytes(SIGNATURES, t.publishSigns) && g[13].parts == AllBytes(SIGNATURES, u.publishSigns);
    }
  }

  lemma BaseCovers(t: SignedTx, u: SignedTx)
    requires TxFits(t) && TxFits(u) && BaseFields(t) == BaseFields(u)
    ensures Covered(t, Base) == Covered(u, Base)
  {
    var f, g := BaseFields(t), BaseFields(u);
    assert forall i :: 0 <= i < 10 ==> f[i] == g[i];
    assert f[0].n == t.time && f[1].n == t.expiration && f[2].n == t.gasRatio && f[3].n == t.gasLimit;
    assert f[4].n == t.delay && f[5].n == t.chainId && f[6].text == t.reserved && f[7].parts == t.signers;
    assert f[8].parts == AllBytes(ACTIONS, t.actions) && f[9].parts == AllBytes(AMOUNTS, t.amountLimit);
    KindsOk();
    AllUnique(ACTIONS, t.actions, u.actions);
    AllUnique(AMOUNTS, t.amountLimit, u.amountLimit);
  }

  /** Two transactions with the same bytes at a level have the same fields the level covers. */
  lemma TxUnique(t: SignedTx, u: SignedTx, l: Level)
    requires TxFits(t) && TxFits(u) && RecordBytes(TxFields(t, l)) == RecordBytes(TxFields(u, l))
    ensures Covered(t, l) == Covered(u, l)
  {
    SameFields(t, u, l);
    SameBase(t, u, l);
    BaseCovers(t, u);
    KindsOk();
    if !l.Base? {
      AllUnique(SIGNATURES, t.signs, u.signs);
    }
    if l.Full? {
      AllUnique(SIGNATURES, t.publishSigns, u.publishSigns);
    }
  }

  lemma SameFields(t: SignedTx, u: SignedTx, l: Level)
    requires TxFits(t) && TxFits(u) && RecordBytes(TxFields(t, l)) == RecordBytes(TxFields(u, l))
    ensures TxFields(t, l) == TxFields(u, l)
  {
    PrefixFits(t, l);
    PrefixFits(u, l);
    SameRecord(TxFields(t, l), TxFields(u, l));
  }

  lemma SameRecord(f: seq<Field>, g: seq<Field>)
    requires SameShape(f, g) && RecordFits(f) && RecordFits(g) && RecordBytes(f) == RecordBytes(g)
    ensures f == g
  {
    assert RecordBytes(f) + [] == RecordBytes(g) + [];
    RecordUnique(f, g, [], []);
  }

  lemma PrefixFits(t: SignedTx, l: Level)
    requires TxFits(t)
    ensures RecordFits(TxFields(t, l))
  {
    assert forall i :: 0 <= i < |TxFields(t, l)| ==> TxFields(t, l)[i] == TxFields(t, Full)[i];
  }

  // ----- Receipts -----

  ghost function TxReceiptFields(r: TxReceipt): seq<Field> {
    [TextField(r.txHash), Int64Field(r.gasUsage), TextField(RecordBytes(StatusFields(r.status))),
     MapField(r.ramUsage), SliceField(r.results), SliceField(AllBytes(RECEIPTS, r.receipts))]
  }

  ghost predicate TxReceiptFits(r: TxReceipt) {
    RecordFits(TxReceiptFields(r)) && RecordFits(StatusFields(r.status)) && AllFit(RECEIPTS, r.receipts)
  }

  /** Two receipts with the same bytes are the same. */
  lemma TxReceiptUnique(r: TxReceipt, q: TxReceipt)
    requires TxReceiptFits(r) && TxReceiptFits(q)
    requires RecordBytes(TxReceiptFields(r)) == RecordBytes(TxReceiptFields(q))
    ensures r == q
  {
    var f, g := TxReceiptFields(r), TxReceiptFields(q);
    assert RecordBytes(f) + [] == RecordBytes(g) + [];
    RecordUnique(f, g, [], []);
    assert f[0].text == r.txHash && f[1].n == r.gasUsage && f[2].text == RecordBytes(StatusFields(r.status));
    assert f[3].m == r.ramUsage && f[4].parts == r.results && f[5].parts == AllBytes(RECEIPTS, r.receipts);
    KindsOk();
    AllUnique(RECEIPTS, r.receipts, q.receipts);
    var a, b := StatusFields(r.status), StatusFields(q.status);
    assert RecordBytes(a) + [] == RecordBytes(b) + [];
    RecordUnique(a, b, [], []);
    assert a[0].n == r.status.code && a[1].text == r.status.message;
  }

  // ----- Writing -----

  lemma Two(f: Field, g: Field)
    ensures RecordBytes([f, g]) == FieldBytes(f) + FieldBytes(g)
  {
    RecordSnoc([], f);
    RecordSnoc([f], g);
    assert [] + [f] == [f] && [f] + [g] == [f, g];
  }

  lemma Three(f: Field, g: Field, h: Field)
    ensures RecordBytes([f, g, h]) == FieldBytes(f) + FieldBytes(g) + FieldBytes(h)
  {
    Two(f, g);
    RecordSnoc([f, g], h);
    assert [f, g] + [h] == [f, g, h];
  }

  method ActionToBytes(a: Action) returns (b: Bytes)
    ensures b == RecordBytes(ActionFields(a))
  {
    var se := new SimpleEncoder();
    se.WriteBytes(a.contract);
    se.WriteBytes(a.actionName);
    se.WriteBytes(a.data);
    Three(TextField(a.contract), TextField(a.actionName), TextField(a.data));
    b := se.buf;
  }

  method AmountToBytes(a: Amount) returns (b: Bytes)
    ensures b == RecordBytes(AmountFields(a))
  {
    var se := new SimpleEncoder();
    se.WriteBytes(a.token);
    se.WriteBytes(a.val);
    Two(TextField(a.token), TextField(a.val));
    b := se.buf;
  }

  method SignatureToBytes(s: Signature) returns (b: Bytes)
    ensures b == RecordBytes(SignatureFields(s))
  {
    var se := new SimpleEncoder();
    se.WriteByte(s.algorithm);
    se.WriteBytes(s.sig);
    se.WriteBytes(s.pubkey);
    Three(ByteField(s.algorithm), TextField(s.sig), TextField(s.pubkey));
    b := se.buf;
  }

  method StatusToBytes(s: Status) returns (b: Bytes)
    ensures b == RecordBytes(StatusFields(s))
  {
    var se := new SimpleEncoder();
    se.WriteInt32(s.code);
    se.WriteBytes(s.message);
    Two(Int32Field(s.code), TextField(s.message));
    b := se.buf;
  }

  method ReceiptToBytes(r: Receipt) returns (b: Bytes)
    ensures b == RecordBytes(ReceiptFields(r))
  {
    var se := new SimpleEncoder();
    se.WriteBytes(r.funcName);
    se.WriteBytes(r.content);
    Two(TextField(r.funcName), TextField(r.content));
    b := se.buf;
  }

  method ActionsToBytes(actions: seq<Action>) returns (all: seq<Bytes>)
    ensures all == AllBytes(ACTIONS, actions)
  {
    all := [];
    for i := 0 to |actions|
      invariant |all| == i && forall j :: 0 <= j < i ==> all[j] == AllBytes(ACTIONS, actions)[j]
    {
      var b := ActionToBytes(actions[i]);
      all := all + [b];
    }
  }

  method AmountsToBytes(amounts: seq<Amount>) returns (all: seq<Bytes>)
    ensures all == AllBytes(AMOUNTS, amounts)
  {
    all := [];
    for i := 0 to |amounts|
      invariant |all| == i && forall j :: 0 <= j < i ==> all[j] == AllBytes(AMOUNTS, amounts)[j]
    {
      var b := AmountToBytes(amounts[i]);
      all := all + [b];
    }
  }

  method SignaturesToBytes(signs: seq<Signature>) returns (all: seq<Bytes>)
    ensures all == AllBytes(SIGNATURES, signs)
  {
    all := [];
    for i := 0 to |signs|
      invariant |all| == i && forall j :: 0 <= j < i ==> all[j] == AllBytes(SIGNATURES, signs)[j]
    {
      var b := SignatureToBytes(signs[i]);
      all := all + [b];
    }
  }

  method ReceiptsToBytes(receipts: seq<Receipt>) returns (all: seq<Bytes>)
    ensures all == AllBytes(RECEIPTS, receipts)
  {
    all := [];
    for i := 0 to |receipts|
      invariant |all| == i && forall j :: 0 <= j < i ==> all[j] == AllBytes(RECEIPTS, receipts)[j]
    {
      var b := ReceiptToBytes(receipts[i]);
      all := all + [b];
    }
  }

  /** Writes one field more. */
  ghost predicate Holds(buf: Bytes, fields: seq<Field>) {
    buf == RecordBytes(fields)
  }

  lemma OneMore(before: Bytes, fields: seq<Field>, f: Field, after: Bytes)
    requires Holds(before, fields) && after == before + FieldBytes(f)
    ensures Holds(after, fields + [f])
  {
    RecordSnoc(fields, f);
  }

  method WriteBase(se: SimpleEncoder, t: SignedTx)
    requires se.buf == []
    modifies se
    ensures Holds(se.buf, BaseFields(t))
  {
    ghost var f := BaseFields(t);
    se.WriteInt64(t.time);
    OneMore([], f[..0], f[0], se.buf);
    ghost var b := se.buf;
    se.WriteInt64(t.expiration);
    OneMore(b, f[..0] + [f[0]], f[1], se.buf);
    assert f[..0] + [f[0]] + [f[1]] == f[..2];
    b := se.buf;
    se.WriteInt64(t.gasRatio);
    OneMore(b, f[..2], f[2], se.buf);
    b := se.buf;
    se.WriteInt64(t.gasLimit);
    OneMore(b, f[..2] + [f[2]], f[3], se.buf);
    assert f[..2] + [f[2]] + [f[3]] == f[..4];
    b := se.buf;
    se.WriteInt64(t.delay);
    OneMore(b, f[..4], f[4], se.buf);
    b := se.buf;
    se.WriteInt32(t.chainId);
    OneMore(b, f[..4] + [f[4]], f[5], se.buf);
    assert f[..4] + [f[4]] + [f[5]] == f[..6];
    WriteBody(se, t, f);
  }

  method WriteBody(se: SimpleEncoder, t: SignedTx, ghost f: seq<Field>)
    requires f == BaseFields(t) && Holds(se.buf, f[..6])
    modifies se
    ensures Holds(se.buf, f)
  {
    ghost var b := se.buf;
    se.WriteBytes(t.reserved);
    OneMore(b, f[..6], f[6], se.buf);
    b := se.buf;
    se.WriteSlice(t.signers);
    OneMore(b, f[..6] + [f[6]], f[7], se.buf);
    assert f[..6] + [f[6]] + [f[7]] == f[..8];
    b := se.buf;
    var actionBytes := ActionsToBytes(t.actions);
    se.WriteSlice(actionBytes);
    OneMore(b, f[..8], f[8], se.buf);
    b := se.buf;
    var amountBytes := AmountsToBytes(t.amountLimit);
    se.WriteSlice(amountBytes);
    OneMore(b, f[..8] + [f[8]], f[9], se.buf);
    assert f[..8] + [f[8]] + [f[9]] == f;
  }

  method ToBytes(t: SignedTx, l: Level) returns (bytes: Bytes)
    ensures bytes == RecordBytes(TxFields(t, l))
  {
    var se := new SimpleEncoder();
    WriteBase(se, t);
    ghost var f := BaseFields(t);
    if !l.Base? {
      ghost var b := se.buf;
      var signBytes := SignaturesToBytes(t.signs);
      se.WriteSlice(signBytes);
      OneMore(b, f, SliceField(signBytes), se.buf);
      f := f + [SliceField(signBytes)];
    }
    if l.Full? {
      ghost var b := se.buf;
      se.WriteBytes(t.referredTx);
      OneMore(b, f, TextField(t.referredTx), se.buf);
      b := se.buf;
      se.WriteBytes(t.publisher);
      OneMore(b, f + [TextField(t.referredTx)], TextField(t.publisher), se.buf);
      b := se.buf;
      var signBytes := SignaturesToBytes(t.publishSigns);
      se.WriteSlice(signBytes);
      OneMore(b, f + [TextField(t.referredTx)] + [TextField(t.publisher)], SliceField(signBytes), se.buf);
      f := f + [TextField(t.referredTx)] + [TextField(t.publisher)] + [SliceField(signBytes)];
    }
    assert f == TxFields(t, l);
    bytes := se.buf;
  }

  method TxReceiptToBytes(r: TxReceipt) returns (bytes: Bytes)
    ensures bytes == RecordBytes(TxReceiptFields(r))
  {
    var se := new SimpleEncoder();
    ghost var f := TxReceiptFields(r);
    var status := StatusToBytes(r.status);
    se.WriteBytes(r.txHash);
    OneMore([], f[..0], f[0], se.buf);
    ghost var b := se.buf;
    se.WriteInt64(r.gasUsage);
    OneMore(b, f[..0] + [f[0]], f[1], se.buf);
    b := se.buf;
    se.WriteBytes(status);
    OneMore(b, f[..0] + [f[0]] + [f[1]], f[2], se.buf);
    assert f[..0] + [f[0]] + [f[1]] + [f[2]] == f[..3];
    WriteOutcome(se, r, f);
    bytes := se.buf;
  }

  method WriteOutcome(se: SimpleEncoder, r: TxReceipt, ghost f: seq<Field>)
    requires f == TxReceiptFields(r) && Holds(se.buf, f[..3])
    modifies se
    ensures Holds(se.buf, f)
  {
    ghost var b := se.buf;
    se.WriteMap(r.ramUsage);
    OneMore(b, f[..3], f[3], se.buf);
    b := se.buf;
    se.WriteSlice(r.results);
    OneMore(b, f[..3] + [f[3]], f[4], se.buf);
    b := se.buf;
    var receiptBytes := ReceiptsToBytes(r.receipts);
    se.WriteSlice(receiptBytes);
    OneMore(b, f[..3] + [f[3]] + [f[4]], f[5], se.buf);
    assert f[..3] + [f[3]] + [f[4]] + [f[5]] == f;
  }
}
