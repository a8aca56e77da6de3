/** Who pays for the storage of contracts: payer tags, charges and their payment. */
module RamLedger {
  import opened Basics
  import opened Sums

  // ----- Values with a payer tag -----

  /** What a contract stores: nothing, or a text under a one-letter type prefix. */
  datatype Value = Nil | Raw(prefix: char, text: string)

  const NIL := "n"

  function Marshal(v: Value, payer: string): string {
    match v
    case Nil => NIL
    case Raw(prefix, text) => [prefix] + text + "@" + payer
  }

  /** The index of the last `c`, or -1. */
  function Last(s: string, c: char): (i: int)
    ensures -1 <= i < |s|
    ensures i >= 0 ==> s[i] == c
    ensures forall j :: i < j < |s| ==> s[j] != c
  {
    if s == [] then -1
    else if s[|s| - 1] == c then |s| - 1
    else Last(s[..|s| - 1], c)
  }

  /** The payer is what follows the last '@'. */
  function Tag(s: string): string {
    var i := Last(s, '@');
    if i == -1 then "" else s[i + 1..]
  }

  function Untagged(s: string): string {
    var i := Last(s, '@');
    if i == -1 then s else s[..i]
  }

  lemma LastIs(s: string, c: char, i: nat)
    requires i < |s| && s[i] == c && forall j :: i < j < |s| ==> s[j] != c
    ensures Last(s, c) == i
  {
  }

  lemma TagHasNoAt(s: string)
    ensures '@' !in Tag(s)
  {
    var i := Last(s, '@');
    assert i >= 0 ==> forall j :: 0 <= j < |Tag(s)| ==> Tag(s)[j] == s[i + 1 + j];
  }

  /** The tag comes back as it was written exactly if it has no '@'; then so does the value before it. */
  lemma TagRoundTrip(v: Value, payer: string)
    requires v.Raw?
    ensures Tag(Marshal(v, payer)) == payer <==> '@' !in payer
    ensures '@' !in payer ==> Untagged(Marshal(v, payer)) == [v.prefix] + v.text
    ensures '@' !in Tag(Marshal(v, payer)) && Marshal(v, payer) != NIL
  {
    var s := Marshal(v, payer);
    var i := 1 + |v.text|;
    assert s[i] == '@' && s[i + 1..] == payer;
    TagHasNoAt(s);
    if '@' !in payer {
      assert forall j :: i < j < |s| ==> s[j] == payer[j - i - 1];
      LastIs(s, '@', i);
      assert s[..i] == [v.prefix] + v.text;
    }
  }

  // ----- Records and their sizes -----

  datatype Place = Basic(key: string) | Field(key: string, field: string)
  type Records = map<Place, string>

  function Fetch(db: Records, k: Place): string {
    if k in db then db[k] else NIL
  }

  function Size(k: Place, v: string): int {
    match k
    case Basic(key) => |v| + |key|
    case Field(key, field) => |v| + |key| + 2 * |field|
  }

  /** The contract a place belongs to: its name ends at the last '-'. */
  function OwnerOf(k: Place): string {
    var i := Last(k.key, '-');
    if i == -1 then "" else k.key[..i]
  }

  function OrContract(contract: string, payer: string): string {
    if payer == "" then contract else payer
  }

  /** Who pays for a record: the one it is tagged with or, for an untagged one, the contract it belongs to. */
  function PaidBy(k: Place, v: string): string {
    OrContract(OwnerOf(k), Tag(v))
  }

  /** What the record at `k` costs `payer`. */
  function Share(k: Place, v: string, payer: string): int {
    if v != NIL && PaidBy(k, v) == payer then Size(k, v) else 0
  }

  function Shares(db: Records, payer: string): map<Place, int> {
    map k | k in db :: Share(k, db[k], payer)
  }

  /** The size of the live records the payer pays for. */
  ghost function Usage(db: Records, payer: string): int {
    Total(Shares(db, payer))
  }

  lemma SharesAfterPut(db: Records, k: Place, v: string, payer: string)
    ensures Shares(db[k := v], payer) == Shares(db, payer)[k := Share(k, v, payer)]
  {
    var after, expected := Shares(db[k := v], payer), Shares(db, payer)[k := Share(k, v, payer)];
    assert after.Keys == expected.Keys;
    forall p | p in after
      ensures after[p] == expected[p]
    {
    }
  }

  lemma UsageAfterPut(db: Records, k: Place, v: string, payer: string)
    ensures Usage(db[k := v], payer) == Usage(db, payer) + Share(k, v, payer) - Share(k, Fetch(db, k), payer)
  {
    SharesAfterPut(db, k, v, payer);
    TotalUpdate(Shares(db, payer), k, Share(k, v, payer));
  }

  lemma UsageAfterDel(db: Records, k: Place, payer: string)
    ensures Usage(db - {k}, payer) == Usage(db, payer) - Share(k, Fetch(db, k), payer)
  {
    assert Shares(db - {k}, payer) == Shares(db, payer) - {k};
    TotalDrop(Shares(db, payer), k);
  }

  // ----- Charges -----

  datatype DataItem = DataItem(payer: string, val: int)
  datatype Cost = Cost(data: int, net: int, cpu: int, dataList: seq<DataItem>)

  const COST0 := Cost(0, 0, 0, [])

  function Plus(a: Cost, b: Cost): Cost {
    Cost(a.data + b.data, a.net + b.net, a.cpu + b.cpu, a.dataList + b.dataList)
  }

  /** What the items charge one payer. */
  function Charged(items: seq<DataItem>, payer: string): int {
    if items == [] then 0
    else
      var last := items[|items| - 1];
      Charged(items[..|items| - 1], payer) + if last.payer == payer then last.val else 0
  }

  predicate ValidKey(key: string) {
    && 0 < |key| <= 64
    && (forall i :: 0 <= i < |key| ==> 32 as char <= key[i] <= 126 as char && key[i] != '-' && key[i] != '@')
  }

  /** A write or delete by a contract. */
  datatype Op = PutOp(contract: string, place: Place, value: Value, ramPayer: Option<string>)
              | DelOp(contract: string, place: Place)

  predicate ValidPlace(p: Place) {
    ValidKey(p.key) && (p.Field? ==> ValidKey(p.field))
  }

  /** The place under the contract's own prefix. */
  function Owned(contract: string, p: Place): Place {
    p.(key := contract + "-" + p.key)
  }

  /** The name of the contract can be told from the place, since keys have no '-'. */
  lemma OwnerOfOwned(contract: string, p: Place)
    requires ValidPlace(p)
    ensures OwnerOf(Owned(contract, p)) == contract
  {
    var key := contract + "-" + p.key;
    assert key[|contract|] == '-' && forall j :: |contract| < j < |key| ==> key[j] == p.key[j - |contract| - 1];
    LastIs(key, '-', |contract|);
    assert key[..|contract|] == contract;
  }

  function PayerOf(op: Op, was: string): string
    requires op.PutOp?
  {
    if op.ramPayer.Some? then op.ramPayer.value else OrContract(op.contract, Tag(was))
  }

  /** The charge for replacing a record. */
  function PutCost(contract: string, k: Place, v: string, was: string, payer: string): Cost {
    var size, wasSize := Size(k, v), Size(k, was);
    if was == NIL then Cost(size, 0, 0, [DataItem(payer, size)])
    else
      var lastPayer := OrContract(contract, Tag(was));
      if lastPayer == payer then Cost(size - wasSize, 0, 0, [DataItem(payer, size - wasSize)])
      else Cost(size - wasSize, 0, 0, [DataItem(lastPayer, -wasSize), DataItem(payer, size)])
  }

  function DelCost(k: Place, was: string): Cost {
    if was == NIL || Tag(was) == "" then COST0 else Cost(0, 0, 0, [DataItem(Tag(was), -Size(k, was))])
  }

  datatype Ledger = Ledger(db: Records, cost: Cost)

  function Apply(s: Ledger, op: Op): Ledger {
    if !ValidPlace(op.place) then s
    else
      var k := Owned(op.contract, op.place);
      var was := Fetch(s.db, k);
      match op
      case PutOp(contract, _, value, _) =>
        var payer := PayerOf(op, was);
        var v := Marshal(value, payer);
        Ledger(s.db[k := v], Plus(s.cost, PutCost(contract, k, v, was, payer)))
      case DelOp(_, _) => Ledger(s.db - {k}, Plus(s.cost, DelCost(k, was)))
  }

  // ----- Conservation -----

  /** A name that survives as a tag. */
  predicate TagName(name: string) {
    name != "" && '@' !in name
  }

  /** The charges account for the change of what every payer's records take. */
  ghost predicate Conserved(s: Ledger, t: Ledger) {
    forall payer :: Charged(t.cost.dataList, payer) - Charged(s.cost.dataList, payer) ==
                    Usage(t.db, payer) - Usage(s.db, payer)
  }

  lemma ChargedOne(items: seq<DataItem>, a: DataItem, payer: string)
    ensures Charged(items + [a], payer) == Charged(items, payer) + if a.payer == payer then a.val else 0
  {
    assert (items + [a])[..|items|] == items;
  }

  /** What a put charges each payer, on top of the items before. */
  lemma PutCharges(items: seq<DataItem>, contract: string, k: Place, v: string, was: string, payer: string, q: string)
    ensures Charged(items + PutCost(contract, k, v, was, payer).dataList, q) ==
            Charged(items, q) + (if q == payer then Size(k, v) else 0)
            - (if was != NIL && q == OrContract(contract, Tag(was)) then Size(k, was) else 0)
  {
    var cost := PutCost(contract, k, v, was, payer).dataList;
    if |cost| == 1 {
      ChargedOne(items, cost[0], q);
      assert cost == [cost[0]];
    } else {
      ChargedOne(items, cost[0], q);
      ChargedOne(items + [cost[0]], cost[1], q);
      assert items + cost == items + [cost[0]] + [cost[1]];
    }
  }

  /** By how much a put misses conservation for a payer: the new record's share of it. */
  lemma PutBalance(s: Ledger, op: Op, q: string)
    requires op.PutOp? && ValidPlace(op.place)
    ensures var k := Owned(op.contract, op.place);
            var payer := PayerOf(op, Fetch(s.db, k));
            var v := Marshal(op.value, payer);
            var t := Apply(s, op);
            Charged(t.cost.dataList, q) - Charged(s.cost.dataList, q) - (Usage(t.db, q) - Usage(s.db, q)) ==
            (if q == payer then Size(k, v) else 0) - Share(k, v, q)
  {
    var k := Owned(op.contract, op.place);
    var was := Fetch(s.db, k);
    var payer := PayerOf(op, was);
    var v := Marshal(op.value, payer);
    OwnerOfOwned(op.contract, op.place);
    PutCharges(s.cost.dataList, op.contract, k, v, was, payer, q);
    UsageAfterPut(s.db, k, v, q);
  }

  /** A value that leaves a record, and a payer that can be told from it. */
  predicate GoodPut(op: Op)
    requires op.PutOp?
  {
    op.value.Raw? && (op.ramPayer.Some? ==> TagName(op.ramPayer.value))
  }

  /** The record is there and names no payer. */
  predicate LiveUntagged(db: Records, k: Place) {
    Fetch(db, k) != NIL && Tag(Fetch(db, k)) == ""
  }

  /** Exactly the operations after which the charges still fit the records. */
  predicate GoodOp(db: Records, op: Op) {
    !ValidPlace(op.place) ||
    match op
    case PutOp(_, _, _, _) => GoodPut(op)
    case DelOp(contract, place) => !LiveUntagged(db, Owned(contract, place))
  }

  lemma PutConservesIff(s: Ledger, op: Op)
    requires op.PutOp? && ValidPlace(op.place) && TagName(op.contract)
    ensures Conserved(s, Apply(s, op)) <==> GoodPut(op)
  {
    var k := Owned(op.contract, op.place);
    var payer := PayerOf(op, Fetch(s.db, k));
    var v := Marshal(op.value, payer);
    TagHasNoAt(Fetch(s.db, k));
    if GoodPut(op) {
      TagRoundTrip(op.value, payer);
      forall q {
        PutBalance(s, op, q);
      }
    } else {
      PutBalance(s, op, payer);
      BadPutShare(op, payer);
    }
  }

  /** The payer charged for a bad put does not pay for the record it leaves. */
  lemma BadPutShare(op: Op, payer: string)
    requires op.PutOp? && ValidPlace(op.place) && TagName(op.contract) && !GoodPut(op)
    requires op.ramPayer.Some? ==> payer == op.ramPayer.value
    ensures var k := Owned(op.contract, op.place);
            var v := Marshal(op.value, payer);
            Share(k, v, payer) == 0 < Size(k, v)
  {
    OwnerOfOwned(op.contract, op.place);
    if op.value.Raw? {
      TagRoundTrip(op.value, payer);
    }
  }

  /** A delete gives back what the payer named in the record was charged; for one that names none, nothing. */
  lemma DelBalance(s: Ledger, op: Op, q: string)
    requires op.DelOp? && ValidPlace(op.place)
    ensures var k := Owned(op.contract, op.place);
            var t := Apply(s, op);
            Charged(t.cost.dataList, q) - Charged(s.cost.dataList, q) - (Usage(t.db, q) - Usage(s.db, q)) ==
            if LiveUntagged(s.db, k) && q == op.contract then Size(k, Fetch(s.db, k)) else 0
  {
    var k := Owned(op.contract, op.place);
    var cost := DelCost(k, Fetch(s.db, k)).dataList;
    OwnerOfOwned(op.contract, op.place);
    UsageAfterDel(s.db, k, q);
    if cost != [] {
      ChargedOne(s.cost.dataList, cost[0], q);
      assert cost == [cost[0]];
    } else {
      assert s.cost.dataList + cost == s.cost.dataList;
    }
  }

  lemma DelConservesIff(s: Ledger, op: Op)
    requires op.DelOp? && ValidPlace(op.place)
    ensures Conserved(s, Apply(s, op)) <==> !LiveUntagged(s.db, Owned(op.contract, op.place))
  {
    forall q {
      DelBalance(s, op, q);
    }
    if LiveUntagged(s.db, Owned(op.contract, op.place)) {
      DelBalance(s, op, op.contract);
    }
  }

  lemma OpConservesIff(s: Ledger, op: Op)
    requires TagName(op.contract)
    ensures Conserved(s, Apply(s, op)) <==> GoodOp(s.db, op)
  {
    if ValidPlace(op.place) {
      match op
      case PutOp(_, _, _, _) => PutConservesIff(s, op);
      case DelOp(_, _) => DelConservesIff(s, op);
    }
  }

  /** An example: nil stored by a contract. */
  lemma NilIsCharged(s: Ledger)
    ensures !Conserved(s, Apply(s, PutOp("c", Basic("k"), Nil, None)))
  {
    var op := PutOp("c", Basic("k"), Nil, None);
    assert op.contract == "c" && op.place == Basic("k");
    assert ValidKey("k") && TagName("c");
    PutConservesIff(s, op);
  }

  /** An example: a record stored without a payer, "stext@", deleted. */
  lemma UntaggedIsNotReturned(s: Ledger)
    requires Fetch(s.db, Owned("c", Basic("k"))) == Marshal(Raw('s', "text"), "")
    ensures !Conserved(s, Apply(s, DelOp("c", Basic("k"))))
  {
    var op := DelOp("c", Basic("k"));
    assert op.contract == "c" && op.place == Basic("k");
    assert ValidKey("k");
    TagRoundTrip(Raw('s', "text"), "");
    DelConservesIff(s, op);
  }

  // ----- Conservation over runs -----

  function ApplyAll(s: Ledger, ops: seq<Op>): Ledger {
    if ops == [] then s else Apply(ApplyAll(s, ops[..|ops| - 1]), ops[|ops| - 1])
  }

  ghost predicate Contracts(ops: seq<Op>) {
    forall i :: 0 <= i < |ops| ==> TagName(ops[i].contract)
  }

  ghost predicate GoodAt(s: Ledger, ops: seq<Op>, i: nat)
    requires i < |ops|
  {
    GoodOp(ApplyAll(s, ops[..i]).db, ops[i])
  }

  ghost predicate ConservedAt(s: Ledger, ops: seq<Op>, i: nat)
    requires i <= |ops|
  {
    Conserved(s, ApplyAll(s, ops[..i]))
  }

  lemma ApplyNext(s: Ledger, ops: seq<Op>, i: nat)
    requires i < |ops|
    ensures ApplyAll(s, ops[..i + 1]) == Apply(ApplyAll(s, ops[..i]), ops[i])
  {
    assert ops[..i + 1][..i] == ops[..i];
  }

  /** Conservation from one state to the next. */
  lemma ConservedStep(s: Ledger, t: Ledger, u: Ledger)
    requires Conserved(s, t)
    ensures Conserved(s, u) <==> Conserved(t, u)
  {
    forall q
      ensures Charged(u.cost.dataList, q) - Charged(s.cost.dataList, q) == Usage(u.db, q) - Usage(s.db, q) <==>
              Charged(u.cost.dataList, q) - Charged(t.cost.dataList, q) == Usage(u.db, q) - Usage(t.db, q)
    {
      assert Charged(t.cost.dataList, q) - Charged(s.cost.dataList, q) == Usage(t.db, q) - Usage(s.db, q);
    }
  }

  /** Over every sequence of puts and deletes: what each payer was charged stays the change of what the records it
      pays for take, exactly if every operation is good when its turn comes. */
  lemma RunConservesIff(s: Ledger, ops: seq<Op>)
    requires Contracts(ops)
    ensures (forall i :: 0 <= i <= |ops| ==> ConservedAt(s, ops, i)) <==>
            (forall i :: 0 <= i < |ops| ==> GoodAt(s, ops, i))
  {
    if forall i :: 0 <= i < |ops| ==> GoodAt(s, ops, i) {
      forall i | 0 <= i <= |ops|
        ensures ConservedAt(s, ops, i)
      {
        GoodRunConserves(s, ops, i);
      }
    }
    if forall i :: 0 <= i <= |ops| ==> ConservedAt(s, ops, i) {
      forall i | 0 <= i < |ops|
        ensures GoodAt(s, ops, i)
      {
        assert ConservedAt(s, ops, i) && ConservedAt(s, ops, i + 1);
        NextConserved(s, ops, i);
      }
    }
  }

  lemma NextConserved(s: Ledger, ops: seq<Op>, i: nat)
    requires i < |ops| && Contracts(ops) && ConservedAt(s, ops, i)
    ensures ConservedAt(s, ops, i + 1) <==> GoodAt(s, ops, i)
  {
    ApplyNext(s, ops, i);
    ConservedStep(s, ApplyAll(s, ops[..i]), ApplyAll(s, ops[..i + 1]));
    OpConservesIff(ApplyAll(s, ops[..i]), ops[i]);
  }

  lemma {:induction false} GoodRunConserves(s: Ledger, ops: seq<Op>, i: nat)
    requires i <= |ops| && Contracts(ops) && forall j :: 0 <= j < i ==> GoodAt(s, ops, j)
    ensures ConservedAt(s, ops, i)
  {
    if i > 0 {
      GoodRunConserves(s, ops, i - 1);
      assert GoodAt(s, ops, i - 1);
      NextConserved(s, ops, i - 1);
    }
  }

  /** Every live record names its payer. */
  ghost predicate AllTagged(db: Records) {
    forall k :: k in db ==> !LiveUntagged(db, k)
  }

  ghost predicate GoodPuts(ops: seq<Op>) {
    forall i :: 0 <= i < |ops| && ops[i].PutOp? ==> GoodPut(ops[i])
  }

  /** Good puts leave tagged records. */
  lemma GoodPutTags(s: Ledger, op: Op)
    requires AllTagged(s.db) && TagName(op.contract) && (op.PutOp? ==> GoodPut(op))
    ensures AllTagged(Apply(s, op).db)
  {
    if op.PutOp? {
      var payer := PayerOf(op, Fetch(s.db, Owned(op.contract, op.place)));
      TagHasNoAt(Fetch(s.db, Owned(op.contract, op.place)));
      TagRoundTrip(op.value, payer);
    }
    var db := Apply(s, op).db;
    forall k | k in db
      ensures !LiveUntagged(db, k)
    {
      assert k in s.db ==> !LiveUntagged(s.db, k);
    }
  }

  lemma {:induction false} StaysTagged(s: Ledger, ops: seq<Op>, i: nat)
    requires AllTagged(s.db) && Contracts(ops) && GoodPuts(ops) && i <= |ops|
    ensures AllTagged(ApplyAll(s, ops[..i]).db)
  {
    if i == 0 {
      assert ApplyAll(s, ops[..0]) == s;
    } else {
      StaysTagged(s, ops, i - 1);
      ApplyNext(s, ops, i - 1);
      GoodPutTags(ApplyAll(s, ops[..i - 1]), ops[i - 1]);
    }
  }

  /** If all records name their payers to begin with, good puts are all it takes. */
  lemma RunConserves(s: Ledger, ops: seq<Op>)
    requires AllTagged(s.db) && Contracts(ops) && GoodPuts(ops)
    ensures Conserved(s, ApplyAll(s, ops))
  {
    forall i | 0 <= i < |ops|
      ensures GoodAt(s, ops, i)
    {
      StaysTagged(s, ops, i);
      var db := ApplyAll(s, ops[..i]).db;
      var k := Owned(ops[i].contract, ops[i].place);
      assert k in db ==> !LiveUntagged(db, k);
    }
    GoodRunConserves(s, ops, |ops|);
    assert ops[..|ops|] == ops;
  }
}
