/** The host's storage operations and the payment of what they charge. */
module Teller {
  import opened Basics
  import opened Sums
  import opened RamLedger

  type Costs = map<string, Cost>

  function CostOf(costs: Costs, q: string): Cost {
    if q in costs then costs[q] else COST0
  }

  function Payers(items: seq<DataItem>): set<string> {
    set i | 0 <= i < |items| :: items[i].payer
  }

  predicate HasCompute(c: Cost) {
    c.cpu > 0 || c.net > 0
  }

  // ----- Paying a cost -----

  /** `to` charges what `from` does and, on top, the items of `c` to their payers and its computing to `who`. */
  ghost predicate AddedTo(from: Costs, to: Costs, c: Cost, who: string) {
    && to.Keys == from.Keys + Payers(c.dataList) + (if HasCompute(c) then {who} else {})
    && (forall q :: ChargedTo(from, to, c, who, q))
  }

  ghost predicate ChargedTo(from: Costs, to: Costs, c: Cost, who: string, q: string) {
    && CostOf(to, q).data == CostOf(from, q).data + Charged(c.dataList, q)
    && CostOf(to, q).net == CostOf(from, q).net + (if HasCompute(c) && q == who then c.net else 0)
    && CostOf(to, q).cpu == CostOf(from, q).cpu + (if HasCompute(c) && q == who then c.cpu else 0)
  }

  /** The cost shared out among its payers. */
  method ShareOut(c: Cost, who: string) returns (costMap: Costs)
    ensures AddedTo(map[], costMap, c, who)
  {
    costMap := map[];
    if HasCompute(c) {
      costMap := costMap[who := Cost(0, c.net, c.cpu, [])];
    }
    for i := 0 to |c.dataList|
      invariant AddedTo(map[], costMap, c.(dataList := c.dataList[..i]), who)
    {
      var item := c.dataList[i];
      ghost var before := costMap;
      if item.payer in costMap {
        costMap := costMap[item.payer := Plus(costMap[item.payer], Cost(item.val, 0, 0, [item]))];
      } else {
        costMap := costMap[item.payer := Cost(item.val, 0, 0, [item])];
      }
      OneMoreItem(before, costMap, c, who, i);
    }
    assert c.dataList[..|c.dataList|] == c.dataList;
  }

  lemma OneMoreItem(before: Costs, after: Costs, c: Cost, who: string, i: nat)
    requires i < |c.dataList| && AddedTo(map[], before, c.(dataList := c.dataList[..i]), who)
    requires var item := c.dataList[i];
             && after.Keys == before.Keys + {item.payer}
             && (forall q :: q in after && q != item.payer ==> q in before && after[q] == before[q])
             && var was := CostOf(before, item.payer);
                after[item.payer].data == was.data + item.val && after[item.payer].net == was.net
                && after[item.payer].cpu == was.cpu
    ensures AddedTo(map[], after, c.(dataList := c.dataList[..i + 1]), who)
  {
    var now, next := c.(dataList := c.dataList[..i]), c.(dataList := c.dataList[..i + 1]);
    assert c.dataList[..i + 1] == c.dataList[..i] + [c.dataList[i]];
    forall q
      ensures ChargedTo(map[], after, next, who, q)
    {
      assert ChargedTo(map[], before, now, who, q);
      ChargedOne(c.dataList[..i], c.dataList[i], q);
    }
    assert Payers(next.dataList) == Payers(now.dataList) + {c.dataList[i].payer};
  }

  /** Adds one map of costs to another. */
  ghost predicate Merged(from: Costs, more: Costs, to: Costs) {
    && to.Keys == from.Keys + more.Keys
    && (forall q :: q in to ==> CostOf(to, q) == if q in from && q in more then Plus(from[q], more[q])
                                                 else if q in from then from[q] else more[q])
  }

  function Restricted(m: Costs, keys: set<string>): Costs {
    map q | q in m && q in keys :: m[q]
  }

  lemma MergeOne(from: Costs, more: Costs, done: set<string>, to: Costs, q: string)
    requires q in more && q !in done && Merged(from, Restricted(more, done), to)
    ensures Merged(from, Restricted(more, done + {q}), to[q := if q in to then Plus(to[q], more[q]) else more[q]])
  {
  }

  lemma MergedAdds(from: Costs, more: Costs, to: Costs, c: Cost, who: string)
    requires AddedTo(map[], more, c, who) && Merged(from, more, to)
    ensures AddedTo(from, to, c, who)
  {
    forall q
      ensures ChargedTo(from, to, c, who, q)
    {
      assert ChargedTo(map[], more, c, who, q);
    }
  }

  // ----- Who pays for storage in the end -----

  predicate HasSuffix(s: string, suffix: string) {
    |s| >= |suffix| && s[|s| - |suffix|..] == suffix
  }

  predicate IsContract(id: string) {
    "Contract" <= id || '.' in id
  }

  /** The account whose balance pays; none for system contracts, and none for a contract without owner. */
  function RamPayer(owners: map<string, string>, payer: string): Option<string> {
    if HasSuffix(payer, ".iost") then None
    else if IsContract(payer) then (if payer in owners then Some(owners[payer]) else None)
    else Some(payer)
  }

  predicate Unowned(owners: map<string, string>, payer: string) {
    !HasSuffix(payer, ".iost") && IsContract(payer) && payer !in owners
  }

  type PayerRule = string -> Option<string>

  function RuleOf(owners: map<string, string>): PayerRule {
    q => RamPayer(owners, q)
  }

  /** What the account has to pay for each payer. */
  function Dues(costs: Costs, rule: PayerRule, account: string): map<string, int> {
    map q | q in costs :: if rule(q) == Some(account) then costs[q].data else 0
  }

  /** What each payer's storage costs the account: its own, and that of the contracts it owns, but nothing for a
      contract of the ".iost" domain. */
  function StorageOf(costs: Costs, owners: map<string, string>, account: string): map<string, int> {
    map q | q in costs ::
      if |q| >= 5 && q[|q| - 5..] == ".iost" then 0
      else if "Contract" <= q || '.' in q then (if q in owners && owners[q] == account then costs[q].data else 0)
      else if q == account then costs[q].data else 0
  }

  lemma DuesAreOwed(costs: Costs, owners: map<string, string>)
    ensures forall a :: Dues(costs, RuleOf(owners), a) == StorageOf(costs, owners, a)
  {
  }

  function Amount(m: map<string, int>, account: string): int {
    if account in m then m[account] else 0
  }

  const PUT_COST := Cost(0, 0, 300, [])
  const DEL_COST := Cost(0, 0, 300, [])

  function ToGas(c: Cost): int {
    10 * c.net + c.cpu
  }

  /** No storage, and the larger of the base price and a tenth of the length. */
  predicate IsPutGas(gas: Cost, length: nat) {
    && gas.data == 0 && gas.dataList == [] && ToGas(gas) >= ToGas(PUT_COST) && ToGas(gas) >= length / 10
    && (ToGas(gas) == ToGas(PUT_COST) || ToGas(gas) == length / 10)
  }

  class Host {
    var db: Records
    var cacheCost: Cost
    var cost: Costs
    var ram: map<string, int>
    var used: map<string, int>

    constructor (db: Records, ram: map<string, int>, used: map<string, int>)
      ensures this.db == db && this.ram == ram && this.used == used && cacheCost == COST0 && cost == map[]
    {
      this.db, this.ram, this.used := db, ram, used;
      cacheCost, cost := COST0, map[];
    }

    function St(): Ledger
      reads this
    {
      Ledger(db, cacheCost)
    }

    static method IsValidKey(key: string) returns (ok: bool)
      ensures ok <==> ValidKey(key)
      ensures ok <==> 0 < |key| <= 64 && forall c :: c in key ==> 32 as char <= c <= 126 as char && c != '-' && c != '@'
    {
      if |key| <= 0 || |key| > 64 {
        return false;
      }
      for i := 0 to |key|
        invariant forall j :: 0 <= j < i ==> 32 as char <= key[j] <= 126 as char && key[j] != '-' && key[j] != '@'
      {
        if key[i] < 32 as char || key[i] > 126 as char || key[i] == '-' || key[i] == '@' {
          assert key[i] in key;
          return false;
        }
      }
      ok := true;
    }

    static method IsValidPlace(p: Place) returns (ok: bool)
      ensures ok <==> ValidPlace(p)
    {
      ok := IsValidKey(p.key);
      if ok && p.Field? {
        ok := IsValidKey(p.field);
      }
    }

    /** Charges the new payer for the record and gives the last one back what the old record took. */
    method PayRam(contract: string, k: Place, v: string, was: string, payer: string)
      modifies this`cacheCost
      ensures cacheCost == Plus(old(cacheCost), PutCost(contract, k, v, was, payer))
    {
      var data, dataList;
      var size, wasSize := Size(k, v), Size(k, was);
      if was == NIL {
        dataList := [DataItem(payer, size)];
        data := size;
      } else {
        var lastPayer := Tag(was);
        if lastPayer == "" {
          lastPayer := contract;
        }
        if lastPayer == payer {
          dataList := [DataItem(payer, size - wasSize)];
        } else {
          dataList := [DataItem(lastPayer, -wasSize)];
          dataList := dataList + [DataItem(payer, size)];
        }
        data := size - wasSize;
      }
      cacheCost := Plus(cacheCost, Cost(data, 0, 0, dataList));
    }

    /** `gas` is the price of the call itself: a tenth of what is stored, and at least the base price. */
    method Put(contract: string, place: Place, value: Value, ramPayer: Option<string>) returns (ok: bool, gas: Cost)
      modifies this`db, this`cacheCost
      ensures ok == ValidPlace(place) && St() == Apply(old(St()), PutOp(contract, place, value, ramPayer))
      ensures !ok ==> gas == Cost(0, 0, 10, [])
      ensures ok ==> Owned(contract, place) in db && IsPutGas(gas, |db[Owned(contract, place)]|)
      ensures ok ==>
                var tenth := |db[Owned(contract, place)]| / 10;
                gas == Cost(0, 0, if tenth < 300 then 300 else tenth, [])
      ensures ok ==>
                var k, was := Owned(contract, place), old(Fetch(db, Owned(contract, place)));
                var payer := if ramPayer.Some? then ramPayer.value else if Tag(was) != "" then Tag(was) else contract;
                var named := |contract| + 1 + |place.key| + if place.Field? then 2 * |place.field| else 0;
                && db == old(db)[k := Marshal(value, payer)]
                && cacheCost.data ==
                   old(cacheCost.data) + |Marshal(value, payer)| + if was == NIL then named else -|was|
    {
      ok := IsValidPlace(place);
      if !ok {
        gas := Cost(0, 0, 10, []);
        return;
      }
      var k := Owned(contract, place);
      var was := Fetch(db, k);
      var payer;
      if ramPayer.Some? {
        payer := ramPayer.value;
      } else {
        payer := Tag(was);
        if payer == "" {
          payer := contract;
        }
      }
      var v := Marshal(value, payer);
      PayRam(contract, k, v, was, payer);
      db := db[k := v];
      gas := PutGas(|v|);
    }

    static method PutGas(length: nat) returns (gas: Cost)
      ensures IsPutGas(gas, length) && gas == Cost(0, 0, if length / 10 < 300 then 300 else length / 10, [])
    {
      gas := Cost(0, 0, length / 10, []);
      if ToGas(gas) < ToGas(PUT_COST) {
        gas := PUT_COST;
      }
    }

    method Del(contract: string, place: Place) returns (ok: bool, gas: Cost)
      modifies this`db, this`cacheCost
      ensures ok == ValidPlace(place) && St() == Apply(old(St()), DelOp(contract, place))
      ensures gas == Cost(0, 0, if ok then 300 else 10, [])
    {
      ok := IsValidPlace(place);
      if !ok {
        gas := Cost(0, 0, 10, []);
        return;
      }
      gas := DEL_COST;
      var k := Owned(contract, place);
      var was := Fetch(db, k);
      if was != NIL {
        var dataList := [];
        if Tag(was) != "" {
          dataList := dataList + [DataItem(Tag(was), -Size(k, was))];
        }
        cacheCost := Plus(cacheCost, Cost(0, 0, 0, dataList));
      } else {
        assert Plus(cacheCost, COST0) == cacheCost;
      }
      db := db - {k};
    }

    method PayCost(c: Cost, who: string)
      modifies this`cost
      ensures AddedTo(old(cost), cost, c, who)
    {
      var costMap := ShareOut(c, who);
      var todo := costMap.Keys;
      ghost var done: set<string> := {};
      ghost var before := cost;
      while todo != {}
        invariant todo + done == costMap.Keys && todo !! done
        invariant Merged(before, Restricted(costMap, done), cost)
        decreases todo
      {
        var q :| q in todo;
        MergeOne(before, costMap, done, cost, q);
        if q in cost {
          cost := cost[q := Plus(cost[q], costMap[q])];
        } else {
          cost := cost[q := costMap[q]];
        }
        todo, done := todo - {q}, done + {q};
      }
      assert Restricted(costMap, done) == costMap;
      MergedAdds(before, costMap, cost, c, who);
    }

    method FlushCacheCost()
      modifies this`cost, this`cacheCost
      ensures AddedTo(old(cost), cost, old(cacheCost), "") && cacheCost == COST0
    {
      PayCost(cacheCost, "");
      cacheCost := COST0;
    }

    /** Takes storage out of the balance and adds it to what is used. */
    method PayStorage(account: string, data: int) returns (ok: bool)
      modifies this`ram, this`used
      ensures ok == (old(Amount(ram, account)) >= data)
      ensures ram == if ok then old(ram)[account := old(Amount(ram, account)) - data] else old(ram)
      ensures used == if ok then old(used)[account := old(Amount(used, account)) + data] else old(used)
      ensures NoneNegative(old(ram)) ==> NoneNegative(ram)
    {
      var current := Amount(ram, account);
      ok := current >= data;
      if ok {
        ram := ram[account := current - data];
        used := used[account := Amount(used, account) + data];
      }
    }

    /** Pays the storage of every payer, in whatever order they come; `gasPays` are those whose gas payment
        succeeds. */
    method PayAll(gasPays: set<string>, unowned: set<string>, rule: PayerRule) returns (ok: bool, ghost done: Costs)
      modifies this`ram, this`used
      ensures Paid(old(ram), old(used), ram, used, done, rule)
      ensures ok ==> done == cost && cost.Keys <= gasPays && cost.Keys !! unowned
      ensures NoneNegative(old(ram)) ==> NoneNegative(ram)
      ensures cost.Keys <= gasPays && cost.Keys !! unowned && Affordable(old(ram), cost, rule) ==> ok
    {
      var todo := cost.Keys;
      done := map[];
      PaidNothing(ram, used, rule);
      while todo != {}
        invariant todo + done.Keys == cost.Keys && todo !! done.Keys
        invariant forall q :: q in done ==> done[q] == cost[q]
        invariant done.Keys <= gasPays && done.Keys !! unowned
        invariant Paid(old(ram), old(used), ram, used, done, rule)
        invariant NoneNegative(old(ram)) ==> NoneNegative(ram)
        decreases todo
      {
        var payer :| payer in todo;
        if payer !in gasPays || payer in unowned {
          return false, done;
        }
        var account := rule(payer);
        var data := cost[payer].data;
        PayOne(old(ram), old(used), ram, used, done, rule, payer, cost[payer]);
        if account.Some? {
          var paid := PayStorage(account.value, data);
          if !paid {
            ShortOf(old(ram), old(used), ram, used, done, cost, rule, payer);
            return false, done;
          }
        }
        todo, done := todo - {payer}, done[payer := cost[payer]];
      }
      ok := true;
    }

    /** Whatever the outcome, balance and used storage of every account add up to what they did, and no balance turns
        negative.  On success every account has paid exactly its own storage and that of the contracts it owns,
        contracts of the ".iost" domain excepted.  It succeeds if all gas payments do, no contract lacks an owner and
        every balance covers what is due from it even before anything is given back. */
    method DoPay(gasPays: set<string>, owners: map<string, string>) returns (ok: bool)
      modifies this`ram, this`used
      ensures forall a :: Amount(ram, a) + Amount(used, a) == old(Amount(ram, a) + Amount(used, a))
      ensures ok ==> cost.Keys <= gasPays && forall q :: q in cost ==> !Unowned(owners, q)
      ensures ok ==> forall a :: Amount(ram, a) == old(Amount(ram, a)) - Total(StorageOf(cost, owners, a))
      ensures NoneNegative(old(ram)) ==> NoneNegative(ram)
      ensures (&& cost.Keys <= gasPays && (forall q :: q in cost ==> !Unowned(owners, q))
               && Affordable(old(ram), cost, RuleOf(owners))) ==> ok
      ensures forall a :: IsContract(a) && a !in owners.Values ==>
                Amount(ram, a) == old(Amount(ram, a)) && Amount(used, a) == old(Amount(used, a))
    {
      ghost var done;
      var unowned := set q | q in cost && Unowned(owners, q);
      ok, done := PayAll(gasPays, unowned, RuleOf(owners));
      PaidKeeps(old(ram), old(used), ram, used, done, RuleOf(owners));
      DuesAreOwed(cost, owners);
      ContractsPayNothing(old(ram), old(used), ram, used, done, owners);
    }
  }

  // ----- Payment -----

  type Amounts = map<string, int>

  /** Account for account: the balance fell by what the payers done owe, and the used storage rose by it. */
  ghost predicate Paid(
    ram0: Amounts, used0: Amounts, ram: Amounts, used: Amounts, done: Costs, rule: PayerRule)
  {
    forall a :: PaidBy(ram0, used0, ram, used, Total(Dues(done, rule, a)), a)
  }

  ghost predicate PaidBy(ram0: Amounts, used0: Amounts, ram: Amounts, used: Amounts, due: int, a: string) {
    Amount(ram, a) == Amount(ram0, a) - due && Amount(used, a) == Amount(used0, a) + due
  }

  predicate NoneNegative(m: Amounts) {
    forall a :: a in m ==> m[a] >= 0
  }

  /** What the account has to pay for each payer, leaving out what it gets back. */
  function Draws(costs: Costs, rule: PayerRule, account: string): map<string, int> {
    map q | q in costs :: if rule(q) == Some(account) && costs[q].data > 0 then costs[q].data else 0
  }

  ghost predicate Affordable(ram: Amounts, costs: Costs, rule: PayerRule) {
    forall a :: Total(Draws(costs, rule, a)) <= Amount(ram, a)
  }

  /** A payer whose account cannot pay now shows that the account could not afford all it has to pay. */
  lemma ShortOf(ram0: Amounts, used0: Amounts, ram: Amounts, used: Amounts, done: Costs, costs: Costs, rule: PayerRule,
                payer: string)
    requires Paid(ram0, used0, ram, used, done, rule) && payer in costs && payer !in done && rule(payer).Some?
    requires forall q :: q in done ==> q in costs && done[q] == costs[q]
    requires Amount(ram, rule(payer).value) < costs[payer].data
    ensures !Affordable(ram0, costs, rule)
  {
    var b := rule(payer).value;
    var now, all := Dues(done, rule, b), Draws(costs, rule, b);
    assert PaidBy(ram0, used0, ram, used, Total(now), b);
    TotalUpdate(now, payer, costs[payer].data);
    TotalAtMost(now[payer := costs[payer].data], all);
  }

  /** An account that pays for none of the payers owes nothing. */
  lemma {:induction false} TotalOfNone(m: map<string, int>)
    requires forall k :: k in m ==> m[k] == 0
    ensures Total(m) == 0
    decreases |m|
  {
    if m != map[] {
      TotalOfNone(m - {Pick(m)});
    }
  }

  lemma ContractsPayNothing(
    ram0: Amounts, used0: Amounts, ram: Amounts, used: Amounts, done: Costs, owners: map<string, string>)
    requires Paid(ram0, used0, ram, used, done, RuleOf(owners))
    ensures forall a :: IsContract(a) && a !in owners.Values ==>
              Amount(ram, a) == Amount(ram0, a) && Amount(used, a) == Amount(used0, a)
  {
    forall a | IsContract(a) && a !in owners.Values
      ensures Amount(ram, a) == Amount(ram0, a) && Amount(used, a) == Amount(used0, a)
    {
      var dues := Dues(done, RuleOf(owners), a);
      assert PaidBy(ram0, used0, ram, used, Total(dues), a);
      TotalOfNone(dues);
    }
  }

  lemma PaidNothing(ram: Amounts, used: Amounts, rule: PayerRule)
    ensures Paid(ram, used, ram, used, map[], rule)
  {
    forall a
      ensures PaidBy(ram, used, ram, used, Total(Dues(map[], rule, a)), a)
    {
      assert Dues(map[], rule, a) == map[];
    }
  }

  lemma PaidKeeps(
    ram0: Amounts, used0: Amounts, ram: Amounts, used: Amounts, done: Costs, rule: PayerRule)
    requires Paid(ram0, used0, ram, used, done, rule)
    ensures forall a :: Amount(ram, a) + Amount(used, a) == Amount(ram0, a) + Amount(used0, a)
    ensures forall a :: Amount(ram, a) == Amount(ram0, a) - Total(Dues(done, rule, a))
  {
    forall a
      ensures Amount(ram, a) + Amount(used, a) == Amount(ram0, a) + Amount(used0, a)
      ensures Amount(ram, a) == Amount(ram0, a) - Total(Dues(done, rule, a))
    {
      assert PaidBy(ram0, used0, ram, used, Total(Dues(done, rule, a)), a);
    }
  }

  lemma PayOne(ram0: Amounts, used0: Amounts, ram: Amounts, used: Amounts, done: Costs, rule: PayerRule,
               payer: string, c: Cost)
    requires Paid(ram0, used0, ram, used, done, rule) && payer !in done
    ensures match rule(payer)
            case None => Paid(ram0, used0, ram, used, done[payer := c], rule)
            case Some(b) =>
              Paid(ram0, used0, ram[b := Amount(ram, b) - c.data], used[b := Amount(used, b) + c.data],
                   done[payer := c], rule)
  {
    var b := rule(payer);
    var ram', used' := ram, used;
    if b.Some? {
      ram', used' := ram[b.value := Amount(ram, b.value) - c.data], used[b.value := Amount(used, b.value) + c.data];
    }
    var next := done[payer := c];
    forall a
      ensures PaidBy(ram0, used0, ram', used', Total(Dues(next, rule, a)), a)
    {
      assert PaidBy(ram0, used0, ram, used, Total(Dues(done, rule, a)), a);
      OneMorePayer(done, payer, c, rule, a);
      PayOneAt(ram0, used0, ram, used, Total(Dues(done, rule, a)), rule(payer), c.data, a);
    }
  }

  /** What one payment does to one account. */
  lemma PayOneAt(ram0: Amounts, used0: Amounts, ram: Amounts, used: Amounts, due: int, b: Option<string>, v: int,
                 a: string)
    requires PaidBy(ram0, used0, ram, used, due, a)
    ensures match b
            case None => PaidBy(ram0, used0, ram, used, due, a)
            case Some(x) =>
              PaidBy(ram0, used0, ram[x := Amount(ram, x) - v], used[x := Amount(used, x) + v],
                     due + (if x == a then v else 0), a)
  {
  }

  lemma OneMorePayer(done: Costs, payer: string, c: Cost, rule: PayerRule, a: string)
    requires payer !in done
    ensures Total(Dues(done[payer := c], rule, a)) ==
            Total(Dues(done, rule, a)) + if rule(payer) == Some(a) then c.data else 0
  {
    var due := if rule(payer) == Some(a) then c.data else 0;
    assert Dues(done[payer := c], rule, a) == Dues(done, rule, a)[payer := due];
    TotalUpdate(Dues(done, rule, a), payer, due);
  }

  // ----- What is paid is what is stored -----

  /** By how much the records have grown that the account answers for. */
  ghost function Growth(costs: Costs, rule: PayerRule, account: string, before: Records, after: Records)
    : map<string, int>
  {
    map q | q in costs :: if rule(q) == Some(account) then Usage(after, q) - Usage(before, q) else 0
  }

  /** From no charges, through any sequence of puts and deletes and the flush of what they charge: an account owes
      exactly the growth of the records it answers for, and records of nobody else have changed in size. */
  lemma OwedIsGrowth(s: Ledger, ops: seq<Op>, costs: Costs, rule: PayerRule, account: string)
    requires s.cost == COST0 && Contracts(ops) && forall i :: 0 <= i < |ops| ==> GoodAt(s, ops, i)
    requires AddedTo(map[], costs, ApplyAll(s, ops).cost, "")
    ensures var after := ApplyAll(s, ops).db;
            && Dues(costs, rule, account) == Growth(costs, rule, account, s.db, after)
            && forall q :: q !in costs ==> Usage(after, q) == Usage(s.db, q)
  {
    GoodRunConserves(s, ops, |ops|);
    assert ops[..|ops|] == ops;
    var t := ApplyAll(s, ops);
    OwedFor(s, t, costs, rule, account);
    forall q | q !in costs
      ensures Usage(t.db, q) == Usage(s.db, q)
    {
      OwedBy(s, t, costs, q);
    }
  }

  lemma OwedFor(s: Ledger, t: Ledger, costs: Costs, rule: PayerRule, account: string)
    requires s.cost == COST0 && Conserved(s, t) && AddedTo(map[], costs, t.cost, "")
    ensures Dues(costs, rule, account) == Growth(costs, rule, account, s.db, t.db)
  {
    forall q | q in costs
      ensures Dues(costs, rule, account)[q] == Growth(costs, rule, account, s.db, t.db)[q]
    {
      OwedBy(s, t, costs, q);
    }
  }

  lemma OwedBy(s: Ledger, t: Ledger, costs: Costs, q: string)
    requires s.cost == COST0 && Conserved(s, t) && AddedTo(map[], costs, t.cost, "")
    ensures CostOf(costs, q).data == Usage(t.db, q) - Usage(s.db, q)
  {
    assert ChargedTo(map[], costs, t.cost, "", q);
    assert Charged(t.cost.dataList, q) - Charged(s.cost.dataList, q) == Usage(t.db, q) - Usage(s.db, q);
  }
}
