/** Pledging coins for gas and paying with it.  Amounts are integers: coins and gas in units of 10^-8. */
module GasLedger {
  import opened Sums

  const IOST_RATIO := 100_000_000
  const GAS_MIN_PLEDGE_OF_USER := 10 * IOST_RATIO
  const GAS_IMMEDIATE_REWARD := 100_000
  const GAS_LIMIT := 300_000

  /** `updateTime` is 0 until the account was first refreshed; `tgas` is the transferable gas. */
  datatype Account = Account(updateTime: int, total: int, limit: int, stock: int, tgas: int)

  datatype Pledge = Pledge(pledger: string, name: string)

  datatype State = State(accounts: map<string, Account>, pledges: map<Pledge, int>)

  function Acc(s: State, name: string): Account {
    if name in s.accounts then s.accounts[name] else Account(0, 0, 0, 0, 0)
  }

  function PledgeOf(s: State, k: Pledge): int {
    if k in s.pledges then s.pledges[k] else 0
  }

  function Min(a: int, b: int): int {
    if a < b then a else b
  }

  // ----- Invariant -----

  /** The pledges of all pledgers for one account. */
  function PledgesFor(pledges: map<Pledge, int>, name: string): map<Pledge, int> {
    map k | k in pledges && k.name == name :: pledges[k]
  }

  ghost predicate AccountOk(s: State, name: string) {
    var a := Acc(s, name);
    && Total(PledgesFor(s.pledges, name)) == a.total
    && a.limit == GAS_LIMIT * a.total
    && 0 <= a.stock <= a.limit
    && 0 <= a.updateTime
    && (a.updateTime == 0 ==> a.total == 0 && forall k :: k in s.pledges ==> k.name != name)
  }

  ghost predicate Inv(s: State) {
    && (forall name :: AccountOk(s, name))
    && (forall k :: k in s.pledges ==> s.pledges[k] > 0)
  }

  // ----- Steps -----

  /** The pledge gas now, if `gained` came up since the last update; nothing comes up before the first one. */
  function PGas(a: Account, gained: nat): int {
    Min(a.limit, a.stock + if a.updateTime > 0 then gained else 0)
  }

  function Refreshed(a: Account, gained: nat, now: int): Account {
    a.(stock := PGas(a, gained), updateTime := now)
  }

  /** A positive amount is pledged, a negative one taken back. */
  predicate CanPledge(s: State, k: Pledge, amount: int) {
    || amount > 0
    || (amount < 0 && Acc(s, k.name).total + amount >= GAS_MIN_PLEDGE_OF_USER && PledgeOf(s, k) + amount >= 0)
  }

  function AfterPledge(s: State, k: Pledge, amount: int, gained: nat, now: int): State {
    var a := Acc(s, k.name);
    var reward := if amount > 0 then GAS_IMMEDIATE_REWARD * amount else 0;
    var limit := a.limit + GAS_LIMIT * amount;
    var held := PledgeOf(s, k) + amount;
    State(s.accounts[k.name := Account(now, a.total + amount, limit, Min(limit, PGas(a, gained) + reward), a.tgas)],
          if held == 0 then s.pledges - {k} else s.pledges[k := held])
  }

  /** Pledge gas is used first, transferable gas for what that does not cover. */
  function AfterCost(s: State, name: string, cost: nat, gained: nat, now: int): State {
    var a := Refreshed(Acc(s, name), gained, now);
    var paid :=
      if a.stock + a.tgas < cost then a
      else if a.stock < cost then a.(stock := 0, tgas := a.tgas - (cost - a.stock))
      else a.(stock := a.stock - cost);
    s.(accounts := s.accounts[name := paid])
  }

  // ----- The invariant is kept -----

  lemma PledgeSum(pledges: map<Pledge, int>, k: Pledge, v: int, name: string)
    ensures Total(PledgesFor(pledges[k := v], name)) ==
            Total(PledgesFor(pledges, name))
            + if k.name == name then v - (if k in pledges then pledges[k] else 0) else 0
    ensures Total(PledgesFor(pledges - {k}, name)) ==
            Total(PledgesFor(pledges, name)) - if k.name == name && k in pledges then pledges[k] else 0
  {
    var mine := PledgesFor(pledges, name);
    if k.name == name {
      assert PledgesFor(pledges[k := v], name) == mine[k := v] && PledgesFor(pledges - {k}, name) == mine - {k};
      TotalUpdate(mine, k, v);
      TotalDrop(mine, k);
    } else {
      assert PledgesFor(pledges[k := v], name) == mine && PledgesFor(pledges - {k}, name) == mine;
    }
  }

  lemma NoPledges(s: State, name: string)
    requires forall k :: k in s.pledges ==> k.name != name
    ensures Total(PledgesFor(s.pledges, name)) == 0
  {
    assert PledgesFor(s.pledges, name) == map[];
  }

  /** Pledging and taking back keep the sums, and the limit in proportion. */
  lemma PledgeInv(s: State, k: Pledge, amount: int, gained: nat, now: int)
    requires Inv(s) && CanPledge(s, k, amount) && now > 0
    ensures Inv(AfterPledge(s, k, amount, gained, now))
    ensures Acc(s, k.name).total + amount > 0 && PledgeOf(s, k) + amount >= 0
    ensures amount < 0 ==> Acc(s, k.name).updateTime > 0
  {
    assert AccountOk(s, k.name);
    var t := AfterPledge(s, k, amount, gained, now);
    assert PledgeOf(s, k) >= 0;
    assert 0 <= Acc(s, k.name).total by {
      PledgesPositive(s, k.name);
    }
    forall name
      ensures AccountOk(t, name)
    {
      PledgeSum(s.pledges, k, PledgeOf(s, k) + amount, name);
      assert AccountOk(s, name);
    }
  }

  lemma {:induction false} TotalNotNegative(m: map<Pledge, int>)
    requires forall k :: k in m ==> m[k] > 0
    ensures Total(m) >= 0
    decreases |m|
  {
    if m != map[] {
      TotalNotNegative(m - {Pick(m)});
    }
  }

  lemma PledgesPositive(s: State, name: string)
    requires Inv(s)
    ensures Acc(s, name).total >= 0
  {
    assert AccountOk(s, name);
    TotalNotNegative(PledgesFor(s.pledges, name));
  }

  /** Paying takes exactly the cost out of pledge gas and transferable gas together, or nothing if they do not
      cover it. */
  lemma CostExact(s: State, name: string, cost: nat, gained: nat, now: int)
    requires Inv(s) && now > 0
    ensures var t := AfterCost(s, name, cost, gained, now);
            var before, after := Acc(s, name), Acc(t, name);
            var enough := PGas(before, gained) + before.tgas >= cost;
            && Inv(t)
            && after.stock + after.tgas == PGas(before, gained) + before.tgas - (if enough then cost else 0)
            && (before.tgas >= 0 ==> after.tgas >= 0)
            && t.pledges == s.pledges && forall other :: other != name ==> Acc(t, other) == Acc(s, other)
  {
    var t := AfterCost(s, name, cost, gained, now);
    PledgesPositive(s, name);
    forall other
      ensures AccountOk(t, other)
    {
      assert AccountOk(s, other);
    }
  }

  // ----- Runs -----

  datatype Step = PledgeStep(k: Pledge, amount: int, gained: nat, now: int)
                | CostStep(name: string, cost: nat, gained: nat, now: int)

  function Next(s: State, step: Step): State {
    match step
    case PledgeStep(k, amount, gained, now) =>
      if CanPledge(s, k, amount) then AfterPledge(s, k, amount, gained, now) else s
    case CostStep(name, cost, gained, now) => AfterCost(s, name, cost, gained, now)
  }

  function Run(s: State, steps: seq<Step>): State {
    if steps == [] then s else Next(Run(s, steps[..|steps| - 1]), steps[|steps| - 1])
  }

  /** Over every run from an empty ledger: for every account the pledgers' amounts sum up to the total pledged, the
      limit is 300000 times that, and the stock lies between 0 and the limit. */
  lemma {:induction false} RunInv(steps: seq<Step>)
    requires forall i :: 0 <= i < |steps| ==> steps[i].now > 0
    ensures Inv(Run(State(map[], map[]), steps))
  {
    if steps == [] {
      forall name
        ensures AccountOk(State(map[], map[]), name)
      {
        NoPledges(State(map[], map[]), name);
      }
    } else {
      var last := |steps| - 1;
      RunInv(steps[..last]);
      var s := Run(State(map[], map[]), steps[..last]);
      match steps[last]
      case PledgeStep(k, amount, gained, now) =>
        if CanPledge(s, k, amount) {
          PledgeInv(s, k, amount, gained, now);
        }
      case CostStep(name, cost, gained, now) => CostExact(s, name, cost, gained, now);
    }
  }

  // ----- The manager -----

  datatype Outcome = Ok | InvalidAmount | UnpledgeTooMuch | NotYours | NoPledgeBefore | TotalNotPositive
                   | LimitNotPositive | PledgeNegative

  class GasManager {
    var accounts: map<string, Account>
    var pledges: map<Pledge, int>

    constructor ()
      ensures Valid() && St() == State(map[], map[])
    {
      accounts, pledges := map[], map[];
      new;
      RunInv([]);
    }

    function St(): State
      reads this
    {
      State(accounts, pledges)
    }

    ghost predicate Valid()
      reads this
    {
      Inv(St())
    }

    method Set(name: string, a: Account)
      modifies this`accounts
      ensures accounts == old(accounts)[name := a]
    {
      accounts := accounts[name := a];
    }

    /** Brings the stock up to date. */
    method RefreshPGas(name: string, gained: nat, now: int)
      modifies this`accounts
      ensures accounts == old(accounts)[name := Refreshed(old(Acc(St(), name)), gained, now)]
      ensures var was, value := old(Acc(St(), name)), Acc(St(), name).stock;
              && value <= was.limit && value <= was.stock + (if was.updateTime > 0 then gained else 0)
              && (value == was.limit || value == was.stock + if was.updateTime > 0 then gained else 0)
    {
      var a := Acc(St(), name);
      var value := a.stock;
      if a.updateTime > 0 {
        value := value + gained;
      }
      if a.limit < value {
        value := a.limit;
      }
      Set(name, a.(stock := value));
      Set(name, Acc(St(), name).(updateTime := now));
    }

    method CostGas(name: string, cost: nat, gained: nat, now: int) returns (ok: bool)
      requires Valid() && now > 0
      modifies this`accounts
      ensures Valid() && St() == AfterCost(old(St()), name, cost, gained, now)
      ensures var pgas, tgas := old(PGas(Acc(St(), name), gained)), old(Acc(St(), name).tgas);
              var after := Acc(St(), name);
              && ok == (pgas + tgas >= cost)
              && (!ok ==> after.stock == pgas && after.tgas == tgas)
              && (ok && pgas >= cost ==> after.stock == pgas - cost && after.tgas == tgas)
              && (ok && pgas < cost ==> after.stock == 0 && after.tgas == tgas - (cost - pgas))
    {
      CostExact(St(), name, cost, gained, now);
      RefreshPGas(name, gained, now);
      var current, currentT := Acc(St(), name).stock, Acc(St(), name).tgas;
      if current + currentT < cost {
        ok := false;
      } else if current < cost {
        Set(name, Acc(St(), name).(stock := 0));
        var tGasCost := cost - current;
        Set(name, Acc(St(), name).(tgas := currentT - tGasCost));
        ok := true;
      } else {
        Set(name, Acc(St(), name).(stock := current - cost));
        ok := true;
      }
      assert St() == AfterCost(old(St()), name, cost, gained, now);
    }

    /** Changes the pledge of one account for another.  Only the amount, the minimum pledge and the pledger's own
        pledge can stop it; the later checks never fail. */
    method ChangePledge(pledger: string, name: string, amount: int, gained: nat, now: int) returns (r: Outcome)
      requires Valid() && now > 0
      modifies this
      ensures Valid() && (r.Ok? <==> CanPledge(old(St()), Pledge(pledger, name), amount))
      ensures r.Ok? || r.InvalidAmount? || r.UnpledgeTooMuch? || r.NotYours?
      ensures r.InvalidAmount? <==> amount == 0
      ensures r.UnpledgeTooMuch? <==> amount < 0 && old(Acc(St(), name).total) + amount < 10 * 100_000_000
      ensures St() == if r.Ok? then AfterPledge(old(St()), Pledge(pledger, name), amount, gained, now) else old(St())
      ensures r.Ok? ==>
                var k, was, after := Pledge(pledger, name), old(Acc(St(), name)), Acc(St(), name);
                var gas := old(PGas(Acc(St(), name), gained)) + if amount > 0 then 100_000 * amount else 0;
                && PledgeOf(St(), k) == old(PledgeOf(St(), Pledge(pledger, name))) + amount
                && after.total == was.total + amount && after.limit == was.limit + 300_000 * amount
                && after.stock == (if gas > after.limit then after.limit else gas) && after.tgas == was.tgas
    {
      var k := Pledge(pledger, name);
      if amount == 0 {
        return InvalidAmount;
      }
      if amount < 0 {
        if Acc(St(), name).total + amount < GAS_MIN_PLEDGE_OF_USER {
          return UnpledgeTooMuch;
        }
        if PledgeOf(St(), k) + amount < 0 {
          return NotYours;
        }
      }
      PledgeInv(St(), k, amount, gained, now);
      if Acc(St(), name).updateTime == 0 {
        if amount < 0 {
          return NoPledgeBefore;
        }
        FirstIsPledge(St(), k, amount, gained, now);
        FirstPledge(k, amount, now);
        return Ok;
      }
      LimitStaysPositive(St(), k, amount);
      r := FurtherPledge(k, amount, gained, now);
    }

    method FirstPledge(k: Pledge, amount: int, now: int)
      requires amount > 0
      modifies this
      ensures St() == FirstOf(old(St()), k, amount, now)
    {
      var limitDelta, gasDelta := amount * GAS_LIMIT, amount * GAS_IMMEDIATE_REWARD;
      pledges := pledges[k := amount];
      Set(k.name, Acc(St(), k.name).(updateTime := now));
      Set(k.name, Acc(St(), k.name).(total := amount));
      Set(k.name, Acc(St(), k.name).(limit := limitDelta));
      Set(k.name, Acc(St(), k.name).(stock := gasDelta));
    }

    method FurtherPledge(k: Pledge, amount: int, gained: nat, now: int) returns (r: Outcome)
      requires amount != 0
      modifies this
      ensures old(Acc(St(), k.name).total) + amount > 0 && old(Acc(St(), k.name).limit) + GAS_LIMIT * amount > 0
              && old(PledgeOf(St(), k)) + amount >= 0 ==>
                r == Ok && St() == AfterPledge(old(St()), k, amount, gained, now)
    {
      var limitDelta := amount * GAS_LIMIT;
      var gasDelta := if amount < 0 then 0 else amount * GAS_IMMEDIATE_REWARD;
      RefreshPGas(k.name, gained, now);
      var total := Acc(St(), k.name).total + amount;
      if total <= 0 {
        return TotalNotPositive;
      }
      Set(k.name, Acc(St(), k.name).(total := total));
      var limit := Acc(St(), k.name).limit + limitDelta;
      if limit <= 0 {
        return LimitNotPositive;
      }
      Set(k.name, Acc(St(), k.name).(limit := limit));
      var gas := Acc(St(), k.name).stock + gasDelta;
      if limit < gas {
        gas := limit;
      }
      Set(k.name, Acc(St(), k.name).(stock := gas));
      var pledged := PledgeOf(St(), k) + amount;
      if pledged == 0 {
        pledges := pledges - {k};
      } else if pledged > 0 {
        pledges := pledges[k := pledged];
      } else {
        return PledgeNegative;
      }
      r := Ok;
    }
  }

  /** The state after a first pledge. */
  function FirstOf(s: State, k: Pledge, amount: int, now: int): State {
    State(s.accounts[k.name := Account(now, amount, GAS_LIMIT * amount, GAS_IMMEDIATE_REWARD * amount,
                                       Acc(s, k.name).tgas)],
          s.pledges[k := amount])
  }

  lemma FirstIsPledge(s: State, k: Pledge, amount: int, gained: nat, now: int)
    requires Inv(s) && Acc(s, k.name).updateTime == 0 && amount > 0
    ensures FirstOf(s, k, amount, now) == AfterPledge(s, k, amount, gained, now)
  {
    assert AccountOk(s, k.name);
  }

  lemma LimitStaysPositive(s: State, k: Pledge, amount: int)
    requires Inv(s) && Acc(s, k.name).total + amount > 0
    ensures Acc(s, k.name).limit + GAS_LIMIT * amount > 0
  {
    assert AccountOk(s, k.name);
  }
}
