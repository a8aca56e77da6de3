/** A permission that holds and is refused, because there are two ways to one of the pairs it depends on. */
module AuthorityExample {
  import opened Basics
  import opened Authority

  const B := Item("b", "active", false, 1)
  const C := Item("c", "active", false, 1)
  const D := Item("d", "active", false, 1)
  const SIGNER := Item("key", "", true, 1)

  function Needs(items: seq<Item>, threshold: int): Account {
    Account(map[], map["active" := Permission(items, [], threshold)])
  }

  /** `a` needs both `b` and `c`, each of which needs `d`, whose key signed. */
  const DIAMOND := Env(
    map["a" := Needs([B, C], 2), "b" := Needs([D], 1), "c" := Needs([D], 1), "d" := Needs([SIGNER], 1)],
    map["key" := 1], false)

  predicate IsActive(e: Env, id: string, items: seq<Item>, threshold: int) {
    && id in e.accounts && e.accounts[id].permissions.Keys == {"active"} && ItemsAt(e, id, "active") == items
    && e.accounts[id].permissions["active"].threshold == threshold
  }

  predicate Diamond(e: Env) {
    && e.accounts.Keys == {"a", "b", "c", "d"} && Signed(e, "key")
    && IsActive(e, "a", [B, C], 2) && IsActive(e, "b", [D], 1) && IsActive(e, "c", [D], 1)
    && IsActive(e, "d", [SIGNER], 1)
  }

  lemma DiamondIs()
    ensures Diamond(DIAMOND)
  {
  }

  lemma ItemsOk(items: seq<Item>)
    requires items == [B, C] || items == [D] || items == [SIGNER]
    ensures NonNegative(items) && PlainItems(items)
  {
  }

  ghost predicate PermissionsOk(a: Account) {
    forall p :: p in a.permissions ==>
      NonNegative(ItemsOf(a, a.permissions[p])) && PlainItems(ItemsOf(a, a.permissions[p]))
  }

  lemma AccountOk(e: Env, id: string, items: seq<Item>, threshold: int)
    requires IsActive(e, id, items, threshold) && (items == [B, C] || items == [D] || items == [SIGNER])
    ensures PermissionsOk(e.accounts[id])
  {
    ItemsOk(items);
  }

  lemma DiamondOk(e: Env)
    requires Diamond(e)
    ensures WeightsOk(e) && Plain(e)
  {
    AccountsOk(e);
    assert forall id :: id in e.accounts ==> PermissionsOk(e.accounts[id]);
  }

  lemma AccountsOk(e: Env)
    requires Diamond(e)
    ensures forall id :: id in e.accounts ==> PermissionsOk(e.accounts[id])
  {
    AccountOk(e, "a", [B, C], 2);
    AccountOk(e, "b", [D], 1);
    AccountOk(e, "c", [D], 1);
    AccountOk(e, "d", [SIGNER], 1);
  }

  // ----- It holds -----

  lemma OneItemWeight(e: Env, n: nat, it: Item)
    ensures WeightIn(e, {}, n, [it]) == if ItemHolds(e, {}, n, it) then it.weight else 0
  {
    assert [it][..0] == [];
  }

  lemma DiamondHolds(e: Env)
    requires Diamond(e)
    ensures Holds(e, {}, "a", "active")
  {
    OneItemWeight(e, 0, SIGNER);
    assert HoldsIn(e, {}, 1, "d", "active");
    OneItemWeight(e, 1, D);
    assert HoldsIn(e, {}, 2, "b", "active") && HoldsIn(e, {}, 2, "c", "active");
    OneItemWeight(e, 2, B);
    assert [B, C][..1] == [B];
    assert WeightIn(e, {}, 2, [B, C]) == 2;
    assert HoldsIn(e, {}, 3, "a", "active");
  }

  // ----- It is refused -----

  /** An account without an owner permission has nothing to fall back on. */
  lemma NoOwner(e: Env, all: set<string>, reenter: set<string>, id: string)
    requires Within(e, all, reenter) && id in e.accounts && e.accounts[id].permissions.Keys == {"active"}
    ensures Key(id, "owner") in all && !Eval(e, all, reenter, id, "owner").0
  {
    assert Key(id, "owner") in Reachable(e);
  }

  lemma ItemIsWithin(e: Env, all: set<string>, id: string, items: seq<Item>, threshold: int)
    requires Reachable(e) <= all && IsActive(e, id, items, threshold)
    ensures ItemsWithin(all, items)
  {
    forall i | 0 <= i < |items|
      ensures Key(items[i].id, items[i].permission) in all
    {
      assert items[i] in ItemsOf(e.accounts[id], e.accounts[id].permissions["active"]);
      assert Key(items[i].id, items[i].permission) in Reachable(e);
    }
  }

  /** A permission of one item is granted just as the item is. */
  lemma OneItemEval(e: Env, all: set<string>, reenter: set<string>, id: string, it: Item)
    requires Within(e, all, reenter) && Key(id, "active") in all && Key(id, "active") !in reenter
    requires IsActive(e, id, [it], 1) && it.weight == 1
    ensures Key(it.id, it.permission) in all
    ensures var item := EvalItem(e, all, reenter + {Key(id, "active")}, it);
            if item.0 then Eval(e, all, reenter, id, "active") == item else !Eval(e, all, reenter, id, "active").0
  {
    var inside := reenter + {Key(id, "active")};
    ItemIsWithin(e, all, id, [it], 1);
    assert [it][0] == it;
    var item := EvalItem(e, all, inside, it);
    assert EvalItems(e, all, inside, [it], 0, 1, 0) == item by {
      assert EvalItems(e, all, item.1, [it], 1, 1, 0) == (false, item.1);
    }
    NoOwner(e, all, item.1, id);
  }

  /** One of the two in the middle is granted exactly if `d` was not entered before. */
  lemma Middle(e: Env, all: set<string>, reenter: set<string>, id: string)
    requires Diamond(e) && Within(e, all, reenter) && id in {"b", "c"}
    requires Key(id, "active") in all && Key(id, "active") !in reenter
    ensures var r := Eval(e, all, reenter, id, "active");
            if Key("d", "active") in reenter then !r.0
            else r == (true, reenter + {Key(id, "active")} + {Key("d", "active")})
  {
    OneItemEval(e, all, reenter, id, D);
    KeyNamesDiffer(id, "d");
    if Key("d", "active") !in reenter {
      OneItemEval(e, all, reenter + {Key(id, "active")}, "d", SIGNER);
    }
  }

  lemma KeyNamesDiffer(id: string, id': string)
    requires '@' !in id && '@' !in id' && id != id'
    ensures Key(id, "active") != Key(id', "active")
  {
    if Key(id, "active") == Key(id', "active") {
      KeyNamesPair(id, "active", id', "active");
    }
  }

  lemma TwoItemsEval(e: Env, all: set<string>, reenter: set<string>)
    requires Within(e, all, reenter) && ItemsWithin(all, [B, C])
    requires Key(B.id, B.permission) in all && Key(C.id, C.permission) in all
    requires !EvalItem(e, all, EvalItem(e, all, reenter, B).1, C).0
    ensures !EvalItems(e, all, reenter, [B, C], 0, 2, 0).0
  {
    var first := EvalItem(e, all, reenter, B);
    var weight := if first.0 then 1 else 0;
    var second := EvalItem(e, all, first.1, C);
    assert [B, C][0] == B && [B, C][1] == C;
    assert !EvalItems(e, all, second.1, [B, C], 2, 2, weight).0;
    assert !EvalItems(e, all, first.1, [B, C], 1, 2, weight).0;
  }

  /** `a` holds and is refused: on the way to `c` the evaluation comes to `d` a second time. */
  lemma DiamondRefused()
    ensures WeightsOk(DIAMOND) && Plain(DIAMOND)
    ensures Holds(DIAMOND, {}, "a", "active") && !Granted(DIAMOND, "a", "active")
  {
    DiamondIs();
    DiamondOk(DIAMOND);
    DiamondHolds(DIAMOND);
    Refused(DIAMOND);
  }

  lemma SecondRefused(e: Env, all: set<string>)
    requires Diamond(e) && Within(e, all, {Key("a", "active")}) && ItemsWithin(all, [B, C])
    requires Key(B.id, B.permission) in all && Key(C.id, C.permission) in all
    ensures !EvalItem(e, all, EvalItem(e, all, {Key("a", "active")}, B).1, C).0
  {
    KeyNamesDiffer("a", "b");
    KeyNamesDiffer("a", "c");
    KeyNamesDiffer("a", "d");
    KeyNamesDiffer("b", "c");
    KeyNamesDiffer("d", "c");
    Middle(e, all, {Key("a", "active")}, "b");
    Middle(e, all, EvalItem(e, all, {Key("a", "active")}, B).1, "c");
  }

  lemma TooLightIsRefused(e: Env, all: set<string>, reenter: set<string>, id: string, items: seq<Item>, threshold: int)
    requires Within(e, all, reenter) && Key(id, "active") in all && IsActive(e, id, items, threshold)
    requires ItemsWithin(all, items) && !EvalItems(e, all, reenter + {Key(id, "active")}, items, 0, threshold, 0).0
    ensures !Eval(e, all, reenter, id, "active").0
  {
    NoOwner(e, all, EvalItems(e, all, reenter + {Key(id, "active")}, items, 0, threshold, 0).1, id);
  }

  lemma Refused(e: Env)
    requires Diamond(e)
    ensures !Granted(e, "a", "active")
  {
    var all := Reachable(e) + {Key("a", "active")};
    ItemIsWithin(e, all, "a", [B, C], 2);
    assert [B, C][0] == B && [B, C][1] == C;
    SecondRefused(e, all);
    TwoItemsEval(e, all, {Key("a", "active")});
    assert {} + {Key("a", "active")} == {Key("a", "active")};
    TooLightIsRefused(e, all, {}, "a", [B, C], 2);
  }

  /** Asked for alone, `b` is granted: from there is one way to `d`. */
  lemma MiddleIsOneWay()
    ensures OneWay(DIAMOND, "b", "active") && Granted(DIAMOND, "b", "active")
  {
    DiamondIs();
    OneWayFromMiddle(DIAMOND);
    Middle(DIAMOND, Reachable(DIAMOND) + {Key("b", "active")}, {}, "b");
  }

  const BELOW_B: set<Pair> := {("b", "active"), ("b", "owner"), ("d", "active"), ("d", "owner")}

  lemma BelowB(e: Env, p: Pair, i: nat)
    requires Diamond(e) && p in BELOW_B
    ensures RefAt(e, p, i) == if p == ("b", "active") && i == 0 then Some(("d", "active"))
                              else if p.1 == "active" && i == 1 then Some((p.0, "owner"))
                              else None
  {
  }

  lemma OneWayFromMiddle(e: Env)
    requires Diamond(e)
    ensures OneWay(e, "b", "active")
  {
    forall p, i: nat | p in BELOW_B {
      BelowB(e, p, i);
    }
    ReferredOnceIsOneWay(e, BELOW_B, "b", "active");
  }
}
