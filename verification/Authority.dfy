/** Evaluating weighted permissions over an account graph that may have cycles. */
module Authority {
  import opened Basics

  datatype Item = Item(id: string, permission: string, isKeyPair: bool, weight: int)
  datatype Permission = Permission(items: seq<Item>, groups: seq<string>, threshold: int)
  datatype Account = Account(groups: map<string, seq<Item>>, permissions: map<string, Permission>)

  /** The stored accounts, and for each signing key whether it signed the transaction (1) or published it (2). */
  datatype Env = Env(accounts: map<string, Account>, signed: map<string, int>, publisherOnly: bool)

  function Key(id: string, permission: string): string {
    id + "@" + permission
  }

  function GroupItems(a: Account, groups: seq<string>): seq<Item> {
    if groups == [] then []
    else
      var last := |groups| - 1;
      GroupItems(a, groups[..last]) + if groups[last] in a.groups then a.groups[groups[last]] else []
  }

  /** The items of a permission: its own, then those of its groups. */
  function ItemsOf(a: Account, p: Permission): seq<Item> {
    p.items + GroupItems(a, p.groups)
  }

  predicate Signed(e: Env, key: string) {
    key in e.signed && e.signed[key] > if e.publisherOnly then 1 else 0
  }

  // ----- What a permission means -----

  /** The permission holds by a derivation of at most `n` steps that uses no pair of `avoid`: enough weight of
      items that hold, or one of the pairs it falls back on. */
  ghost predicate HoldsIn(e: Env, avoid: set<string>, n: nat, id: string, permission: string)
    decreases n, 0
  {
    n > 0 && Key(id, permission) !in avoid && Follows(e, avoid, n - 1, id, permission)
  }

  ghost predicate Follows(e: Env, avoid: set<string>, n: nat, id: string, permission: string)
    decreases n, 3
  {
    && id in e.accounts
    && var a := e.accounts[id];
       || (permission in a.permissions
           && WeightIn(e, avoid, n, ItemsOf(a, a.permissions[permission])) >= a.permissions[permission].threshold)
       || FallsBack(e, avoid, n, id, permission)
  }

  /** Any permission falls back on "active"; that itself, if there is one, on "owner". */
  ghost predicate FallsBack(e: Env, avoid: set<string>, n: nat, id: string, permission: string)
    requires id in e.accounts
    decreases n, 2
  {
    if permission == "owner" then false
    else if permission == "active" then
      permission in e.accounts[id].permissions && HoldsIn(e, avoid, n, id, "owner")
    else HoldsIn(e, avoid, n, id, "active")
  }

  ghost predicate ItemHolds(e: Env, avoid: set<string>, n: nat, it: Item)
    decreases n, 1
  {
    if it.isKeyPair then Signed(e, it.id) else HoldsIn(e, avoid, n, it.id, it.permission)
  }

  ghost function WeightIn(e: Env, avoid: set<string>, n: nat, items: seq<Item>): int
    decreases n, 2, |items|
  {
    if items == [] then 0
    else
      var last := |items| - 1;
      WeightIn(e, avoid, n, items[..last]) + if ItemHolds(e, avoid, n, items[last]) then items[last].weight else 0
  }

  /** The least solution of the rules: some derivation shows the permission. */
  ghost predicate Holds(e: Env, avoid: set<string>, id: string, permission: string) {
    exists n: nat :: HoldsIn(e, avoid, n, id, permission)
  }

  ghost predicate NonNegative(items: seq<Item>) {
    forall i :: 0 <= i < |items| ==> items[i].weight >= 0
  }

  ghost predicate WeightsOk(e: Env) {
    forall id, p :: id in e.accounts && p in e.accounts[id].permissions ==>
      NonNegative(ItemsOf(e.accounts[id], e.accounts[id].permissions[p]))
  }

  /** Longer derivations and fewer forbidden pairs show no less. */
  lemma {:induction false} HoldsMore(
    e: Env, less: set<string>, more: set<string>, n: nat, m: nat, id: string, permission: string)
    requires WeightsOk(e) && less <= more && n <= m && HoldsIn(e, more, n, id, permission)
    ensures HoldsIn(e, less, m, id, permission)
    decreases n, 0
  {
    FollowsMore(e, less, more, n - 1, m - 1, id, permission);
  }

  lemma {:induction false} FollowsMore(
    e: Env, less: set<string>, more: set<string>, n: nat, m: nat, id: string, permission: string)
    requires WeightsOk(e) && less <= more && n <= m && Follows(e, more, n, id, permission)
    ensures Follows(e, less, m, id, permission)
    decreases n, 3
  {
    var a := e.accounts[id];
    if permission in a.permissions {
      WeightMore(e, less, more, n, m, ItemsOf(a, a.permissions[permission]));
    }
    if permission != "active" && HoldsIn(e, more, n, id, "active") {
      HoldsMore(e, less, more, n, m, id, "active");
    }
    if permission == "active" && HoldsIn(e, more, n, id, "owner") {
      HoldsMore(e, less, more, n, m, id, "owner");
    }
  }

  lemma {:induction false} WeightMore(
    e: Env, less: set<string>, more: set<string>, n: nat, m: nat, items: seq<Item>)
    requires WeightsOk(e) && less <= more && n <= m && NonNegative(items)
    ensures WeightIn(e, more, n, items) <= WeightIn(e, less, m, items)
    decreases n, 2, |items|
  {
    if items != [] {
      var it := items[|items| - 1];
      WeightMore(e, less, more, n, m, items[..|items| - 1]);
      if !it.isKeyPair && HoldsIn(e, more, n, it.id, it.permission) {
        HoldsMore(e, less, more, n, m, it.id, it.permission);
      }
    }
  }

  // ----- A shortest derivation does not use what it shows -----

  ghost predicate PlainItems(items: seq<Item>) {
    forall i :: 0 <= i < |items| ==> items[i].isKeyPair || '@' !in items[i].id
  }

  /** No account name has an '@', so a key names one pair only. */
  ghost predicate Plain(e: Env) {
    && (forall id :: id in e.accounts ==> '@' !in id)
    && (forall id, p :: id in e.accounts && p in e.accounts[id].permissions ==>
          PlainItems(ItemsOf(e.accounts[id], e.accounts[id].permissions[p])))
  }

  lemma KeyNamesPair(id: string, p: string, id': string, p': string)
    requires '@' !in id && '@' !in id' && Key(id, p) == Key(id', p')
    ensures id == id' && p == p'
  {
    NameEndsAtSign(id, p, id', p');
    NameEndsAtSign(id', p', id, p);
    var k := Key(id, p);
    assert k[..|id|] == id && k[|id| + 1..] == p;
    var k' := Key(id', p');
    assert k'[..|id'|] == id' && k'[|id'| + 1..] == p';
  }

  lemma NameEndsAtSign(id: string, p: string, id': string, p': string)
    requires '@' !in id && Key(id, p) == Key(id', p')
    ensures |id| <= |id'|
  {
    assert Key(id', p')[|id'|] == '@';
    assert forall i :: 0 <= i < |id| ==> Key(id, p)[i] == id[i];
  }

  /** What is shown in at most `m` steps does not use a pair that `n >= m` steps do not show. */
  lemma {:induction false} AvoidsUnshown(
    e: Env, avoid: set<string>, n: nat, id: string, permission: string, m: nat, id': string, permission': string)
    requires Plain(e) && WeightsOk(e) && '@' !in id && '@' !in id'
    requires !HoldsIn(e, avoid, n, id, permission) && m <= n && HoldsIn(e, avoid, m, id', permission')
    ensures HoldsIn(e, avoid + {Key(id, permission)}, m, id', permission')
    decreases m, 0
  {
    if Key(id', permission') == Key(id, permission) {
      KeyNamesPair(id', permission', id, permission);
      HoldsMore(e, avoid, avoid, m, n, id, permission);
    } else {
      FollowsUnshown(e, avoid, n, id, permission, m - 1, id', permission');
    }
  }

  lemma {:induction false} FollowsUnshown(
    e: Env, avoid: set<string>, n: nat, id: string, permission: string, m: nat, id': string, permission': string)
    requires Plain(e) && WeightsOk(e) && '@' !in id && '@' !in id'
    requires !HoldsIn(e, avoid, n, id, permission) && m <= n && Follows(e, avoid, m, id', permission')
    ensures Follows(e, avoid + {Key(id, permission)}, m, id', permission')
    decreases m, 3
  {
    var a := e.accounts[id'];
    if permission' in a.permissions {
      WeightUnshown(e, avoid, n, id, permission, m, ItemsOf(a, a.permissions[permission']));
    }
    if permission' != "active" && HoldsIn(e, avoid, m, id', "active") {
      AvoidsUnshown(e, avoid, n, id, permission, m, id', "active");
    }
    if permission' == "active" && HoldsIn(e, avoid, m, id', "owner") {
      AvoidsUnshown(e, avoid, n, id, permission, m, id', "owner");
    }
  }

  lemma {:induction false} WeightUnshown(
    e: Env, avoid: set<string>, n: nat, id: string, permission: string, m: nat, items: seq<Item>)
    requires Plain(e) && WeightsOk(e) && '@' !in id && PlainItems(items) && NonNegative(items)
    requires !HoldsIn(e, avoid, n, id, permission) && m <= n
    ensures WeightIn(e, avoid, m, items) <= WeightIn(e, avoid + {Key(id, permission)}, m, items)
    decreases m, 2, |items|
  {
    if items != [] {
      var it := items[|items| - 1];
      WeightUnshown(e, avoid, n, id, permission, m, items[..|items| - 1]);
      if !it.isKeyPair && HoldsIn(e, avoid, m, it.id, it.permission) {
        AvoidsUnshown(e, avoid, n, id, permission, m, it.id, it.permission);
      }
    }
  }

  /** A pair holds just when its rule applies to what holds without it. */
  lemma {:induction false} HoldsIffFollows(e: Env, avoid: set<string>, id: string, permission: string)
    requires WeightsOk(e) && Key(id, permission) !in avoid
    ensures CanFollow(e, avoid + {Key(id, permission)}, id, permission) ==> Holds(e, avoid, id, permission)
    ensures Plain(e) && '@' !in id && Holds(e, avoid, id, permission) ==>
              CanFollow(e, avoid + {Key(id, permission)}, id, permission)
  {
    var inside := avoid + {Key(id, permission)};
    if n: nat :| Follows(e, inside, n, id, permission) {
      FollowsMore(e, avoid, inside, n, n, id, permission);
      assert HoldsIn(e, avoid, n + 1, id, permission);
    }
    if Plain(e) && '@' !in id && Holds(e, avoid, id, permission) {
      var n: nat :| HoldsIn(e, avoid, n, id, permission);
      var least := ShortestFrom(e, avoid, id, permission, n);
      FollowsUnshown(e, avoid, least - 1, id, permission, least - 1, id, permission);
    }
  }

  /** The length of a shortest derivation. */
  lemma {:induction false} ShortestFrom(e: Env, avoid: set<string>, id: string, permission: string, n: nat)
    returns (least: nat)
    requires HoldsIn(e, avoid, n, id, permission)
    ensures 0 < least && HoldsIn(e, avoid, least, id, permission) && !HoldsIn(e, avoid, least - 1, id, permission)
    decreases n
  {
    if HoldsIn(e, avoid, n - 1, id, permission) {
      least := ShortestFrom(e, avoid, id, permission, n - 1);
    } else {
      least := n;
    }
  }

  // ----- Evaluation -----

  /** All pairs that evaluating can come to, beside the one asked for. */
  ghost function Reachable(e: Env): set<string> {
    (set id | id in e.accounts :: Key(id, "active")) + (set id | id in e.accounts :: Key(id, "owner")) +
    (set id, p, it | id in e.accounts && p in e.accounts[id].permissions
                     && it in ItemsOf(e.accounts[id], e.accounts[id].permissions[p]) :: Key(it.id, it.permission))
  }

  lemma FewerLeft(all: set<string>, before: set<string>, after: set<string>)
    requires before <= after
    ensures |all - after| <= |all - before|
    ensures all * (after - before) != {} ==> |all - after| < |all - before|
  {
    assert all - before == (all - after) + all * (after - before);
  }

  /** Derivations show items of at least, or never of more than, the given weight. */
  ghost predicate CanWeigh(e: Env, avoid: set<string>, items: seq<Item>, weight: int) {
    exists n: nat :: WeightIn(e, avoid, n, items) >= weight
  }

  ghost predicate NeverMore(e: Env, avoid: set<string>, items: seq<Item>, weight: int) {
    forall n: nat :: WeightIn(e, avoid, n, items) <= weight
  }

  ghost predicate CanFollow(e: Env, avoid: set<string>, id: string, permission: string) {
    exists n: nat :: Follows(e, avoid, n, id, permission)
  }

  /** The permission an account's permission falls back on. */
  function Fallback(e: Env, id: string, permission: string): Option<string>
    requires id in e.accounts
  {
    if permission == "owner" || (permission == "active" && permission !in e.accounts[id].permissions) then None
    else Some(if permission == "active" then "owner" else "active")
  }

  function ItemsAt(e: Env, id: string, permission: string): seq<Item>
    requires id in e.accounts
  {
    var a := e.accounts[id];
    if permission in a.permissions then ItemsOf(a, a.permissions[permission]) else []
  }

  ghost predicate Within(e: Env, all: set<string>, reenter: set<string>) {
    Reachable(e) <= all && reenter <= all
  }

  ghost predicate ItemsWithin(all: set<string>, items: seq<Item>) {
    forall i :: 0 <= i < |items| ==> Key(items[i].id, items[i].permission) in all
  }

  /** The evaluation as a function: its answer and the pairs entered by then.  `all` bounds the pairs. */
  ghost function Eval(e: Env, all: set<string>, reenter: set<string>, id: string, permission: string)
    : (r: (bool, set<string>))
    requires Within(e, all, reenter) && Key(id, permission) in all
    ensures reenter <= r.1 <= all
    decreases |all - reenter|, 0
  {
    var inside := reenter + {Key(id, permission)};
    if Key(id, permission) in reenter then (false, reenter)
    else if id !in e.accounts then (false, inside)
    else
      FewerLeft(all, reenter, inside);
      var weighed := Weighed(e, all, inside, id, permission);
      if weighed.0 || Fallback(e, id, permission).None? then weighed
      else
        FewerLeft(all, inside, weighed.1);
        Eval(e, all, weighed.1, id, Fallback(e, id, permission).value)
  }

  /** Whether the items of the permission, if there is one, weigh enough. */
  ghost function Weighed(e: Env, all: set<string>, reenter: set<string>, id: string, permission: string)
    : (r: (bool, set<string>))
    requires Within(e, all, reenter) && id in e.accounts
    ensures reenter <= r.1 <= all
    decreases |all - reenter|, 2
  {
    var a := e.accounts[id];
    if permission !in a.permissions then (false, reenter)
    else EvalItems(e, all, reenter, ItemsAt(e, id, permission), 0, a.permissions[permission].threshold, 0)
  }

  /** The same from item `i` on, with `weight` counted so far. */
  ghost function EvalItems(
    e: Env, all: set<string>, reenter: set<string>, items: seq<Item>, i: nat, threshold: int, weight: int)
    : (r: (bool, set<string>))
    requires Within(e, all, reenter) && ItemsWithin(all, items) && i <= |items|
    ensures reenter <= r.1 <= all
    decreases |all - reenter|, 1, |items| - i
  {
    if i == |items| then (weight >= threshold, reenter)
    else
      var item := EvalItem(e, all, reenter, items[i]);
      var now := weight + if item.0 then items[i].weight else 0;
      if item.0 && now >= threshold then (true, item.1)
      else
        FewerLeft(all, reenter, item.1);
        EvalItems(e, all, item.1, items, i + 1, threshold, now)
  }

  ghost function EvalItem(e: Env, all: set<string>, reenter: set<string>, it: Item): (r: (bool, set<string>))
    requires Within(e, all, reenter) && Key(it.id, it.permission) in all
    ensures reenter <= r.1 <= all
    decreases |all - reenter|, 1, 0
  {
    if it.isKeyPair then (Signed(e, it.id), reenter) else Eval(e, all, reenter, it.id, it.permission)
  }

  /** What the evaluation answers when it is started. */
  ghost predicate Granted(e: Env, id: string, permission: string) {
    Eval(e, Reachable(e) + {Key(id, permission)}, {}, id, permission).0
  }

  class Evaluation {
    const e: Env
    var reenter: set<string>

    constructor (e: Env)
      ensures this.e == e && reenter == {}
    {
      this.e := e;
      reenter := {};
    }

    method Auth(id: string, permission: string, ghost all: set<string>) returns (ok: bool)
      requires Within(e, all, reenter) && Key(id, permission) in all
      modifies this
      ensures (ok, reenter) == Eval(e, all, old(reenter), id, permission)
      ensures ok && WeightsOk(e) ==> forall stack :: stack <= old(reenter) ==> Holds(e, stack, id, permission)
      decreases |all - reenter|, 0
    {
      EvalHolds(e, all, reenter, id, permission);
      var key := Key(id, permission);
      if key in reenter {
        return false;
      }
      reenter := reenter + {key};
      FewerLeft(all, old(reenter), reenter);
      if id !in e.accounts {
        return false;
      }
      var a := e.accounts[id];
      var enough := false;
      if permission in a.permissions {
        var p := a.permissions[permission];
        enough := WeighItems(ItemsOf(a, p), p.threshold, all);
      } else if permission == "owner" || permission == "active" {
        return false;
      }
      if enough {
        ok := true;
      } else if permission == "owner" {
        ok := false;
      } else {
        FewerLeft(all, old(reenter), reenter);
        ok := Auth(id, if permission == "active" then "owner" else "active", all);
      }
    }

    /** Adds up the weights of the items that hold until they are enough. */
    method WeighItems(items: seq<Item>, threshold: int, ghost all: set<string>) returns (enough: bool)
      requires Within(e, all, reenter) && ItemsWithin(all, items)
      modifies this
      ensures (enough, reenter) == EvalItems(e, all, old(reenter), items, 0, threshold, 0)
      decreases |all - reenter|, 1
    {
      var weight := 0;
      for i := 0 to |items|
        invariant old(reenter) <= reenter <= all
        invariant EvalItems(e, all, old(reenter), items, 0, threshold, 0) ==
                  EvalItems(e, all, reenter, items, i, threshold, weight)
      {
        var holds;
        if items[i].isKeyPair {
          holds := Signed(e, items[i].id);
        } else {
          FewerLeft(all, old(reenter), reenter);
          holds := Auth(items[i].id, items[i].permission, all);
        }
        if holds {
          weight := weight + items[i].weight;
          if weight >= threshold {
            return true;
          }
        }
      }
      enough := weight >= threshold;
    }

    /** The evaluation ends, whatever the graph.  It grants only permissions that hold, and all of them if there
        are no two ways to one pair. */
    method RequireAuth(id: string, permission: string) returns (ok: bool)
      requires WeightsOk(e)
      modifies this
      ensures ok <==> Granted(e, id, permission)
      ensures ok ==> Holds(e, {}, id, permission)
      ensures Plain(e) && '@' !in id && OneWay(e, id, permission) ==> (ok <==> Holds(e, {}, id, permission))
    {
      reenter := {};
      ok := Auth(id, permission, Reachable(e) + {Key(id, permission)});
      GrantedHolds(e, id, permission);
      if Plain(e) && '@' !in id && OneWay(e, id, permission) {
        HoldsIsGranted(e, id, permission);
      }
    }
  }

  // ----- What is granted holds -----

  lemma {:induction false} EvalSound(
    e: Env, all: set<string>, stack: set<string>, reenter: set<string>, id: string, permission: string)
    requires WeightsOk(e) && Within(e, all, reenter) && Key(id, permission) in all && stack <= reenter
    ensures Eval(e, all, reenter, id, permission).0 ==> Holds(e, stack, id, permission)
    decreases |all - reenter|, 0
  {
    var key := Key(id, permission);
    if key !in reenter && id in e.accounts {
      var into, inside := reenter + {key}, stack + {key};
      var items := ItemsAt(e, id, permission);
      FewerLeft(all, reenter, into);
      HoldsIffFollows(e, stack, id, permission);
      var weighed := Weighed(e, all, into, id, permission);
      if permission in e.accounts[id].permissions {
        NothingWeighed(e, inside, items);
        ItemsSound(e, all, inside, into, items, 0, e.accounts[id].permissions[permission].threshold, 0);
        WeightDecides(e, inside, id, permission);
      }
      if !weighed.0 && Fallback(e, id, permission).Some? {
        FewerLeft(all, into, weighed.1);
        EvalSound(e, all, inside, weighed.1, id, Fallback(e, id, permission).value);
        FallbackIs(e, inside, id, permission);
      }
    }
  }

  lemma {:induction false} ItemsSound(e: Env, all: set<string>, inside: set<string>, reenter: set<string>,
                                      items: seq<Item>, i: nat, threshold: int, weight: int)
    requires WeightsOk(e) && Within(e, all, reenter) && ItemsWithin(all, items) && inside <= reenter
    requires NonNegative(items) && i <= |items| && CanWeigh(e, inside, items[..i], weight)
    ensures EvalItems(e, all, reenter, items, i, threshold, weight).0 ==> CanWeigh(e, inside, items, threshold)
    decreases |all - reenter|, 1, |items| - i
  {
    if i == |items| {
      if weight >= threshold {
        PrefixCanWeigh(e, inside, items, i, weight, threshold);
      }
    } else {
      var item := EvalItem(e, all, reenter, items[i]);
      var now := weight + if item.0 then items[i].weight else 0;
      ItemSound(e, all, inside, reenter, items, i, weight);
      if item.0 && now >= threshold {
        PrefixCanWeigh(e, inside, items, i + 1, now, threshold);
      } else {
        FewerLeft(all, reenter, item.1);
        ItemsSound(e, all, inside, item.1, items, i + 1, threshold, now);
      }
    }
  }

  lemma {:induction false} ItemSound(e: Env, all: set<string>, inside: set<string>, reenter: set<string>,
                                     items: seq<Item>, i: nat, weight: int)
    requires WeightsOk(e) && Within(e, all, reenter) && ItemsWithin(all, items) && inside <= reenter
    requires NonNegative(items) && i < |items| && CanWeigh(e, inside, items[..i], weight)
    ensures var holds := EvalItem(e, all, reenter, items[i]).0;
            CanWeigh(e, inside, items[..i + 1], weight + if holds then items[i].weight else 0)
    decreases |all - reenter|, 1, 0
  {
    if !items[i].isKeyPair {
      EvalSound(e, all, inside, reenter, items[i].id, items[i].permission);
    }
    ItemCounts(e, inside, items, i, weight, EvalItem(e, all, reenter, items[i]).0);
  }

  /** Whatever pairs are under evaluation, what is granted has a derivation that uses none of them. */
  lemma EvalHolds(e: Env, all: set<string>, reenter: set<string>, id: string, permission: string)
    requires Within(e, all, reenter) && Key(id, permission) in all
    ensures Eval(e, all, reenter, id, permission).0 && WeightsOk(e) ==>
              forall stack :: stack <= reenter ==> Holds(e, stack, id, permission)
  {
    if WeightsOk(e) {
      forall stack | stack <= reenter {
        EvalSound(e, all, stack, reenter, id, permission);
      }
    }
  }

  lemma GrantedHolds(e: Env, id: string, permission: string)
    requires WeightsOk(e)
    ensures Granted(e, id, permission) ==> Holds(e, {}, id, permission)
  {
    EvalSound(e, Reachable(e) + {Key(id, permission)}, {}, {}, id, permission);
  }

  // ----- What holds is granted, if there is one way to each pair -----

  type Pair = (string, string)

  /** The pair that position `i` of a pair's permission refers to: one of its items or, after them, its fallback. */
  function RefAt(e: Env, p: Pair, i: nat): Option<Pair> {
    if p.0 !in e.accounts then None
    else
      var items := ItemsAt(e, p.0, p.1);
      if i < |items| then if items[i].isKeyPair then None else Some((items[i].id, items[i].permission))
      else if i > |items| || Fallback(e, p.0, p.1).None? then None
      else Some((p.0, Fallback(e, p.0, p.1).value))
  }

  /** Where a path of positions leads. */
  function End(e: Env, from: Pair, path: seq<nat>): Option<Pair> {
    if path == [] then Some(from)
    else
      var last := |path| - 1;
      match End(e, from, path[..last])
      case None => None
      case Some(p) => RefAt(e, p, path[last])
  }

  /** The path leads somewhere and comes to no pair twice. */
  ghost predicate Simple(e: Env, from: Pair, path: seq<nat>) {
    && End(e, from, path).Some?
    && (forall i, j :: 0 <= i < j <= |path| ==> End(e, from, path[..i]) != End(e, from, path[..j]))
  }

  /** Two paths that come to no pair twice lead to different pairs. */
  ghost predicate OneWay(e: Env, id: string, permission: string) {
    forall p, q :: Simple(e, (id, permission), p) && Simple(e, (id, permission), q) && p != q ==>
      End(e, (id, permission), p) != End(e, (id, permission), q)
  }

  function PairKey(p: Pair): string {
    Key(p.0, p.1)
  }

  /** `q` leaves `path` towards an earlier position. */
  ghost predicate Earlier(q: seq<nat>, path: seq<nat>) {
    exists m :: 0 <= m < |q| && m < |path| && q[..m] == path[..m] && q[m] < path[m]
  }

  ghost predicate UpTo(q: seq<nat>, path: seq<nat>) {
    Earlier(q, path) || path <= q
  }

  lemma EarlierBelow(q: seq<nat>, path: seq<nat>, i: nat)
    requires Earlier(q, path)
    ensures Earlier(q, path + [i])
  {
    var m :| 0 <= m < |q| && m < |path| && q[..m] == path[..m] && q[m] < path[m];
    assert (path + [i])[..m] == path[..m];
  }

  lemma UpToNext(q: seq<nat>, path: seq<nat>, i: nat)
    requires UpTo(q, path + [i])
    ensures Earlier(q, path + [i + 1]) && UpTo(q, path)
  {
    var here, next, n := path + [i], path + [i + 1], |path|;
    assert here[..n] == path && next[..n] == path;
    if here <= q {
      assert q[..n] == path && q[n] == i;
    } else {
      var m :| 0 <= m < |q| && m < |here| && q[..m] == here[..m] && q[m] < here[m];
      assert here[..m] == next[..m];
      if m < n {
        assert here[..m] == path[..m];
      }
    }
  }

  lemma EarlierDiffers(q: seq<nat>, path: seq<nat>)
    requires Earlier(q, path)
    ensures q != path
  {
  }

  ghost predicate Leads(e: Env, from: Pair, q: seq<nat>, key: string) {
    Simple(e, from, q) && PairKey(End(e, from, q).value) == key
  }

  ghost predicate FoundEarlier(e: Env, from: Pair, path: seq<nat>, key: string) {
    exists q :: Leads(e, from, q, key) && Earlier(q, path)
  }

  ghost predicate FoundUpTo(e: Env, from: Pair, path: seq<nat>, key: string) {
    exists q :: Leads(e, from, q, key) && UpTo(q, path)
  }

  /** The finished pairs were entered on earlier paths. */
  ghost predicate Explored(e: Env, from: Pair, path: seq<nat>, stack: set<string>, reenter: set<string>) {
    forall k :: k in reenter - stack ==> FoundEarlier(e, from, path, k)
  }

  ghost predicate ExploredUpTo(e: Env, from: Pair, path: seq<nat>, stack: set<string>, reenter: set<string>) {
    forall k :: k in reenter - stack ==> FoundUpTo(e, from, path, k)
  }

  lemma ExploredIsUpTo(e: Env, from: Pair, path: seq<nat>, stack: set<string>, reenter: set<string>)
    requires Explored(e, from, path, stack, reenter)
    ensures ExploredUpTo(e, from, path, stack, reenter)
  {
    forall k | k in reenter - stack
      ensures FoundUpTo(e, from, path, k)
    {
      assert FoundEarlier(e, from, path, k);
      var q :| Leads(e, from, q, k) && Earlier(q, path);
      assert UpTo(q, path);
    }
  }

  lemma ExploredBelow(e: Env, from: Pair, path: seq<nat>, stack: set<string>, reenter: set<string>, key: string, i: nat)
    requires Explored(e, from, path, stack, reenter)
    ensures Explored(e, from, path + [i], stack + {key}, reenter + {key})
  {
    forall k | k in (reenter + {key}) - (stack + {key})
      ensures FoundEarlier(e, from, path + [i], k)
    {
      assert k in reenter - stack;
      var q :| Leads(e, from, q, k) && Earlier(q, path);
      EarlierBelow(q, path, i);
    }
  }

  lemma ExploredNext(e: Env, from: Pair, path: seq<nat>, inside: set<string>, reenter: set<string>, i: nat)
    requires ExploredUpTo(e, from, path + [i], inside, reenter)
    ensures Explored(e, from, path + [i + 1], inside, reenter) && ExploredUpTo(e, from, path, inside, reenter)
  {
    forall k | k in reenter - inside
      ensures FoundEarlier(e, from, path + [i + 1], k) && FoundUpTo(e, from, path, k)
    {
      assert FoundUpTo(e, from, path + [i], k);
      var q :| Leads(e, from, q, k) && UpTo(q, path + [i]);
      UpToNext(q, path, i);
    }
  }

  lemma ExploredAbove(e: Env, from: Pair, path: seq<nat>, stack: set<string>, reenter: set<string>, key: string)
    requires ExploredUpTo(e, from, path, stack + {key}, reenter) && Leads(e, from, path, key)
    ensures ExploredUpTo(e, from, path, stack, reenter)
  {
    forall k | k in reenter - stack
      ensures FoundUpTo(e, from, path, k)
    {
      if k == key {
        assert UpTo(path, path);
      } else {
        assert k in reenter - (stack + {key});
      }
    }
  }

  ghost predicate Passed(e: Env, from: Pair, q: seq<nat>, stack: set<string>) {
    End(e, from, q).Some? && PairKey(End(e, from, q).value) in stack
  }

  /** The evaluation came to `p` on `path`; the pairs on the way are on the stack. */
  ghost predicate Arrived(e: Env, from: Pair, path: seq<nat>, stack: set<string>, p: Pair) {
    && End(e, from, path) == Some(p) && '@' !in p.0
    && (path != [] ==> Simple(e, from, path[..|path| - 1]))
    && (forall i :: 0 <= i < |path| ==> Passed(e, from, path[..i], stack))
  }

  lemma ArrivedSimple(e: Env, from: Pair, path: seq<nat>, stack: set<string>, p: Pair)
    requires Arrived(e, from, path, stack, p) && PairKey(p) !in stack
    ensures Simple(e, from, path)
  {
    forall i, j | 0 <= i < j <= |path|
      ensures End(e, from, path[..i]) != End(e, from, path[..j])
    {
      assert Passed(e, from, path[..i], stack);
      if j == |path| {
        assert path[..j] == path;
      } else {
        var shorter := path[..|path| - 1];
        assert shorter[..i] == path[..i] && shorter[..j] == path[..j];
      }
    }
  }

  lemma ArrivedBelow(e: Env, from: Pair, path: seq<nat>, stack: set<string>, p: Pair, i: nat)
    requires Plain(e) && Arrived(e, from, path, stack, p) && PairKey(p) !in stack && RefAt(e, p, i).Some?
    ensures Arrived(e, from, path + [i], stack + {PairKey(p)}, RefAt(e, p, i).value)
  {
    ArrivedSimple(e, from, path, stack, p);
    var below := path + [i];
    assert below[..|path|] == path;
    forall j | 0 <= j < |below|
      ensures Passed(e, from, below[..j], stack + {PairKey(p)})
    {
      assert below[..j] == path[..j];
      if j < |path| {
        assert Passed(e, from, path[..j], stack);
      } else {
        assert path[..j] == path;
      }
    }
    RefPlain(e, p, i);
  }

  lemma RefPlain(e: Env, p: Pair, i: nat)
    requires Plain(e) && RefAt(e, p, i).Some?
    ensures '@' !in RefAt(e, p, i).value.0
  {
    if p.1 in e.accounts[p.0].permissions {
      assert PlainItems(ItemsOf(e.accounts[p.0], e.accounts[p.0].permissions[p.1]));
    }
  }

  /** A finished pair is not asked for again. */
  lemma NotAgain(e: Env, from: Pair, path: seq<nat>, stack: set<string>, reenter: set<string>, p: Pair)
    requires Plain(e) && '@' !in from.0 && OneWay(e, from.0, from.1) && Arrived(e, from, path, stack, p)
    requires Explored(e, from, path, stack, reenter) && PairKey(p) in reenter
    ensures PairKey(p) in stack
  {
    if PairKey(p) !in stack {
      ArrivedSimple(e, from, path, stack, p);
      assert FoundEarlier(e, from, path, PairKey(p));
      var q :| Leads(e, from, q, PairKey(p)) && Earlier(q, path);
      EarlierDiffers(q, path);
      var p' := End(e, from, q).value;
      EndPlain(e, from, q);
      KeyNamesPair(p.0, p.1, p'.0, p'.1);
    }
  }

  lemma {:induction false} EndPlain(e: Env, from: Pair, path: seq<nat>)
    requires Plain(e) && '@' !in from.0 && End(e, from, path).Some?
    ensures '@' !in End(e, from, path).value.0
  {
    if path != [] {
      RefPlain(e, End(e, from, path[..|path| - 1]).value, path[|path| - 1]);
    }
  }

  /** What is refused does not hold, if there is one way to each pair. */
  lemma {:induction false} EvalComplete(e: Env, all: set<string>, from: Pair, path: seq<nat>, stack: set<string>,
                                        reenter: set<string>, p: Pair)
    requires WeightsOk(e) && Plain(e) && '@' !in from.0 && OneWay(e, from.0, from.1)
    requires Within(e, all, reenter) && PairKey(p) in all && stack <= reenter
    requires Arrived(e, from, path, stack, p) && Explored(e, from, path, stack, reenter)
    ensures ExploredUpTo(e, from, path, stack, Eval(e, all, reenter, p.0, p.1).1)
    ensures !Eval(e, all, reenter, p.0, p.1).0 ==> !Holds(e, stack, p.0, p.1)
    decreases |all - reenter|, 0
  {
    var key := PairKey(p);
    if key in reenter {
      NotAgain(e, from, path, stack, reenter, p);
      HeldUp(e, stack, p.0, p.1);
      ExploredIsUpTo(e, from, path, stack, reenter);
    } else {
      ArrivedSimple(e, from, path, stack, p);
      FewerLeft(all, reenter, reenter + {key});
      EnteredComplete(e, all, from, path, stack, reenter, p);
      ExploredAbove(e, from, path, stack, Eval(e, all, reenter, p.0, p.1).1, key);
    }
  }

  /** The pair was not entered before. */
  lemma {:induction false} EnteredComplete(e: Env, all: set<string>, from: Pair, path: seq<nat>, stack: set<string>,
                                           reenter: set<string>, p: Pair)
    requires WeightsOk(e) && Plain(e) && '@' !in from.0 && OneWay(e, from.0, from.1)
    requires Within(e, all, reenter) && PairKey(p) in all && PairKey(p) !in reenter && stack <= reenter
    requires Arrived(e, from, path, stack, p) && Explored(e, from, path, stack, reenter)
    ensures ExploredUpTo(e, from, path, stack + {PairKey(p)}, Eval(e, all, reenter, p.0, p.1).1)
    ensures !Eval(e, all, reenter, p.0, p.1).0 ==> !Holds(e, stack, p.0, p.1)
    decreases |all - (reenter + {PairKey(p)})|, 4
  {
    var key := PairKey(p);
    var into, inside := reenter + {key}, stack + {key};
    ExploredBelow(e, from, path, stack, reenter, key, 0);
    ExploredIsUpTo(e, from, path + [0], inside, into);
    ExploredNext(e, from, path, inside, into, 0);
    assert p.0 !in e.accounts ==> forall n: nat :: !HoldsIn(e, stack, n, p.0, p.1);
    if p.0 in e.accounts {
      var weighed := Weighed(e, all, into, p.0, p.1);
      WeighedComplete(e, all, from, path, stack, into, p);
      if !weighed.0 {
        FewerLeft(all, into, weighed.1);
        FallbackComplete(e, all, from, path, stack, weighed.1, p);
      }
    }
  }

  /** The items weigh too little, and the fallback, if there is one, decides. */
  lemma {:induction false} FallbackComplete(e: Env, all: set<string>, from: Pair, path: seq<nat>, stack: set<string>,
                                            reenter: set<string>, p: Pair)
    requires WeightsOk(e) && Plain(e) && '@' !in from.0 && OneWay(e, from.0, from.1)
    requires Within(e, all, reenter) && stack + {PairKey(p)} <= reenter && PairKey(p) !in stack
    requires Arrived(e, from, path, stack, p) && p.0 in e.accounts && TooLight(e, stack + {PairKey(p)}, p)
    requires Explored(e, from, path + [|ItemsAt(e, p.0, p.1)|], stack + {PairKey(p)}, reenter)
    ensures match Fallback(e, p.0, p.1)
            case None => !Holds(e, stack, p.0, p.1)
            case Some(other) =>
              var r := Eval(e, all, reenter, p.0, other);
              && ExploredUpTo(e, from, path, stack + {PairKey(p)}, r.1)
              && (!r.0 ==> !Holds(e, stack, p.0, p.1))
    decreases |all - reenter|, 1
  {
    var inside, n := stack + {PairKey(p)}, |ItemsAt(e, p.0, p.1)|;
    HoldsIffFollows(e, stack, p.0, p.1);
    match Fallback(e, p.0, p.1)
    case None => NothingFollows(e, inside, p.0, p.1);
    case Some(other) =>
      ArrivedBelow(e, from, path, stack, p, n);
      EvalComplete(e, all, from, path + [n], inside, reenter, (p.0, other));
      ExploredNext(e, from, path, inside, Eval(e, all, reenter, p.0, other).1, n);
      FallbackIs(e, inside, p.0, p.1);
      if !Eval(e, all, reenter, p.0, other).0 {
        NothingFollows(e, inside, p.0, p.1);
      }
  }

  /** By no derivation do the items weigh enough. */
  ghost predicate TooLight(e: Env, inside: set<string>, p: Pair)
    requires p.0 in e.accounts
  {
    var a := e.accounts[p.0];
    p.1 in a.permissions ==> NeverMore(e, inside, ItemsAt(e, p.0, p.1), a.permissions[p.1].threshold - 1)
  }

  lemma {:induction false} WeighedComplete(e: Env, all: set<string>, from: Pair, path: seq<nat>, stack: set<string>,
                                           reenter: set<string>, p: Pair)
    requires WeightsOk(e) && Plain(e) && '@' !in from.0 && OneWay(e, from.0, from.1)
    requires Within(e, all, reenter) && stack + {PairKey(p)} <= reenter && PairKey(p) !in stack
    requires Arrived(e, from, path, stack, p) && p.0 in e.accounts
    requires Explored(e, from, path + [0], stack + {PairKey(p)}, reenter)
    ensures var r := Weighed(e, all, reenter, p.0, p.1);
            && ExploredUpTo(e, from, path, stack + {PairKey(p)}, r.1)
            && (!r.0 ==> Explored(e, from, path + [|ItemsAt(e, p.0, p.1)|], stack + {PairKey(p)}, r.1)
                         && TooLight(e, stack + {PairKey(p)}, p))
    decreases |all - reenter|, 2
  {
    var inside, items := stack + {PairKey(p)}, ItemsAt(e, p.0, p.1);
    if p.1 in e.accounts[p.0].permissions {
      NothingWeighed(e, inside, items);
      ItemsComplete(e, all, from, path, stack, reenter, p, 0, e.accounts[p.0].permissions[p.1].threshold, 0);
    } else {
      ExploredIsUpTo(e, from, path + [0], inside, reenter);
      ExploredNext(e, from, path, inside, reenter, 0);
    }
  }

  lemma {:induction false} ItemsComplete(e: Env, all: set<string>, from: Pair, path: seq<nat>, stack: set<string>,
                                         reenter: set<string>, p: Pair, i: nat, threshold: int, weight: int)
    requires WeightsOk(e) && Plain(e) && '@' !in from.0 && OneWay(e, from.0, from.1)
    requires Within(e, all, reenter) && stack + {PairKey(p)} <= reenter && PairKey(p) !in stack
    requires Arrived(e, from, path, stack, p) && p.0 in e.accounts && p.1 in e.accounts[p.0].permissions
    requires i <= |ItemsAt(e, p.0, p.1)| && Explored(e, from, path + [i], stack + {PairKey(p)}, reenter)
    requires NeverMore(e, stack + {PairKey(p)}, ItemsAt(e, p.0, p.1)[..i], weight)
    ensures var items := ItemsAt(e, p.0, p.1);
            var r := EvalItems(e, all, reenter, items, i, threshold, weight);
            && ExploredUpTo(e, from, path, stack + {PairKey(p)}, r.1)
            && (!r.0 ==> Explored(e, from, path + [|items|], stack + {PairKey(p)}, r.1)
                         && NeverMore(e, stack + {PairKey(p)}, items, threshold - 1))
    decreases |all - reenter|, 1, |ItemsAt(e, p.0, p.1)| - i
  {
    var inside, items := stack + {PairKey(p)}, ItemsAt(e, p.0, p.1);
    if i == |items| {
      assert items[..i] == items;
      ExploredIsUpTo(e, from, path + [i], inside, reenter);
      ExploredNext(e, from, path, inside, reenter, i);
    } else {
      var item := EvalItem(e, all, reenter, items[i]);
      var now := weight + if item.0 then items[i].weight else 0;
      ItemComplete(e, all, from, path, stack, reenter, p, i);
      ItemBounds(e, inside, items, i, weight, item.0);
      FewerLeft(all, reenter, item.1);
      ItemsComplete(e, all, from, path, stack, item.1, p, i + 1, threshold, now);
    }
  }

  lemma {:induction false} ItemComplete(e: Env, all: set<string>, from: Pair, path: seq<nat>, stack: set<string>,
                                        reenter: set<string>, p: Pair, i: nat)
    requires WeightsOk(e) && Plain(e) && '@' !in from.0 && OneWay(e, from.0, from.1)
    requires Within(e, all, reenter) && stack + {PairKey(p)} <= reenter && PairKey(p) !in stack
    requires Arrived(e, from, path, stack, p) && p.0 in e.accounts && p.1 in e.accounts[p.0].permissions
    requires i < |ItemsAt(e, p.0, p.1)| && Explored(e, from, path + [i], stack + {PairKey(p)}, reenter)
    ensures var r := EvalItem(e, all, reenter, ItemsAt(e, p.0, p.1)[i]);
            && Explored(e, from, path + [i + 1], stack + {PairKey(p)}, r.1)
            && ExploredUpTo(e, from, path, stack + {PairKey(p)}, r.1)
            && (!r.0 ==> !ItemCanHold(e, stack + {PairKey(p)}, ItemsAt(e, p.0, p.1)[i]))
    decreases |all - reenter|, 1, 0
  {
    var inside, it := stack + {PairKey(p)}, ItemsAt(e, p.0, p.1)[i];
    if it.isKeyPair {
      ExploredIsUpTo(e, from, path + [i], inside, reenter);
    } else {
      ArrivedBelow(e, from, path, stack, p, i);
      EvalComplete(e, all, from, path + [i], inside, reenter, (it.id, it.permission));
    }
    ExploredNext(e, from, path, inside, EvalItem(e, all, reenter, it).1, i);
  }

  /** Enough for that: the pairs that can be come to are among `within`, and no two positions of theirs refer to
      the same pair. */
  ghost predicate ReferredOnce(e: Env, within: set<Pair>, from: Pair) {
    && from in within
    && (forall p, i: nat :: p in within && RefAt(e, p, i).Some? ==> RefAt(e, p, i).value in within)
    && (forall p, q, i: nat, j: nat :: p in within && q in within && RefAt(e, p, i).Some? && (p != q || i != j) ==>
          RefAt(e, p, i) != RefAt(e, q, j))
  }

  lemma ReferredOnceIsOneWay(e: Env, within: set<Pair>, id: string, permission: string)
    requires ReferredOnce(e, within, (id, permission))
    ensures OneWay(e, id, permission)
  {
    forall p, q | Simple(e, (id, permission), p) && Simple(e, (id, permission), q)
                  && End(e, (id, permission), p) == End(e, (id, permission), q)
      ensures p == q
    {
      SamePath(e, within, (id, permission), p, q);
    }
  }

  lemma {:induction false} SamePath(e: Env, within: set<Pair>, from: Pair, p: seq<nat>, q: seq<nat>)
    requires ReferredOnce(e, within, from)
    requires Simple(e, from, p) && Simple(e, from, q) && End(e, from, p) == End(e, from, q)
    ensures p == q
  {
    assert p[..|p|] == p && q[..|q|] == q;
    if p == [] || q == [] {
      assert q[..0] == [] == p[..0];
    } else {
      var shorter, shorter' := p[..|p| - 1], q[..|q| - 1];
      SimplePrefix(e, from, p);
      SimplePrefix(e, from, q);
      EndWithin(e, within, from, shorter);
      EndWithin(e, within, from, shorter');
      SamePath(e, within, from, shorter, shorter');
      assert p == shorter + [p[|p| - 1]] && q == shorter' + [q[|q| - 1]];
    }
  }

  lemma {:induction false} EndWithin(e: Env, within: set<Pair>, from: Pair, path: seq<nat>)
    requires ReferredOnce(e, within, from) && End(e, from, path).Some?
    ensures End(e, from, path).value in within
  {
    if path != [] {
      EndWithin(e, within, from, path[..|path| - 1]);
    }
  }

  lemma SimplePrefix(e: Env, from: Pair, p: seq<nat>)
    requires Simple(e, from, p) && p != []
    ensures Simple(e, from, p[..|p| - 1])
  {
    var shorter := p[..|p| - 1];
    forall i, j | 0 <= i < j <= |shorter|
      ensures End(e, from, shorter[..i]) != End(e, from, shorter[..j])
    {
      assert shorter[..i] == p[..i] && shorter[..j] == p[..j];
    }
  }

  lemma HoldsIsGranted(e: Env, id: string, permission: string)
    requires WeightsOk(e) && Plain(e) && '@' !in id && OneWay(e, id, permission)
    ensures Holds(e, {}, id, permission) ==> Granted(e, id, permission)
  {
    EvalComplete(e, Reachable(e) + {Key(id, permission)}, (id, permission), [], {}, {}, (id, permission));
  }

  lemma HeldUp(e: Env, stack: set<string>, id: string, permission: string)
    ensures Key(id, permission) in stack ==> !Holds(e, stack, id, permission)
  {
  }

  lemma FallbackIs(e: Env, inside: set<string>, id: string, permission: string)
    requires WeightsOk(e) && id in e.accounts && Fallback(e, id, permission).Some?
    ensures var other := Fallback(e, id, permission).value;
            && (Holds(e, inside, id, other) ==> CanFollow(e, inside, id, permission))
            && (!Holds(e, inside, id, other) ==> forall n: nat :: !FallsBack(e, inside, n, id, permission))
  {
    var other := Fallback(e, id, permission).value;
    if Holds(e, inside, id, other) {
      var n: nat :| HoldsIn(e, inside, n, id, other);
      assert Follows(e, inside, n, id, permission);
    }
  }

  lemma WeightDecides(e: Env, inside: set<string>, id: string, permission: string)
    requires id in e.accounts && permission in e.accounts[id].permissions
    ensures var p := e.accounts[id].permissions[permission];
            var items := ItemsOf(e.accounts[id], p);
            && (CanWeigh(e, inside, items, p.threshold) ==> CanFollow(e, inside, id, permission))
            && (NeverMore(e, inside, items, p.threshold - 1) ==>
                  forall n: nat :: Follows(e, inside, n, id, permission) ==> FallsBack(e, inside, n, id, permission))
  {
    var p := e.accounts[id].permissions[permission];
    var items := ItemsOf(e.accounts[id], p);
    if CanWeigh(e, inside, items, p.threshold) {
      var n: nat :| WeightIn(e, inside, n, items) >= p.threshold;
      assert Follows(e, inside, n, id, permission);
    }
  }

  lemma NothingFollows(e: Env, inside: set<string>, id: string, permission: string)
    requires id in e.accounts && forall n: nat :: !FallsBack(e, inside, n, id, permission)
    requires permission in e.accounts[id].permissions ==>
               forall n: nat :: Follows(e, inside, n, id, permission) ==> FallsBack(e, inside, n, id, permission)
    ensures !CanFollow(e, inside, id, permission)
  {
    forall n: nat
      ensures !Follows(e, inside, n, id, permission)
    {
      assert !FallsBack(e, inside, n, id, permission);
    }
  }

  lemma NothingWeighed(e: Env, inside: set<string>, items: seq<Item>)
    ensures CanWeigh(e, inside, items[..0], 0) && NeverMore(e, inside, items[..0], 0)
  {
    assert WeightIn(e, inside, 0, items[..0]) == 0;
  }

  lemma PrefixCanWeigh(e: Env, inside: set<string>, items: seq<Item>, i: nat, weight: int, threshold: int)
    requires NonNegative(items) && i <= |items| && CanWeigh(e, inside, items[..i], weight) && threshold <= weight
    ensures CanWeigh(e, inside, items, threshold)
  {
    var n: nat :| WeightIn(e, inside, n, items[..i]) >= weight;
    assert items[..|items|] == items;
    PrefixWeighsLess(e, inside, n, items, i, |items|);
  }

  lemma {:induction false} PrefixWeighsLess(e: Env, avoid: set<string>, n: nat, items: seq<Item>, i: nat, j: nat)
    requires NonNegative(items) && i <= j <= |items|
    ensures WeightIn(e, avoid, n, items[..i]) <= WeightIn(e, avoid, n, items[..j])
    decreases j
  {
    if i < j {
      PrefixWeighsLess(e, avoid, n, items, i, j - 1);
      assert items[..j][..j - 1] == items[..j - 1];
    }
  }

  /** Whether the item holds by some derivation. */
  ghost predicate ItemCanHold(e: Env, avoid: set<string>, it: Item) {
    if it.isKeyPair then Signed(e, it.id) else Holds(e, avoid, it.id, it.permission)
  }

  lemma WeightStep(e: Env, avoid: set<string>, n: nat, items: seq<Item>, i: nat)
    requires i < |items|
    ensures WeightIn(e, avoid, n, items[..i + 1]) ==
            WeightIn(e, avoid, n, items[..i]) + if ItemHolds(e, avoid, n, items[i]) then items[i].weight else 0
    ensures ItemHolds(e, avoid, n, items[i]) ==> ItemCanHold(e, avoid, items[i])
  {
    assert items[..i + 1][..i] == items[..i];
    if ItemHolds(e, avoid, n, items[i]) && !items[i].isKeyPair {
      assert HoldsIn(e, avoid, n, items[i].id, items[i].permission);
    }
  }

  lemma ItemBounds(e: Env, inside: set<string>, items: seq<Item>, i: nat, weight: int, holds: bool)
    requires i < |items| && NonNegative(items) && NeverMore(e, inside, items[..i], weight)
    requires !holds ==> !ItemCanHold(e, inside, items[i])
    ensures NeverMore(e, inside, items[..i + 1], weight + if holds then items[i].weight else 0)
  {
    var upTo := items[..i + 1];
    forall n: nat
      ensures WeightIn(e, inside, n, upTo) <= weight + if holds then items[i].weight else 0
    {
      WeightStep(e, inside, n, items, i);
      assert WeightIn(e, inside, n, items[..i]) <= weight;
    }
  }

  lemma ItemCounts(e: Env, inside: set<string>, items: seq<Item>, i: nat, weight: int, holds: bool)
    requires WeightsOk(e) && i < |items| && NonNegative(items) && CanWeigh(e, inside, items[..i], weight)
    requires holds ==> ItemCanHold(e, inside, items[i])
    ensures CanWeigh(e, inside, items[..i + 1], weight + if holds then items[i].weight else 0)
  {
    var it := items[i];
    var n: nat :| WeightIn(e, inside, n, items[..i]) >= weight;
    if holds && !it.isKeyPair {
      var m: nat :| HoldsIn(e, inside, m, it.id, it.permission);
      var both := if n < m then m else n;
      HoldsMore(e, inside, inside, m, both, it.id, it.permission);
      WeightMore(e, inside, inside, n, both, items[..i]);
      WeightStep(e, inside, both, items, i);
    } else {
      WeightStep(e, inside, n, items, i);
    }
  }
}
