/** What the evaluation of a permission takes from the transaction: for each key only whether it counts as signed. */
module SigningKeys {
  import opened Authority

  ghost predicate SameKeys(e: Env, f: Env) {
    e.accounts == f.accounts && forall key :: Signed(e, key) == Signed(f, key)
  }

  // ----- The evaluation sees nothing else of the keys -----

  lemma {:induction false} SameEval(
    e: Env, f: Env, all: set<string>, reenter: set<string>, id: string, permission: string)
    requires SameKeys(e, f) && Within(e, all, reenter) && Key(id, permission) in all
    ensures Within(f, all, reenter) && Eval(e, all, reenter, id, permission) == Eval(f, all, reenter, id, permission)
    decreases |all - reenter|, 0
  {
    var inside := reenter + {Key(id, permission)};
    if Key(id, permission) !in reenter && id in e.accounts {
      FewerLeft(all, reenter, inside);
      SameWeighed(e, f, all, inside, id, permission);
      var weighed := Weighed(e, all, inside, id, permission);
      if !weighed.0 && Fallback(e, id, permission).Some? {
        FewerLeft(all, inside, weighed.1);
        SameEval(e, f, all, weighed.1, id, Fallback(e, id, permission).value);
      }
    }
  }

  lemma {:induction false} SameWeighed(
    e: Env, f: Env, all: set<string>, reenter: set<string>, id: string, permission: string)
    requires SameKeys(e, f) && Within(e, all, reenter) && id in e.accounts
    ensures Within(f, all, reenter)
    ensures Weighed(e, all, reenter, id, permission) == Weighed(f, all, reenter, id, permission)
    decreases |all - reenter|, 2
  {
    var a := e.accounts[id];
    if permission in a.permissions {
      SameItems(e, f, all, reenter, ItemsAt(e, id, permission), 0, a.permissions[permission].threshold, 0);
    }
  }

  lemma {:induction false} SameItems(
    e: Env, f: Env, all: set<string>, reenter: set<string>, items: seq<Item>, i: nat, threshold: int, weight: int)
    requires SameKeys(e, f) && Within(e, all, reenter) && ItemsWithin(all, items) && i <= |items|
    ensures Within(f, all, reenter)
    ensures EvalItems(e, all, reenter, items, i, threshold, weight) ==
            EvalItems(f, all, reenter, items, i, threshold, weight)
    decreases |all - reenter|, 1, |items| - i
  {
    if i < |items| {
      SameItem(e, f, all, reenter, items[i]);
      var item := EvalItem(e, all, reenter, items[i]);
      var now := weight + if item.0 then items[i].weight else 0;
      FewerLeft(all, reenter, item.1);
      SameItems(e, f, all, item.1, items, i + 1, threshold, now);
    }
  }

  lemma {:induction false} SameItem(e: Env, f: Env, all: set<string>, reenter: set<string>, it: Item)
    requires SameKeys(e, f) && Within(e, all, reenter) && Key(it.id, it.permission) in all
    ensures Within(f, all, reenter) && EvalItem(e, all, reenter, it) == EvalItem(f, all, reenter, it)
    decreases |all - reenter|, 1, 0
  {
    if !it.isKeyPair {
      SameEval(e, f, all, reenter, it.id, it.permission);
    }
  }

  lemma SameGranted(e: Env, f: Env, id: string, permission: string)
    requires SameKeys(e, f)
    ensures Granted(e, id, permission) == Granted(f, id, permission)
  {
    SameEval(e, f, Reachable(e) + {Key(id, permission)}, {}, id, permission);
  }

  // ----- What that means for a transaction -----

  /** Asking for the publisher's permission is asking as if only the keys that published had signed. */
  lemma PublisherIsSubset(e: Env, id: string, permission: string)
    ensures Granted(e.(publisherOnly := true), id, permission) <==>
            Granted(e.(signed := map key | key in e.signed && e.signed[key] >= 2 :: 1, publisherOnly := false), id,
                    permission)
  {
    SameGranted(e.(publisherOnly := true),
                e.(signed := map key | key in e.signed && e.signed[key] >= 2 :: 1, publisherOnly := false), id,
                permission);
  }

  /** Unless the publisher's permission is asked for, it does not matter whether a key signed or published. */
  lemma PublishingSigns(e: Env, key: string, id: string, permission: string)
    requires !e.publisherOnly && key in e.signed && e.signed[key] == 1
    ensures Granted(e.(signed := e.signed[key := 2]), id, permission) == Granted(e, id, permission)
  {
    SameGranted(e.(signed := e.signed[key := 2]), e, id, permission);
  }

  /** A key that neither signed nor published is as good as absent, and so is, for the publisher's permission, one
      that only signed. */
  lemma UnsignedIsAbsent(e: Env, key: string, id: string, permission: string)
    requires key in e.signed && e.signed[key] <= (if e.publisherOnly then 1 else 0)
    ensures Granted(e.(signed := e.signed - {key}), id, permission) == Granted(e, id, permission)
  {
    SameGranted(e.(signed := e.signed - {key}), e, id, permission);
  }

  // ----- The items of a permission -----

  /** The items of a permission are its own and those of the groups it names, as far as the account has them. */
  lemma ItemsAre(a: Account, p: Permission, it: Item)
    ensures it in ItemsOf(a, p) <==> it in p.items || exists g :: g in p.groups && g in a.groups && it in a.groups[g]
  {
    GroupItemsAre(a, p.groups, it);
  }

  lemma {:induction false} GroupItemsAre(a: Account, groups: seq<string>, it: Item)
    ensures it in GroupItems(a, groups) <==> exists g :: g in groups && g in a.groups && it in a.groups[g]
  {
    if groups != [] {
      var last := |groups| - 1;
      assert groups == groups[..last] + [groups[last]];
      GroupItemsAre(a, groups[..last], it);
    }
  }
}
