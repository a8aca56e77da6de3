/** Executing transactions in parallel and keeping a set that behaves as if run one after the other. */
module Batch {
  import opened Basics
  import opened StateDb

  // ----- Transactions -----

  datatype Op = Get(key: string) | Has(key: string) | Put(key: string, value: string) | Del(key: string)
              | Rollback | Stop
  datatype Answer = Value(value: string) | Truth(b: bool) | Done

  /** A deterministic program: what it does next depends on the answers so far.  It is run for `steps`
      steps, and its execution counts as an error if `fails` says so of the answers. */
  datatype Tx = Tx(next: seq<Answer> -> Op, steps: nat, fails: seq<Answer> -> bool)

  datatype Exec = Exec(cache: Cache, access: Accesses, answers: seq<Answer>)

  function StepOn(store: Store, op: Op, e: Exec): Exec {
    match op
    case Get(k) =>
      e.(access := Touched(e.access, k), answers := e.answers + [Value(CacheGet(store, e.cache, k))])
    case Has(k) =>
      e.(access := Touched(e.access, k), answers := e.answers + [Truth(CacheHas(store, e.cache, k))])
    case Put(k, v) =>
      Exec(e.cache[k := Default(v)], e.access[k := Write], e.answers + [Done])
    case Del(k) =>
      Exec(e.cache[k := Delete], e.access[k := Write], e.answers + [Done])
    case Rollback => e.(cache := map[], answers := e.answers + [Done])
    case Stop => e
  }

  /** The first `n` steps of a transaction on its own write cache over `store`. */
  function RunOn(store: Store, next: seq<Answer> -> Op, n: nat): Exec {
    if n == 0 then Exec(map[], map[], [])
    else
      var e := RunOn(store, next, n - 1);
      StepOn(store, next(e.answers), e)
  }

  function ExecOn(store: Store, t: Tx): Exec {
    RunOn(store, t.next, t.steps)
  }

  method Execute(t: Tx, w: Watcher) returns (answers: seq<Answer>)
    requires w.m == map[] && w.cache.m == map[]
    modifies w, w.cache
    ensures Exec(w.cache.m, w.m, answers) == ExecOn(w.cache.db.store, t)
  {
    answers := [];
    for i := 0 to t.steps
      invariant Exec(w.cache.m, w.m, answers) == RunOn(w.cache.db.store, t.next, i)
      invariant w.cache.db.store == old(w.cache.db.store)
    {
      match t.next(answers)
      case Get(k) =>
        var v := w.Get(k);
        answers := answers + [Value(v)];
      case Has(k) =>
        var b := w.Has(k);
        answers := answers + [Truth(b)];
      case Put(k, v) =>
        w.Put(k, v);
        answers := answers + [Done];
      case Del(k) =>
        w.Del(k);
        answers := answers + [Done];
      case Rollback =>
        w.cache.Drop();
        answers := answers + [Done];
      case Stop =>
    }
  }

  /** What is buffered was recorded as written. */
  lemma {:induction false} BufferedIsWritten(store: Store, next: seq<Answer> -> Op, n: nat, k: string)
    requires k in RunOn(store, next, n).cache
    ensures k in RunOn(store, next, n).access && RunOn(store, next, n).access[k].Write?
  {
    if n > 0 {
      var e := RunOn(store, next, n - 1);
      if k in e.cache {
        BufferedIsWritten(store, next, n - 1, k);
      }
    }
  }

  // ----- What is recorded -----

  predicate Names(op: Op, k: string) {
    match op
    case Get(key) => key == k
    case Has(key) => key == k
    case Put(key, _) => key == k
    case Del(key) => key == k
    case _ => false
  }

  predicate Writes(op: Op, k: string) {
    (op.Put? || op.Del?) && Names(op, k)
  }

  /** The operation of the `i`-th step. */
  function OpAt(store: Store, next: seq<Answer> -> Op, i: nat): Op {
    next(RunOn(store, next, i).answers)
  }

  /** A key is recorded exactly if some operation named it, and as written exactly if some operation put or deleted it;
      a rollback takes neither back. */
  lemma {:induction false} RecordedIff(store: Store, next: seq<Answer> -> Op, n: nat, k: string)
    ensures k in RunOn(store, next, n).access <==> exists i :: 0 <= i < n && Names(OpAt(store, next, i), k)
    ensures k in RunOn(store, next, n).access && RunOn(store, next, n).access[k].Write? <==>
            exists i :: 0 <= i < n && Writes(OpAt(store, next, i), k)
  {
    if n > 0 {
      RecordedIff(store, next, n - 1, k);
      assert OpAt(store, next, n - 1) == next(RunOn(store, next, n - 1).answers);
    }
  }

  /** Some operation of the one transaction and some of the other name the same key, and one of them writes it. */
  ghost predicate Clash(store: Store, t: Tx, u: Tx) {
    exists i, j, k :: ClashAt(store, t, u, i, j, k)
  }

  predicate ClashAt(store: Store, t: Tx, u: Tx, i: int, j: int, k: string) {
    && 0 <= i < t.steps && 0 <= j < u.steps
    && var a, b := OpAt(store, t.next, i), OpAt(store, u.next, j);
       Names(a, k) && Names(b, k) && (Writes(a, k) || Writes(b, k))
  }

  lemma ConflictIffClash(store: Store, t: Tx, u: Tx)
    ensures Conflict(ExecOn(store, t).access, ExecOn(store, u).access) <==> Clash(store, t, u)
  {
    var a, b := ExecOn(store, t).access, ExecOn(store, u).access;
    if k :| k in a && k in b && (a[k].Write? || b[k].Write?) {
      var i := StepNaming(store, t, k);
      var j := StepNaming(store, u, k);
      assert ClashAt(store, t, u, i, j, k);
    }
    if i, j, k :| ClashAt(store, t, u, i, j, k) {
      RecordedIff(store, t.next, t.steps, k);
      RecordedIff(store, u.next, u.steps, k);
      assert k in a && k in b && (a[k].Write? || b[k].Write?);
    }
  }

  /** A step that named a recorded key, and wrote it if it is recorded as written. */
  lemma StepNaming(store: Store, t: Tx, k: string) returns (i: nat)
    requires k in ExecOn(store, t).access
    ensures i < t.steps && Names(OpAt(store, t.next, i), k)
    ensures ExecOn(store, t).access[k].Write? ==> Writes(OpAt(store, t.next, i), k)
  {
    RecordedIff(store, t.next, t.steps, k);
    if ExecOn(store, t).access[k].Write? {
      i :| 0 <= i < t.steps && Writes(OpAt(store, t.next, i), k);
    } else {
      i :| 0 <= i < t.steps && Names(OpAt(store, t.next, i), k);
    }
  }

  // ----- What a run means -----

  /** A transaction that writes straight to the store; a rollback takes it back to where it began. */
  function StepDirectly(start: Store, op: Op, d: (Store, seq<Answer>)): (Store, seq<Answer>) {
    match op
    case Get(k) => (d.0, d.1 + [Value(StoreGet(d.0, k))])
    case Has(k) => (d.0, d.1 + [Truth(k in d.0)])
    case Put(k, v) => (d.0[k := v], d.1 + [Done])
    case Del(k) => (d.0 - {k}, d.1 + [Done])
    case Rollback => (start, d.1 + [Done])
    case Stop => d
  }

  function RunDirectly(start: Store, next: seq<Answer> -> Op, n: nat): (Store, seq<Answer>) {
    if n == 0 then (start, [])
    else
      var d := RunDirectly(start, next, n - 1);
      StepDirectly(start, next(d.1), d)
  }

  ghost predicate NoEmptyPut(store: Store, next: seq<Answer> -> Op, n: nat) {
    forall i :: 0 <= i < n ==> !(OpAt(store, next, i).Put? && OpAt(store, next, i).value == "")
  }

  /** The transaction gets the answers, and with its cache flushed leaves the store, that writing straight to the store
      would have given, if it puts no empty value. */
  lemma {:induction false} RunIsDirect(store: Store, next: seq<Answer> -> Op, n: nat)
    requires NoEmptyPut(store, next, n)
    ensures var e := RunOn(store, next, n);
            && RunDirectly(store, next, n) == (Overlay(store, e.cache), e.answers)
            && forall k :: k in e.cache ==> e.cache[k] != Default("")
  {
    if n == 0 {
      assert Overlay(store, map[]) == store;
    } else {
      RunIsDirect(store, next, n - 1);
      var e := RunOn(store, next, n - 1);
      var op := next(e.answers);
      assert OpAt(store, next, n - 1) == op;
      match op
      case Put(k, v) => OverlayMore(store, e.cache, k, Default(v));
      case Del(k) => OverlayMore(store, e.cache, k, Delete);
      case Rollback => assert Overlay(store, map[]) == store;
      case _ =>
    }
  }

  ghost predicate AgreeAt(a: Store, b: Store, k: string) {
    if k in a then k in b && b[k] == a[k] else k !in b
  }

  ghost predicate AgreeOn(a: Store, b: Store, keys: set<string>) {
    forall k :: k in keys ==> AgreeAt(a, b, k)
  }

  /** A transaction sees nothing of the store but the keys recorded for it. */
  lemma {:induction false} SameKeysSameRun(a: Store, b: Store, next: seq<Answer> -> Op, n: nat)
    requires AgreeOn(a, b, RunOn(a, next, n).access.Keys)
    ensures RunOn(b, next, n) == RunOn(a, next, n)
  {
    if n > 0 {
      var e := RunOn(a, next, n - 1);
      assert e.access.Keys <= RunOn(a, next, n).access.Keys;
      SameKeysSameRun(a, b, next, n - 1);
      var op := next(e.answers);
      if op.Get? || op.Has? {
        assert op.key in RunOn(a, next, n).access.Keys && AgreeAt(a, b, op.key);
      }
    }
  }

  // ----- Resolving conflicts -----

  type Mappers = seq<Option<Accesses>>

  /** The two transactions touch a common key and one of them writes it. */
  ghost predicate Conflict(a: Accesses, b: Accesses) {
    exists k :: k in a && k in b && (a[k].Write? || b[k].Write?)
  }

  ghost predicate Indices(mappers: Mappers, order: seq<nat>) {
    && (forall i :: 0 <= i < |order| ==> order[i] < |mappers| && mappers[order[i]].Some?)
    && (forall i, j :: 0 <= i < j < |order| ==> order[i] != order[j])
  }

  ghost predicate ConflictFree(mappers: Mappers, order: seq<nat>) {
    && Indices(mappers, order)
    && (forall i, j :: i in order && j in order && i != j ==> !Conflict(mappers[i].value, mappers[j].value))
  }

  ghost predicate Increasing(s: seq<nat>, bound: nat) {
    && (forall i, j :: 0 <= i < j < |s| ==> s[i] < s[j])
    && (forall i :: 0 <= i < |s| ==> s[i] < bound)
  }

  /** Every entry of the work map comes from an earlier transaction; those of accepted ones are all there. */
  ghost predicate WorkOk(mappers: Mappers, accept: seq<nat>, work: Accesses, i: nat) {
    && i <= |mappers|
    && (forall k :: k in work ==> From(mappers, work, i, k))
    && (forall j, k :: j in accept && j < i && mappers[j].Some? && k in mappers[j].value ==>
          k in work && work[k] == mappers[j].value[k])
  }

  ghost predicate From(mappers: Mappers, work: Accesses, i: nat, k: string)
    requires i <= |mappers| && k in work
  {
    exists j :: 0 <= j < i && mappers[j].Some? && k in mappers[j].value && mappers[j].value[k] == work[k]
  }

  ghost predicate ConflictsEarlier(mappers: Mappers, i: nat) {
    && i < |mappers| && mappers[i].Some?
    && (exists j :: 0 <= j < i && mappers[j].Some? && Conflict(mappers[j].value, mappers[i].value))
  }

  ghost predicate AllConflictEarlier(mappers: Mappers, drop: seq<nat>) {
    forall i :: i in drop ==> ConflictsEarlier(mappers, i)
  }

  /** Tries to enter the accesses of transaction `i`, in whatever order they come; a conflict stops it and
      leaves the entries made so far. */
  method Enter(mappers: Mappers, ghost accept: seq<nat>, ghost drop: seq<nat>, work: Accesses, i: nat)
    returns (ok: bool, now: Accesses)
    requires i < |mappers| && mappers[i].Some? && Resolving(mappers, accept, drop, work, i)
    ensures ok ==> Resolving(mappers, accept + [i], drop, now, i + 1)
    ensures !ok ==> Resolving(mappers, accept, drop + [i], now, i + 1)
  {
    var m := mappers[i].value;
    ok, now := Merge(m, work);
    Entered(mappers, accept, drop, work, now, i, ok);
  }

  /** The work map after a transaction's accesses were entered, all of them or up to a conflict. */
  ghost predicate Merged(m: Accesses, work: Accesses, ok: bool, now: Accesses) {
    && (forall k :: k in work ==> k in now && now[k] == work[k])
    && (forall k :: k in now ==> k in work || (k in m && now[k] == m[k]))
    && (ok ==> forall k :: k in m ==> k in now && now[k] == m[k])
    && (ok <==> forall k :: k in m && k in work ==> m[k].Read? && work[k].Read?)
  }

  method Merge(m: Accesses, work: Accesses) returns (ok: bool, now: Accesses)
    ensures Merged(m, work, ok, now)
  {
    var todo := m.Keys;
    now := work;
    while todo != {}
      invariant todo <= m.Keys
      invariant forall k :: k in work ==> k in now && now[k] == work[k]
      invariant forall k :: k in now ==> k in work || (k in m && k !in todo && now[k] == m[k])
      invariant forall k :: k in m && k !in todo ==> k in now && now[k] == m[k]
      invariant forall k :: k in m && k !in todo && k in work ==> m[k].Read? && work[k].Read?
      decreases todo
    {
      var k :| k in todo;
      if k !in now {
        now := now[k := m[k]];
      } else if now[k].Read? && m[k].Read? {
      } else {
        return false, now;
      }
      todo := todo - {k};
    }
    ok := true;
  }

  lemma Entered(mappers: Mappers, accept: seq<nat>, drop: seq<nat>, work: Accesses, now: Accesses, i: nat, ok: bool)
    requires i < |mappers| && mappers[i].Some? && Resolving(mappers, accept, drop, work, i)
    requires Merged(mappers[i].value, work, ok, now)
    ensures ok ==> Resolving(mappers, accept + [i], drop, now, i + 1)
    ensures !ok ==> Resolving(mappers, accept, drop + [i], now, i + 1)
  {
    Unsealed(mappers, accept, drop, work, i);
    Carried(mappers, accept, work, now, i);
    if ok {
      NoConflict(mappers, accept, work, now, i);
      AcceptOne(mappers, accept, drop, work, now, i);
    } else {
      FoundConflict(mappers, accept, work, now, i);
      DropOne(mappers, accept, drop, work, now, i);
    }
  }

  lemma FoundConflict(mappers: Mappers, accept: seq<nat>, work: Accesses, now: Accesses, i: nat)
    requires i < |mappers| && mappers[i].Some? && WorkOk(mappers, accept, work, i)
    requires Merged(mappers[i].value, work, false, now)
    ensures ConflictsEarlier(mappers, i)
  {
    var m := mappers[i].value;
    var k :| k in m && k in work && !(m[k].Read? && work[k].Read?);
    assert From(mappers, work, i, k);
  }

  lemma NoConflict(mappers: Mappers, accept: seq<nat>, work: Accesses, now: Accesses, i: nat)
    requires i < |mappers| && mappers[i].Some? && WorkOk(mappers, accept, work, i)
    requires forall j :: j in accept ==> j < i && mappers[j].Some?
    requires Merged(mappers[i].value, work, true, now)
    ensures forall j :: j in accept ==> !Conflict(mappers[j].value, mappers[i].value)
    ensures WorkOk(mappers, accept, now, i + 1) ==> WorkOk(mappers, accept + [i], now, i + 1)
  {
  }

  lemma Carried(mappers: Mappers, accept: seq<nat>, work: Accesses, now: Accesses, i: nat)
    requires i < |mappers| && mappers[i].Some? && WorkOk(mappers, accept, work, i)
    requires forall k :: k in work ==> k in now && now[k] == work[k]
    requires forall k :: k in now ==> k in work || (k in mappers[i].value && now[k] == mappers[i].value[k])
    requires forall j :: j in accept ==> j < i
    ensures WorkOk(mappers, accept, now, i + 1)
  {
    forall k | k in now
      ensures From(mappers, now, i + 1, k)
    {
      assert k in work ==> From(mappers, work, i, k);
    }
  }

  /** The non-nil entries below `n` are shared out between `accept` and `drop`. */
  ghost predicate Split(mappers: Mappers, accept: seq<nat>, drop: seq<nat>, n: nat) {
    && n <= |mappers| && Increasing(accept, n) && Increasing(drop, n)
    && (forall i :: 0 <= i < n ==> (mappers[i].Some? <==> i in accept || i in drop))
    && (forall i :: i in accept ==> i !in drop)
  }

  /** Where the loop over the transactions stands before transaction `i`. */
  ghost predicate Resolving(mappers: Mappers, accept: seq<nat>, drop: seq<nat>, work: Accesses, i: nat) {
    forall seal :: ResolvingUnder(mappers, accept, drop, work, i, seal)
  }

  ghost predicate ResolvingUnder(
    mappers: Mappers, accept: seq<nat>, drop: seq<nat>, work: Accesses, i: nat, seal: Seal)
  {
    && seal == Seal
    && Split(mappers, accept, drop, i) && ConflictFree(mappers, accept)
    && WorkOk(mappers, accept, work, i) && AllConflictEarlier(mappers, drop)
  }

  lemma Unsealed(mappers: Mappers, accept: seq<nat>, drop: seq<nat>, work: Accesses, i: nat)
    requires Resolving(mappers, accept, drop, work, i)
    ensures Split(mappers, accept, drop, i) && ConflictFree(mappers, accept)
    ensures WorkOk(mappers, accept, work, i) && AllConflictEarlier(mappers, drop)
  {
    assert ResolvingUnder(mappers, accept, drop, work, i, Seal);
  }

  method Resolve(mappers: Mappers) returns (accept: seq<nat>, drop: seq<nat>)
    ensures Split(mappers, accept, drop, |mappers|)
    ensures ConflictFree(mappers, accept)
    ensures AllConflictEarlier(mappers, drop)
    ensures (exists i :: 0 <= i < |mappers| && mappers[i].Some?) ==> accept != []
  {
    var work: Accesses := map[];
    accept, drop := [], [];
    for i := 0 to |mappers|
      invariant Resolving(mappers, accept, drop, work, i)
    {
      if mappers[i].None? {
        SkipOne(mappers, accept, drop, work, i);
      } else {
        var ok, now := Enter(mappers, accept, drop, work, i);
        if ok {
          accept := accept + [i];
        } else {
          drop := drop + [i];
        }
        work := now;
      }
    }
    SomeAccepted(mappers, accept, drop, work);
  }

  lemma SomeAccepted(mappers: Mappers, accept: seq<nat>, drop: seq<nat>, work: Accesses)
    requires Resolving(mappers, accept, drop, work, |mappers|)
    ensures Split(mappers, accept, drop, |mappers|) && ConflictFree(mappers, accept)
    ensures AllConflictEarlier(mappers, drop)
    ensures (exists i :: 0 <= i < |mappers| && mappers[i].Some?) ==> accept != []
  {
    Unsealed(mappers, accept, drop, work, |mappers|);
    if i :| 0 <= i < |mappers| && mappers[i].Some? {
      FirstIsAccepted(mappers, accept, drop, i);
    }
  }

  lemma SkipOne(mappers: Mappers, accept: seq<nat>, drop: seq<nat>, work: Accesses, i: nat)
    requires Resolving(mappers, accept, drop, work, i) && i < |mappers| && mappers[i].None?
    ensures Resolving(mappers, accept, drop, work, i + 1)
  {
    Unsealed(mappers, accept, drop, work, i);
    forall j | j in accept
      ensures j < i
    {
    }
    WorkOn(mappers, accept, work, i);
  }

  lemma WorkOn(mappers: Mappers, accept: seq<nat>, work: Accesses, i: nat)
    requires WorkOk(mappers, accept, work, i) && i < |mappers|
    requires forall j :: j in accept ==> j < i
    ensures WorkOk(mappers, accept, work, i + 1)
  {
    forall k | k in work
      ensures From(mappers, work, i + 1, k)
    {
      assert From(mappers, work, i, k);
    }
  }

  lemma DropOne(mappers: Mappers, accept: seq<nat>, drop: seq<nat>, work: Accesses, now: Accesses, i: nat)
    requires Resolving(mappers, accept, drop, work, i) && i < |mappers| && mappers[i].Some?
    requires WorkOk(mappers, accept, now, i + 1) && ConflictsEarlier(mappers, i)
    ensures Resolving(mappers, accept, drop + [i], now, i + 1)
  {
    Unsealed(mappers, accept, drop, work, i);
    SplitOne(mappers, accept, drop, i);
  }

  lemma AcceptOne(mappers: Mappers, accept: seq<nat>, drop: seq<nat>, work: Accesses, now: Accesses, i: nat)
    requires Resolving(mappers, accept, drop, work, i) && i < |mappers| && mappers[i].Some?
    requires WorkOk(mappers, accept + [i], now, i + 1)
    requires forall j :: j in accept ==> j < i && mappers[j].Some? && !Conflict(mappers[j].value, mappers[i].value)
    ensures Resolving(mappers, accept + [i], drop, now, i + 1)
  {
    Unsealed(mappers, accept, drop, work, i);
    SplitOne(mappers, accept, drop, i);
    forall j | j in accept
      ensures !Conflict(mappers[i].value, mappers[j].value)
    {
    }
  }

  lemma SplitOne(mappers: Mappers, accept: seq<nat>, drop: seq<nat>, i: nat)
    requires Split(mappers, accept, drop, i) && i < |mappers| && mappers[i].Some?
    ensures Split(mappers, accept + [i], drop, i + 1) && Split(mappers, accept, drop + [i], i + 1)
  {
    assert forall j :: j in accept + [i] <==> j in accept || j == i;
    assert forall j :: j in drop + [i] <==> j in drop || j == i;
  }

  lemma {:induction false} FirstIsAccepted(mappers: Mappers, accept: seq<nat>, drop: seq<nat>, i: nat)
    requires Split(mappers, accept, drop, |mappers|) && i < |mappers| && mappers[i].Some?
    requires AllConflictEarlier(mappers, drop)
    ensures accept != []
  {
    if i !in accept {
      assert ConflictsEarlier(mappers, i);
      var j :| 0 <= j < i && mappers[j].Some? && Conflict(mappers[j].value, mappers[i].value);
      FirstIsAccepted(mappers, accept, drop, j);
    }
  }

  // ----- Serializability -----

  ghost predicate Mapped(store: Store, txs: seq<Tx>, mappers: Mappers) {
    && |mappers| == |txs|
    && (forall i :: 0 <= i < |txs| && mappers[i].Some? ==> mappers[i].value == ExecOn(store, txs[i]).access)
  }

  predicate InRange(txs: seq<Tx>, order: seq<nat>) {
    forall p :: 0 <= p < |order| ==> order[p] < |txs|
  }

  /** The write caches, all filled over the same store, flushed in the given order. */
  function Committed(store: Store, txs: seq<Tx>, order: seq<nat>): Store
    requires InRange(txs, order)
  {
    if order == [] then store
    else
      var last := |order| - 1;
      Overlay(Committed(store, txs, order[..last]), ExecOn(store, txs[order[last]]).cache)
  }

  /** The transactions run one after the other, each over what the ones before left. */
  function Serial(store: Store, txs: seq<Tx>, order: seq<nat>): Store
    requires InRange(txs, order)
  {
    if order == [] then store
    else
      var last := |order| - 1;
      var before := Serial(store, txs, order[..last]);
      Overlay(before, ExecOn(before, txs[order[last]]).cache)
  }

  /** Flushing others' caches leaves the keys of a conflict-free transaction alone. */
  lemma {:induction false} OthersDontTouch(store: Store, txs: seq<Tx>, mappers: Mappers, order: seq<nat>, i: nat)
    requires Mapped(store, txs, mappers) && Indices(mappers, order) && i < |txs| && mappers[i].Some? && i !in order
    requires forall j :: j in order ==> !Conflict(mappers[j].value, mappers[i].value)
    ensures AgreeOn(store, Committed(store, txs, order), mappers[i].value.Keys)
  {
    if order != [] {
      var last := |order| - 1;
      var j := order[last];
      OthersDontTouch(store, txs, mappers, order[..last], i);
      var before := Committed(store, txs, order[..last]);
      var after := Committed(store, txs, order);
      assert !Conflict(mappers[j].value, mappers[i].value);
      forall k | k in mappers[i].value
        ensures AgreeAt(store, after, k)
      {
        assert AgreeAt(store, before, k);
        if k in ExecOn(store, txs[j]).cache {
          BufferedIsWritten(store, txs[j].next, txs[j].steps, k);
        }
      }
    }
  }

  /** Run serially in any order, conflict-free transactions leave what flushing their caches in that order
      leaves, and each of them gets the answers it got over the common store. */
  lemma {:induction false} SerialIsCommitted(store: Store, txs: seq<Tx>, mappers: Mappers, order: seq<nat>)
    requires Mapped(store, txs, mappers) && ConflictFree(mappers, order)
    ensures Serial(store, txs, order) == Committed(store, txs, order)
    ensures forall p :: 0 <= p < |order| ==> SameAsAlone(store, txs, order, p)
  {
    if order != [] {
      var last := |order| - 1;
      ConflictFreePrefix(mappers, order, last);
      SerialIsCommitted(store, txs, mappers, order[..last]);
      LastSeesItsOwn(store, txs, mappers, order);
      forall p | 0 <= p < last
        ensures SameAsAlone(store, txs, order, p)
      {
        AloneAsBefore(store, txs, order, p);
      }
    }
  }

  lemma AloneAsBefore(store: Store, txs: seq<Tx>, order: seq<nat>, p: nat)
    requires InRange(txs, order) && p < |order| - 1 && InRange(txs, order[..|order| - 1])
    requires SameAsAlone(store, txs, order[..|order| - 1], p)
    ensures SameAsAlone(store, txs, order, p)
  {
    assert order[..|order| - 1][..p] == order[..p];
  }

  /** Over what the caches of the others leave, the last transaction runs as it did alone. */
  lemma LastSeesItsOwn(store: Store, txs: seq<Tx>, mappers: Mappers, order: seq<nat>)
    requires Mapped(store, txs, mappers) && ConflictFree(mappers, order) && order != []
    ensures var last := |order| - 1;
            ExecOn(Committed(store, txs, order[..last]), txs[order[last]]) == ExecOn(store, txs[order[last]])
  {
    var last := |order| - 1;
    var i := order[last];
    ConflictFreePrefix(mappers, order, last);
    OthersDontTouch(store, txs, mappers, order[..last], i);
    SameKeysSameRun(store, Committed(store, txs, order[..last]), txs[i].next, txs[i].steps);
  }

  /** In the serial run the `p`-th transaction does what it did alone over the common store. */
  ghost predicate SameAsAlone(store: Store, txs: seq<Tx>, order: seq<nat>, p: nat)
    requires InRange(txs, order) && p < |order|
  {
    ExecOn(Serial(store, txs, order[..p]), txs[order[p]]) == ExecOn(store, txs[order[p]])
  }

  lemma ConflictFreePrefix(mappers: Mappers, order: seq<nat>, n: nat)
    requires ConflictFree(mappers, order) && n <= |order|
    ensures ConflictFree(mappers, order[..n])
    ensures n < |order| ==> order[n] !in order[..n]
    ensures n < |order| ==> forall j :: j in order[..n] ==> !Conflict(mappers[j].value, mappers[order[n]].value)
  {
    if n < |order| {
      assert order[n] in order;
      forall j | j in order[..n]
        ensures !Conflict(mappers[j].value, mappers[order[n]].value)
      {
      }
    }
  }

  /** What one key holds in the end: what its only writer left, or what the store had. */
  lemma {:induction false} CommittedAt(store: Store, txs: seq<Tx>, mappers: Mappers, order: seq<nat>, k: string)
    requires Mapped(store, txs, mappers) && ConflictFree(mappers, order)
    ensures forall i :: i in order && k in ExecOn(store, txs[i]).cache ==>
              AgreeAt(Overlay(store, ExecOn(store, txs[i]).cache), Committed(store, txs, order), k)
    ensures (forall i :: i in order ==> k !in ExecOn(store, txs[i]).cache) ==>
              AgreeAt(store, Committed(store, txs, order), k)
  {
    if order != [] {
      var last := |order| - 1;
      var l := order[last];
      ConflictFreePrefix(mappers, order, last);
      CommittedAt(store, txs, mappers, order[..last], k);
      forall i | i in order && k in ExecOn(store, txs[i]).cache
        ensures AgreeAt(Overlay(store, ExecOn(store, txs[i]).cache), Committed(store, txs, order), k)
      {
        if i != l {
          assert i in order[..last];
          assert !Conflict(mappers[i].value, mappers[l].value);
          BufferedIsWritten(store, txs[i].next, txs[i].steps, k);
          if k in ExecOn(store, txs[l]).cache {
            BufferedIsWritten(store, txs[l].next, txs[l].steps, k);
          }
        }
      }
    }
  }

  /** The order of flushing does not matter. */
  lemma CommitOrderIrrelevant(store: Store, txs: seq<Tx>, mappers: Mappers, a: seq<nat>, b: seq<nat>)
    requires Mapped(store, txs, mappers) && ConflictFree(mappers, a) && ConflictFree(mappers, b)
    requires forall i :: i in a <==> i in b
    ensures Committed(store, txs, a) == Committed(store, txs, b)
  {
    forall k
      ensures AgreeAt(Committed(store, txs, a), Committed(store, txs, b), k)
    {
      CommittedAt(store, txs, mappers, a, k);
      CommittedAt(store, txs, mappers, b, k);
      if i :| i in a && k in ExecOn(store, txs[i]).cache {
        assert i in b;
      }
    }
    SameStore(Committed(store, txs, a), Committed(store, txs, b));
  }

  lemma SameStore(a: Store, b: Store)
    requires forall k :: AgreeAt(a, b, k)
    ensures a == b
  {
    forall k
      ensures k in a <==> k in b
      ensures k in a ==> a[k] == b[k]
    {
      assert AgreeAt(a, b, k);
    }
    assert a.Keys == b.Keys;
  }

  /** Serializability: a conflict-free batch, flushed in accept order, ends in the store that running its
      transactions serially in any order ends in, and no transaction can tell the difference. */
  lemma BatchIsSerializable(store: Store, txs: seq<Tx>, mappers: Mappers, accept: seq<nat>, order: seq<nat>)
    requires Mapped(store, txs, mappers) && ConflictFree(mappers, accept)
    requires multiset(order) == multiset(accept)
    ensures Indices(mappers, order)
    ensures Serial(store, txs, order) == Committed(store, txs, accept)
    ensures forall p :: 0 <= p < |order| ==> SameAsAlone(store, txs, order, p)
  {
    forall i
      ensures i in order <==> i in accept
    {
      assert i in multiset(order) <==> i in multiset(accept);
    }
    OnceEach(accept, order);
    forall p | 0 <= p < |order|
      ensures order[p] < |mappers| && mappers[order[p]].Some?
    {
      assert order[p] in accept;
    }
    SerialIsCommitted(store, txs, mappers, order);
    CommitOrderIrrelevant(store, txs, mappers, order, accept);
  }

  /** A rearrangement of a sequence without repeats has none. */
  lemma OnceEach(a: seq<nat>, b: seq<nat>)
    requires multiset(a) == multiset(b) && forall i, j :: 0 <= i < j < |a| ==> a[i] != a[j]
    ensures forall i, j :: 0 <= i < j < |b| ==> b[i] != b[j]
  {
    forall i, j | 0 <= i < j < |b|
      ensures b[i] != b[j]
    {
      if b[i] == b[j] {
        var x := b[i];
        assert b == b[..i] + [b[i]] + b[i + 1..j] + [b[j]] + b[j + 1..];
        assert multiset(b)[x] >= 2;
        assert multiset(a)[x] >= 2;
        AtMostOnce(a, x);
      }
    }
  }

  lemma {:induction false} AtMostOnce(a: seq<nat>, x: nat)
    requires forall i, j :: 0 <= i < j < |a| ==> a[i] != a[j]
    ensures multiset(a)[x] <= 1
  {
    if a != [] {
      var last := |a| - 1;
      assert a == a[..last] + [a[last]];
      AtMostOnce(a[..last], x);
      if a[last] == x {
        assert x !in a[..last];
      }
    }
  }

  // ----- A whole batch -----

  /** The access map of a transaction executed over `store`; none if its execution failed. */
  function MapperOf(store: Store, t: Tx): Option<Accesses> {
    var e := ExecOn(store, t);
    if t.fails(e.answers) then None else Some(e.access)
  }

  function MappersOf(store: Store, txs: seq<Tx>): Mappers {
    seq(|txs|, i requires 0 <= i < |txs| => MapperOf(store, txs[i]))
  }

  /** Executes every transaction on its own cache over the same store. */
  method ExecuteAll(db: Database, txs: seq<Tx>)
    returns (caches: seq<WriteCache>, mappers: Mappers, receipts: seq<seq<Answer>>)
    ensures mappers == MappersOf(db.store, txs)
    ensures |caches| == |receipts| == |txs|
    ensures forall i :: 0 <= i < |txs| ==> caches[i].db == db && fresh(caches[i])
    ensures forall i :: 0 <= i < |txs| ==>
              caches[i].m == ExecOn(db.store, txs[i]).cache && receipts[i] == ExecOn(db.store, txs[i]).answers
    ensures forall i, j :: 0 <= i < j < |txs| ==> caches[i] != caches[j]
  {
    caches, mappers, receipts := [], [], [];
    for i := 0 to |txs|
      invariant |caches| == |mappers| == |receipts| == i
      invariant forall j :: 0 <= j < i ==> caches[j].db == db && fresh(caches[j])
      invariant forall j :: 0 <= j < i ==> mappers[j] == MapperOf(db.store, txs[j])
      invariant forall j :: 0 <= j < i ==>
                  caches[j].m == ExecOn(db.store, txs[j]).cache && receipts[j] == ExecOn(db.store, txs[j]).answers
      invariant forall j, k :: 0 <= j < k < i ==> caches[j] != caches[k]
    {
      var cache := new WriteCache(db);
      var watcher := new Watcher(cache);
      var answers := Execute(txs[i], watcher);
      caches := caches + [cache];
      mappers := mappers + [if txs[i].fails(answers) then None else Some(watcher.m)];
      receipts := receipts + [answers];
    }
  }

  /** Flushes the accepted caches one after the other. */
  method CommitAll(db: Database, ghost txs: seq<Tx>, caches: seq<WriteCache>, accept: seq<nat>)
    requires |caches| == |txs| && InRange(txs, accept)
    requires forall i :: 0 <= i < |caches| ==> caches[i].db == db && caches[i].m == ExecOn(db.store, txs[i]).cache
    requires forall i, j :: 0 <= i < j < |caches| ==> caches[i] != caches[j]
    requires forall p, q :: 0 <= p < q < |accept| ==> accept[p] != accept[q]
    modifies db, caches
    ensures db.store == Committed(old(db.store), txs, accept)
  {
    for p := 0 to |accept|
      invariant InRange(txs, accept[..p]) && db.store == Committed(old(db.store), txs, accept[..p])
      invariant forall q :: p <= q < |accept| ==>
                  caches[accept[q]].m == ExecOn(old(db.store), txs[accept[q]]).cache
    {
      var cache := caches[accept[p]];
      assert forall q :: p < q < |accept| ==> caches[accept[q]] != cache;
      cache.Flush();
      cache.Drop();
      assert accept[..p + 1][..p] == accept[..p];
    }
    assert accept[..|accept|] == accept;
  }

  /** `after` is what every serial run of the accepted transactions leaves. */
  ghost predicate Serialized(store: Store, txs: seq<Tx>, accept: seq<nat>, after: Store) {
    forall order: seq<nat> :: multiset(order) == multiset(accept) ==>
      InRange(txs, order) && Serial(store, txs, order) == after
  }

  lemma CommittedIsSerialized(store: Store, txs: seq<Tx>, accept: seq<nat>)
    requires ConflictFree(MappersOf(store, txs), accept)
    ensures InRange(txs, accept) && Serialized(store, txs, accept, Committed(store, txs, accept))
  {
    forall order: seq<nat> | multiset(order) == multiset(accept)
      ensures InRange(txs, order) && Serial(store, txs, order) == Committed(store, txs, accept)
    {
      BatchIsSerializable(store, txs, MappersOf(store, txs), accept, order);
    }
  }

  /** What resolving the recorded accesses means for the operations performed. */
  lemma ResolvedOnOps(store: Store, txs: seq<Tx>, accept: seq<nat>, drop: seq<nat>, receipts: seq<seq<Answer>>)
    requires var mappers := MappersOf(store, txs);
             Split(mappers, accept, drop, |txs|) && ConflictFree(mappers, accept) && AllConflictEarlier(mappers, drop)
    requires |receipts| == |txs| && forall i :: 0 <= i < |txs| ==> receipts[i] == ExecOn(store, txs[i]).answers
    ensures forall i :: 0 <= i < |txs| ==> (txs[i].fails(receipts[i]) <==> i !in accept && i !in drop)
    ensures forall i, j :: i in accept && j in accept && i != j ==>
              i < |txs| && j < |txs| && !Clash(store, txs[i], txs[j])
    ensures forall i :: i in drop ==>
              i < |txs| && exists j :: 0 <= j < i && !txs[j].fails(receipts[j]) && Clash(store, txs[j], txs[i])
  {
    var mappers := MappersOf(store, txs);
    forall i, j | i in accept && j in accept && i != j
      ensures i < |txs| && j < |txs| && !Clash(store, txs[i], txs[j])
    {
      ConflictIffClash(store, txs[i], txs[j]);
    }
    forall i | i in drop
      ensures i < |txs| && exists j :: 0 <= j < i && !txs[j].fails(receipts[j]) && Clash(store, txs[j], txs[i])
    {
      assert ConflictsEarlier(mappers, i);
      var j :| 0 <= j < i && mappers[j].Some? && Conflict(mappers[j].value, mappers[i].value);
      ConflictIffClash(store, txs[j], txs[i]);
    }
  }

  /** Executes the transactions, drops those in conflict with earlier ones and commits the rest. */
  method RunBatch(db: Database, txs: seq<Tx>) returns (accept: seq<nat>, drop: seq<nat>, receipts: seq<seq<Answer>>)
    modifies db
    ensures Split(MappersOf(old(db.store), txs), accept, drop, |txs|)
    ensures AllConflictEarlier(MappersOf(old(db.store), txs), drop)
    ensures |receipts| == |txs|
    ensures forall i :: 0 <= i < |txs| ==> receipts[i] == ExecOn(old(db.store), txs[i]).answers
    ensures Serialized(old(db.store), txs, accept, db.store)
    ensures forall i :: 0 <= i < |txs| ==> (txs[i].fails(receipts[i]) <==> i !in accept && i !in drop)
    ensures forall i, j :: i in accept && j in accept && i != j ==>
              i < |txs| && j < |txs| && !Clash(old(db.store), txs[i], txs[j])
    ensures forall i :: i in drop ==>
              i < |txs| && exists j :: 0 <= j < i && !txs[j].fails(receipts[j]) && Clash(old(db.store), txs[j], txs[i])
  {
    var caches, mappers;
    caches, mappers, receipts := ExecuteAll(db, txs);
    accept, drop := Resolve(mappers);
    ResolvedOnOps(db.store, txs, accept, drop, receipts);
    CommittedIsSerialized(db.store, txs, accept);
    CommitAll(db, txs, caches, accept);
  }
}
