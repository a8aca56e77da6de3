/** The database layers a transaction runs on: the store, a write cache that buffers its writes, and a
    watcher that records which keys it touched. */
module StateDb {
  datatype Access = Read | Write
  type Accesses = map<string, Access>

  datatype Record = Default(value: string) | Delete
  type Cache = map<string, Record>

  type Store = map<string, string>

  /** What reading an absent key answers. */
  const NIL := "n"

  // ----- Values -----

  /** The store answers an empty value like an absent one. */
  function StoreGet(store: Store, key: string): string {
    if key in store && store[key] != "" then store[key] else NIL
  }

  function CacheGet(store: Store, cache: Cache, key: string): string {
    if key in cache then (if cache[key].Delete? then NIL else cache[key].value) else StoreGet(store, key)
  }

  function CacheHas(store: Store, cache: Cache, key: string): bool {
    if key in cache then !cache[key].Delete? else key in store
  }

  /** The store after the records of the cache went into it. */
  function Overlay(store: Store, cache: Cache): Store {
    map k | k in store.Keys + cache.Keys && !(k in cache && cache[k].Delete?) ::
      if k in cache then cache[k].value else store[k]
  }

  /** A read does not hide that the key was written. */
  function Touched(m: Accesses, key: string): Accesses {
    if key in m && m[key].Write? then m else m[key := Read]
  }

  // ----- Objects -----

  class Database {
    var store: Store

    constructor (store: Store)
      ensures this.store == store
    {
      this.store := store;
    }
  }

  class WriteCache {
    var m: Cache
    const db: Database

    constructor (db: Database)
      ensures this.db == db && m == map[]
    {
      this.db := db;
      m := map[];
    }

    method Get(key: string) returns (value: string)
      ensures value == CacheGet(db.store, m, key)
    {
      if key in m {
        if m[key].Delete? {
          return NIL;
        }
        return m[key].value;
      }
      return if key in db.store && db.store[key] != "" then db.store[key] else NIL;
    }

    method Has(key: string) returns (b: bool)
      ensures b == CacheHas(db.store, m, key)
    {
      if key in m {
        return m[key] != Delete;
      }
      return key in db.store;
    }

    method Put(key: string, value: string)
      modifies this
      ensures m == old(m)[key := Default(value)]
    {
      m := m[key := Default(value)];
    }

    method Del(key: string)
      modifies this
      ensures m == old(m)[key := Delete]
    {
      m := m[key := Delete];
    }

    method Drop()
      modifies this
      ensures m == map[]
    {
      m := map[];
    }

    /** Replays the records into the database, in whatever order they come. */
    method Flush()
      modifies db
      ensures db.store == Overlay(old(db.store), m)
    {
      var todo := m.Keys;
      ghost var done: Cache := map[];
      while todo != {}
        invariant todo <= m.Keys
        invariant done == map k | k in m && k !in todo :: m[k]
        invariant db.store == Overlay(old(db.store), done)
        decreases todo
      {
        var k :| k in todo;
        OverlayMore(old(db.store), done, k, m[k]);
        if m[k].Delete? {
          db.store := db.store - {k};
        } else {
          db.store := db.store[k := m[k].value];
        }
        done := done[k := m[k]];
        todo := todo - {k};
      }
      assert done == m;
    }
  }

  lemma OverlayMore(store: Store, cache: Cache, k: string, r: Record)
    ensures Overlay(store, cache[k := r]) ==
            if r.Delete? then Overlay(store, cache) - {k} else Overlay(store, cache)[k := r.value]
  {
  }

  // ----- Buffering against writing at once -----

  datatype Change = Change(key: string, record: Record)

  /** The buffer after some changes. */
  function Buffered(changes: seq<Change>): Cache {
    if changes == [] then map[]
    else
      var last := changes[|changes| - 1];
      Buffered(changes[..|changes| - 1])[last.key := last.record]
  }

  /** The store after the same changes made to it one by one. */
  function Changed(store: Store, changes: seq<Change>): Store {
    if changes == [] then store
    else
      var last := changes[|changes| - 1];
      var before := Changed(store, changes[..|changes| - 1]);
      if last.record.Delete? then before - {last.key} else before[last.key := last.record.value]
  }

  /** Flushing the buffer leaves the store that writing at once would have left, and until then a read answers as it
      would have; only a buffered empty value is answered as it is, where the store answers none. */
  lemma {:induction false} BufferIsTransparent(store: Store, changes: seq<Change>, key: string)
    ensures Overlay(store, Buffered(changes)) == Changed(store, changes)
    ensures CacheHas(store, Buffered(changes), key) <==> key in Changed(store, changes)
    ensures CacheGet(store, Buffered(changes), key) == StoreGet(Changed(store, changes), key) <==>
            !(key in Buffered(changes) && Buffered(changes)[key] == Default(""))
  {
    if changes == [] {
      assert Overlay(store, map[]) == store;
    } else {
      var before, last := changes[..|changes| - 1], changes[|changes| - 1];
      BufferIsTransparent(store, before, key);
      OverlayMore(store, Buffered(before), last.key, last.record);
    }
  }

  class Watcher {
    var m: Accesses
    const cache: WriteCache

    constructor (cache: WriteCache)
      ensures this.cache == cache && m == map[]
    {
      this.cache := cache;
      m := map[];
    }

    method Get(key: string) returns (value: string)
      modifies this
      ensures m == Touched(old(m), key) && value == CacheGet(cache.db.store, cache.m, key)
    {
      if !(key in m && m[key].Write?) {
        m := m[key := Read];
      }
      value := cache.Get(key);
    }

    method Has(key: string) returns (b: bool)
      modifies this
      ensures m == Touched(old(m), key) && b == CacheHas(cache.db.store, cache.m, key)
    {
      if !(key in m && m[key].Write?) {
        m := m[key := Read];
      }
      b := cache.Has(key);
    }

    method Put(key: string, value: string)
      modifies this, cache
      ensures m == old(m)[key := Write] && cache.m == old(cache.m)[key := Default(value)]
    {
      m := m[key := Write];
      cache.Put(key, value);
    }

    method Del(key: string)
      modifies this, cache
      ensures m == old(m)[key := Write] && cache.m == old(cache.m)[key := Delete]
    {
      m := m[key := Write];
      cache.Del(key);
    }
  }
}
