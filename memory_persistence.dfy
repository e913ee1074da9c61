/**
 * `MemoryPersistence` (cognition_lattice/memory/memory_persistence.py): a
 * key-value store whose entries may carry an expiry time. An expiry of 0 means the
 * entry never expires; an entry expires once the clock is strictly past its
 * expiry. The clock reading `time.time()` is a parameter, in exact reals.
 */
module MemoryPersistence {
  import opened Wrappers
  import opened Values

  datatype Entry = Entry(value: Value, expiry: real)

  /** `expiry and expiry < now`. */
  predicate Expired(expiry: real, now: real) {
    expiry != 0.0 && expiry < now
  }

  /** `time.time() + ttl if ttl else 0`: a missing or zero ttl means no expiry. */
  function ExpiryFor(ttl: Option<real>, now: real): real {
    if ttl.None? || ttl.value == 0.0 then 0.0 else now + ttl.value
  }

  /** What `get(key)` returns at time `now`: None when the key is absent or its
      entry has expired. */
  function Lookup(store: map<string, Entry>, key: string, now: real): Value {
    if key in store && !Expired(store[key].expiry, now) then store[key].value else Null
  }

  /** The entries `cleanup` keeps. */
  function Unexpired(store: map<string, Entry>, now: real): (r: map<string, Entry>)
    ensures r.Keys <= store.Keys
    ensures forall k :: k in store ==> (k in r <==> !Expired(store[k].expiry, now))
  {
    map k | k in store && !Expired(store[k].expiry, now) :: store[k]
  }

  /** Cleaning up changes no answer `get` gives at the same time. */
  lemma CleanupInvisible(store: map<string, Entry>, key: string, now: real)
    ensures Lookup(Unexpired(store, now), key, now) == Lookup(store, key, now)
  {
  }

  /** A value put without a ttl, or with ttl 0, is returned at every later time; one put with ttl
      `t` at time `now` is returned until `now + t` inclusive and not after. */
  lemma PutThenLookup(store: map<string, Entry>, key: string, v: Value, ttl: Option<real>, now: real, later: real)
    ensures ttl.None? || ttl.value == 0.0 ==> Lookup(store[key := Entry(v, ExpiryFor(ttl, now))], key, later) == v
    ensures ttl.Some? && ttl.value != 0.0 && now + ttl.value != 0.0 && later <= now + ttl.value ==>
              Lookup(store[key := Entry(v, ExpiryFor(ttl, now))], key, later) == v
    ensures ttl.Some? && ttl.value != 0.0 && now + ttl.value != 0.0 && later > now + ttl.value ==>
              Lookup(store[key := Entry(v, ExpiryFor(ttl, now))], key, later) == Null
  {
  }

  class MemoryStore {
    var store: map<string, Entry>

    constructor ()
      ensures store == map[]
    {
      store := map[];
    }

    method Put(key: string, value: Value, ttl: Option<real>, now: real)
      modifies this
      ensures store == old(store)[key := Entry(value, ExpiryFor(ttl, now))]
    {
      var expiry := if ttl.Some? && ttl.value != 0.0 then now + ttl.value else 0.0;
      store := store[key := Entry(value, expiry)];
    }

    /** `get(key)`: an expired entry is removed as it is found. */
    method Fetch(key: string, now: real) returns (v: Value)
      modifies this
      ensures v == Lookup(old(store), key, now)
      ensures key in old(store) && Expired(old(store)[key].expiry, now) ==> store == old(store) - {key}
      ensures !(key in old(store) && Expired(old(store)[key].expiry, now)) ==> store == old(store)
    {
      var entry := if key in store then store[key] else Entry(Null, 0.0);
      if entry.expiry != 0.0 && entry.expiry < now {
        store := store - {key};
        return Null;
      }
      return entry.value;
    }

    /** `cleanup()`: one pass over a snapshot of the keys, popping the expired. */
    method Cleanup(now: real)
      modifies this
      ensures store == Unexpired(old(store), now)
    {
      var snapshot := store;
      var pending := snapshot.Keys;
      while pending != {}
        invariant pending <= snapshot.Keys
        invariant store == map k | k in snapshot && (k in pending || !Expired(snapshot[k].expiry, now)) :: snapshot[k]
        decreases pending
      {
        var k :| k in pending;
        if Expired(snapshot[k].expiry, now) {
          store := store - {k};
        }
        pending := pending - {k};
      }
    }
  }
}
