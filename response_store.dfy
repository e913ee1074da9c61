/**
 * `ResponseStore` (response_store.py): responses filed under their "intent_id",
 * each handed out once.
 */
module ResponseStore {
  import opened Wrappers
  import opened Values

  /** `self._store[intent_id] = resp` with an id Python cannot hash raises. */
  datatype StoreError = UnhashableKey(key: Value)

  /** The store after `add(resp)`, or the TypeError it raises: a missing or falsy
      id adds nothing. */
  function Added(store: map<Value, Dict>, resp: Dict): (r: Result<map<Value, Dict>, StoreError>)
    ensures !Truthy(Get(resp, "intent_id")) ==> r == Ok(store)
    ensures r.Err? <==> Truthy(Get(resp, "intent_id")) && !Hashable(Get(resp, "intent_id"))
    ensures r.Ok? && Truthy(Get(resp, "intent_id")) ==>
              var id := Get(resp, "intent_id");
              id in r.value && r.value[id] == resp && r.value - {id} == store - {id}
  {
    var id := Get(resp, "intent_id");
    if !Truthy(id) then Ok(store)
    else if !Hashable(id) then Err(UnhashableKey(id))
    else Ok(store[id := resp])
  }

  class Store {
    var entries: map<Value, Dict>

    constructor ()
      ensures entries == map[]
    {
      entries := map[];
    }

    method Add(resp: Dict) returns (r: Result<(), StoreError>)
      modifies this
      ensures var a := Added(old(entries), resp);
              (r.Ok? <==> a.Ok?)
              && (a.Ok? ==> entries == a.value)
              && (a.Err? ==> r == Err(a.error) && entries == old(entries))
    {
      var id := Get(resp, "intent_id");
      if Truthy(id) {
        if !Hashable(id) {
          return Err(UnhashableKey(id));
        }
        entries := entries[id := resp];
      }
      return Ok(());
    }

    /** `get(intent_id)`: `pop(intent_id, None)`. */
    method Take(intentId: string) returns (r: Option<Dict>)
      modifies this
      ensures r == (if Str(intentId) in old(entries) then Some(old(entries)[Str(intentId)]) else None)
      ensures entries == old(entries) - {Str(intentId)}
    {
      var key := Str(intentId);
      if key in entries {
        r := Some(entries[key]);
        entries := entries - {key};
      } else {
        r := None;
      }
    }
  }

  /** A response added under a string id is handed out by the first `get` of that
      id and by no later one. */
  method OneShot(resp: Dict, id: string) returns (first: Option<Dict>, second: Option<Dict>)
    requires Get(resp, "intent_id") == Str(id) && id != ""
    ensures first == Some(resp) && second == None
  {
    var s := new Store();
    var added := s.Add(resp);
    first := s.Take(id);
    second := s.Take(id);
  }

  /** A second response under the same id replaces the first. */
  method LaterAddWins(earlier: Dict, later: Dict, id: string) returns (got: Option<Dict>)
    requires Get(earlier, "intent_id") == Str(id) && Get(later, "intent_id") == Str(id) && id != ""
    ensures got == Some(later)
  {
    var s := new Store();
    var a1 := s.Add(earlier);
    var a2 := s.Add(later);
    got := s.Take(id);
  }
}
