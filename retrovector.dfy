/**
 * `RetroVectorBridge` (retrovector_bridge.py): a list of routes kept in
 * non-increasing priority order by re-sorting after every addition, and the
 * choice of the first route whose check passes.
 */
module RetroVector {
  import opened Wrappers

  class Route {
    const name: string
    const priority: int
    /** What `check` answers; every route the constructor makes answers yes. */
    const reachable: bool
    var active: bool

    constructor (name: string, priority: int)
      ensures this.name == name && this.priority == priority && reachable && !active
    {
      this.name := name;
      this.priority := priority;
      reachable := true;
      active := false;
    }

    method Check() returns (ok: bool)
      ensures ok == reachable
    {
      ok := reachable;
    }
  }

  predicate SortedDesc(s: seq<Route>) {
    forall i, j :: 0 <= i < j < |s| ==> s[i].priority >= s[j].priority
  }

  /** The routes of one priority, in list order. */
  function WithPriority(s: seq<Route>, p: int): seq<Route> {
    if s == [] then []
    else WithPriority(s[..|s| - 1], p) + (if s[|s| - 1].priority == p then [s[|s| - 1]] else [])
  }

  /** `x` placed after every route of priority at least its own. */
  function InsertDesc(s: seq<Route>, x: Route): seq<Route> {
    if s == [] || s[|s| - 1].priority >= x.priority then s + [x]
    else InsertDesc(s[..|s| - 1], x) + [s[|s| - 1]]
  }

  /** `sort(key=priority, reverse=True)`: Python's sort is stable, also in reverse. */
  function SortDesc(s: seq<Route>): seq<Route> {
    if s == [] then [] else InsertDesc(SortDesc(s[..|s| - 1]), s[|s| - 1])
  }

  lemma {:induction false} WithPriorityAppend(s: seq<Route>, t: seq<Route>, p: int)
    ensures WithPriority(s + t, p) == WithPriority(s, p) + WithPriority(t, p)
    decreases |t|
  {
    if t == [] {
      assert s + t == s;
    } else {
      assert (s + t)[..|s + t| - 1] == s + t[..|t| - 1];
      WithPriorityAppend(s, t[..|t| - 1], p);
    }
  }

  lemma {:induction false} InsertKeepsItems(s: seq<Route>, x: Route)
    ensures multiset(InsertDesc(s, x)) == multiset(s) + multiset{x}
    decreases |s|
  {
    if s != [] && s[|s| - 1].priority < x.priority {
      InsertKeepsItems(s[..|s| - 1], x);
      assert s == s[..|s| - 1] + [s[|s| - 1]];
    }
  }

  lemma {:induction false} InsertKeepsOrder(s: seq<Route>, x: Route)
    requires SortedDesc(s)
    ensures SortedDesc(InsertDesc(s, x))
    decreases |s|
  {
    if s != [] && s[|s| - 1].priority < x.priority {
      var init, last := s[..|s| - 1], s[|s| - 1];
      InsertKeepsOrder(init, x);
      InsertKeepsItems(init, x);
      var r := InsertDesc(init, x);
      forall i | 0 <= i < |r| ensures r[i].priority >= last.priority {
        assert r[i] in multiset(r);
        if r[i] != x {
          assert r[i] in multiset(init);
          var j :| 0 <= j < |init| && init[j] == r[i];
          assert s[j] == init[j];
        }
      }
    }
  }

  lemma {:induction false} InsertStable(s: seq<Route>, x: Route, p: int)
    ensures WithPriority(InsertDesc(s, x), p) == WithPriority(s, p) + WithPriority([x], p)
    decreases |s|
  {
    if s == [] || s[|s| - 1].priority >= x.priority {
      WithPriorityAppend(s, [x], p);
    } else {
      var init, last := s[..|s| - 1], s[|s| - 1];
      InsertStable(init, x, p);
      WithPriorityAppend(InsertDesc(init, x), [last], p);
      assert [x][..0] == [] && [last][..0] == [];
      assert WithPriority([x], p) + WithPriority([last], p) == WithPriority([last], p) + WithPriority([x], p);
    }
  }

  /** The sorted list is in non-increasing priority order and holds exactly the
      given routes. */
  lemma {:induction false} SortDescSortsAndPermutes(s: seq<Route>)
    ensures SortedDesc(SortDesc(s))
    ensures multiset(SortDesc(s)) == multiset(s)
    decreases |s|
  {
    if s != [] {
      SortDescSortsAndPermutes(s[..|s| - 1]);
      InsertKeepsOrder(SortDesc(s[..|s| - 1]), s[|s| - 1]);
      InsertKeepsItems(SortDesc(s[..|s| - 1]), s[|s| - 1]);
      assert s == s[..|s| - 1] + [s[|s| - 1]];
    }
  }

  /** Sorting is stable: the routes of each priority keep their order. */
  lemma {:induction false} SortDescStable(s: seq<Route>, p: int)
    ensures WithPriority(SortDesc(s), p) == WithPriority(s, p)
    decreases |s|
  {
    if s != [] {
      SortDescStable(s[..|s| - 1], p);
      InsertStable(SortDesc(s[..|s| - 1]), s[|s| - 1], p);
      assert [s[|s| - 1]][..0] == [];
    }
  }

  class Bridge {
    var routes: seq<Route>

    ghost predicate Valid()
      reads this
    {
      SortedDesc(routes)
    }

    constructor ()
      ensures routes == [] && Valid()
    {
      routes := [];
    }

    /** `add_route`: append, then re-sort. */
    method AddRoute(route: Route)
      modifies this
      ensures routes == SortDesc(old(routes) + [route])
      ensures Valid()
      ensures multiset(routes) == multiset(old(routes)) + multiset{route}
      ensures forall p :: WithPriority(routes, p) == WithPriority(old(routes), p) + WithPriority([route], p)
    {
      var appended := routes + [route];
      routes := SortDesc(appended);
      SortDescSortsAndPermutes(appended);
      forall p ensures WithPriority(routes, p) == WithPriority(old(routes), p) + WithPriority([route], p) {
        SortDescStable(appended, p);
        WithPriorityAppend(old(routes), [route], p);
      }
    }

    /** `get_active_route`: the first route whose check passes is marked active and
        returned. */
    method GetActiveRoute() returns (r: Result<Route, string>)
      modifies routes
      ensures r.Err? <==> FirstReachable(routes).None?
      ensures r.Err? ==> r.error == "No active route available"
      ensures r.Ok? ==> r.value == routes[FirstReachable(routes).value] && r.value.active
      ensures forall k :: 0 <= k < |routes| && (r.Err? || routes[k] != r.value) ==> routes[k].active == old(routes[k].active)
    {
      var i := 0;
      while i < |routes|
        invariant 0 <= i <= |routes|
        invariant forall k :: 0 <= k < i ==> !routes[k].reachable
        invariant forall k :: 0 <= k < |routes| ==> routes[k].active == old(routes[k].active)
      {
        var ok := routes[i].Check();
        if ok {
          FirstReachableIs(routes, i);
          routes[i].active := true;
          return Ok(routes[i]);
        }
        i := i + 1;
      }
      FirstReachableIs(routes, i);
      return Err("No active route available");
    }
  }

  /** The index of the first reachable route. */
  function FirstReachable(s: seq<Route>): (r: Option<nat>)
    ensures r.Some? ==> r.value < |s| && s[r.value].reachable
  {
    if s == [] then None
    else if s[0].reachable then Some(0)
    else match FirstReachable(s[1..])
      case None => None
      case Some(k) => Some(k + 1)
  }

  /** `FirstReachable` is the first: every route before index `i` is unreachable,
      and `i` is reachable or the end of the list. */
  lemma {:induction false} FirstReachableIs(s: seq<Route>, i: nat)
    requires i <= |s| && forall k :: 0 <= k < i ==> !s[k].reachable
    requires i < |s| ==> s[i].reachable
    ensures FirstReachable(s) == if i == |s| then None else Some(i)
    decreases i
  {
    if i > 0 {
      FirstReachableIs(s[1..], i - 1);
    }
  }

  /** Since every route's check passes, `get_active_route` picks the first route,
      and on a sorted list that route has the highest priority. */
  lemma FirstRouteChosen(s: seq<Route>)
    requires s != [] && forall k :: 0 <= k < |s| ==> s[k].reachable
    ensures FirstReachable(s) == Some(0)
    ensures SortedDesc(s) ==> forall k :: 0 <= k < |s| ==> s[0].priority >= s[k].priority
  {
  }

  /** `demo`: a bridge with the single route "local" activates that route. */
  method Demo() returns (active: Result<Route, string>)
    ensures active.Ok? && active.value.name == "local" && active.value.active
  {
    var bridge := new Bridge();
    var local := new Route("local", 1);
    bridge.AddRoute(local);
    assert bridge.routes == [local];
    FirstReachableIs(bridge.routes, 0);
    active := bridge.GetActiveRoute();
  }
}
