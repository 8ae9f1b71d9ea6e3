/** Route tables over real health objects (omni-proxy/src/proxy.rs): what one reload keeps by reference and what it makes. */
module LiveRoutes {
  import opened Wrappers
  import opened UpstreamHealth
  import opened RouteReload

  datatype LiveState = LiveState(upstreams: seq<Upstream>, health: seq<Health>)

  type LiveTable = map<string, LiveState>

  function Previous(t: LiveTable, prefix: string): Option<LiveState> { if prefix in t then Some(t[prefix]) else None }

  /** The object an earlier state has for the endpoint. */
  function KeptObject(previous: Option<LiveState>, e: Endpoint): Option<Health> {
    if previous.None? then None
    else
      match FindEndpoint(previous.value.upstreams, e)
      case Some(i) => if i < |previous.value.health| then Some(previous.value.health[i]) else None
      case None => None
  }

  /** The first place of the endpoint. */
  predicate IsFirst(upstreams: seq<Upstream>, e: Endpoint, i: int) {
    0 <= i < |upstreams| && upstreams[i].endpoint == e && forall k :: 0 <= k < i ==> upstreams[k].endpoint != e
  }

  /** It is the one at the first place the earlier state has for the endpoint, if that state has one there. */
  lemma KeptObjectIs(previous: LiveState, e: Endpoint, i: nat)
    requires IsFirst(previous.upstreams, e, i)
    ensures KeptObject(Some(previous), e) == if i < |previous.health| then Some(previous.health[i]) else None
  {
  }

  lemma NoKeptObject(previous: LiveState, e: Endpoint)
    requires forall k :: 0 <= k < |previous.upstreams| ==> previous.upstreams[k].endpoint != e
    ensures KeptObject(Some(previous), e) == KeptObject(None, e) == None
  {
  }

  /** The last route with the prefix, which is the one a map built in order ends up with. */
  function RouteFor(routes: seq<Route>, prefix: string): Option<Route> {
    if routes == [] then None
    else if routes[|routes| - 1].prefix == prefix then Some(routes[|routes| - 1])
    else RouteFor(routes[..|routes| - 1], prefix)
  }

  lemma {:induction false} RouteForIs(routes: seq<Route>, prefix: string, i: nat)
    requires i < |routes| && routes[i].prefix == prefix
    requires forall k :: i < k < |routes| ==> routes[k].prefix != prefix
    ensures RouteFor(routes, prefix) == Some(routes[i])
  {
    if i < |routes| - 1 { RouteForIs(routes[..|routes| - 1], prefix, i); }
  }

  lemma {:induction false} NoRouteFor(routes: seq<Route>, prefix: string)
    requires forall k :: 0 <= k < |routes| ==> routes[k].prefix != prefix
    ensures RouteFor(routes, prefix) == None
  {
    if routes != [] { NoRouteFor(routes[..|routes| - 1], prefix); }
  }

  predicate Known(previous: Option<LiveState>, s: LiveState, j: nat)
    requires j < |s.upstreams|
  {
    KeptObject(previous, s.upstreams[j].endpoint).Some?
  }

  /** One object per upstream, and the earlier one wherever there was one. */
  predicate Keeps(previous: Option<LiveState>, s: LiveState) {
    && |s.health| == |s.upstreams|
    && forall j :: 0 <= j < |s.upstreams| && Known(previous, s, j) ==>
         KeptObject(previous, s.upstreams[j].endpoint) == Some(s.health[j])
  }

  /** The object at this place has no predecessor in the old table. */
  predicate IsNew(before: LiveTable, t: LiveTable, p: string, j: int) {
    p in t && 0 <= j < |t[p].health| && |t[p].health| == |t[p].upstreams| && !Known(Previous(before, p), t[p], j)
  }

  method MergeLive(route: Route, previous: Option<LiveState>) returns (s: LiveState)
    ensures s.upstreams == route.upstreams && Keeps(previous, s)
    ensures forall j :: 0 <= j < |s.health| && !Known(previous, s, j) ==> fresh(s.health[j]) && s.health[j].failures == []
    ensures forall i, j :: 0 <= i < j < |s.health| && !Known(previous, s, i) && !Known(previous, s, j) ==>
              s.health[i] != s.health[j]
  {
    var upstreams, health: seq<Health> := route.upstreams, [];
    for i := 0 to |upstreams|
      invariant |health| == i
      invariant forall j :: 0 <= j < i ==>
                  var kept := KeptObject(previous, upstreams[j].endpoint);
                  if kept.Some? then health[j] == kept.value else fresh(health[j]) && health[j].failures == []
      invariant forall j, k :: 0 <= j < k < i && KeptObject(previous, upstreams[j].endpoint).None? && KeptObject(previous, upstreams[k].endpoint).None?
                  ==> health[j] != health[k]
    {
      var kept := KeptObject(previous, upstreams[i].endpoint);
      if kept.Some? {
        health := health + [kept.value];
      } else {
        var made := new Health();
        health := health + [made];
      }
    }
    return LiveState(upstreams, health);
  }

  class RoutesHandle {
    var table: LiveTable

    constructor ()
      ensures table == map[]
    {
      table := map[];
    }

    /**
     * Swaps in the table for a new configuration. An upstream whose prefix and endpoint the old table has keeps its
     * very object, every other upstream gets an empty new one of its own, and no existing object changes.
     */
    method Apply(routes: seq<Route>)
      modifies this
      ensures forall p :: p in table <==> RouteFor(routes, p).Some?
      ensures forall p :: p in table ==>
                table[p].upstreams == RouteFor(routes, p).value.upstreams && Keeps(Previous(old(table), p), table[p])
      ensures forall p, i, j :: p in table && p in old(table) && 0 <= j < |table[p].upstreams|
                && IsFirst(old(table)[p].upstreams, table[p].upstreams[j].endpoint, i) && i < |old(table)[p].health|
                ==> j < |table[p].health| && table[p].health[j] == old(table)[p].health[i]
      ensures forall p, j :: IsNew(old(table), table, p, j) ==> fresh(table[p].health[j]) && table[p].health[j].failures == []
      ensures forall p, i, q, j :: IsNew(old(table), table, p, i) && IsNew(old(table), table, q, j)
                ==> table[p].health[i] != table[q].health[j] || (p == q && i == j)
    {
      var merged: LiveTable := map[];
      for n := 0 to |routes|
        invariant table == old(table)
        invariant forall p :: p in merged <==> RouteFor(routes[..n], p).Some?
        invariant forall p :: p in merged ==>
                    merged[p].upstreams == RouteFor(routes[..n], p).value.upstreams && Keeps(Previous(table, p), merged[p])
        invariant forall p, j :: IsNew(table, merged, p, j) ==> fresh(merged[p].health[j]) && merged[p].health[j].failures == []
        invariant forall p, i, q, j :: IsNew(table, merged, p, i) && IsNew(table, merged, q, j)
                    ==> merged[p].health[i] != merged[q].health[j] || (p == q && i == j)
      {
        var route := routes[n];
        assert routes[..n + 1][..n] == routes[..n];
        var state := MergeLive(route, Previous(table, route.prefix));
        merged := merged[route.prefix := state];
      }
      assert routes[..|routes|] == routes;
      table := merged;
      forall p, i, j | p in table && p in old(table) && 0 <= j < |table[p].upstreams|
        && IsFirst(old(table)[p].upstreams, table[p].upstreams[j].endpoint, i) && i < |old(table)[p].health|
        ensures j < |table[p].health| && table[p].health[j] == old(table)[p].health[i]
      {
        KeptObjectIs(old(table)[p], table[p].upstreams[j].endpoint, i);
        assert Known(Previous(old(table), p), table[p], j);
      }
    }
  }

  /** The end of a request that holds the table `snapshot`: one object hears of it, if the place is there. */
  method Finish(snapshot: LiveTable, prefix: string, index: nat, failed: bool, now: int)
    modifies if prefix in snapshot && index < |snapshot[prefix].health| then {snapshot[prefix].health[index]} else {}
    ensures prefix in snapshot && index < |snapshot[prefix].health| ==>
              var h := snapshot[prefix].health[index];
              h.failures == if failed then Recorded(old(h.failures), now) else Forgiven(old(h.failures))
  {
    if prefix in snapshot && index < |snapshot[prefix].health| {
      var h := snapshot[prefix].health[index];
      if failed { h.RecordFailure(now); } else { h.RecordSuccess(); }
    }
  }
}
