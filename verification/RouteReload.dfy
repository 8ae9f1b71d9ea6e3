/**
 * The route table across configuration reloads, with requests that still hold old tables (omni-proxy/src/proxy.rs).
 * Health objects are shared by reference; a number stands for each object.
 */
module RouteReload {
  import opened Wrappers
  import opened UpstreamHealth

  /** What makes two upstreams the same endpoint. */
  datatype Endpoint = Endpoint(tls: bool, addr: string, urlPath: string, urlQuery: Option<string>)
  datatype Upstream = Upstream(endpoint: Endpoint, timeoutMs: Option<nat>)
  datatype Route = Route(prefix: string, upstreams: seq<Upstream>)

  datatype RouteState = RouteState(upstreams: seq<Upstream>, health: seq<nat>)
  type Table = map<string, RouteState>

  /** The objects allocated so far, each with the route and endpoint it was made for. */
  type Owners = map<nat, (string, Endpoint)>
  datatype Alloc = Alloc(next: nat, owners: Owners)

  /** The first upstream of the list that is the same endpoint. */
  function FindEndpoint(upstreams: seq<Upstream>, e: Endpoint): (r: Option<nat>)
    ensures r.Some? ==> r.value < |upstreams| && upstreams[r.value].endpoint == e
    ensures r.Some? ==> forall i :: 0 <= i < r.value ==> upstreams[i].endpoint != e
    ensures r.None? ==> forall i :: 0 <= i < |upstreams| ==> upstreams[i].endpoint != e
  {
    if upstreams == [] then None
    else if upstreams[0].endpoint == e then Some(0)
    else match FindEndpoint(upstreams[1..], e) case Some(i) => Some(i + 1) case None => None
  }

  /** Whether the previous state has a health object for the endpoint, and which. */
  function Kept(previous: Option<RouteState>, e: Endpoint): Option<nat> {
    if previous.None? then None
    else
      match FindEndpoint(previous.value.upstreams, e)
      case Some(i) => if i < |previous.value.health| then Some(previous.value.health[i]) else None
      case None => None
  }

  function MergeHealth(prefix: string, upstreams: seq<Upstream>, previous: Option<RouteState>, a: Alloc): (r: (seq<nat>, Alloc))
    ensures |r.0| == |upstreams|
  {
    if upstreams == [] then ([], a)
    else
      var (health, b) := MergeHealth(prefix, upstreams[..|upstreams| - 1], previous, a);
      var e := upstreams[|upstreams| - 1].endpoint;
      match Kept(previous, e)
      case Some(id) => (health + [id], b)
      case None => (health + [b.next], Alloc(b.next + 1, b.owners[b.next := (prefix, e)]))
  }

  function Merge(route: Route, previous: Option<RouteState>, a: Alloc): (RouteState, Alloc) {
    var (health, b) := MergeHealth(route.prefix, route.upstreams, previous, a);
    (RouteState(route.upstreams, health), b)
  }

  function Get(t: Table, prefix: string): Option<RouteState> { if prefix in t then Some(t[prefix]) else None }

  function BuildRouteMap(routes: seq<Route>, previous: Table, a: Alloc): (Table, Alloc) {
    if routes == [] then (map[], a)
    else
      var (t, b) := BuildRouteMap(routes[..|routes| - 1], previous, a);
      var route := routes[|routes| - 1];
      var (state, c) := Merge(route, Get(previous, route.prefix), b);
      (t[route.prefix := state], c)
  }

  // ----- Tables in which every object belongs to its route and endpoint -----

  predicate Owned(t: Table, owners: Owners) { forall p | p in t :: OwnedState(p, t[p], owners) }

  predicate OwnedState(prefix: string, s: RouteState, owners: Owners) {
    && |s.health| == |s.upstreams|
    && forall j :: 0 <= j < |s.health| ==> s.health[j] in owners && owners[s.health[j]] == (prefix, s.upstreams[j].endpoint)
  }

  predicate AllocOk(a: Alloc) { forall id | id in a.owners :: id < a.next }

  predicate Extends(a: Alloc, b: Alloc) {
    a.next <= b.next && forall id | id in a.owners :: id in b.owners && b.owners[id] == a.owners[id]
  }

  lemma {:induction false} MergeOwns(prefix: string, upstreams: seq<Upstream>, previous: Option<RouteState>, a: Alloc)
    requires AllocOk(a) && (previous.Some? ==> OwnedState(prefix, previous.value, a.owners))
    ensures var (health, b) := MergeHealth(prefix, upstreams, previous, a);
            AllocOk(b) && Extends(a, b) && OwnedState(prefix, RouteState(upstreams, health), b.owners)
  {
    if upstreams != [] {
      MergeOwns(prefix, upstreams[..|upstreams| - 1], previous, a);
    }
  }

  lemma {:induction false} BuildOwns(routes: seq<Route>, previous: Table, a: Alloc)
    requires AllocOk(a) && Owned(previous, a.owners)
    ensures var (t, b) := BuildRouteMap(routes, previous, a); AllocOk(b) && Extends(a, b) && Owned(t, b.owners)
  {
    if routes != [] {
      var init, route := routes[..|routes| - 1], routes[|routes| - 1];
      BuildOwns(init, previous, a);
      var (t, b) := BuildRouteMap(init, previous, a);
      assert Get(previous, route.prefix).Some? ==> OwnedState(route.prefix, previous[route.prefix], b.owners);
      MergeOwns(route.prefix, route.upstreams, Get(previous, route.prefix), b);
    }
  }

  // ----- The object that stands for a route and endpoint -----

  function HealthOf(t: Table, prefix: string, e: Endpoint): Option<nat> { Kept(Get(t, prefix), e) }

  predicate Has(routes: seq<Route>, prefix: string, e: Endpoint) {
    exists i :: 0 <= i < |routes| && routes[i].prefix == prefix && FindEndpoint(routes[i].upstreams, e).Some?
  }

  /** A configuration names each prefix once. */
  predicate DistinctPrefixes(routes: seq<Route>) {
    forall i, j :: 0 <= i < j < |routes| ==> routes[i].prefix != routes[j].prefix
  }

  predicate DistinctEndpoints(upstreams: seq<Upstream>) {
    forall i, j :: 0 <= i < j < |upstreams| ==> upstreams[i].endpoint != upstreams[j].endpoint
  }

  lemma {:induction false} MergeKeeps(prefix: string, upstreams: seq<Upstream>, previous: Option<RouteState>, a: Alloc, j: nat)
    requires j < |upstreams| && Kept(previous, upstreams[j].endpoint).Some?
    ensures MergeHealth(prefix, upstreams, previous, a).0[j] == Kept(previous, upstreams[j].endpoint).value
  {
    if j < |upstreams| - 1 {
      MergeKeeps(prefix, upstreams[..|upstreams| - 1], previous, a, j);
    }
  }

  /** A reload keeps the object of every route and endpoint that both configurations have. */
  lemma {:induction false} BuildKeeps(routes: seq<Route>, previous: Table, a: Alloc, prefix: string, e: Endpoint)
    requires DistinctPrefixes(routes) && Has(routes, prefix, e) && HealthOf(previous, prefix, e).Some?
    ensures HealthOf(BuildRouteMap(routes, previous, a).0, prefix, e) == HealthOf(previous, prefix, e)
  {
    var init, route := routes[..|routes| - 1], routes[|routes| - 1];
    var (t, b) := BuildRouteMap(init, previous, a);
    var i :| 0 <= i < |routes| && routes[i].prefix == prefix && FindEndpoint(routes[i].upstreams, e).Some?;
    if i == |routes| - 1 {
      var j := FindEndpoint(route.upstreams, e).value;
      MergeKeeps(prefix, route.upstreams, Get(previous, prefix), b, j);
    } else {
      assert init[i] == routes[i];
      BuildKeeps(init, previous, a, prefix, e);
      assert route.prefix != prefix;
    }
  }

  /** A rebuilt table has the routes of the configuration, all of them, with their upstreams, and no others. */
  lemma {:induction false} BuildCovers(routes: seq<Route>, previous: Table, a: Alloc, prefix: string)
    requires DistinctPrefixes(routes)
    ensures var t := BuildRouteMap(routes, previous, a).0;
            && (prefix in t <==> exists i :: 0 <= i < |routes| && routes[i].prefix == prefix)
            && forall i :: 0 <= i < |routes| && routes[i].prefix == prefix ==> t[prefix].upstreams == routes[i].upstreams
  {
    if routes != [] {
      var init, route := routes[..|routes| - 1], routes[|routes| - 1];
      BuildCovers(init, previous, a, prefix);
      assert forall i :: 0 <= i < |init| ==> routes[i] == init[i];
      if route.prefix != prefix {
        assert prefix in BuildRouteMap(routes, previous, a).0 <==> prefix in BuildRouteMap(init, previous, a).0;
      }
    }
  }

  // ----- Reloads and requests -----

  /** A request in progress, with the table it loaded. */
  datatype Request = Request(table: Table, prefix: string, index: nat)

  datatype State = State(table: Table, alloc: Alloc, requests: map<nat, Request>, heap: map<nat, Failures>)

  datatype Action =
    | Reload(routes: seq<Route>)
    | Begin(request: nat, prefix: string, index: nat)
    | Finish(request: nat, failed: bool, now: int)
    | Examine(health: nat, window: nat, now: int)

  function Start(routes: seq<Route>): State {
    var (t, a) := BuildRouteMap(routes, map[], Alloc(0, map[]));
    State(t, a, map[], map[])
  }

  function DequeOf(s: State, id: nat): Failures { if id in s.heap then s.heap[id] else [] }

  /** The object a request reports to, if its table has one at that place. */
  function Target(r: Request): Option<nat> {
    if r.prefix in r.table && r.index < |r.table[r.prefix].health| then Some(r.table[r.prefix].health[r.index]) else None
  }

  predicate Enabled(s: State, a: Action) {
    match a
    case Reload(_) => true
    case Begin(r, _, _) => r !in s.requests
    case Finish(r, _, _) => r in s.requests
    case Examine(_, _, _) => true
  }

  function Step(s: State, a: Action): State
    requires Enabled(s, a)
  {
    match a
    case Reload(routes) =>
      var (t, alloc) := BuildRouteMap(routes, s.table, s.alloc);
      s.(table := t, alloc := alloc)
    case Begin(r, prefix, index) => s.(requests := s.requests[r := Request(s.table, prefix, index)])
    case Finish(r, failed, now) =>
      var done := s.(requests := s.requests - {r});
      (match Target(s.requests[r])
       case None => done
       case Some(id) =>
         done.(heap := s.heap[id := if failed then Recorded(DequeOf(s, id), now) else Forgiven(DequeOf(s, id))]))
    case Examine(id, window, now) => s.(heap := s.heap[id := Pruned(DequeOf(s, id), now, window)])
  }

  function Exec(s: State, acts: seq<Action>): Option<State>
    decreases |acts|
  {
    if acts == [] then Some(s)
    else if Enabled(s, acts[0]) then Exec(Step(s, acts[0]), acts[1..])
    else None
  }

  /** Every table in use, the newest and those requests still hold, is owned. */
  predicate Inv(s: State) {
    AllocOk(s.alloc) && Owned(s.table, s.alloc.owners) && forall r | r in s.requests :: Owned(s.requests[r].table, s.alloc.owners)
  }

  lemma OwnedLater(t: Table, a: Alloc, b: Alloc)
    requires Owned(t, a.owners) && Extends(a, b)
    ensures Owned(t, b.owners)
  {
    forall p | p in t ensures OwnedState(p, t[p], b.owners) {
      assert OwnedState(p, t[p], a.owners);
    }
  }

  lemma StepKeepsInv(s: State, a: Action)
    requires Inv(s) && Enabled(s, a)
    ensures Inv(Step(s, a))
  {
    if a.Reload? {
      BuildOwns(a.routes, s.table, s.alloc);
      var t := Step(s, a);
      forall r | r in t.requests ensures Owned(t.requests[r].table, t.alloc.owners) {
        OwnedLater(s.requests[r].table, s.alloc, t.alloc);
      }
    }
  }

  lemma {:induction false} ExecKeepsInv(s: State, acts: seq<Action>)
    requires Inv(s) && Exec(s, acts).Some?
    ensures Inv(Exec(s, acts).value)
    decreases |acts|
  {
    if acts != [] {
      StepKeepsInv(s, acts[0]);
      ExecKeepsInv(Step(s, acts[0]), acts[1..]);
    }
  }

  lemma StartIsOwned(routes: seq<Route>)
    ensures Inv(Start(routes))
  {
    BuildOwns(routes, map[], Alloc(0, map[]));
  }

  /**
   * No sharing: in every run, two places of any tables in use, old or new, that share a health object belong to
   * the same route prefix and the same endpoint.
   */
  lemma SharedHealthSameEndpoint(routes: seq<Route>, acts: seq<Action>, s: State, r: nat, p: string, i: nat, q: string, j: nat)
    requires Exec(Start(routes), acts) == Some(s) && r in s.requests
    requires p in s.table && i < |s.table[p].health|
    requires q in s.requests[r].table && j < |s.requests[r].table[q].health|
    requires s.table[p].health[i] == s.requests[r].table[q].health[j]
    ensures p == q && i < |s.table[p].upstreams| && j < |s.requests[r].table[q].upstreams|
    ensures s.table[p].upstreams[i].endpoint == s.requests[r].table[q].upstreams[j].endpoint
  {
    StartIsOwned(routes);
    ExecKeepsInv(Start(routes), acts);
    assert OwnedState(p, s.table[p], s.alloc.owners);
    assert OwnedState(q, s.requests[r].table[q], s.alloc.owners);
  }

  /** Within the newest table, too, and health stays parallel to the upstreams. */
  lemma NewestTableIsOwned(routes: seq<Route>, acts: seq<Action>, s: State, p: string, i: nat, q: string, j: nat)
    requires Exec(Start(routes), acts) == Some(s)
    requires p in s.table && q in s.table
    ensures |s.table[p].health| == |s.table[p].upstreams|
    ensures i < |s.table[p].health| && j < |s.table[q].health| && s.table[p].health[i] == s.table[q].health[j]
       ==> p == q && s.table[p].upstreams[i].endpoint == s.table[q].upstreams[j].endpoint
  {
    StartIsOwned(routes);
    ExecKeepsInv(Start(routes), acts);
    assert OwnedState(p, s.table[p], s.alloc.owners) && OwnedState(q, s.table[q], s.alloc.owners);
  }

  /** A reload is possible at any time: from then on new requests see the new routes, and earlier ones keep their tables. */
  lemma ReloadTakesEffect(s: State, routes: seq<Route>, i: nat, r: nat, index: nat)
    requires DistinctPrefixes(routes) && i < |routes| && r !in s.requests
    ensures Enabled(s, Reload(routes))
    ensures var t := Step(s, Reload(routes));
            && t.requests == s.requests && t.heap == s.heap && Enabled(t, Begin(r, routes[i].prefix, index))
            && var u := Step(t, Begin(r, routes[i].prefix, index));
               && r in u.requests && routes[i].prefix in u.requests[r].table
               && u.requests[r].table[routes[i].prefix].upstreams == routes[i].upstreams
               && (forall q | q in s.requests :: q in u.requests && u.requests[q] == s.requests[q])
  {
    BuildCovers(routes, s.table, s.alloc, routes[i].prefix);
  }

  /** The run reloads only configurations that have the route and endpoint, each prefix once. */
  predicate KeepsEndpoint(acts: seq<Action>, prefix: string, e: Endpoint) {
    forall k :: 0 <= k < |acts| && acts[k].Reload? ==> DistinctPrefixes(acts[k].routes) && Has(acts[k].routes, prefix, e)
  }

  /** Over any run that keeps a route and endpoint, the table keeps its health object. */
  lemma {:induction false} HealthSurvives(s: State, acts: seq<Action>, prefix: string, e: Endpoint)
    requires Exec(s, acts).Some? && KeepsEndpoint(acts, prefix, e) && HealthOf(s.table, prefix, e).Some?
    ensures HealthOf(Exec(s, acts).value.table, prefix, e) == HealthOf(s.table, prefix, e)
    decreases |acts|
  {
    if acts != [] {
      if acts[0].Reload? { BuildKeeps(acts[0].routes, s.table, s.alloc, prefix, e); }
      HealthSurvives(Step(s, acts[0]), acts[1..], prefix, e);
    }
  }

  predicate NeverFinishes(acts: seq<Action>, r: nat) {
    forall k :: 0 <= k < |acts| && acts[k].Finish? ==> acts[k].request != r
  }

  lemma {:induction false} RequestSurvives(s: State, acts: seq<Action>, r: nat)
    requires Exec(s, acts).Some? && NeverFinishes(acts, r) && r in s.requests
    ensures r in Exec(s, acts).value.requests && Exec(s, acts).value.requests[r] == s.requests[r]
    decreases |acts|
  {
    if acts != [] {
      assert !(acts[0].Finish? && acts[0].request == r);
      RequestSurvives(Step(s, acts[0]), acts[1..], r);
    }
  }

  /**
   * A request that began on table `s.table` and ends after any number of reloads that keep its route and endpoint
   * reports to the object the newest table uses for them, and to no other.
   */
  lemma OldRequestCountsInNewestTable(s: State, acts: seq<Action>, r: nat, prefix: string, index: nat, failed: bool, now: int)
    requires r in s.requests && s.requests[r] == Request(s.table, prefix, index)
    requires prefix in s.table && index < |s.table[prefix].upstreams| == |s.table[prefix].health|
    requires DistinctEndpoints(s.table[prefix].upstreams)
    requires Exec(s, acts).Some? && NeverFinishes(acts, r)
    requires KeepsEndpoint(acts, prefix, s.table[prefix].upstreams[index].endpoint)
    ensures var t := Exec(s, acts).value;
            var u := HealthOf(t.table, prefix, s.table[prefix].upstreams[index].endpoint);
            && Enabled(t, Finish(r, failed, now)) && u.Some?
            && DequeOf(Step(t, Finish(r, failed, now)), u.value)
               == (if failed then Recorded(DequeOf(t, u.value), now) else Forgiven(DequeOf(t, u.value)))
            && forall id :: id != u.value ==> DequeOf(Step(t, Finish(r, failed, now)), id) == DequeOf(t, id)
  {
    var e := s.table[prefix].upstreams[index].endpoint;
    assert FindEndpoint(s.table[prefix].upstreams, e) == Some(index);
    HealthSurvives(s, acts, prefix, e);
    RequestSurvives(s, acts, r);
  }
}
