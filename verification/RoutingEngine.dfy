/** The routing engine as the object it is: a vector of candidates edited in place. */
module RoutingEngines {
  import opened Basics
  import IpPrefixes
  import opened Routes
  import PeerTable

  /** Walks a path and stops at the first hop seen before. */
  method RepeatsNoHop(path: seq<NodeId>) returns (r: bool)
    ensures r <==> NoRepeats(path)
  {
    var seen: set<NodeId> := {};
    for i := 0 to |path|
      invariant NoRepeats(path[..i])
      invariant forall k :: 0 <= k < i ==> path[k] in seen
      invariant forall hop :: hop in seen ==> hop in path[..i]
    {
      if path[i] in seen {
        assert exists k :: 0 <= k < i && path[k] == path[i];
        return false;
      }
      seen := seen + {path[i]};
      assert path[..i + 1] == path[..i] + [path[i]];
    }
    assert path[..|path|] == path;
    return true;
  }

  class RoutingEngine {
    var routes: seq<Route>
    const maxRoutes: nat

    constructor (limit: nat)
      ensures routes == [] && maxRoutes == limit
    {
      routes := [];
      maxRoutes := limit;
    }

    method FindIndex(q: Query) returns (i: nat)
      ensures i == Find(routes, q)
    {
      i := 0;
      while i < |routes| && !Matches(q, routes[i])
        invariant i <= |routes|
        invariant forall k :: 0 <= k < i ==> !Matches(q, routes[k])
      {
        i := i + 1;
      }
    }

    method CountCandidates(prefix: IpPrefixes.Address, length: nat) returns (n: nat)
      ensures n == Count(routes, prefix, length)
    {
      n := 0;
      for i := 0 to |routes|
        invariant n == Count(routes[..i], prefix, length)
      {
        assert routes[..i + 1][..i] == routes[..i];
        if routes[i].prefix == prefix && routes[i].length == length {
          n := n + 1;
        }
      }
      assert routes[..|routes|] == routes;
    }

    method ShapeFits(route: Route) returns (r: bool)
      ensures r <==> PathFits(route)
    {
      if route.kind.UnknownHop? {
        return false;
      }
      if route.kind.Direct? {
        return route.nextHop == route.destination && route.path == [route.destination];
      }
      if route.nextHop == route.destination || |route.path| < 2 || route.path[0] != route.nextHop ||
         route.path[|route.path| - 1] != route.destination {
        return false;
      }
      r := RepeatsNoHop(route.path);
    }

    method AddRoute(route: Route) returns (r: bool)
      modifies this
      ensures routes == PeerTable.AddOrKeep(old(routes), maxRoutes, route)
      ensures r <==> Add(old(routes), maxRoutes, route).Some?
    {
      var fits := ShapeFits(route);
      if !IpPrefixes.ValidPrefix(route.prefix, route.length) || !fits || !InLimits(route) {
        return false;
      }
      var c := Candidate(route);
      var i := FindIndex(SameAs(c));
      if i < |routes| {
        routes := routes[i := Refreshed(routes[i], c)];
        return true;
      }
      if |routes| >= maxRoutes {
        return false;
      }
      var n := CountCandidates(c.prefix, c.length);
      if n >= MAX_CANDIDATES_PER_PREFIX {
        return false;
      }
      routes := routes + [c];
      return true;
    }

    method RemoveRoute(peer: NodeId)
      modifies this
      ensures routes == Kept(old(routes), ToOrVia(peer))
    {
      EraseIf(ToOrVia(peer));
    }

    method RemoveOlderLearnedRoutes(origin: NodeId, prefix: IpPrefixes.Address, length: nat, minimum: nat) returns (removed: nat)
      modifies this
      ensures routes == PeerTable.RemoveOlder(old(routes), origin, prefix, length, minimum)
      ensures removed == |old(routes)| - |routes|
    {
      if !IpPrefixes.ValidPrefix(prefix, length) {
        return 0;
      }
      var before := |routes|;
      KeptExactly(routes, Older(origin, IpPrefixes.Canonical(prefix, length), length, minimum));
      EraseIf(Older(origin, IpPrefixes.Canonical(prefix, length), length, minimum));
      return before - |routes|;
    }

    method ExpireLearnedRoutes(now: Time) returns (removed: nat)
      modifies this
      ensures routes == Kept(old(routes), Expired(now))
      ensures removed == |old(routes)| - |routes|
    {
      var before := |routes|;
      KeptExactly(routes, Expired(now));
      EraseIf(Expired(now));
      return before - |routes|;
    }

    method EraseIf(x: Removal)
      modifies this
      ensures routes == Kept(old(routes), x)
    {
      var kept := [];
      for i := 0 to |routes|
        invariant routes == old(routes)
        invariant kept == Kept(routes[..i], x)
      {
        assert routes[..i + 1][..i] == routes[..i];
        if !Drops(x, routes[i]) {
          kept := kept + [routes[i]];
        } else {
          assert kept + [] == kept;
        }
      }
      assert routes[..|routes|] == routes;
      routes := kept;
    }

    method RecordProbe(destination: NodeId, nextHop: NodeId, prefix: IpPrefixes.Address, length: nat, sequence: nat,
                       e: ProbeEvent) returns (r: bool)
      modifies this
      ensures r <==> Probed(old(routes), destination, nextHop, prefix, length, sequence, e).Some?
      ensures routes == if r then Probed(old(routes), destination, nextHop, prefix, length, sequence, e).value else old(routes)
    {
      if !IpPrefixes.ValidPrefix(prefix, length) || (e.Succeeded? && e.rtt < 0) {
        return false;
      }
      var i := FindIndex(Target(destination, nextHop, IpPrefixes.Canonical(prefix, length), length, sequence));
      if i == |routes| {
        return false;
      }
      routes := routes[i := routes[i].(probe := ProbeAfter(routes[i].probe, e))];
      return true;
    }

    method FindRoute(a: IpPrefixes.Address) returns (r: Option<Route>)
      ensures r == Lookup(routes, a)
    {
      var best := -1;
      for i := 0 to |routes|
        invariant -1 <= best < i
        invariant best == Best(routes[..i], a)
      {
        assert routes[..i + 1][..i] == routes[..i];
        var route := routes[i];
        var covered := IpPrefixes.Contains(IpPrefixes.Canonical(route.prefix, route.length), route.length, a);
        IpPrefixes.CanonicalCoversTheSame(route.prefix, route.length, a);
        if !route.probe.failed && covered {
          if best < 0 || Beats(route, routes[best]) {
            best := i;
          }
        }
      }
      assert routes[..|routes|] == routes;
      if best < 0 {
        return None;
      }
      if routes[best].kind.Relay? {
        var fits := ShapeFits(routes[best]);
        if !fits {
          return None;
        }
      }
      return Some(routes[best]);
    }
  }
}
