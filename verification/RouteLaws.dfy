/** What each operation on the routing table means, stated in the fields of the routes themselves. */
module RouteLaws {
  import opened Basics
  import opened IpPrefixes
  import opened Routes

  /** What an accepted route looks like. */
  lemma AcceptedShape(r: Route)
    ensures Acceptable(r) <==>
      && r.prefix.family in {IPv4, IPv6} && r.length <= BitWidth(r.prefix.family)
      && r.sequence >= 1 && 1 <= r.lease <= 600 && r.metric <= 1_000_000
      && ((r.kind == Direct && r.nextHop == r.destination && r.path == [r.destination])
          || (r.kind == Relay && r.nextHop != r.destination && |r.path| >= 2 && r.path[0] == r.nextHop
              && r.path[|r.path| - 1] == r.destination
              && forall i, j :: 0 <= i < j < |r.path| ==> r.path[i] != r.path[j]))
  {
  }

  /** A route is taken if and only if it is acceptable and either refreshes a candidate or finds room. */
  lemma AddAccepts(routes: seq<Route>, maxRoutes: nat, route: Route)
    ensures Add(routes, maxRoutes, route).Some? <==>
      && Acceptable(route)
      && ((exists r :: r in routes && Refreshes(route, r))
          || (|routes| < maxRoutes && Count(routes, Canonical(route.prefix, route.length), route.length) < 8))
  {
    var c := Candidate(route);
    var i := Find(routes, SameAs(c));
    if i < |routes| {
      assert routes[i] in routes && Refreshes(route, routes[i]);
    }
  }

  /** Same prefix, kind, next hop and destination. */
  predicate Refreshes(route: Route, r: Route) {
    && r.prefix == Canonical(route.prefix, route.length) && r.length == route.length && r.kind == route.kind
    && r.nextHop == route.nextHop && r.destination == route.destination
  }

  /** The route as it is stored, whatever probing has found. */
  ghost predicate StoredAs(route: Route, r: Route) {
    && r.prefix == Canonical(route.prefix, route.length) && r.length == route.length && r.kind == route.kind
    && r.nextHop == route.nextHop && r.destination == route.destination && r.path == route.path
    && r.origin == (if route.origin == ZERO_NODE then route.destination else route.origin)
    && r.advertiser == (if route.advertiser == ZERO_NODE then route.nextHop else route.advertiser)
    && r.sequence == route.sequence && r.lease == route.lease && r.metric == route.metric && r.validatedAt == route.validatedAt
  }

  /**
   After an accepted add the route is stored as given, with the probe state of the candidate it refreshes at the same
   sequence number and its own otherwise, and every other candidate is what it was.
   */
  lemma AddStores(routes: seq<Route>, maxRoutes: nat, route: Route)
    requires Distinct(routes) && Add(routes, maxRoutes, route).Some?
    ensures var after := Add(routes, maxRoutes, route).value;
      && (exists r :: r in after && StoredAs(route, r)
            && (r.probe == route.probe
                || exists was :: was in routes && Refreshes(route, was) && was.sequence == route.sequence && r.probe == was.probe)
            && (forall was :: was in routes && Refreshes(route, was) && was.sequence == route.sequence ==> r.probe == was.probe))
      && (forall r :: r in after && Refreshes(route, r) ==> StoredAs(route, r))
      && (forall r :: !Refreshes(route, r) ==> (r in after <==> r in routes))
  {
    var c := Candidate(route);
    var i := Find(routes, SameAs(c));
    var after := Add(routes, maxRoutes, route).value;
    AddExactly(routes, maxRoutes, route);
    var r := Stored(routes, c);
    forall was | was in routes && Refreshes(route, was) ensures i < |routes| && was == routes[i] {
      var j :| 0 <= j < |routes| && routes[j] == was;
      assert SameCandidate(c, routes[j]);
    }
    if i < |routes| {
      assert routes[i] in routes && Refreshes(route, routes[i]);
    }
    assert r in after && StoredAs(route, r);
  }

  /** Removing a peer leaves no route to or through it and every other route. */
  lemma RemovedLeavesNone(routes: seq<Route>, peer: NodeId)
    ensures forall r :: r in Kept(routes, ToOrVia(peer)) <==> r in routes && r.destination != peer && r.nextHop != peer
  {
    KeptExactly(routes, ToOrVia(peer));
  }

  /** Expiry drops exactly the relay routes whose lease, in seconds, has passed since they were validated. */
  lemma ExpiryExactly(routes: seq<Route>, now: Time)
    ensures forall r :: r in Kept(routes, Expired(now)) <==>
      r in routes && (r.kind != Relay || now < r.validatedAt || now < r.validatedAt + 1000 * r.lease)
  {
    KeptExactly(routes, Expired(now));
  }

  /** The older routes of one origin and prefix go, and nothing else. */
  lemma OutdatedExactly(routes: seq<Route>, origin: NodeId, prefix: Address, length: nat, minimum: nat)
    ensures forall r :: r in Kept(routes, Older(origin, prefix, length, minimum)) <==>
      r in routes && (r.kind != Relay || r.origin != origin || r.prefix != prefix || r.length != length || minimum <= r.sequence)
  {
    KeptExactly(routes, Older(origin, prefix, length, minimum));
  }

  /** What is left keeps its order, so ties go to the same candidates as before. */
  lemma {:induction false} KeptInOrder(routes: seq<Route>, x: Removal, i: nat, j: nat)
    requires i < j < |Kept(routes, x)|
    ensures exists p, q :: 0 <= p < q < |routes| && routes[p] == Kept(routes, x)[i] && routes[q] == Kept(routes, x)[j]
  {
    var n := |routes| - 1;
    var shorter := Kept(routes[..n], x);
    if j < |shorter| {
      KeptInOrder(routes[..n], x, i, j);
      var p, q :| 0 <= p < q < n && routes[..n][p] == shorter[i] && routes[..n][q] == shorter[j];
      assert routes[p] == Kept(routes, x)[i] && routes[q] == Kept(routes, x)[j];
    } else {
      KeptExactly(routes[..n], x);
      assert shorter[i] in shorter && shorter[i] in routes[..n];
      var p :| 0 <= p < n && routes[..n][p] == shorter[i];
      assert routes[p] == Kept(routes, x)[i] && routes[n] == Kept(routes, x)[j];
    }
  }

  /** A probe event meets the one candidate with this identity, or none, and no other is touched. */
  lemma ProbeMeetsOne(routes: seq<Route>, maxRoutes: nat, r: Route, e: ProbeEvent)
    requires TableOk(routes, maxRoutes) && r in routes && !(e.Succeeded? && e.rtt < 0)
    ensures var after := Probed(routes, r.destination, r.nextHop, r.prefix, r.length, r.sequence, e);
      && after.Some? && |after.value| == |routes|
      && forall i :: 0 <= i < |routes| ==>
           after.value[i] == if routes[i] == r then r.(probe := AfterEvent(r.probe, e)) else routes[i]
  {
    assert RouteOk(r);
    var t := Target(r.destination, r.nextHop, r.prefix, r.length, r.sequence);
    var j :| 0 <= j < |routes| && routes[j] == r;
    var k := Find(routes, t);
    assert k <= j && routes[k] in routes && RouteOk(routes[k]);
    forall i | 0 <= i < |routes| && routes[i] == r ensures i == j {
      assert SameCandidate(r, r);
    }
  }

  /** A failure suppresses for thirty seconds; a success lifts that once they have passed, and counts from zero again. */
  function AfterEvent(p: Probe, e: ProbeEvent): Probe {
    match e
    case Sent(now) => Probe(Some(now), p.validatedAt, p.rtt, p.failed, p.failures, p.holdUntil)
    case Failed(now) =>
      Probe(p.sentAt, p.validatedAt, p.rtt, true, Min(p.failures + 1, Max(p.failures, 0xffff_ffff)), Some(now + 30_000))
    case Succeeded(now, rtt) =>
      if p.failed && (p.holdUntil.None? || now < p.holdUntil.value)
      then Probe(p.sentAt, Some(now), Some(rtt), true, p.failures, p.holdUntil)
      else Probe(p.sentAt, Some(now), Some(rtt), false, 0, None)
  }

  /** No candidate has this identity: the event changes nothing. */
  lemma ProbeMeetsNone(routes: seq<Route>, destination: NodeId, nextHop: NodeId, prefix: Address, length: nat, sequence: nat, e: ProbeEvent)
    requires forall r :: r in routes ==>
      r.destination != destination || r.nextHop != nextHop || r.prefix != Canonical(prefix, length) || r.length != length || r.sequence != sequence
    ensures Probed(routes, destination, nextHop, prefix, length, sequence, e).None?
  {
  }
}
