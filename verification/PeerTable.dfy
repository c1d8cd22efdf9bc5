/**
 Gossiped peer tables and the effect of merging one advertised prefix into the routing table. Learned routes
 carry their origin's sequence number; a newer number replaces every candidate that carries an older one.
 */
module PeerTable {
  import opened Basics
  import opened IpPrefixes
  import opened Routes

  const MAX_PATH_HOPS := 8
  const MAX_PREFIXES := 16

  datatype AdvertisedPrefix = AdvertisedPrefix(prefix: Address, length: nat, sequence: nat, lease: nat, metric: nat)

  datatype AdvertisedPeer = AdvertisedPeer(nodeId: NodeId, key: PublicKey, path: seq<NodeId>,
                                           prefixes: seq<AdvertisedPrefix>)

  // ---------- what the serializer accepts ----------

  const MAX_PEERS := 128
  const MAX_WIRE_BYTES := 60 * 1024

  predicate RecordOk(ap: AdvertisedPrefix) {
    ValidPrefix(ap.prefix, ap.length) && ap.sequence != 0 && 0 < ap.lease <= MAX_LEASE && ap.metric <= MAX_METRIC
  }

  function EntrySize(hops: nat, prefixes: nat): nat {
    67 + 32 * hops + 34 * prefixes
  }

  function TableSize(peers: seq<AdvertisedPeer>): (r: nat)
    ensures r >= 3
  {
    if peers == [] then 3
    else
      var last := peers[|peers| - 1];
      TableSize(peers[..|peers| - 1]) + EntrySize(|last.path|, |last.prefixes|)
  }

  predicate EntryOk(p: AdvertisedPeer) {
    |p.path| <= MAX_PATH_HOPS && |p.prefixes| <= MAX_PREFIXES && forall ap :: ap in p.prefixes ==> RecordOk(ap)
  }

  predicate Serializable(peers: seq<AdvertisedPeer>) {
    |peers| <= MAX_PEERS && TableSize(peers) <= MAX_WIRE_BYTES && forall p :: p in peers ==> EntryOk(p)
  }

  // ---------- paths ----------

  /** The path to an advertised peer: through the sender, then along the sender's own path. */
  function RelayPath(sender: NodeId, p: AdvertisedPeer): (r: seq<NodeId>)
    ensures |r| >= 2 && r[0] == sender
  {
    [sender] + if p.path == [] then [p.nodeId] else p.path
  }

  predicate PathOk(path: seq<NodeId>, self: NodeId, nodeId: NodeId)
    requires path != []
  {
    path[|path| - 1] == nodeId && self !in path && NoRepeats(path)
  }

  predicate PrefixOk(ap: AdvertisedPrefix) {
    && ap.length <= BitWidth(ap.prefix.family) && ap.sequence != 0 && 0 < ap.lease <= MAX_LEASE
    && ap.metric < MAX_METRIC
  }

  function RelayRoute(nodeId: NodeId, path: seq<NodeId>, ap: AdvertisedPrefix, now: Time): Route
    requires path != []
  {
    Route(ap.prefix, ap.length, Relay, path[0], nodeId, path, nodeId, path[0], ap.sequence, ap.lease, ap.metric + 1,
          now, UNPROBED)
  }

  // ---------- what is already held for one origin and prefix ----------

  datatype Entry = Entry(origin: NodeId, prefix: Address, length: nat)

  predicate Belongs(r: Route, e: Entry) {
    r.kind.Relay? && r.prefix == e.prefix && r.length == e.length && r.origin == e.origin
  }

  function Highest(routes: seq<Route>, e: Entry): nat {
    if routes == [] then 0
    else
      var last := routes[|routes| - 1];
      var h := Highest(routes[..|routes| - 1], e);
      if Belongs(last, e) && last.sequence > h then last.sequence else h
  }

  lemma {:induction false} HighestIsMaximum(routes: seq<Route>, e: Entry)
    ensures forall r :: r in routes && Belongs(r, e) ==> r.sequence <= Highest(routes, e)
    ensures Highest(routes, e) > 0 ==> exists r :: r in routes && Belongs(r, e) && r.sequence == Highest(routes, e)
  {
    if routes != [] {
      var n := |routes| - 1;
      HighestIsMaximum(routes[..n], e);
      assert routes == routes[..n] + [routes[n]];
    }
  }

  function RemoveOlder(routes: seq<Route>, origin: NodeId, prefix: Address, length: nat, minimum: nat): seq<Route> {
    if !ValidPrefix(prefix, length) then routes
    else Kept(routes, Older(origin, Canonical(prefix, length), length, minimum))
  }

  // ---------- merging one prefix ----------

  datatype Outcome = BadPrefix | NoPath | Stale | Conflicting | LeaseRefreshed | Installed | NoRoom

  /** What a snapshot of the table calls for: nothing, a refresh, or a new candidate that does or does not supersede. */
  datatype Plan = Skip(outcome: Outcome) | Refresh(route: Route) | Replace(route: Route) | Install(route: Route)

  function Decide(routes: seq<Route>, nodeId: NodeId, path: seq<NodeId>, pathOk: bool, ap: AdvertisedPrefix, now: Time): Plan
    requires path != []
  {
    var route := RelayRoute(nodeId, path, ap, now);
    var highest := Highest(routes, Entry(nodeId, Canonical(ap.prefix, ap.length), ap.length));
    var i := Find(routes, SameAs(Candidate(route)));
    if !PrefixOk(ap) then Skip(BadPrefix)
    else if !pathOk then Skip(NoPath)
    else if ap.sequence < highest then Skip(Stale)
    else if i < |routes| && ap.sequence == routes[i].sequence then
      if path != routes[i].path || route.metric != routes[i].metric then Skip(Conflicting) else Refresh(route)
    else if ap.sequence > highest then Replace(route)
    else Install(route)
  }

  /** The table without what a route supersedes. */
  function Superseded(routes: seq<Route>, route: Route): seq<Route> {
    RemoveOlder(routes, route.origin, route.prefix, route.length, route.sequence)
  }

  /** One prefix merged with nothing between the snapshot, the removal and the addition. */
  function MergePrefix(routes: seq<Route>, maxRoutes: nat, nodeId: NodeId, path: seq<NodeId>, pathOk: bool,
                       ap: AdvertisedPrefix, now: Time): (seq<Route>, Outcome)
    requires path != []
  {
    match Decide(routes, nodeId, path, pathOk, ap, now)
    case Skip(outcome) => (routes, outcome)
    case Refresh(route) => (AddOrKeep(routes, maxRoutes, route), LeaseRefreshed)
    case Replace(route) => Added(Superseded(routes, route), maxRoutes, route)
    case Install(route) => Added(routes, maxRoutes, route)
  }

  function Added(base: seq<Route>, maxRoutes: nat, route: Route): (seq<Route>, Outcome) {
    match Add(base, maxRoutes, route)
    case None => (base, NoRoom)
    case Some(after) => (after, Installed)
  }

  function AddOrKeep(routes: seq<Route>, maxRoutes: nat, route: Route): seq<Route> {
    var r := Add(routes, maxRoutes, route);
    if r.Some? then r.value else routes
  }

  // ---------- freshness ----------

  /** Learned candidates come from their destination, and all those of one entry carry one sequence number. */
  ghost predicate Fresh(routes: seq<Route>) {
    && (forall r :: r in routes && r.kind.Relay? ==> r.origin == r.destination)
    && (forall r, q, e :: r in routes && q in routes && Belongs(r, e) && Belongs(q, e) ==> r.sequence == q.sequence)
  }

  /** The route built from a good advertisement along a good path is acceptable but for its address family. */
  lemma RelayRouteAcceptable(self: NodeId, nodeId: NodeId, path: seq<NodeId>, ap: AdvertisedPrefix, now: Time)
    requires |path| >= 2 && PathOk(path, self, nodeId) && PrefixOk(ap)
    ensures Acceptable(RelayRoute(nodeId, path, ap, now)) <==> !ap.prefix.family.OtherFamily?
    ensures Candidate(RelayRoute(nodeId, path, ap, now)) ==
            RelayRoute(nodeId, path, ap, now).(prefix := Canonical(ap.prefix, ap.length))
  {
    assert path[0] != path[|path| - 1];
  }

  lemma MergeKeepsTable(routes: seq<Route>, maxRoutes: nat, nodeId: NodeId, path: seq<NodeId>, pathOk: bool,
                        ap: AdvertisedPrefix, now: Time)
    requires TableOk(routes, maxRoutes) && path != []
    ensures TableOk(MergePrefix(routes, maxRoutes, nodeId, path, pathOk, ap, now).0, maxRoutes)
  {
    var route := RelayRoute(nodeId, path, ap, now);
    var base := RemoveOlder(routes, nodeId, ap.prefix, ap.length, ap.sequence);
    KeptKeepsTable(routes, maxRoutes, Older(nodeId, Canonical(ap.prefix, ap.length), ap.length, ap.sequence));
    AddKeepsTable(routes, maxRoutes, route);
    AddKeepsTable(base, maxRoutes, route);
  }

  /** The table after an install: the new candidate, and what it neither replaces nor outdates. */
  ghost predicate InstallsOnly(routes: seq<Route>, c: Route, after: seq<Route>) {
    && (exists stored :: stored in after && SameCandidate(c, stored) && stored.origin == c.origin && stored.sequence == c.sequence)
    && (forall r :: r in after ==>
          || (SameCandidate(c, r) && r.origin == c.origin && r.sequence == c.sequence)
          || (r in routes && !SameCandidate(c, r) && !Drops(Older(c.origin, c.prefix, c.length, c.sequence), r)))
    && (forall r :: r in routes && !SameCandidate(c, r) && !Drops(Older(c.origin, c.prefix, c.length, c.sequence), r) ==> r in after)
  }

  lemma AddInstallsOnly(routes: seq<Route>, base: seq<Route>, maxRoutes: nat, route: Route)
    requires Distinct(base) && Add(base, maxRoutes, route).Some?
    requires var c := Candidate(route);
      forall r :: r in base <==> r in routes && !Drops(Older(c.origin, c.prefix, c.length, c.sequence), r)
    ensures InstallsOnly(routes, Candidate(route), Add(base, maxRoutes, route).value)
  {
    var c := Candidate(route);
    AddExactly(base, maxRoutes, route);
    assert Stored(base, c) in Add(base, maxRoutes, route).value;
  }

  /** No candidate of this entry is older than the advertisement, or the older ones are gone from the base. */
  lemma BaseExactly(routes: seq<Route>, maxRoutes: nat, nodeId: NodeId, ap: AdvertisedPrefix)
    requires TableOk(routes, maxRoutes) && Fresh(routes) && ValidPrefix(ap.prefix, ap.length)
    requires ap.sequence >= Highest(routes, Entry(nodeId, Canonical(ap.prefix, ap.length), ap.length))
    ensures var e := Entry(nodeId, Canonical(ap.prefix, ap.length), ap.length);
      var base := if ap.sequence > Highest(routes, e) then RemoveOlder(routes, nodeId, ap.prefix, ap.length, ap.sequence) else routes;
      Distinct(base) && forall r :: r in base <==> r in routes && !Drops(Older(nodeId, e.prefix, ap.length, ap.sequence), r)
  {
    var e := Entry(nodeId, Canonical(ap.prefix, ap.length), ap.length);
    var x := Older(nodeId, e.prefix, ap.length, ap.sequence);
    KeptExactly(routes, x);
    KeptDistinct(routes, x);
    HighestIsMaximum(routes, e);
    if ap.sequence == Highest(routes, e) {
      forall r | r in routes ensures !Drops(x, r) {
        assert Drops(x, r) ==> Belongs(r, e);
      }
    }
  }

  lemma InstallKeepsFresh(routes: seq<Route>, c: Route, after: seq<Route>)
    requires Fresh(routes) && InstallsOnly(routes, c, after) && c.kind.Relay? && c.origin == c.destination
    requires Highest(routes, Entry(c.origin, c.prefix, c.length)) <= c.sequence
    ensures Fresh(after)
  {
    var own := Entry(c.origin, c.prefix, c.length);
    HighestIsMaximum(routes, own);
    forall r, e | r in after && Belongs(r, e) ensures e == own ==> r.sequence == c.sequence {
    }
    forall r, q, e | r in after && q in after && Belongs(r, e) && Belongs(q, e) ensures r.sequence == q.sequence {
      if e != own {
        assert r in routes && q in routes;
      }
    }
  }

  /** An install never lowers the number held for any entry, and raises its own to the advertised one. */
  lemma InstallNeverLowers(routes: seq<Route>, c: Route, after: seq<Route>, e: Entry)
    requires Fresh(routes) && InstallsOnly(routes, c, after) && c.kind.Relay? && c.origin == c.destination
    requires Highest(routes, Entry(c.origin, c.prefix, c.length)) <= c.sequence
    ensures Highest(after, e) >= Highest(routes, e)
    ensures e == Entry(c.origin, c.prefix, c.length) ==> Highest(after, e) == c.sequence
  {
    var own := Entry(c.origin, c.prefix, c.length);
    HighestIsMaximum(routes, e);
    HighestIsMaximum(after, e);
    if e == own {
      var stored :| stored in after && SameCandidate(c, stored) && stored.origin == c.origin && stored.sequence == c.sequence;
      assert Belongs(stored, own);
    } else if Highest(routes, e) > 0 {
      var r :| r in routes && Belongs(r, e) && r.sequence == Highest(routes, e);
      assert r in after;
    }
  }

  /** Removing the superseded candidates always frees the room the new one needs. */
  lemma SupersededMakeRoom(routes: seq<Route>, maxRoutes: nat, route: Route, held: Route)
    requires TableOk(routes, maxRoutes) && Acceptable(route) && Candidate(route).origin == route.origin
    requires held in routes && Drops(Older(route.origin, Candidate(route).prefix, route.length, route.sequence), held)
    ensures Add(RemoveOlder(routes, route.origin, route.prefix, route.length, route.sequence), maxRoutes, route).Some?
  {
    var x := Older(route.origin, Candidate(route).prefix, route.length, route.sequence);
    KeptExactly(routes, x);
    KeptFreesRoom(routes, x, held);
  }

  // ---------- what one merged prefix does ----------

  lemma RefreshInstallsOnly(routes: seq<Route>, maxRoutes: nat, self: NodeId, nodeId: NodeId, path: seq<NodeId>,
                            ap: AdvertisedPrefix, now: Time)
    requires TableOk(routes, maxRoutes) && Fresh(routes) && |path| >= 2 && PathOk(path, self, nodeId) && PrefixOk(ap)
    requires var i := Find(routes, SameAs(Candidate(RelayRoute(nodeId, path, ap, now))));
      i < |routes| && ap.sequence == routes[i].sequence
    ensures var route := RelayRoute(nodeId, path, ap, now);
      Add(routes, maxRoutes, route).Some? && InstallsOnly(routes, Candidate(route), Add(routes, maxRoutes, route).value)
  {
    var route := RelayRoute(nodeId, path, ap, now);
    var c := Candidate(route);
    RelayRouteAcceptable(self, nodeId, path, ap, now);
    var held := routes[Find(routes, SameAs(c))];
    assert held in routes && RouteOk(held);
    var e := Entry(nodeId, c.prefix, c.length);
    forall r | r in routes ensures !Drops(Older(c.origin, c.prefix, c.length, c.sequence), r) {
      assert Belongs(held, e) && (Belongs(r, e) ==> r.sequence == held.sequence);
    }
    AddInstallsOnly(routes, routes, maxRoutes, route);
  }

  lemma NewInstallsOnly(routes: seq<Route>, maxRoutes: nat, self: NodeId, nodeId: NodeId, path: seq<NodeId>,
                        ap: AdvertisedPrefix, now: Time)
    requires TableOk(routes, maxRoutes) && Fresh(routes) && |path| >= 2 && PathOk(path, self, nodeId) && PrefixOk(ap)
    requires MergePrefix(routes, maxRoutes, nodeId, path, true, ap, now).1.Installed?
    ensures InstallsOnly(routes, Candidate(RelayRoute(nodeId, path, ap, now)),
                         MergePrefix(routes, maxRoutes, nodeId, path, true, ap, now).0)
  {
    var route := RelayRoute(nodeId, path, ap, now);
    RelayRouteAcceptable(self, nodeId, path, ap, now);
    BaseExactly(routes, maxRoutes, nodeId, ap);
    var e := Entry(nodeId, Canonical(ap.prefix, ap.length), ap.length);
    var base := if ap.sequence > Highest(routes, e) then RemoveOlder(routes, nodeId, ap.prefix, ap.length, ap.sequence) else routes;
    AddInstallsOnly(routes, base, maxRoutes, route);
  }

  /** Where nothing finds room, nothing makes way either. */
  lemma NothingMakesWay(routes: seq<Route>, maxRoutes: nat, route: Route)
    requires TableOk(routes, maxRoutes) && (ValidPrefix(route.prefix, route.length) ==> Acceptable(route) && Candidate(route).origin == route.origin)
    requires Add(Superseded(routes, route), maxRoutes, route).None?
    ensures Superseded(routes, route) == routes
  {
    if ValidPrefix(route.prefix, route.length) {
      var x := Older(route.origin, Candidate(route).prefix, route.length, route.sequence);
      forall held | held in routes ensures !Drops(x, held) {
        if Drops(x, held) {
          SupersededMakeRoom(routes, maxRoutes, route, held);
        }
      }
      NothingDropped(routes, x);
    }
  }

  /** When an uninterrupted merge finds no room for a new candidate, nothing was removed for it either. */
  lemma NoRoomChangesNothing(routes: seq<Route>, maxRoutes: nat, self: NodeId, nodeId: NodeId, path: seq<NodeId>,
                             ap: AdvertisedPrefix, now: Time)
    requires TableOk(routes, maxRoutes) && |path| >= 2 && PathOk(path, self, nodeId)
    requires MergePrefix(routes, maxRoutes, nodeId, path, true, ap, now).1.NoRoom?
    ensures MergePrefix(routes, maxRoutes, nodeId, path, true, ap, now).0 == routes
  {
    RelayRouteAcceptable(self, nodeId, path, ap, now);
    if Decide(routes, nodeId, path, true, ap, now).Replace? {
      NothingMakesWay(routes, maxRoutes, RelayRoute(nodeId, path, ap, now));
    }
  }

  /** An uninterrupted merge of one prefix either leaves the table alone or installs exactly its own candidate. */
  lemma MergeEffect(routes: seq<Route>, maxRoutes: nat, self: NodeId, nodeId: NodeId, path: seq<NodeId>, pathOk: bool,
                    ap: AdvertisedPrefix, now: Time)
    requires TableOk(routes, maxRoutes) && Fresh(routes) && |path| >= 2 && (pathOk ==> PathOk(path, self, nodeId))
    ensures var (after, outcome) := MergePrefix(routes, maxRoutes, nodeId, path, pathOk, ap, now);
      var c := Candidate(RelayRoute(nodeId, path, ap, now));
      if outcome.Installed? || outcome.LeaseRefreshed?
      then pathOk && PrefixOk(ap) && Highest(routes, Entry(c.origin, c.prefix, c.length)) <= c.sequence
        && InstallsOnly(routes, c, after)
      else after == routes
  {
    var outcome := MergePrefix(routes, maxRoutes, nodeId, path, pathOk, ap, now).1;
    if pathOk && PrefixOk(ap) {
      RelayRouteAcceptable(self, nodeId, path, ap, now);
      if outcome.LeaseRefreshed? {
        RefreshInstallsOnly(routes, maxRoutes, self, nodeId, path, ap, now);
      } else if outcome.Installed? {
        NewInstallsOnly(routes, maxRoutes, self, nodeId, path, ap, now);
      } else if outcome.NoRoom? {
        NoRoomChangesNothing(routes, maxRoutes, self, nodeId, path, ap, now);
      }
    }
  }

  /** An uninterrupted merge keeps one sequence number per entry and never lowers any entry's. */
  lemma MergeKeepsFresh(routes: seq<Route>, maxRoutes: nat, self: NodeId, nodeId: NodeId, path: seq<NodeId>, pathOk: bool,
                        ap: AdvertisedPrefix, now: Time)
    requires TableOk(routes, maxRoutes) && Fresh(routes) && |path| >= 2 && (pathOk ==> PathOk(path, self, nodeId))
    ensures var after := MergePrefix(routes, maxRoutes, nodeId, path, pathOk, ap, now).0;
      Fresh(after) && forall e :: Highest(after, e) >= Highest(routes, e)
  {
    var (after, outcome) := MergePrefix(routes, maxRoutes, nodeId, path, pathOk, ap, now);
    var c := Candidate(RelayRoute(nodeId, path, ap, now));
    MergeEffect(routes, maxRoutes, self, nodeId, path, pathOk, ap, now);
    if outcome.Installed? || outcome.LeaseRefreshed? {
      RelayRouteAcceptable(self, nodeId, path, ap, now);
      InstallKeepsFresh(routes, c, after);
      forall e ensures Highest(after, e) >= Highest(routes, e) {
        InstallNeverLowers(routes, c, after, e);
      }
    }
  }
}
