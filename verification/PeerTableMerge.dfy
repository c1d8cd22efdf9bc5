/** The merge as it runs: loops over records that update the peer and routing tables in place. */
module PeerTableMerge {
  import opened Basics
  import IpPrefixes
  import Routes
  import opened PeerTable
  import opened PeerMerge
  import RoutingEngines

  const NO_STATS := Stats(0, 0, 0, 0, 0, 0, 0)

  class PeerManager {
    var peers: map<NodeId, Peer>
    const maxPeers: nat

    constructor (limit: nat)
      ensures peers == map[] && maxPeers == limit
    {
      peers := map[];
      maxPeers := limit;
    }

    method UpsertPeer(nodeId: NodeId, key: PublicKey, trusted: bool) returns (r: UpsertResult)
      modifies this
      ensures (peers, r) == Upsert(old(peers), maxPeers, nodeId, key, trusted)
    {
      if nodeId in peers {
        var was := peers[nodeId];
        if !was.key.ZeroKey? && !key.ZeroKey? && was.key != key {
          return IdentityConflict;
        }
        r := Updated;
        if was.key.ZeroKey? && !key.ZeroKey? {
          peers := peers[nodeId := peers[nodeId].(key := key)];
          r := IdentityBound;
        }
        peers := peers[nodeId := peers[nodeId].(trusted := peers[nodeId].trusted || trusted)];
        assert peers == old(peers)[nodeId := peers[nodeId]];
        return r;
      }
      if |peers| >= maxPeers {
        return CapacityRejected;
      }
      peers := peers[nodeId := Peer(key, trusted)];
      return Inserted;
    }
  }

  method HighestSequence(routes: seq<Routes.Route>, e: Entry) returns (h: nat)
    ensures h == Highest(routes, e)
  {
    h := 0;
    for i := 0 to |routes|
      invariant h == Highest(routes[..i], e)
    {
      assert routes[..i + 1][..i] == routes[..i];
      if Belongs(routes[i], e) && routes[i].sequence > h {
        h := routes[i].sequence;
      }
    }
    assert routes[..|routes|] == routes;
  }

  method CheckPath(path: seq<NodeId>, self: NodeId, nodeId: NodeId) returns (r: bool)
    requires path != []
    ensures r <==> PathOk(path, self, nodeId)
  {
    r := path[|path| - 1] == nodeId;
    var repeatsNone := RoutingEngines.RepeatsNoHop(path);
    for i := 0 to |path|
      invariant self !in path[..i]
    {
      if path[i] == self {
        return false;
      }
      assert path[..i + 1] == path[..i] + [path[i]];
    }
    assert path[..|path|] == path;
    r := r && repeatsNone;
  }

  method MergeAdvertisedPrefix(re: RoutingEngines.RoutingEngine, nodeId: NodeId, path: seq<NodeId>, pathOk: bool,
                               ap: AdvertisedPrefix, now: Time) returns (outcome: Outcome)
    requires path != []
    modifies re
    ensures (re.routes, outcome) == MergePrefix(old(re.routes), re.maxRoutes, nodeId, path, pathOk, ap, now)
  {
    if !PrefixOk(ap) {
      return BadPrefix;
    }
    if !pathOk {
      return NoPath;
    }
    var route := RelayRoute(nodeId, path, ap, now);
    var canonical := IpPrefixes.Canonical(ap.prefix, ap.length);
    var highest := HighestSequence(re.routes, Entry(nodeId, canonical, ap.length));
    if ap.sequence < highest {
      return Stale;
    }
    var i := re.FindIndex(Routes.SameAs(Routes.Candidate(route)));
    if i < |re.routes| && ap.sequence == re.routes[i].sequence {
      if path != re.routes[i].path || route.metric != re.routes[i].metric {
        return Conflicting;
      }
      var _ := re.AddRoute(route);
      return LeaseRefreshed;
    }
    if ap.sequence > highest {
      var _ := re.RemoveOlderLearnedRoutes(nodeId, ap.prefix, ap.length, ap.sequence);
    }
    var added := re.AddRoute(route);
    return if added then Installed else NoRoom;
  }

  method MergeAdvertisedRoutes(re: RoutingEngines.RoutingEngine, p: AdvertisedPeer, path: seq<NodeId>, pathOk: bool, now: Time)
    returns (t: Tally)
    requires path != []
    modifies re
    ensures t == MergePrefixes(Tally(old(re.routes), !pathOk, 0, 0, 0), re.maxRoutes, p.nodeId, path, pathOk, p.prefixes, now)
    ensures re.routes == t.routes
  {
    t := Tally(re.routes, !pathOk, 0, 0, 0);
    ghost var start := t;
    for i := 0 to |p.prefixes|
      invariant t == MergePrefixes(start, re.maxRoutes, p.nodeId, path, pathOk, p.prefixes[..i], now)
      invariant re.routes == t.routes
    {
      assert p.prefixes[..i + 1][..i] == p.prefixes[..i];
      var outcome := MergeAdvertisedPrefix(re, p.nodeId, path, pathOk, p.prefixes[i], now);
      t := Counted(t, re.routes, outcome);
    }
    assert p.prefixes[..|p.prefixes|] == p.prefixes;
  }

  method MergeAdvertisedPeer(pm: PeerManager, re: RoutingEngines.RoutingEngine, stats: Stats, p: AdvertisedPeer, sender: NodeId,
                             self: NodeId, now: Time) returns (r: Stats)
    modifies pm, re
    ensures Node(pm.peers, re.routes, r) ==
            MergePeer(Limits(pm.maxPeers, re.maxRoutes), Node(old(pm.peers), old(re.routes), stats), p, sender, self, now)
  {
    if p.nodeId == self || p.nodeId == sender {
      return stats;
    }
    if !WellFormed(p) {
      return stats.(malformed := stats.malformed + 1);
    }
    var result := pm.UpsertPeer(p.nodeId, p.key, false);
    if result.IdentityConflict? {
      return stats.(conflicting := stats.conflicting + 1);
    }
    if result.CapacityRejected? {
      return stats.(capacityRejected := stats.capacityRejected + 1);
    }
    r := MergeAcceptedPeer(re, stats, result, p, sender, self, now);
  }

  method MergeAcceptedPeer(re: RoutingEngines.RoutingEngine, stats: Stats, result: UpsertResult, p: AdvertisedPeer, sender: NodeId,
                           self: NodeId, now: Time) returns (r: Stats)
    modifies re
    ensures (re.routes, r) == MergeRoutes(re.maxRoutes, old(re.routes), stats, result, p, sender, self, now)
  {
    var path := RelayPath(sender, p);
    var pathOk := CheckPath(path, self, p.nodeId);
    var t := MergeAdvertisedRoutes(re, p, path, pathOk, now);
    r := Credit(stats, result, t);
  }

  method Credit(stats: Stats, result: UpsertResult, t: Tally) returns (r: Stats)
    ensures r == Credited(stats, result, t)
  {
    r := stats.(accepted := stats.accepted + 1);
    if result.Inserted? || result.IdentityBound? {
      r := r.(peersChanged := r.peersChanged + 1);
    }
    r := r.(stale := r.stale + t.stale, installed := r.installed + t.installed,
            capacityRejected := r.capacityRejected + t.noRoom);
    if t.malformed {
      r := r.(malformed := r.malformed + 1);
    }
  }

  method MergePeerTable(pm: PeerManager, re: RoutingEngines.RoutingEngine, advertised: seq<AdvertisedPeer>, sender: NodeId,
                        self: NodeId, now: Time) returns (stats: Stats)
    modifies pm, re
    ensures Node(pm.peers, re.routes, stats) ==
            MergeTable(Limits(pm.maxPeers, re.maxRoutes), Node(old(pm.peers), old(re.routes), NO_STATS), advertised,
                       sender, self, now)
  {
    stats := NO_STATS;
    ghost var start := Node(pm.peers, re.routes, NO_STATS);
    for i := 0 to |advertised|
      invariant Node(pm.peers, re.routes, stats) ==
                MergeTable(Limits(pm.maxPeers, re.maxRoutes), start, advertised[..i], sender, self, now)
    {
      assert advertised[..i + 1][..i] == advertised[..i];
      stats := MergeAdvertisedPeer(pm, re, stats, advertised[i], sender, self, now);
    }
    assert advertised[..|advertised|] == advertised;
  }
}
