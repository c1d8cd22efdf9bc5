/** Merging a whole gossiped table: identities first, then every advertised prefix of every peer. */
module PeerMerge {
  import opened Basics
  import Routes
  import opened PeerTable

  // ---------- known peers ----------

  datatype Peer = Peer(key: PublicKey, trusted: bool)

  datatype UpsertResult = Inserted | IdentityBound | Updated | IdentityConflict | CapacityRejected

  function Upsert(peers: map<NodeId, Peer>, maxPeers: nat, nodeId: NodeId, key: PublicKey, trusted: bool)
    : (map<NodeId, Peer>, UpsertResult)
  {
    if nodeId in peers then
      var was := peers[nodeId];
      if !was.key.ZeroKey? && !key.ZeroKey? && was.key != key then (peers, IdentityConflict)
      else
        var binds := was.key.ZeroKey? && !key.ZeroKey?;
        (peers[nodeId := Peer(if binds then key else was.key, was.trusted || trusted)],
         if binds then IdentityBound else Updated)
    else if |peers| >= maxPeers then (peers, CapacityRejected)
    else (peers[nodeId := Peer(key, trusted)], Inserted)
  }

  /** What happens to a peer when it is told of: refused over another key or for want of room, else there with its key and trust. */
  lemma UpsertExactly(peers: map<NodeId, Peer>, maxPeers: nat, id: NodeId, key: PublicKey, trusted: bool)
    ensures var (after, r) := Upsert(peers, maxPeers, id, key, trusted);
      var other := id in peers && peers[id].key.KeyOf? && key.KeyOf? && peers[id].key != key;
      && (r == IdentityConflict <==> other)
      && (r == CapacityRejected <==> id !in peers && |peers| >= maxPeers)
      && (r == Inserted <==> id !in peers && |peers| < maxPeers)
      && (r == IdentityBound <==> id in peers && peers[id].key == ZeroKey && key != ZeroKey)
      && (r == IdentityConflict || r == CapacityRejected ==> after == peers)
      && (r == Inserted ==> after == peers[id := Peer(key, trusted)])
      && (r == IdentityBound || r == Updated ==>
            && id in peers && after.Keys == peers.Keys
            && after[id].key == (if peers[id].key == ZeroKey then key else peers[id].key)
            && (after[id].trusted <==> peers[id].trusted || trusted)
            && forall o :: o in peers && o != id ==> after[o] == peers[o])
  {
  }

  // ---------- one advertised peer ----------

  datatype Tally = Tally(routes: seq<Routes.Route>, malformed: bool, stale: nat, installed: nat, noRoom: nat)

  function Counted(t: Tally, routes: seq<Routes.Route>, outcome: Outcome): Tally {
    Tally(routes, t.malformed || outcome.BadPrefix? || outcome.Conflicting?,
          t.stale + if outcome.Stale? then 1 else 0,
          t.installed + if outcome.Installed? then 1 else 0,
          t.noRoom + if outcome.NoRoom? then 1 else 0)
  }

  function MergePrefixes(t: Tally, maxRoutes: nat, nodeId: NodeId, path: seq<NodeId>, pathOk: bool,
                         prefixes: seq<AdvertisedPrefix>, now: Time): Tally
    requires path != []
  {
    if prefixes == [] then t
    else
      var n := |prefixes| - 1;
      var u := MergePrefixes(t, maxRoutes, nodeId, path, pathOk, prefixes[..n], now);
      var (routes, outcome) := MergePrefix(u.routes, maxRoutes, nodeId, path, pathOk, prefixes[n], now);
      Counted(u, routes, outcome)
  }

  datatype Stats = Stats(accepted: nat, peersChanged: nat, malformed: nat, conflicting: nat, capacityRejected: nat,
                         stale: nat, installed: nat)

  datatype Node = Node(peers: map<NodeId, Peer>, routes: seq<Routes.Route>, stats: Stats)

  datatype Limits = Limits(maxPeers: nat, maxRoutes: nat)

  predicate WellFormed(p: AdvertisedPeer) {
    && |p.path| <= MAX_PATH_HOPS && |p.prefixes| <= MAX_PREFIXES && !p.key.ZeroKey? && HashPublicKey(p.key) == p.nodeId
  }

  function MergePeer(limits: Limits, n: Node, p: AdvertisedPeer, sender: NodeId, self: NodeId, now: Time): Node {
    if p.nodeId == self || p.nodeId == sender then n
    else if !WellFormed(p) then n.(stats := n.stats.(malformed := n.stats.malformed + 1))
    else
      var (peers, result) := Upsert(n.peers, limits.maxPeers, p.nodeId, p.key, false);
      if result.IdentityConflict? then n.(stats := n.stats.(conflicting := n.stats.conflicting + 1))
      else if result.CapacityRejected? then n.(stats := n.stats.(capacityRejected := n.stats.capacityRejected + 1))
      else
        var (routes, stats) := MergeRoutes(limits.maxRoutes, n.routes, n.stats, result, p, sender, self, now);
        Node(peers, routes, stats)
  }

  function MergeRoutes(maxRoutes: nat, routes: seq<Routes.Route>, stats: Stats, result: UpsertResult, p: AdvertisedPeer,
                       sender: NodeId, self: NodeId, now: Time): (seq<Routes.Route>, Stats) {
    var path := RelayPath(sender, p);
    var pathOk := PathOk(path, self, p.nodeId);
    var t := MergePrefixes(Tally(routes, !pathOk, 0, 0, 0), maxRoutes, p.nodeId, path, pathOk, p.prefixes, now);
    (t.routes, Credited(stats, result, t))
  }

  function Credited(stats: Stats, result: UpsertResult, t: Tally): Stats {
    Stats(stats.accepted + 1,
          stats.peersChanged + if result.Inserted? || result.IdentityBound? then 1 else 0,
          stats.malformed + if t.malformed then 1 else 0,
          stats.conflicting, stats.capacityRejected + t.noRoom,
          stats.stale + t.stale, stats.installed + t.installed)
  }

  function MergeTable(limits: Limits, n: Node, advertised: seq<AdvertisedPeer>, sender: NodeId, self: NodeId, now: Time): Node {
    if advertised == [] then n
    else
      var k := |advertised| - 1;
      MergePeer(limits, MergeTable(limits, n, advertised[..k], sender, self, now), advertised[k], sender, self, now)
  }

  // ---------- what a merge keeps ----------

  ghost predicate RoutesOk(maxRoutes: nat, routes: seq<Routes.Route>) {
    Routes.TableOk(routes, maxRoutes) && Fresh(routes)
  }

  ghost predicate NoneLowered(before: seq<Routes.Route>, after: seq<Routes.Route>) {
    forall e :: Highest(after, e) >= Highest(before, e)
  }

  lemma PrefixKeeps(routes: seq<Routes.Route>, maxRoutes: nat, self: NodeId, nodeId: NodeId, path: seq<NodeId>, pathOk: bool,
                    ap: AdvertisedPrefix, now: Time)
    requires RoutesOk(maxRoutes, routes) && |path| >= 2 && (pathOk ==> PathOk(path, self, nodeId))
    ensures var after := MergePrefix(routes, maxRoutes, nodeId, path, pathOk, ap, now).0;
      RoutesOk(maxRoutes, after) && NoneLowered(routes, after)
  {
    MergeKeepsTable(routes, maxRoutes, nodeId, path, pathOk, ap, now);
    MergeKeepsFresh(routes, maxRoutes, self, nodeId, path, pathOk, ap, now);
  }

  lemma {:induction false} PrefixesKeep(t: Tally, maxRoutes: nat, self: NodeId, nodeId: NodeId, path: seq<NodeId>, pathOk: bool,
                                        prefixes: seq<AdvertisedPrefix>, now: Time)
    requires RoutesOk(maxRoutes, t.routes) && |path| >= 2 && (pathOk ==> PathOk(path, self, nodeId))
    ensures var after := MergePrefixes(t, maxRoutes, nodeId, path, pathOk, prefixes, now).routes;
      RoutesOk(maxRoutes, after) && NoneLowered(t.routes, after)
  {
    if prefixes != [] {
      var n := |prefixes| - 1;
      PrefixesKeep(t, maxRoutes, self, nodeId, path, pathOk, prefixes[..n], now);
      var u := MergePrefixes(t, maxRoutes, nodeId, path, pathOk, prefixes[..n], now);
      PrefixKeeps(u.routes, maxRoutes, self, nodeId, path, pathOk, prefixes[n], now);
    }
  }

  /** Keys once bound stay, trust is never taken away or given, and whoever is added owns the key it comes with. */
  ghost predicate IdentitiesKept(before: map<NodeId, Peer>, after: map<NodeId, Peer>) {
    && (forall id :: id in before ==> id in after && before[id].trusted == after[id].trusted)
    && (forall id :: id in before && !before[id].key.ZeroKey? ==> after[id].key == before[id].key)
    && (forall id :: id in after && (id !in before || after[id] != before[id]) ==> HashPublicKey(after[id].key) == id)
  }

  lemma UpsertKeepsSize(peers: map<NodeId, Peer>, maxPeers: nat, id: NodeId, key: PublicKey)
    requires |peers| <= maxPeers
    ensures |Upsert(peers, maxPeers, id, key, false).0| <= maxPeers
  {
    var after := Upsert(peers, maxPeers, id, key, false).0;
    assert |after| == |after.Keys|;
    if id in peers {
      assert after.Keys == peers.Keys;
    } else if |peers| < maxPeers {
      assert after.Keys == peers.Keys + {id};
    }
  }

  lemma UpsertKeepsIdentities(peers: map<NodeId, Peer>, maxPeers: nat, key: PublicKey)
    requires |peers| <= maxPeers && !key.ZeroKey?
    ensures var after := Upsert(peers, maxPeers, HashPublicKey(key), key, false).0;
      |after| <= maxPeers && IdentitiesKept(peers, after)
  {
    UpsertKeepsSize(peers, maxPeers, HashPublicKey(key), key);
  }

  lemma PeerKeepsRoutes(limits: Limits, n: Node, p: AdvertisedPeer, sender: NodeId, self: NodeId, now: Time)
    requires RoutesOk(limits.maxRoutes, n.routes)
    ensures var m := MergePeer(limits, n, p, sender, self, now);
      RoutesOk(limits.maxRoutes, m.routes) && NoneLowered(n.routes, m.routes)
  {
    var path := RelayPath(sender, p);
    var pathOk := PathOk(path, self, p.nodeId);
    PrefixesKeep(Tally(n.routes, !pathOk, 0, 0, 0), limits.maxRoutes, self, p.nodeId, path, pathOk, p.prefixes, now);
  }

  lemma PeerKeepsIdentities(limits: Limits, n: Node, p: AdvertisedPeer, sender: NodeId, self: NodeId, now: Time)
    requires |n.peers| <= limits.maxPeers
    ensures var m := MergePeer(limits, n, p, sender, self, now);
      |m.peers| <= limits.maxPeers && IdentitiesKept(n.peers, m.peers)
  {
    if p.nodeId != self && p.nodeId != sender && WellFormed(p) {
      UpsertKeepsIdentities(n.peers, limits.maxPeers, p.key);
    }
  }

  lemma IdentitiesTransitive(a: map<NodeId, Peer>, b: map<NodeId, Peer>, c: map<NodeId, Peer>)
    requires IdentitiesKept(a, b) && IdentitiesKept(b, c)
    ensures IdentitiesKept(a, c)
  {
  }

  /** Merging any table, however forged, with nothing between its sections, keeps the routing table in order and fresh and the identities bound. */
  lemma {:induction false} MergeIsSafe(limits: Limits, n: Node, advertised: seq<AdvertisedPeer>, sender: NodeId, self: NodeId, now: Time)
    requires RoutesOk(limits.maxRoutes, n.routes) && |n.peers| <= limits.maxPeers
    ensures var m := MergeTable(limits, n, advertised, sender, self, now);
      && RoutesOk(limits.maxRoutes, m.routes) && NoneLowered(n.routes, m.routes)
      && |m.peers| <= limits.maxPeers && IdentitiesKept(n.peers, m.peers)
  {
    if advertised != [] {
      var k := |advertised| - 1;
      MergeIsSafe(limits, n, advertised[..k], sender, self, now);
      var m := MergeTable(limits, n, advertised[..k], sender, self, now);
      PeerKeepsRoutes(limits, m, advertised[k], sender, self, now);
      PeerKeepsIdentities(limits, m, advertised[k], sender, self, now);
      IdentitiesTransitive(n.peers, m.peers, MergePeer(limits, m, advertised[k], sender, self, now).peers);
    }
  }
}
