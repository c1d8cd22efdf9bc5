/**
 A mesh of nodes that all run the advertise and merge code. Gossip may be lost, delayed, duplicated and
 reordered, and split into any parts. A merge takes its locks one after the other, so sessions, direct installs,
 expiries, removals and probes happen at any time, also between the sections of a merge.
 */
module Mesh {
  import opened Basics
  import IpPrefixes
  import opened Routes
  import opened PeerTable
  import opened PeerMerge
  import opened RouteRuns

  // ---------- what a node advertises ----------

  predicate LiveTo(r: Route, peer: NodeId, now: Time) {
    r.destination == peer && !LeaseExpired(r, now)
  }

  function Remaining(r: Route, now: Time): int {
    if r.kind.Relay? && r.validatedAt != 0 && now > r.validatedAt then r.lease - (now - r.validatedAt) / 1000 else r.lease
  }

  function Record(r: Route, now: Time): AdvertisedPrefix {
    AdvertisedPrefix(r.prefix, r.length % 0x100, r.sequence, Remaining(r, now) % 0x1_0000_0000, r.metric)
  }

  /** The path of the first live route to the peer, and the prefixes of all of them. */
  function AdvertisedFor(nodeId: NodeId, key: PublicKey, routes: seq<Route>, now: Time): (p: AdvertisedPeer)
    ensures p.nodeId == nodeId && p.key == key
    ensures (p.path == [] && p.prefixes == []) || exists r :: r in routes && LiveTo(r, nodeId, now) && p.path == r.path
  {
    if routes == [] then AdvertisedPeer(nodeId, key, [], [])
    else
      var n := |routes| - 1;
      var p := AdvertisedFor(nodeId, key, routes[..n], now);
      if !LiveTo(routes[n], nodeId, now) then p
      else
        assert routes[n] in routes;
        p.(prefixes := p.prefixes + [Record(routes[n], now)], path := if p.path == [] then routes[n].path else p.path)
  }

  method BuildEntry(nodeId: NodeId, key: PublicKey, routes: seq<Route>, now: Time) returns (p: AdvertisedPeer)
    ensures p == AdvertisedFor(nodeId, key, routes, now)
  {
    p := AdvertisedPeer(nodeId, key, [], []);
    for i := 0 to |routes|
      invariant p == AdvertisedFor(nodeId, key, routes[..i], now)
    {
      assert routes[..i + 1][..i] == routes[..i];
      if LiveTo(routes[i], nodeId, now) {
        p := p.(prefixes := p.prefixes + [Record(routes[i], now)]);
        if p.path == [] {
          p := p.(path := routes[i].path);
        }
      }
    }
    assert routes[..|routes|] == routes;
  }

  /** The node's own entry first, then one for every other known peer. */
  function Advertisement(own: AdvertisedPeer, known: seq<(NodeId, PublicKey)>, routes: seq<Route>, now: Time): seq<AdvertisedPeer> {
    if known == [] then [own]
    else
      var n := |known| - 1;
      Advertisement(own, known[..n], routes, now) +
      if known[n].0 == own.nodeId then [] else [AdvertisedFor(known[n].0, known[n].1, routes, now)]
  }

  method BuildAdvertisedPeers(own: AdvertisedPeer, known: seq<(NodeId, PublicKey)>, routes: seq<Route>, now: Time)
    returns (out: seq<AdvertisedPeer>)
    ensures out == Advertisement(own, known, routes, now)
    ensures forall q :: q in out ==> FromTable(own.nodeId, routes, q, now)
  {
    out := [own];
    for i := 0 to |known|
      invariant out == Advertisement(own, known[..i], routes, now)
      invariant forall q :: q in out ==> FromTable(own.nodeId, routes, q, now)
    {
      assert known[..i + 1][..i] == known[..i];
      if known[i].0 != own.nodeId {
        var p := BuildEntry(known[i].0, known[i].1, routes, now);
        out := out + [p];
      } else {
        assert out + [] == out;
      }
    }
    assert known[..|known|] == known;
  }

  /** A live candidate is advertised with the rest of its lease, which a receiver accepts. */
  lemma LiveLeaseIsValid(r: Route, now: Time)
    requires RouteOk(r) && !LeaseExpired(r, now)
    ensures var a := Record(r, now);
      && a.lease == Remaining(r, now) && 0 < a.lease <= MAX_LEASE && a.length == r.length
      && (a.metric < MAX_METRIC ==> PrefixOk(a))
      && (r.kind.Relay? && r.validatedAt != 0 && now >= r.validatedAt ==> now + 1000 * a.lease < r.validatedAt + 1000 * r.lease + 1000)
  {
  }

  /** The entries a node may put on the wire: parts of its own entry or of one it builds for a known peer. */
  predicate PartOf(q: AdvertisedPeer, p: AdvertisedPeer) {
    q.nodeId == p.nodeId && q.path == p.path && forall x :: x in q.prefixes ==> x in p.prefixes
  }

  // ---------- the mesh ----------

  datatype Gossip = Gossip(from: NodeId, peers: seq<AdvertisedPeer>)

  datatype Member = Member(peers: map<NodeId, Peer>, table: State)

  datatype System = System(nodes: map<NodeId, Member>, sessions: set<(NodeId, NodeId)>, wire: set<Gossip>)

  /** Delivering gossip is any sequence of learning its peers and starting merges of its prefixes. */
  datatype Act =
    | Establish(a: NodeId, b: NodeId)
    | Advertise(node: NodeId, peers: seq<AdvertisedPeer>, now: Time)
    | Learn(node: NodeId, message: Gossip, peer: AdvertisedPeer)
    | Merge(node: NodeId, message: Gossip, peer: AdvertisedPeer, ap: AdvertisedPrefix, now: Time)
    | Local(node: NodeId, op: Op)

  predicate FromTable(self: NodeId, routes: seq<Route>, q: AdvertisedPeer, now: Time) {
    q.nodeId == self || PartOf(q, AdvertisedFor(q.nodeId, q.key, routes, now))
  }

  /** A well-formed entry of a message that came over a session. */
  predicate Hears(s: System, node: NodeId, message: Gossip, q: AdvertisedPeer) {
    && node in s.nodes && message in s.wire && (node, message.from) in s.sessions && q in message.peers
    && q.nodeId != node && q.nodeId != message.from && WellFormed(q)
  }

  /** Direct routes are installed towards a peer with a session, and gossip is read from a session. */
  predicate Allowed(s: System, act: Act) {
    match act
    case Establish(a, b) => a != b
    case Advertise(node, peers, now) =>
      node in s.nodes && forall q :: q in peers ==> FromTable(node, s.nodes[node].table.routes, q, now)
    case Learn(node, message, q) => Hears(s, node, message, q)
    case Merge(node, message, q, ap, _) => Hears(s, node, message, q) && ap in q.prefixes
    case Local(node, op) =>
      node in s.nodes && !op.Snapshot? && (op.InstallDirect? ==> (node, op.peer) in s.sessions)
  }

  function Next(limits: Limits, s: System, act: Act): System
    requires Allowed(s, act)
  {
    match act
    case Establish(a, b) => s.(sessions := s.sessions + {(a, b), (b, a)})
    case Advertise(node, peers, _) => s.(wire := s.wire + {Gossip(node, peers)})
    case Learn(node, _, q) =>
      var n := s.nodes[node];
      s.(nodes := s.nodes[node := n.(peers := Upsert(n.peers, limits.maxPeers, q.nodeId, q.key, false).0)])
    case Merge(node, message, q, ap, now) =>
      Stepped(limits, s, node, Snapshot(q.nodeId, RelayPath(message.from, q), ap, now))
    case Local(node, op) => Stepped(limits, s, node, op)
  }

  function Stepped(limits: Limits, s: System, node: NodeId, op: Op): System
    requires node in s.nodes && WellPosed(op)
  {
    var n := s.nodes[node];
    s.(nodes := s.nodes[node := n.(table := RouteRuns.Next(node, limits.maxRoutes, n.table, op))])
  }

  // ---------- the invariant ----------

  /** Each hop had a session with the next. */
  ghost predicate Linked(sessions: set<(NodeId, NodeId)>, hops: seq<NodeId>) {
    forall i, j :: 0 <= i && j == i + 1 < |hops| ==> (hops[i], hops[j]) in sessions
  }

  ghost predicate Sound(sessions: set<(NodeId, NodeId)>, self: NodeId, path: seq<NodeId>, destination: NodeId) {
    && path != [] && path[|path| - 1] == destination && NoRepeats(path) && self !in path
    && Linked(sessions, [self] + path)
  }

  ghost predicate AllSound(sessions: set<(NodeId, NodeId)>, self: NodeId, routes: seq<Route>) {
    forall r :: r in routes ==> Sound(sessions, self, r.path, r.destination)
  }

  /** An entry with prefixes is the sender's own or carries a real path from the sender. */
  ghost predicate HonestEntry(sessions: set<(NodeId, NodeId)>, from: NodeId, q: AdvertisedPeer) {
    q.nodeId == from || q.prefixes == [] || (q.path != [] && Linked(sessions, [from] + q.path))
  }

  ghost predicate HonestMessage(sessions: set<(NodeId, NodeId)>, m: Gossip) {
    forall q :: q in m.peers ==> HonestEntry(sessions, m.from, q)
  }

  /** A route still to be added runs along a real path as well. */
  ghost predicate StageSound(sessions: set<(NodeId, NodeId)>, self: NodeId, stage: Stage) {
    stage.Idle? || Sound(sessions, self, stage.route.path, stage.route.destination)
  }

  ghost predicate NodeOk(limits: Limits, sessions: set<(NodeId, NodeId)>, self: NodeId, n: Member) {
    && StateOk(limits.maxRoutes, n.table) && |n.peers| <= limits.maxPeers
    && AllSound(sessions, self, n.table.routes) && StageSound(sessions, self, n.table.stage)
  }

  ghost predicate MeshOk(limits: Limits, s: System) {
    && (forall a, b :: (a, b) in s.sessions ==> a != b)
    && (forall self :: self in s.nodes ==> NodeOk(limits, s.sessions, self, s.nodes[self]))
    && (forall m :: m in s.wire ==> HonestMessage(s.sessions, m))
  }

  // ---------- where merged routes come from ----------

  lemma ThroughSenderSound(sessions: set<(NodeId, NodeId)>, self: NodeId, from: NodeId, q: AdvertisedPeer)
    requires (self, from) in sessions && HonestEntry(sessions, from, q) && q.nodeId != from && q.prefixes != []
    requires PathOk(RelayPath(from, q), self, q.nodeId)
    ensures Sound(sessions, self, RelayPath(from, q), q.nodeId)
  {
    var hops := [self] + RelayPath(from, q);
    forall i, j | 0 <= i && j == i + 1 < |hops| ensures (hops[i], hops[j]) in sessions {
      if i > 0 {
        assert hops[i] == ([from] + q.path)[i - 1] && hops[j] == ([from] + q.path)[j - 1];
      }
    }
  }

  /** Whatever a merge plans from an honest message runs along a real path. */
  lemma SnapshotSound(sessions: set<(NodeId, NodeId)>, self: NodeId, routes: seq<Route>, from: NodeId, q: AdvertisedPeer,
                      ap: AdvertisedPrefix, now: Time)
    requires (self, from) in sessions && HonestEntry(sessions, from, q) && q.nodeId != from && ap in q.prefixes
    ensures var path := RelayPath(from, q);
      StageSound(sessions, self, Planned(Decide(routes, q.nodeId, path, PathOk(path, self, q.nodeId), ap, now)))
  {
    if PathOk(RelayPath(from, q), self, q.nodeId) {
      ThroughSenderSound(sessions, self, from, q);
    }
  }

  // ---------- every step keeps the invariant ----------

  lemma MoreSessions(limits: Limits, s: System, sessions: set<(NodeId, NodeId)>)
    requires MeshOk(limits, s) && s.sessions <= sessions && forall a, b :: (a, b) in sessions ==> a != b
    ensures MeshOk(limits, s.(sessions := sessions))
  {
    forall self | self in s.nodes ensures AllSound(sessions, self, s.nodes[self].table.routes) {
      assert NodeOk(limits, s.sessions, self, s.nodes[self]);
    }
  }

  lemma AdvertisedHonest(limits: Limits, sessions: set<(NodeId, NodeId)>, self: NodeId, n: Member, q: AdvertisedPeer, now: Time)
    requires NodeOk(limits, sessions, self, n) && FromTable(self, n.table.routes, q, now)
    ensures HonestEntry(sessions, self, q)
  {
    if q.nodeId != self && q.prefixes != [] {
      var p := AdvertisedFor(q.nodeId, q.key, n.table.routes, now);
      assert q.prefixes[0] in p.prefixes;
      var r :| r in n.table.routes && LiveTo(r, q.nodeId, now) && p.path == r.path;
    }
  }

  lemma LocalMembers(maxRoutes: nat, routes: seq<Route>, op: Op, r: Route)
    requires Distinct(routes) && Foreign(op) && r in Change(maxRoutes, routes, op)
    ensures (exists was :: was in routes && was.path == r.path && was.destination == r.destination)
         || (op.InstallDirect? && r.path == [op.peer] && r.destination == op.peer)
  {
    match op
    case InstallDirect(prefix, length, peer, now) =>
      var route := DirectRoute(prefix, length, peer, now);
      if Add(routes, maxRoutes, route).Some? {
        AddExactly(routes, maxRoutes, route);
      }
    case RemovePeer(peer) => KeptExactly(routes, ToOrVia(peer));
    case Expire(now) => KeptExactly(routes, Expired(now));
    case RecordProbe(_, _, _, _, _, _) =>
      var i :| 0 <= i < |routes| && Change(maxRoutes, routes, op)[i] == r;
      assert routes[i] in routes;
    case Clear =>
  }

  lemma AddedMembers(routes: seq<Route>, maxRoutes: nat, route: Route, r: Route)
    requires r in AddOrKeep(routes, maxRoutes, route)
    ensures r in routes || (r.path == route.path && r.destination == route.destination)
  {
  }

  /** Every operation on a table with real paths leaves real paths. */
  lemma LocalSound(limits: Limits, sessions: set<(NodeId, NodeId)>, self: NodeId, s: State, op: Op)
    requires StateOk(limits.maxRoutes, s) && AllSound(sessions, self, s.routes) && StageSound(sessions, self, s.stage)
    requires !op.Snapshot? && (op.InstallDirect? ==> (self, op.peer) in sessions && self != op.peer)
    ensures var after := RouteRuns.Next(self, limits.maxRoutes, s, op);
      AllSound(sessions, self, after.routes) && StageSound(sessions, self, after.stage)
  {
    var after := RouteRuns.Next(self, limits.maxRoutes, s, op);
    forall r | r in after.routes ensures Sound(sessions, self, r.path, r.destination) {
      match op
      case RemoveOutdated => OutdatedMembers(s, r);
      case AddPlanned => if s.stage.Adding? { AddedMembers(s.routes, limits.maxRoutes, s.stage.route, r); }
      case _ => LocalMembers(limits.maxRoutes, s.routes, op, r);
    }
  }

  lemma OutdatedMembers(s: State, r: Route)
    requires r in RouteRuns.Next(ZERO_NODE, 0, s, RemoveOutdated).routes
    ensures r in s.routes
  {
    if s.stage.Removing? {
      var route := s.stage.route;
      KeptExactly(s.routes, Older(route.origin, IpPrefixes.Canonical(route.prefix, route.length), route.length, route.sequence));
    }
  }

  lemma SteppedOk(limits: Limits, s: System, node: NodeId, op: Op)
    requires MeshOk(limits, s) && node in s.nodes && WellPosed(op)
    requires var after := RouteRuns.Next(node, limits.maxRoutes, s.nodes[node].table, op);
      AllSound(s.sessions, node, after.routes) && StageSound(s.sessions, node, after.stage)
    ensures MeshOk(limits, Stepped(limits, s, node, op))
  {
    assert NodeOk(limits, s.sessions, node, s.nodes[node]);
    NextKeepsOk(node, limits.maxRoutes, s.nodes[node].table, op);
  }

  lemma LearnOk(limits: Limits, s: System, node: NodeId, q: AdvertisedPeer)
    requires MeshOk(limits, s) && node in s.nodes
    ensures var n := s.nodes[node];
      MeshOk(limits, s.(nodes := s.nodes[node := n.(peers := Upsert(n.peers, limits.maxPeers, q.nodeId, q.key, false).0)]))
  {
    assert NodeOk(limits, s.sessions, node, s.nodes[node]);
    UpsertKeepsSize(s.nodes[node].peers, limits.maxPeers, q.nodeId, q.key);
  }

  lemma NextKeepsMesh(limits: Limits, s: System, act: Act)
    requires MeshOk(limits, s) && Allowed(s, act)
    ensures MeshOk(limits, Next(limits, s, act))
  {
    match act
    case Establish(a, b) => MoreSessions(limits, s, s.sessions + {(a, b), (b, a)});
    case Advertise(node, peers, now) =>
      forall q | q in peers ensures HonestEntry(s.sessions, node, q) {
        AdvertisedHonest(limits, s.sessions, node, s.nodes[node], q, now);
      }
    case Learn(node, _, q) => LearnOk(limits, s, node, q);
    case Merge(node, message, q, ap, now) =>
      assert NodeOk(limits, s.sessions, node, s.nodes[node]) && HonestMessage(s.sessions, message);
      SnapshotSound(s.sessions, node, s.nodes[node].table.routes, message.from, q, ap, now);
      SteppedOk(limits, s, node, Snapshot(q.nodeId, RelayPath(message.from, q), ap, now));
    case Local(node, op) =>
      assert NodeOk(limits, s.sessions, node, s.nodes[node]);
      LocalSound(limits, s.sessions, node, s.nodes[node].table, op);
      SteppedOk(limits, s, node, op);
  }

  ghost predicate IsRun(limits: Limits, s: System, acts: seq<Act>)
    decreases |acts|
  {
    acts == [] || (Allowed(s, acts[0]) && IsRun(limits, Next(limits, s, acts[0]), acts[1..]))
  }

  ghost function Run(limits: Limits, s: System, acts: seq<Act>): System
    requires IsRun(limits, s, acts)
    decreases |acts|
  {
    if acts == [] then s else Run(limits, Next(limits, s, acts[0]), acts[1..])
  }

  lemma {:induction false} RunKeepsMesh(limits: Limits, s: System, acts: seq<Act>)
    requires MeshOk(limits, s) && IsRun(limits, s, acts)
    ensures MeshOk(limits, Run(limits, s, acts))
    decreases |acts|
  {
    if acts != [] {
      NextKeepsMesh(limits, s, acts[0]);
      RunKeepsMesh(limits, Next(limits, s, acts[0]), acts[1..]);
    }
  }

  /** Nodes that know nothing yet. */
  ghost predicate Empty(limits: Limits, s: System) {
    && s.sessions == {} && s.wire == {}
    && forall self :: self in s.nodes ==> s.nodes[self].table == State([], Idle) && |s.nodes[self].peers| <= limits.maxPeers
  }

  /**
   In every reachable mesh every stored path ends at its destination, repeats no hop, avoids the node that
   stores it, and runs hop by hop over sessions that were established.
   */
  lemma MeshIsLoopFree(limits: Limits, s: System, acts: seq<Act>, self: NodeId, r: Route)
    requires Empty(limits, s) && IsRun(limits, s, acts)
    requires var end := Run(limits, s, acts); self in end.nodes && r in end.nodes[self].table.routes
    ensures Sound(Run(limits, s, acts).sessions, self, r.path, r.destination)
  {
    assert MeshOk(limits, s);
    RunKeepsMesh(limits, s, acts);
    assert NodeOk(limits, Run(limits, s, acts).sessions, self, Run(limits, s, acts).nodes[self]);
  }
}
