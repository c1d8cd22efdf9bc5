/** What a node advertises says everything it knows, and a neighbour that merges it learns it. */
module Advertising {
  import opened Basics
  import opened IpPrefixes
  import opened Routes
  import opened PeerTable
  import opened MergeLaws
  import opened PeerMerge
  import opened MergeLearns
  import Mesh

  /** The route leads to the peer and, if learned, its lease has not run out. */
  predicate Live(r: Route, peer: NodeId, now: Time) {
    r.destination == peer && (r.kind == Relay && now >= r.validatedAt ==> now - r.validatedAt < 1000 * r.lease)
  }

  /** The route as a neighbour hears of it: the whole seconds since it was validated are off its lease. */
  predicate Announces(ap: AdvertisedPrefix, r: Route, now: Time) {
    && ap.prefix == r.prefix && ap.length == r.length && ap.sequence == r.sequence && ap.metric == r.metric
    && (ap.lease as int) == r.lease - (if r.kind == Relay && r.validatedAt != 0 && now > r.validatedAt then (now - r.validatedAt) / 1000 else 0)
  }

  lemma RecordAnnounces(r: Route, now: Time)
    requires RouteOk(r) && Live(r, r.destination, now)
    ensures Announces(Mesh.Record(r, now), r, now)
  {
    Mesh.LiveLeaseIsValid(r, now);
  }

  /** The first live route, whose path the entry carries. */
  ghost predicate FirstLive(routes: seq<Route>, peer: NodeId, now: Time, i: nat) {
    i < |routes| && Live(routes[i], peer, now) && forall k :: 0 <= k < i ==> !Live(routes[k], peer, now)
  }

  ghost predicate Told(p: AdvertisedPeer, r: Route, now: Time) {
    exists ap :: ap in p.prefixes && Announces(ap, r, now)
  }

  ghost predicate Backed(ap: AdvertisedPrefix, routes: seq<Route>, peer: NodeId, now: Time) {
    exists r :: r in routes && Live(r, peer, now) && Announces(ap, r, now)
  }

  /** Every live route to the peer is announced and nothing else is, and the path is the first one's. */
  ghost predicate Tells(p: AdvertisedPeer, routes: seq<Route>, now: Time) {
    && (forall r {:trigger Told(p, r, now)} :: r in routes && Live(r, p.nodeId, now) ==> Told(p, r, now))
    && (forall ap {:trigger Backed(ap, routes, p.nodeId, now)} :: ap in p.prefixes ==> Backed(ap, routes, p.nodeId, now))
    && (forall i: nat :: FirstLive(routes, p.nodeId, now, i) ==> p.path == routes[i].path)
    && ((forall i :: 0 <= i < |routes| ==> !Live(routes[i], p.nodeId, now)) ==> p.path == [])
  }

  lemma {:induction false} LiveIsAnnounced(nodeId: NodeId, key: PublicKey, routes: seq<Route>, now: Time, r: Route)
    requires r in routes && Live(r, nodeId, now)
    ensures Mesh.Record(r, now) in Mesh.AdvertisedFor(nodeId, key, routes, now).prefixes
  {
    var n := |routes| - 1;
    if r != routes[n] {
      assert r in routes[..n];
      LiveIsAnnounced(nodeId, key, routes[..n], now, r);
    }
  }

  lemma {:induction false} AnnouncedIsLive(nodeId: NodeId, key: PublicKey, routes: seq<Route>, now: Time, ap: AdvertisedPrefix) returns (r: Route)
    requires ap in Mesh.AdvertisedFor(nodeId, key, routes, now).prefixes
    ensures r in routes && Live(r, nodeId, now) && ap == Mesh.Record(r, now)
  {
    var n := |routes| - 1;
    if ap in Mesh.AdvertisedFor(nodeId, key, routes[..n], now).prefixes {
      r := AnnouncedIsLive(nodeId, key, routes[..n], now, ap);
    } else {
      r := routes[n];
    }
  }

  lemma {:induction false} NoneLive(nodeId: NodeId, key: PublicKey, routes: seq<Route>, now: Time)
    requires forall i :: 0 <= i < |routes| ==> !Live(routes[i], nodeId, now)
    ensures Mesh.AdvertisedFor(nodeId, key, routes, now).path == []
  {
    if routes != [] {
      NoneLive(nodeId, key, routes[..|routes| - 1], now);
    }
  }

  lemma {:induction false} PathOfFirst(nodeId: NodeId, key: PublicKey, routes: seq<Route>, now: Time, i: nat)
    requires FirstLive(routes, nodeId, now, i) && routes[i].path != []
    ensures Mesh.AdvertisedFor(nodeId, key, routes, now).path == routes[i].path
  {
    var n := |routes| - 1;
    if i < n {
      PathOfFirst(nodeId, key, routes[..n], now, i);
    } else {
      NoneLive(nodeId, key, routes[..n], now);
    }
  }

  /** The entry built for a peer tells everything the table knows of it. */
  lemma EntryTellsAll(nodeId: NodeId, key: PublicKey, routes: seq<Route>, now: Time)
    requires forall r :: r in routes ==> RouteOk(r)
    ensures Tells(Mesh.AdvertisedFor(nodeId, key, routes, now), routes, now)
  {
    var p := Mesh.AdvertisedFor(nodeId, key, routes, now);
    forall r | r in routes && Live(r, nodeId, now) ensures Told(p, r, now) {
      LiveIsAnnounced(nodeId, key, routes, now, r);
      RecordAnnounces(r, now);
    }
    forall ap | ap in p.prefixes ensures Backed(ap, routes, nodeId, now) {
      var r := AnnouncedIsLive(nodeId, key, routes, now, ap);
      RecordAnnounces(r, now);
    }
    forall i: nat | FirstLive(routes, nodeId, now, i) ensures p.path == routes[i].path {
      assert RouteOk(routes[i]);
      PathOfFirst(nodeId, key, routes, now, i);
    }
    if forall i :: 0 <= i < |routes| ==> !Live(routes[i], nodeId, now) {
      NoneLive(nodeId, key, routes, now);
    }
  }

  /** The node's own entry comes first, and every other one is for another peer it knows and tells everything of that peer. */
  lemma {:induction false} EveryEntryTellsAll(own: AdvertisedPeer, known: seq<(NodeId, PublicKey)>, routes: seq<Route>, now: Time, i: nat)
    requires (forall r :: r in routes ==> RouteOk(r)) && i < |Mesh.Advertisement(own, known, routes, now)|
    ensures var p := Mesh.Advertisement(own, known, routes, now)[i];
      if i == 0 then p == own else (p.nodeId, p.key) in known && p.nodeId != own.nodeId && Tells(p, routes, now)
  {
    if known != [] {
      var n := |known| - 1;
      var earlier := Mesh.Advertisement(own, known[..n], routes, now);
      if i < |earlier| {
        EveryEntryTellsAll(own, known[..n], routes, now, i);
      } else {
        StartsWithOwn(own, known[..n], routes, now);
        EntryTellsAll(known[n].0, known[n].1, routes, now);
        assert known[n] in known;
      }
    }
  }

  lemma {:induction false} StartsWithOwn(own: AdvertisedPeer, known: seq<(NodeId, PublicKey)>, routes: seq<Route>, now: Time)
    ensures |Mesh.Advertisement(own, known, routes, now)| > 0
  {
    if known != [] {
      StartsWithOwn(own, known[..|known| - 1], routes, now);
    }
  }

  /** Every other peer the node knows has an entry. */
  lemma {:induction false} EveryPeerHasEntry(own: AdvertisedPeer, known: seq<(NodeId, PublicKey)>, routes: seq<Route>, now: Time, k: nat)
    returns (i: nat)
    requires k < |known| && known[k].0 != own.nodeId
    ensures 1 <= i < |Mesh.Advertisement(own, known, routes, now)|
    ensures var p := Mesh.Advertisement(own, known, routes, now)[i]; (p.nodeId, p.key) == known[k]
  {
    var n := |known| - 1;
    if k < n {
      i := EveryPeerHasEntry(own, known[..n], routes, now, k);
    } else {
      StartsWithOwn(own, known[..n], routes, now);
      i := |Mesh.Advertisement(own, known[..n], routes, now)|;
    }
  }

  /**
   A neighbour that merges the advertisement learns every live route it may use: for every entry that is not about itself,
   contradicts none of its keys and whose path avoids it, with enough room, it ends at the route's number or beyond.
   */
  lemma NeighbourLearns(own: AdvertisedPeer, known: seq<(NodeId, PublicKey)>, routes: seq<Route>, sentAt: Time,
                        limits: Limits, n: Node, self: NodeId, now: Time, i: nat, r: Route)
    requires (forall s :: s in routes ==> RouteOk(s)) && RoutesOk(limits.maxRoutes, n.routes) && |n.peers| <= limits.maxPeers
    requires var out := Mesh.Advertisement(own, known, routes, sentAt);
      && 1 <= i < |out| && r in routes && Live(r, out[i].nodeId, sentAt) && r.metric < 1_000_000
      && Counts(n.peers, out[i], own.nodeId, self) && Reachable(out[i], own.nodeId, self)
      && (out[i].nodeId in n.peers || |n.peers| + i < limits.maxPeers)
      && RoomFor(limits, n.routes, out, Entry(r.destination, r.prefix, r.length))
    ensures var out := Mesh.Advertisement(own, known, routes, sentAt);
      Highest(MergeTable(limits, n, out, own.nodeId, self, now).routes, Entry(r.destination, r.prefix, r.length)) >= r.sequence
  {
    var out := Mesh.Advertisement(own, known, routes, sentAt);
    EveryEntryTellsAll(own, known, routes, sentAt, i);
    var p := out[i];
    assert Told(p, r, sentAt);
    var ap :| ap in p.prefixes && Announces(ap, r, sentAt);
    var j: nat :| j < |p.prefixes| && p.prefixes[j] == ap;
    AnnouncedIsGood(ap, r, sentAt);
    RoutesAreLearned(limits, n, out, own.nodeId, self, now, i, j);
  }

  lemma AnnouncedIsGood(ap: AdvertisedPrefix, r: Route, now: Time)
    requires RouteOk(r) && Live(r, r.destination, now) && Announces(ap, r, now) && r.metric < 1_000_000
    ensures Good(ap) && !ap.prefix.family.OtherFamily? && EntryOf(r.destination, ap) == Entry(r.destination, r.prefix, r.length)
  {
    Mesh.LiveLeaseIsValid(r, now);
    RecordAnnounces(r, now);
  }
}
