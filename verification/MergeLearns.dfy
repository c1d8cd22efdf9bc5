/** A whole table merged with nothing between its sections is learned: its peers become known and its routes are held. */
module MergeLearns {
  import opened Basics
  import opened IpPrefixes
  import opened Routes
  import opened PeerTable
  import opened MergeLaws
  import opened PeerMerge

  // ---------- the room a merge takes ----------

  function Once(yes: bool): nat {
    if yes then 1 else 0
  }

  predicate Concerns(ap: AdvertisedPrefix, prefix: Address, length: nat) {
    Canonical(ap.prefix, ap.length) == prefix && ap.length == length
  }

  /** How many records concern one prefix. */
  function Mentions(prefixes: seq<AdvertisedPrefix>, prefix: Address, length: nat): nat {
    if prefixes == [] then 0
    else Mentions(prefixes[..|prefixes| - 1], prefix, length) + Once(Concerns(prefixes[|prefixes| - 1], prefix, length))
  }

  function Mentioned(advertised: seq<AdvertisedPeer>, prefix: Address, length: nat): nat {
    if advertised == [] then 0
    else Mentioned(advertised[..|advertised| - 1], prefix, length) + Mentions(advertised[|advertised| - 1].prefixes, prefix, length)
  }

  function Records(advertised: seq<AdvertisedPeer>): nat {
    if advertised == [] then 0 else Records(advertised[..|advertised| - 1]) + |advertised[|advertised| - 1].prefixes|
  }

  lemma AddUses(base: seq<Route>, maxRoutes: nat, route: Route, prefix: Address, length: nat)
    requires Add(base, maxRoutes, route).Some?
    ensures var after := Add(base, maxRoutes, route).value;
      && |after| <= |base| + 1
      && Count(after, prefix, length)
         <= Count(base, prefix, length) + Once(Canonical(route.prefix, route.length) == prefix && route.length == length)
  {
    var c := Candidate(route);
    var i := Find(base, SameAs(c));
    if i < |base| {
      CountUpdate(base, i, Refreshed(base[i], c), prefix, length);
    } else {
      assert (base + [c])[..|base|] == base;
    }
  }

  lemma SupersededUses(routes: seq<Route>, route: Route, prefix: Address, length: nat)
    ensures |Superseded(routes, route)| <= |routes| && Count(Superseded(routes, route), prefix, length) <= Count(routes, prefix, length)
  {
    var x := Older(route.origin, Canonical(route.prefix, route.length), route.length, route.sequence);
    KeptExactly(routes, x);
    KeptCounts(routes, x, prefix, length);
  }

  lemma AddedUses(base: seq<Route>, maxRoutes: nat, route: Route, prefix: Address, length: nat)
    ensures var after := Added(base, maxRoutes, route).0;
      && |after| <= |base| + 1
      && Count(after, prefix, length)
         <= Count(base, prefix, length) + Once(Canonical(route.prefix, route.length) == prefix && route.length == length)
  {
    if Add(base, maxRoutes, route).Some? {
      AddUses(base, maxRoutes, route, prefix, length);
    }
  }

  lemma RefreshUses(base: seq<Route>, maxRoutes: nat, route: Route, prefix: Address, length: nat)
    ensures var after := AddOrKeep(base, maxRoutes, route);
      && |after| <= |base| + 1
      && Count(after, prefix, length)
         <= Count(base, prefix, length) + Once(Canonical(route.prefix, route.length) == prefix && route.length == length)
  {
    if Add(base, maxRoutes, route).Some? {
      AddUses(base, maxRoutes, route, prefix, length);
    }
  }

  /** One record takes at most one place, and at most one under its own prefix. */
  lemma PrefixUses(routes: seq<Route>, maxRoutes: nat, nodeId: NodeId, path: seq<NodeId>, pathOk: bool, ap: AdvertisedPrefix, now: Time,
                   prefix: Address, length: nat)
    requires path != []
    ensures var after := MergePrefix(routes, maxRoutes, nodeId, path, pathOk, ap, now).0;
      |after| <= |routes| + 1 && Count(after, prefix, length) <= Count(routes, prefix, length) + Once(Concerns(ap, prefix, length))
  {
    match Decide(routes, nodeId, path, pathOk, ap, now)
    case Skip(_) =>
    case Refresh(route) => RefreshUses(routes, maxRoutes, route, prefix, length);
    case Install(route) => AddedUses(routes, maxRoutes, route, prefix, length);
    case Replace(route) =>
      SupersededUses(routes, route, prefix, length);
      AddedUses(Superseded(routes, route), maxRoutes, route, prefix, length);
  }

  lemma {:induction false} PrefixesUse(t: Tally, maxRoutes: nat, nodeId: NodeId, path: seq<NodeId>, pathOk: bool,
                                       prefixes: seq<AdvertisedPrefix>, now: Time, prefix: Address, length: nat)
    requires path != []
    ensures var after := MergePrefixes(t, maxRoutes, nodeId, path, pathOk, prefixes, now).routes;
      && |after| <= |t.routes| + |prefixes|
      && Count(after, prefix, length) <= Count(t.routes, prefix, length) + Mentions(prefixes, prefix, length)
  {
    if prefixes != [] {
      var n := |prefixes| - 1;
      PrefixesUse(t, maxRoutes, nodeId, path, pathOk, prefixes[..n], now, prefix, length);
      var u := MergePrefixes(t, maxRoutes, nodeId, path, pathOk, prefixes[..n], now);
      PrefixUses(u.routes, maxRoutes, nodeId, path, pathOk, prefixes[n], now, prefix, length);
    }
  }

  lemma PeerUses(limits: Limits, n: Node, p: AdvertisedPeer, sender: NodeId, self: NodeId, now: Time, prefix: Address, length: nat)
    ensures var m := MergePeer(limits, n, p, sender, self, now);
      && |m.routes| <= |n.routes| + |p.prefixes|
      && Count(m.routes, prefix, length) <= Count(n.routes, prefix, length) + Mentions(p.prefixes, prefix, length)
  {
    var path := RelayPath(sender, p);
    var pathOk := PathOk(path, self, p.nodeId);
    PrefixesUse(Tally(n.routes, !pathOk, 0, 0, 0), limits.maxRoutes, p.nodeId, path, pathOk, p.prefixes, now, prefix, length);
  }

  lemma {:induction false} TableUses(limits: Limits, n: Node, advertised: seq<AdvertisedPeer>, sender: NodeId, self: NodeId, now: Time,
                                     prefix: Address, length: nat)
    ensures var m := MergeTable(limits, n, advertised, sender, self, now);
      && |m.routes| <= |n.routes| + Records(advertised)
      && Count(m.routes, prefix, length) <= Count(n.routes, prefix, length) + Mentioned(advertised, prefix, length)
  {
    if advertised != [] {
      var k := |advertised| - 1;
      TableUses(limits, n, advertised[..k], sender, self, now, prefix, length);
      PeerUses(limits, MergeTable(limits, n, advertised[..k], sender, self, now), advertised[k], sender, self, now, prefix, length);
    }
  }

  // ---------- the routes of one peer ----------

  lemma {:induction false} PrefixesLearn(t: Tally, maxRoutes: nat, self: NodeId, nodeId: NodeId, path: seq<NodeId>,
                                         prefixes: seq<AdvertisedPrefix>, now: Time, i: nat)
    requires RoutesOk(maxRoutes, t.routes) && |path| >= 2 && PathOk(path, self, nodeId) && i < |prefixes|
    requires Good(prefixes[i]) && !prefixes[i].prefix.family.OtherFamily? && |t.routes| + |prefixes| <= maxRoutes
    requires var e := EntryOf(nodeId, prefixes[i]); Count(t.routes, e.prefix, e.length) + Mentions(prefixes, e.prefix, e.length) <= 8
    ensures Highest(MergePrefixes(t, maxRoutes, nodeId, path, true, prefixes, now).routes, EntryOf(nodeId, prefixes[i])) >= prefixes[i].sequence
  {
    var n := |prefixes| - 1;
    var u := MergePrefixes(t, maxRoutes, nodeId, path, true, prefixes[..n], now);
    var e := EntryOf(nodeId, prefixes[i]);
    PrefixesKeep(t, maxRoutes, self, nodeId, path, true, prefixes[..n], now);
    if i == n {
      PrefixesUse(t, maxRoutes, nodeId, path, true, prefixes[..n], now, e.prefix, e.length);
      PrefixIsLearned(u.routes, maxRoutes, self, nodeId, path, prefixes[n], now);
    } else {
      PrefixesLearn(t, maxRoutes, self, nodeId, path, prefixes[..n], now, i);
      PrefixKeeps(u.routes, maxRoutes, self, nodeId, path, true, prefixes[n], now);
    }
  }

  /** The entry is about somebody else, is well formed and contradicts no key the node has bound. */
  predicate Counts(peers: map<NodeId, Peer>, p: AdvertisedPeer, sender: NodeId, self: NodeId) {
    && p.nodeId != self && p.nodeId != sender
    && |p.path| <= 8 && |p.prefixes| <= 16 && p.key == KeyOf(p.nodeId)
    && !(p.nodeId in peers && !peers[p.nodeId].key.ZeroKey? && peers[p.nodeId].key != p.key)
  }

  /** The entry's path, through the sender, ends at its peer, visits nobody twice and not this node. */
  predicate Reachable(p: AdvertisedPeer, sender: NodeId, self: NodeId) {
    var path := RelayPath(sender, p);
    path[|path| - 1] == p.nodeId && self !in path && NoRepeats(path)
  }

  lemma PeerIsKnown(limits: Limits, n: Node, p: AdvertisedPeer, sender: NodeId, self: NodeId, now: Time)
    requires Counts(n.peers, p, sender, self) && (p.nodeId in n.peers || |n.peers| < limits.maxPeers)
    ensures var m := MergePeer(limits, n, p, sender, self, now); p.nodeId in m.peers && m.peers[p.nodeId].key == p.key
  {
  }

  lemma PeerRoutes(limits: Limits, n: Node, p: AdvertisedPeer, sender: NodeId, self: NodeId, now: Time)
    requires Counts(n.peers, p, sender, self) && (p.nodeId in n.peers || |n.peers| < limits.maxPeers) && Reachable(p, sender, self)
    ensures MergePeer(limits, n, p, sender, self, now).routes ==
      MergePrefixes(Tally(n.routes, false, 0, 0, 0), limits.maxRoutes, p.nodeId, RelayPath(sender, p), true, p.prefixes, now).routes
  {
  }

  lemma PeerLearns(limits: Limits, n: Node, p: AdvertisedPeer, sender: NodeId, self: NodeId, now: Time, i: nat)
    requires RoutesOk(limits.maxRoutes, n.routes) && Counts(n.peers, p, sender, self) && (p.nodeId in n.peers || |n.peers| < limits.maxPeers)
    requires Reachable(p, sender, self) && i < |p.prefixes| && Good(p.prefixes[i]) && !p.prefixes[i].prefix.family.OtherFamily?
    requires |n.routes| + |p.prefixes| <= limits.maxRoutes
    requires var e := EntryOf(p.nodeId, p.prefixes[i]); Count(n.routes, e.prefix, e.length) + Mentions(p.prefixes, e.prefix, e.length) <= 8
    ensures Highest(MergePeer(limits, n, p, sender, self, now).routes, EntryOf(p.nodeId, p.prefixes[i])) >= p.prefixes[i].sequence
  {
    PeerRoutes(limits, n, p, sender, self, now);
    PrefixesLearn(Tally(n.routes, false, 0, 0, 0), limits.maxRoutes, self, p.nodeId, RelayPath(sender, p), p.prefixes, now, i);
  }

  // ---------- the whole table ----------

  /** The peers only grow, and a full table stays full. */
  lemma KnownStaysKnown(limits: Limits, n: Node, p: AdvertisedPeer, sender: NodeId, self: NodeId, now: Time)
    requires |n.peers| <= limits.maxPeers
    ensures var m := MergePeer(limits, n, p, sender, self, now);
      && IdentitiesKept(n.peers, m.peers) && |n.peers| <= |m.peers| <= limits.maxPeers
  {
    PeerKeepsIdentities(limits, n, p, sender, self, now);
    SizeGrows(n.peers, MergePeer(limits, n, p, sender, self, now).peers);
  }

  lemma SizeGrows(before: map<NodeId, Peer>, after: map<NodeId, Peer>)
    requires forall id :: id in before ==> id in after
    ensures |before| <= |after|
  {
    assert after.Keys == before.Keys + (after.Keys - before.Keys);
    assert |before| == |before.Keys| && |after| == |after.Keys|;
  }

  /** An entry that counts before a merge still counts during it: nobody is bound to a key that is not their own. */
  lemma StillCounts(before: map<NodeId, Peer>, after: map<NodeId, Peer>, p: AdvertisedPeer, sender: NodeId, self: NodeId)
    requires IdentitiesKept(before, after) && Counts(before, p, sender, self)
    ensures Counts(after, p, sender, self)
  {
  }

  lemma {:induction false} TableKeepsPeers(limits: Limits, n: Node, advertised: seq<AdvertisedPeer>, sender: NodeId, self: NodeId, now: Time)
    requires |n.peers| <= limits.maxPeers
    ensures var m := MergeTable(limits, n, advertised, sender, self, now);
      IdentitiesKept(n.peers, m.peers) && |n.peers| <= |m.peers| <= limits.maxPeers
  {
    if advertised != [] {
      var k := |advertised| - 1;
      TableKeepsPeers(limits, n, advertised[..k], sender, self, now);
      var m := MergeTable(limits, n, advertised[..k], sender, self, now);
      KnownStaysKnown(limits, m, advertised[k], sender, self, now);
      IdentitiesTransitive(n.peers, m.peers, MergePeer(limits, m, advertised[k], sender, self, now).peers);
    }
  }

  /** Whatever the rest of a table brings, the peers known from its first entries stay known. */
  lemma {:induction false} RestForgetsNone(limits: Limits, n: Node, advertised: seq<AdvertisedPeer>, sender: NodeId, self: NodeId, now: Time, i: nat)
    requires |n.peers| <= limits.maxPeers && i <= |advertised|
    ensures var m := MergeTable(limits, n, advertised[..i], sender, self, now); var end := MergeTable(limits, n, advertised, sender, self, now);
      IdentitiesKept(m.peers, end.peers) && |m.peers| <= |end.peers| <= limits.maxPeers
    decreases |advertised|
  {
    if i == |advertised| {
      assert advertised[..i] == advertised;
      TableKeepsPeers(limits, n, advertised, sender, self, now);
    } else {
      var k := |advertised| - 1;
      RestForgetsNone(limits, n, advertised[..k], sender, self, now, i);
      assert advertised[..k][..i] == advertised[..i];
      var last := MergeTable(limits, n, advertised[..k], sender, self, now);
      KnownStaysKnown(limits, last, advertised[k], sender, self, now);
      IdentitiesTransitive(MergeTable(limits, n, advertised[..i], sender, self, now).peers, last.peers,
                           MergePeer(limits, last, advertised[k], sender, self, now).peers);
    }
  }

  lemma NextIsKnown(limits: Limits, n: Node, m: Node, p: AdvertisedPeer, sender: NodeId, self: NodeId, now: Time)
    requires IdentitiesKept(n.peers, m.peers) && |m.peers| <= limits.maxPeers && Counts(n.peers, p, sender, self)
    ensures var after := MergePeer(limits, m, p, sender, self, now).peers;
      (p.nodeId in after && after[p.nodeId].key == p.key) || (p.nodeId !in n.peers && |after| >= limits.maxPeers)
  {
    StillCounts(n.peers, m.peers, p, sender, self);
    if p.nodeId in m.peers || |m.peers| < limits.maxPeers {
      PeerIsKnown(limits, m, p, sender, self, now);
    }
  }

  /**
   Every well-formed entry about somebody else that contradicts no bound key is known after the merge, under its own
   key, unless the peer table is full.
   */
  lemma PeersAreLearned(limits: Limits, n: Node, advertised: seq<AdvertisedPeer>, sender: NodeId, self: NodeId, now: Time, i: nat)
    requires |n.peers| <= limits.maxPeers && i < |advertised| && Counts(n.peers, advertised[i], sender, self)
    ensures var m := MergeTable(limits, n, advertised, sender, self, now); var p := advertised[i];
      (p.nodeId in m.peers && m.peers[p.nodeId].key == p.key) || (p.nodeId !in n.peers && |m.peers| == limits.maxPeers)
  {
    var m := MergeTable(limits, n, advertised[..i], sender, self, now);
    TableKeepsPeers(limits, n, advertised[..i], sender, self, now);
    NextIsKnown(limits, n, m, advertised[i], sender, self, now);
    OneEntryFurther(limits, n, advertised, sender, self, now, i);
    RestForgetsNone(limits, n, advertised, sender, self, now, i + 1);
  }

  /** Enough room: for every record of the table, and for every record that concerns this prefix. */
  predicate RoomFor(limits: Limits, routes: seq<Route>, advertised: seq<AdvertisedPeer>, e: Entry) {
    |routes| + Records(advertised) <= limits.maxRoutes && Count(routes, e.prefix, e.length) + Mentioned(advertised, e.prefix, e.length) <= 8
  }

  lemma {:induction false} RoomForPart(limits: Limits, routes: seq<Route>, advertised: seq<AdvertisedPeer>, e: Entry, i: nat)
    requires RoomFor(limits, routes, advertised, e) && i < |advertised|
    ensures |routes| + Records(advertised[..i]) + |advertised[i].prefixes| <= limits.maxRoutes
    ensures Count(routes, e.prefix, e.length) + Mentioned(advertised[..i], e.prefix, e.length)
            + Mentions(advertised[i].prefixes, e.prefix, e.length) <= 8
  {
    var k := |advertised| - 1;
    if i < k {
      RoomForPart(limits, routes, advertised[..k], e, i);
      assert advertised[..k][..i] == advertised[..i];
    }
  }

  /** Whatever the rest of a table brings, no number learned from its first entries is lowered. */
  lemma {:induction false} RestLowersNone(limits: Limits, n: Node, advertised: seq<AdvertisedPeer>, sender: NodeId, self: NodeId, now: Time,
                                          i: nat, e: Entry)
    requires RoutesOk(limits.maxRoutes, n.routes) && |n.peers| <= limits.maxPeers && i <= |advertised|
    ensures Highest(MergeTable(limits, n, advertised, sender, self, now).routes, e)
            >= Highest(MergeTable(limits, n, advertised[..i], sender, self, now).routes, e)
    decreases |advertised|
  {
    var k := |advertised| - 1;
    if i == |advertised| {
      assert advertised[..i] == advertised;
    } else {
      RestLowersNone(limits, n, advertised[..k], sender, self, now, i, e);
      assert advertised[..k][..i] == advertised[..i];
      MergeIsSafe(limits, n, advertised[..k], sender, self, now);
      PeerKeepsRoutes(limits, MergeTable(limits, n, advertised[..k], sender, self, now), advertised[k], sender, self, now);
    }
  }

  lemma OneEntryFurther(limits: Limits, n: Node, advertised: seq<AdvertisedPeer>, sender: NodeId, self: NodeId, now: Time, i: nat)
    requires i < |advertised|
    ensures MergeTable(limits, n, advertised[..i + 1], sender, self, now)
            == MergePeer(limits, MergeTable(limits, n, advertised[..i], sender, self, now), advertised[i], sender, self, now)
  {
    assert advertised[..i + 1][..i] == advertised[..i];
  }

  /** The node after the first `i` entries, with room left for the next one. */
  lemma ReadyForNext(limits: Limits, n: Node, m: Node, earlier: seq<AdvertisedPeer>, sender: NodeId, self: NodeId, now: Time, e: Entry)
    requires RoutesOk(limits.maxRoutes, n.routes) && |n.peers| <= limits.maxPeers && m == MergeTable(limits, n, earlier, sender, self, now)
    ensures RoutesOk(limits.maxRoutes, m.routes) && IdentitiesKept(n.peers, m.peers) && |m.peers| <= |n.peers| + |earlier|
    ensures |m.routes| <= |n.routes| + Records(earlier)
    ensures Count(m.routes, e.prefix, e.length) <= Count(n.routes, e.prefix, e.length) + Mentioned(earlier, e.prefix, e.length)
  {
    MergeIsSafe(limits, n, earlier, sender, self, now);
    TableUses(limits, n, earlier, sender, self, now, e.prefix, e.length);
    PeersGrowByOne(limits, n, earlier, sender, self, now);
  }

  /**
   Every good record of such an entry along a good path is learned: with enough room the number held for it after the
   merge is at least the advertised one.
   */
  lemma RoutesAreLearned(limits: Limits, n: Node, advertised: seq<AdvertisedPeer>, sender: NodeId, self: NodeId, now: Time, i: nat, j: nat)
    requires RoutesOk(limits.maxRoutes, n.routes) && |n.peers| <= limits.maxPeers
    requires i < |advertised| && Counts(n.peers, advertised[i], sender, self) && Reachable(advertised[i], sender, self)
    requires advertised[i].nodeId in n.peers || |n.peers| + i < limits.maxPeers
    requires j < |advertised[i].prefixes| && Good(advertised[i].prefixes[j]) && !advertised[i].prefixes[j].prefix.family.OtherFamily?
    requires RoomFor(limits, n.routes, advertised, EntryOf(advertised[i].nodeId, advertised[i].prefixes[j]))
    ensures var m := MergeTable(limits, n, advertised, sender, self, now); var p := advertised[i];
      Highest(m.routes, EntryOf(p.nodeId, p.prefixes[j])) >= p.prefixes[j].sequence
  {
    var p := advertised[i];
    var e := EntryOf(p.nodeId, p.prefixes[j]);
    var m := MergeTable(limits, n, advertised[..i], sender, self, now);
    RoomForPart(limits, n.routes, advertised, e, i);
    ReadyForNext(limits, n, m, advertised[..i], sender, self, now, e);
    LastIsLearned(limits, n, m, p, sender, self, now, j);
    OneEntryFurther(limits, n, advertised, sender, self, now, i);
    RestLowersNone(limits, n, advertised, sender, self, now, i + 1, e);
  }

  lemma LastIsLearned(limits: Limits, n: Node, m: Node, p: AdvertisedPeer, sender: NodeId, self: NodeId, now: Time, j: nat)
    requires RoutesOk(limits.maxRoutes, m.routes) && IdentitiesKept(n.peers, m.peers)
    requires Counts(n.peers, p, sender, self) && Reachable(p, sender, self) && (p.nodeId in n.peers || |m.peers| < limits.maxPeers)
    requires j < |p.prefixes| && Good(p.prefixes[j]) && !p.prefixes[j].prefix.family.OtherFamily? && |m.routes| + |p.prefixes| <= limits.maxRoutes
    requires var e := EntryOf(p.nodeId, p.prefixes[j]); Count(m.routes, e.prefix, e.length) + Mentions(p.prefixes, e.prefix, e.length) <= 8
    ensures Highest(MergePeer(limits, m, p, sender, self, now).routes, EntryOf(p.nodeId, p.prefixes[j])) >= p.prefixes[j].sequence
  {
    StillCounts(n.peers, m.peers, p, sender, self);
    PeerLearns(limits, m, p, sender, self, now, j);
  }

  lemma UpsertGrowsByOne(peers: map<NodeId, Peer>, maxPeers: nat, id: NodeId, key: PublicKey)
    ensures |Upsert(peers, maxPeers, id, key, false).0| <= |peers| + 1
  {
    var after := Upsert(peers, maxPeers, id, key, false).0;
    assert after.Keys == peers.Keys || after.Keys == peers.Keys + {id};
    assert |after| == |after.Keys| && |peers| == |peers.Keys|;
  }

  lemma {:induction false} PeersGrowByOne(limits: Limits, n: Node, advertised: seq<AdvertisedPeer>, sender: NodeId, self: NodeId, now: Time)
    ensures |MergeTable(limits, n, advertised, sender, self, now).peers| <= |n.peers| + |advertised|
  {
    if advertised != [] {
      var k := |advertised| - 1;
      PeersGrowByOne(limits, n, advertised[..k], sender, self, now);
      var m := MergeTable(limits, n, advertised[..k], sender, self, now);
      UpsertGrowsByOne(m.peers, limits.maxPeers, advertised[k].nodeId, advertised[k].key);
    }
  }
}
