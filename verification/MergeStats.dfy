/** The statistics of a merge, counted from what became of each entry and of each of its records. */
module MergeStats {
  import opened Basics
  import opened PeerTable
  import Routes
  import opened MergeLearns
  import opened PeerMerge

  /** What became of the records of one peer, in order: each is merged into the table its predecessors left. */
  function Outcomes(t: Tally, maxRoutes: nat, nodeId: NodeId, path: seq<NodeId>, pathOk: bool, prefixes: seq<AdvertisedPrefix>, now: Time)
    : (os: seq<Outcome>)
    requires path != []
    ensures |os| == |prefixes|
  {
    if prefixes == [] then []
    else
      var n := |prefixes| - 1;
      var u := MergePrefixes(t, maxRoutes, nodeId, path, pathOk, prefixes[..n], now);
      Outcomes(t, maxRoutes, nodeId, path, pathOk, prefixes[..n], now)
      + [MergePrefix(u.routes, maxRoutes, nodeId, path, pathOk, prefixes[n], now).1]
  }

  /** Every record is counted once, under what became of it. */
  ghost predicate CountedBy(t: Tally, r: Tally, os: seq<Outcome>) {
    && r.stale == t.stale + multiset(os)[Stale]
    && r.installed == t.installed + multiset(os)[Installed]
    && r.noRoom == t.noRoom + multiset(os)[NoRoom]
    && (r.malformed <==> t.malformed || BadPrefix in os || Conflicting in os)
  }

  lemma OneMore(t: Tally, u: Tally, os: seq<Outcome>, routes: seq<Routes.Route>, o: Outcome)
    requires CountedBy(t, u, os)
    ensures CountedBy(t, Counted(u, routes, o), os + [o])
  {
  }

  lemma {:induction false} TallyExactly(t: Tally, maxRoutes: nat, nodeId: NodeId, path: seq<NodeId>, pathOk: bool,
                                        prefixes: seq<AdvertisedPrefix>, now: Time)
    requires path != []
    ensures CountedBy(t, MergePrefixes(t, maxRoutes, nodeId, path, pathOk, prefixes, now),
                      Outcomes(t, maxRoutes, nodeId, path, pathOk, prefixes, now))
  {
    if prefixes != [] {
      var n := |prefixes| - 1;
      TallyExactly(t, maxRoutes, nodeId, path, pathOk, prefixes[..n], now);
      var u := MergePrefixes(t, maxRoutes, nodeId, path, pathOk, prefixes[..n], now);
      var (routes, o) := MergePrefix(u.routes, maxRoutes, nodeId, path, pathOk, prefixes[n], now);
      OneMore(t, u, Outcomes(t, maxRoutes, nodeId, path, pathOk, prefixes[..n], now), routes, o);
    }
  }

  /** The outcomes of an accepted entry. */
  function EntryOutcomes(limits: Limits, n: Node, p: AdvertisedPeer, sender: NodeId, self: NodeId, now: Time): seq<Outcome> {
    var ok := Reachable(p, sender, self);
    Outcomes(Tally(n.routes, !ok, 0, 0, 0), limits.maxRoutes, p.nodeId, RelayPath(sender, p), ok, p.prefixes, now)
  }

  /** An entry about this node or the sender is passed over. */
  lemma OwnEntryIgnored(limits: Limits, n: Node, p: AdvertisedPeer, sender: NodeId, self: NodeId, now: Time)
    requires p.nodeId == self || p.nodeId == sender
    ensures MergePeer(limits, n, p, sender, self, now) == n
  {
  }

  /** An entry that is malformed, contradicts a bound key or finds the peer table full changes one counter only. */
  lemma RefusedEntry(limits: Limits, n: Node, p: AdvertisedPeer, sender: NodeId, self: NodeId, now: Time)
    requires p.nodeId != self && p.nodeId != sender
    ensures var m := MergePeer(limits, n, p, sender, self, now); var s := n.stats;
      var shaped := |p.path| <= 8 && |p.prefixes| <= 16 && p.key == KeyOf(p.nodeId);
      && (!shaped ==> m == n.(stats := s.(malformed := s.malformed + 1)))
      && (shaped && !Counts(n.peers, p, sender, self) ==> m == n.(stats := s.(conflicting := s.conflicting + 1)))
      && (shaped && p.nodeId !in n.peers && |n.peers| >= limits.maxPeers ==>
            m == n.(stats := s.(capacityRejected := s.capacityRejected + 1)))
  {
  }

  function Change(peers: map<NodeId, Peer>, id: NodeId): UpsertResult {
    if id !in peers then Inserted else if peers[id].key.ZeroKey? then IdentityBound else Updated
  }

  lemma UpsertSays(peers: map<NodeId, Peer>, maxPeers: nat, p: AdvertisedPeer, sender: NodeId, self: NodeId)
    requires Counts(peers, p, sender, self) && (p.nodeId in peers || |peers| < maxPeers)
    ensures Upsert(peers, maxPeers, p.nodeId, p.key, false).1 == Change(peers, p.nodeId)
  {
  }

  lemma RecordsAreCredited(maxRoutes: nat, routes: seq<Routes.Route>, stats: Stats, result: UpsertResult, p: AdvertisedPeer,
                           sender: NodeId, self: NodeId, now: Time, tally: Tally)
    requires var ok := Reachable(p, sender, self);
      tally == MergePrefixes(Tally(routes, !ok, 0, 0, 0), maxRoutes, p.nodeId, RelayPath(sender, p), ok, p.prefixes, now)
    ensures MergeRoutes(maxRoutes, routes, stats, result, p, sender, self, now).1 == Credited(stats, result, tally)
  {
  }

  lemma EntryIsCredited(limits: Limits, n: Node, p: AdvertisedPeer, sender: NodeId, self: NodeId, now: Time, tally: Tally)
    requires Counts(n.peers, p, sender, self) && (p.nodeId in n.peers || |n.peers| < limits.maxPeers)
    requires var ok := Reachable(p, sender, self);
      tally == MergePrefixes(Tally(n.routes, !ok, 0, 0, 0), limits.maxRoutes, p.nodeId, RelayPath(sender, p), ok, p.prefixes, now)
    ensures MergePeer(limits, n, p, sender, self, now).stats == Credited(n.stats, Change(n.peers, p.nodeId), tally)
  {
    UpsertSays(n.peers, limits.maxPeers, p, sender, self);
    RecordsAreCredited(limits.maxRoutes, n.routes, n.stats, Change(n.peers, p.nodeId), p, sender, self, now, tally);
  }

  /** The counters after an accepted entry whose records came to `os`. */
  function After(s: Stats, changed: bool, badPath: bool, os: seq<Outcome>): Stats {
    Stats(s.accepted + 1, s.peersChanged + Once(changed),
          s.malformed + Once(badPath || BadPrefix in os || Conflicting in os),
          s.conflicting, s.capacityRejected + multiset(os)[NoRoom],
          s.stale + multiset(os)[Stale], s.installed + multiset(os)[Installed])
  }

  lemma CreditExactly(s: Stats, result: UpsertResult, t: Tally, r: Tally, os: seq<Outcome>)
    requires CountedBy(t, r, os) && t.stale == t.installed == t.noRoom == 0
    ensures Credited(s, result, r) == After(s, result.Inserted? || result.IdentityBound?, t.malformed, os)
  {
  }

  /** Any other entry is accepted, and its records are counted under what became of them. */
  lemma AcceptedEntry(limits: Limits, n: Node, p: AdvertisedPeer, sender: NodeId, self: NodeId, now: Time)
    requires Counts(n.peers, p, sender, self) && (p.nodeId in n.peers || |n.peers| < limits.maxPeers)
    ensures MergePeer(limits, n, p, sender, self, now).stats ==
      After(n.stats, p.nodeId !in n.peers || n.peers[p.nodeId].key.ZeroKey?, !Reachable(p, sender, self),
            EntryOutcomes(limits, n, p, sender, self, now))
  {
    var ok := Reachable(p, sender, self);
    var t := Tally(n.routes, !ok, 0, 0, 0);
    var r := MergePrefixes(t, limits.maxRoutes, p.nodeId, RelayPath(sender, p), ok, p.prefixes, now);
    EntryIsCredited(limits, n, p, sender, self, now, r);
    TallyExactly(t, limits.maxRoutes, p.nodeId, RelayPath(sender, p), ok, p.prefixes, now);
    CreditExactly(n.stats, Change(n.peers, p.nodeId), t, r, EntryOutcomes(limits, n, p, sender, self, now));
  }
}
