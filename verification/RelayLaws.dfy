/** When a relayed packet is forwarded, in terms of what the buckets hold at that moment, and whom the limiter forgets. */
module RelayLaws {
  import opened Basics
  import opened RelayLimiter

  /** The bucket holds a packet and the packet's bytes by now. */
  predicate Holds(b: Bucket, q: Quota, size: nat, now: Instant) {
    Level(b, q, now, false) >= 1.0 && Level(b, q, now, true) >= size as real
  }

  predicate Idle(c: Config, p: PeerBucket, now: Instant) {
    now - p.lastSeen >= c.idleTtl as real
  }

  /** A sender not seen before finds a place: the table is not full, or somebody in it has been idle long enough. */
  ghost predicate Place(c: Config, peers: map<NodeId, PeerBucket>, now: Instant) {
    |peers| < c.maxPeers || exists id :: id in peers && Idle(c, peers[id], now)
  }

  lemma RefilledAffords(b: Bucket, q: Quota, size: nat, now: Instant)
    requires ValidQuota(q) && BucketOk(b, q, now)
    ensures Affords(Refill(b, q, now), size) <==> Holds(b, q, size, now)
  {
    RefillMeets(b, q, now);
    assert Tokens(Refill(b, q, now), false) == Level(b, q, now, false) && Tokens(Refill(b, q, now), true) == Level(b, q, now, true);
  }

  lemma PlaceExactly(c: Config, peers: map<NodeId, PeerBucket>, now: Instant)
    requires ValidConfig(c) && PeersOk(c, peers, now) && |peers| <= c.maxPeers
    ensures |RoomFor(c, peers, now)| < c.maxPeers <==> Place(c, peers, now)
  {
    var kept := Purge(c, peers, now);
    assert |kept| == |kept.Keys| && |peers| == |peers.Keys|;
    if id :| id in peers && Idle(c, peers[id], now) {
      assert kept.Keys <= peers.Keys - {id};
      SubsetSize(kept.Keys, peers.Keys - {id});
    } else {
      assert kept.Keys == peers.Keys;
    }
  }

  /** The sender's own share allows it: what is left in its bucket, or a full one if it is new and finds a place. */
  ghost predicate Own(c: Config, peers: map<NodeId, PeerBucket>, call: Call) {
    if call.sender in peers then Holds(peers[call.sender].bucket, c.perPeer, call.size, call.now) else Place(c, peers, call.now)
  }

  lemma ServeExactly(c: Config, peers: map<NodeId, PeerBucket>, call: Call)
    requires ValidConfig(c) && PeersOk(c, peers, call.now) && |peers| <= c.maxPeers && call.size <= c.perPeer.byteBurst
    ensures var r := Serve(c, peers, call).1;
      && (r == Allowed <==> Own(c, peers, call))
      && (r == CapacityLimited <==> call.sender !in peers && !Own(c, peers, call))
      && (r == PeerLimited <==> call.sender in peers && !Own(c, peers, call))
  {
    if call.sender in peers {
      RefilledAffords(peers[call.sender].bucket, c.perPeer, call.size, call.now);
    } else {
      PlaceExactly(c, peers, call.now);
    }
  }

  /**
   A packet is forwarded exactly when it is not empty, is within both bursts, and both the node's bucket and the sender's
   hold it by now; a refusal names the node's bucket first, then the sender's, then the table of senders.
   */
  lemma AllowExactly(c: Config, s: State, call: Call)
    requires ValidConfig(c) && StateOk(c, s, call.now)
    ensures var r := Allow(c, s, call).1; var shared := Holds(s.whole, c.whole, call.size, call.now);
      && (r == Invalid <==> call.size == 0)
      && (r == Allowed <==>
            1 <= call.size <= c.whole.byteBurst && call.size <= c.perPeer.byteBurst && shared && Own(c, s.peers, call))
      && (r == GlobalLimited <==> call.size > c.whole.byteBurst || (1 <= call.size <= c.perPeer.byteBurst && !shared))
      && (r == CapacityLimited <==>
            1 <= call.size <= c.whole.byteBurst && call.size <= c.perPeer.byteBurst && shared
            && call.sender !in s.peers && !Place(c, s.peers, call.now))
  {
    if 1 <= call.size <= c.whole.byteBurst && call.size <= c.perPeer.byteBurst {
      RefilledAffords(s.whole, c.whole, call.size, call.now);
      ServeExactly(c, s.peers, call);
    }
  }

  /** Nobody else's bucket changes, and only senders idle long enough are forgotten, only to make a place in a full table. */
  lemma OthersAreLeft(c: Config, s: State, call: Call, id: NodeId)
    requires id != call.sender
    ensures var after := Allow(c, s, call).0.peers;
      && (id in after ==> id in s.peers && after[id] == s.peers[id])
      && (id in s.peers && id !in after ==>
            Idle(c, s.peers[id], call.now) && call.sender !in s.peers && |s.peers| >= c.maxPeers)
  {
  }

  /** An allowed packet costs its sender one packet and its bytes; any other outcome costs the sender nothing. */
  lemma SenderPays(c: Config, s: State, call: Call, byBytes: bool)
    requires ValidConfig(c) && StateOk(c, s, call.now) && call.sender in s.peers
    ensures var after := Allow(c, s, call).0.peers;
      && call.sender in after
      && Level(after[call.sender].bucket, c.perPeer, call.now, byBytes) ==
         Level(s.peers[call.sender].bucket, c.perPeer, call.now, byBytes) - (if Allow(c, s, call).1.Allowed? then Cost(call, byBytes) else 0.0)
  {
    var own := s.peers[call.sender].bucket;
    RefillMeets(own, c.perPeer, call.now);
    var full := Refill(own, c.perPeer, call.now);
    LevelNow(full, c.perPeer, call.now, byBytes);
    if Affords(full, call.size) {
      LevelNow(Spend(full, call.size), c.perPeer, call.now, byBytes);
    }
  }

  /** A newcomer starts with a full bucket. */
  lemma NewcomerPays(c: Config, s: State, call: Call, byBytes: bool)
    requires ValidConfig(c) && call.sender !in s.peers && Allow(c, s, call).1.Allowed?
    ensures var after := Allow(c, s, call).0.peers;
      call.sender in after && Tokens(after[call.sender].bucket, byBytes) == Burst(c.perPeer, byBytes) - Cost(call, byBytes)
  {
  }
}
