/**
 The relay forwarding quota: token buckets per authenticated sender and for the node as a whole. Token counts
 and clock readings, in milliseconds, are real numbers, so rounding is not modelled.
 */
module RelayLimiter {
  import opened Basics

  type Instant = real

  datatype Quota = Quota(packetRate: real, packetBurst: nat, byteRate: real, byteBurst: nat)

  datatype Config = Config(perPeer: Quota, whole: Quota, maxPeers: nat, idleTtl: nat)

  datatype Bucket = Bucket(packets: real, bytes: real, updatedAt: Instant)

  datatype PeerBucket = PeerBucket(bucket: Bucket, lastSeen: Instant)

  datatype Result = Allowed | Invalid | PeerLimited | GlobalLimited | CapacityLimited

  datatype State = State(whole: Bucket, peers: map<NodeId, PeerBucket>)

  datatype Call = Call(sender: NodeId, size: nat, now: Instant)

  predicate ValidQuota(q: Quota) {
    q.packetRate > 0.0 && q.packetBurst > 0 && q.byteRate > 0.0 && q.byteBurst > 0
  }

  predicate ValidConfig(c: Config) {
    ValidQuota(c.perPeer) && ValidQuota(c.whole) && c.maxPeers > 0 && c.idleTtl > 0
  }

  function MinReal(a: real, b: real): real {
    if a <= b then a else b
  }

  /** Tokens earned at a rate per second between two clock readings. */
  function Earned(rate: real, from: Instant, to: Instant): real {
    rate * ((to - from) / 1000.0)
  }

  function FullBucket(q: Quota, now: Instant): Bucket {
    Bucket(q.packetBurst as real, q.byteBurst as real, now)
  }

  function Refill(b: Bucket, q: Quota, now: Instant): Bucket {
    if now <= b.updatedAt then b
    else Bucket(MinReal(q.packetBurst as real, b.packets + Earned(q.packetRate, b.updatedAt, now)),
                MinReal(q.byteBurst as real, b.bytes + Earned(q.byteRate, b.updatedAt, now)), now)
  }

  predicate Affords(b: Bucket, size: nat) {
    b.packets >= 1.0 && b.bytes >= size as real
  }

  function Spend(b: Bucket, size: nat): Bucket {
    b.(packets := b.packets - 1.0, bytes := b.bytes - size as real)
  }

  function Purge(c: Config, peers: map<NodeId, PeerBucket>, now: Instant): map<NodeId, PeerBucket> {
    map id | id in peers && !(now >= peers[id].lastSeen && now - peers[id].lastSeen >= c.idleTtl as real) :: peers[id]
  }

  /** The table a newcomer is added to: idle senders are forgotten only when it is full. */
  function RoomFor(c: Config, peers: map<NodeId, PeerBucket>, now: Instant): map<NodeId, PeerBucket> {
    if |peers| >= c.maxPeers then Purge(c, peers, now) else peers
  }

  /** The sender's bucket as the call finds it, refilled or newly created, in the table it leaves behind. */
  function Admit(c: Config, peers: map<NodeId, PeerBucket>, sender: NodeId, now: Instant): Option<map<NodeId, PeerBucket>> {
    if sender in peers then Some(peers[sender := PeerBucket(Refill(peers[sender].bucket, c.perPeer, now), now)])
    else if |RoomFor(c, peers, now)| >= c.maxPeers then None
    else Some(RoomFor(c, peers, now)[sender := PeerBucket(FullBucket(c.perPeer, now), now)])
  }

  /** What the per-sender buckets make of a call the node-wide bucket can afford. */
  function Serve(c: Config, peers: map<NodeId, PeerBucket>, call: Call): (map<NodeId, PeerBucket>, Result) {
    match Admit(c, peers, call.sender, call.now)
    case None => (RoomFor(c, peers, call.now), CapacityLimited)
    case Some(admitted) =>
      var own := admitted[call.sender];
      if !Affords(own.bucket, call.size) then (admitted, PeerLimited)
      else (admitted[call.sender := own.(bucket := Spend(own.bucket, call.size))], Allowed)
  }

  function Allow(c: Config, s: State, call: Call): (State, Result) {
    if !ValidConfig(c) || call.size == 0 then (s, Invalid)
    else if call.size > c.whole.byteBurst then (s, GlobalLimited)
    else if call.size > c.perPeer.byteBurst then (s, PeerLimited)
    else
      var whole := Refill(s.whole, c.whole, call.now);
      if !Affords(whole, call.size) then (s.(whole := whole), GlobalLimited)
      else
        var (peers, result) := Serve(c, s.peers, call);
        (State(if result.Allowed? then Spend(whole, call.size) else whole, peers), result)
  }

  // ---------- what a bucket holds at a time ----------

  function Tokens(b: Bucket, byBytes: bool): real {
    if byBytes then b.bytes else b.packets
  }

  function Rate(q: Quota, byBytes: bool): real {
    if byBytes then q.byteRate else q.packetRate
  }

  function Burst(q: Quota, byBytes: bool): real {
    if byBytes then q.byteBurst as real else q.packetBurst as real
  }

  function Cost(call: Call, byBytes: bool): real {
    if byBytes then call.size as real else 1.0
  }

  ghost predicate BucketOk(b: Bucket, q: Quota, now: Instant) {
    && b.updatedAt <= now && 0.0 <= b.packets <= q.packetBurst as real && 0.0 <= b.bytes <= q.byteBurst as real
  }

  /** The tokens a refill at time `t` would find. */
  function Level(b: Bucket, q: Quota, t: Instant, byBytes: bool): real {
    MinReal(Burst(q, byBytes), Tokens(b, byBytes) + Earned(Rate(q, byBytes), b.updatedAt, t))
  }

  lemma EarnedAdds(rate: real, a: Instant, b: Instant, c: Instant)
    ensures Earned(rate, a, b) + Earned(rate, b, c) == Earned(rate, a, c)
  {
    var x, y := (b - a) / 1000.0, (c - b) / 1000.0;
    assert (c - a) / 1000.0 == x + y;
    assert rate * x + rate * y == rate * (x + y);
  }

  lemma EarnedGrows(rate: real, a: Instant, b: Instant)
    requires rate > 0.0 && a <= b
    ensures Earned(rate, a, b) >= 0.0
  {
    var x := (b - a) / 1000.0;
    assert x >= 0.0;
    assert rate * x >= 0.0;
  }

  lemma EarnedFaster(slow: real, fast: real, a: Instant, b: Instant)
    requires slow <= fast && a <= b
    ensures Earned(slow, a, b) <= Earned(fast, a, b)
  {
    var x := (b - a) / 1000.0;
    assert x >= 0.0 && (fast - slow) * x >= 0.0;
    assert fast * x == slow * x + (fast - slow) * x;
  }

  /** Waiting adds at most the rate times the wait. */
  lemma LevelGrows(b: Bucket, q: Quota, s: Instant, t: Instant, byBytes: bool)
    requires ValidQuota(q) && s <= t
    ensures Level(b, q, t, byBytes) <= Level(b, q, s, byBytes) + Earned(Rate(q, byBytes), s, t)
  {
    EarnedAdds(Rate(q, byBytes), b.updatedAt, s, t);
    EarnedGrows(Rate(q, byBytes), s, t);
  }

  /** A refill keeps the bucket in bounds, and the level at that time is then just its tokens. */
  lemma RefillMeets(b: Bucket, q: Quota, now: Instant)
    requires ValidQuota(q) && BucketOk(b, q, now)
    ensures BucketOk(Refill(b, q, now), q, now) && Refill(b, q, now).updatedAt == now
    ensures forall byBytes :: Tokens(Refill(b, q, now), byBytes) == Level(b, q, now, byBytes)
  {
    EarnedGrows(q.packetRate, b.updatedAt, now);
    EarnedGrows(q.byteRate, b.updatedAt, now);
    assert Earned(q.packetRate, now, now) == 0.0 && Earned(q.byteRate, now, now) == 0.0;
  }

  lemma LevelNow(b: Bucket, q: Quota, now: Instant, byBytes: bool)
    requires BucketOk(b, q, now) && b.updatedAt == now
    ensures Level(b, q, now, byBytes) == Tokens(b, byBytes)
  {
    assert Earned(Rate(q, byBytes), now, now) == 0.0;
  }

  // ---------- every call keeps the buckets in bounds ----------

  ghost predicate PeersOk(c: Config, peers: map<NodeId, PeerBucket>, now: Instant) {
    forall id :: id in peers ==> BucketOk(peers[id].bucket, c.perPeer, now) && peers[id].lastSeen == peers[id].bucket.updatedAt
  }

  ghost predicate StateOk(c: Config, s: State, now: Instant) {
    BucketOk(s.whole, c.whole, now) && PeersOk(c, s.peers, now) && |s.peers| <= c.maxPeers
  }

  function Fresh(c: Config, now: Instant): State {
    State(FullBucket(c.whole, now), map[])
  }

  lemma PurgeShrinks(c: Config, peers: map<NodeId, PeerBucket>, now: Instant)
    ensures |Purge(c, peers, now)| <= |peers|
  {
    var kept := Purge(c, peers, now);
    assert kept.Keys <= peers.Keys;
    SubsetSize(kept.Keys, peers.Keys);
  }

  lemma {:induction false} SubsetSize(a: set<NodeId>, b: set<NodeId>)
    requires a <= b
    ensures |a| <= |b|
  {
    if a != {} {
      var x :| x in a;
      SubsetSize(a - {x}, b - {x});
    }
  }

  lemma AdmitKeepsSize(c: Config, peers: map<NodeId, PeerBucket>, sender: NodeId, now: Instant)
    requires |peers| <= c.maxPeers
    ensures var r := Admit(c, peers, sender, now); r.Some? ==> |r.value| <= c.maxPeers
  {
    var r := Admit(c, peers, sender, now);
    if r.Some? {
      assert |r.value| == |r.value.Keys|;
      if sender in peers {
        assert r.value.Keys == peers.Keys;
      } else {
        var kept := RoomFor(c, peers, now);
        assert r.value.Keys == kept.Keys + {sender};
      }
    }
  }

  lemma AdmitKeepsOk(c: Config, peers: map<NodeId, PeerBucket>, sender: NodeId, now: Instant)
    requires ValidConfig(c) && PeersOk(c, peers, now) && |peers| <= c.maxPeers
    ensures var r := Admit(c, peers, sender, now);
      r.Some? ==> PeersOk(c, r.value, now) && |r.value| <= c.maxPeers && sender in r.value && r.value[sender].bucket.updatedAt == now
  {
    AdmitKeepsSize(c, peers, sender, now);
    if sender in peers {
      RefillMeets(peers[sender].bucket, c.perPeer, now);
    }
  }

  lemma AllowKeepsOk(c: Config, s: State, call: Call)
    requires ValidConfig(c) && StateOk(c, s, call.now)
    ensures StateOk(c, Allow(c, s, call).0, call.now)
  {
    RefillMeets(s.whole, c.whole, call.now);
    AdmitKeepsOk(c, s.peers, call.sender, call.now);
    PurgeShrinks(c, s.peers, call.now);
    var (after, result) := Allow(c, s, call);
    if result.Allowed? {
      var peers := Admit(c, s.peers, call.sender, call.now).value;
      assert after.peers.Keys == peers.Keys;
    }
  }

  // ---------- what a call takes ----------

  function Spent(c: Config, s: State, call: Call, byBytes: bool): real {
    if Allow(c, s, call).1.Allowed? then Cost(call, byBytes) else 0.0
  }

  lemma WholeSpends(c: Config, s: State, call: Call, byBytes: bool)
    requires ValidConfig(c) && StateOk(c, s, call.now)
    ensures Level(Allow(c, s, call).0.whole, c.whole, call.now, byBytes) ==
            Level(s.whole, c.whole, call.now, byBytes) - Spent(c, s, call, byBytes)
  {
    RefillMeets(s.whole, c.whole, call.now);
    AllowKeepsOk(c, s, call);
    var after := Allow(c, s, call).0;
    if after.whole != s.whole || Allow(c, s, call).1.Allowed? {
      LevelNow(after.whole, c.whole, call.now, byBytes);
    }
  }

  // ---------- one sender ----------

  /** What the configuration says about a single sender. */
  datatype Setting = Setting(quota: Quota, maxPeers: nat, idleTtl: nat)

  function SettingOf(c: Config): Setting {
    Setting(c.perPeer, c.maxPeers, c.idleTtl)
  }

  predicate ValidSetting(g: Setting) {
    ValidQuota(g.quota) && g.maxPeers > 0 && g.idleTtl > 0
  }

  /** The time a sender is away at least before it can start over with a full bucket. */
  function Absence(g: Setting): real {
    if g.maxPeers == 1 then 2.0 * g.idleTtl as real else g.idleTtl as real
  }

  /** The most tokens a sender can have spent and not yet earned back: bytes no faster than packets hold packets back. */
  function MaxDebt(q: Quota, byBytes: bool): real {
    if byBytes then q.byteBurst as real
    else if q.byteRate <= q.packetRate then MinReal(q.packetBurst as real, q.byteBurst as real)
    else q.packetBurst as real
  }

  /** Whatever a sender has spent it has earned back before it can start over. */
  predicate EarnsBack(g: Setting, byBytes: bool) {
    Earned(Rate(g.quota, byBytes), 0.0, Absence(g)) >= MaxDebt(g.quota, byBytes)
  }

  /** With bytes earned no faster than packets, the packets missing are at most the bytes missing. */
  ghost predicate Balanced(q: Quota, b: Bucket) {
    q.byteRate <= q.packetRate ==> q.packetBurst as real - b.packets <= q.byteBurst as real - b.bytes
  }

  lemma RefillBalanced(b: Bucket, q: Quota, now: Instant)
    requires ValidQuota(q) && BucketOk(b, q, now) && Balanced(q, b)
    ensures Balanced(q, Refill(b, q, now))
  {
    if now > b.updatedAt && q.byteRate <= q.packetRate {
      EarnedFaster(q.byteRate, q.packetRate, b.updatedAt, now);
    }
  }

  /** The bucket of one sender as it would be had the sender never been forgotten. */
  datatype Memory = Unseen | Seen(bucket: Bucket)

  /** Forgotten long enough ago; in a table of one, by a sender that came long enough after. */
  ghost predicate Away(c: Config, peers: map<NodeId, PeerBucket>, since: Instant, now: Instant) {
    if c.maxPeers == 1 then exists other :: other in peers && peers[other].lastSeen >= since + c.idleTtl as real
    else since + c.idleTtl as real <= now
  }

  ghost predicate Remembers(c: Config, peers: map<NodeId, PeerBucket>, id: NodeId, m: Memory, now: Instant) {
    match m
    case Unseen => id !in peers
    case Seen(b) =>
      && BucketOk(b, c.perPeer, now) && Balanced(c.perPeer, b)
      && if id in peers then peers[id].bucket == b else Away(c, peers, b.updatedAt, now)
  }

  function MemoryAfter(peers: map<NodeId, PeerBucket>, id: NodeId, m: Memory): Memory {
    if id in peers then Seen(peers[id].bucket) else m
  }

  function MemoryLevel(c: Config, m: Memory, t: Instant, byBytes: bool): real {
    match m
    case Unseen => Burst(c.perPeer, byBytes)
    case Seen(b) => Level(b, c.perPeer, t, byBytes)
  }

  /** A sender that comes back to a new bucket would have had a full one anyway. */
  lemma AwayFills(c: Config, b: Bucket, now: Instant, byBytes: bool)
    requires ValidConfig(c) && BucketOk(b, c.perPeer, now) && Balanced(c.perPeer, b) && EarnsBack(SettingOf(c), byBytes)
    requires b.updatedAt + Absence(SettingOf(c)) <= now
    ensures Level(b, c.perPeer, now, byBytes) == Burst(c.perPeer, byBytes)
  {
    var rate := Rate(c.perPeer, byBytes);
    EarnedAdds(rate, b.updatedAt, b.updatedAt + Absence(SettingOf(c)), now);
    EarnedGrows(rate, b.updatedAt + Absence(SettingOf(c)), now);
    assert Earned(rate, b.updatedAt, b.updatedAt + Absence(SettingOf(c))) == Earned(rate, 0.0, Absence(SettingOf(c)));
  }

  lemma OneSender(peers: map<NodeId, PeerBucket>, a: NodeId, b: NodeId)
    requires |peers| <= 1 && a in peers && b in peers
    ensures a == b
  {
    SubsetSize({a, b}, peers.Keys);
  }

  /** A sender let into a table again was away for the whole absence. */
  lemma ReadmittedLate(c: Config, peers: map<NodeId, PeerBucket>, id: NodeId, b: Bucket, now: Instant)
    requires ValidConfig(c) && PeersOk(c, peers, now) && |peers| <= c.maxPeers
    requires id !in peers && Remembers(c, peers, id, Seen(b), now) && Admit(c, peers, id, now).Some?
    ensures b.updatedAt + Absence(SettingOf(c)) <= now
  {
    if c.maxPeers == 1 {
      var other :| other in peers && peers[other].lastSeen >= b.updatedAt + c.idleTtl as real;
      assert |peers.Keys| >= 1 by { assert {other} <= peers.Keys; SubsetSize({other}, peers.Keys); }
      if other in Purge(c, peers, now) {
        SubsetSize({other}, Purge(c, peers, now).Keys);
      }
    }
  }

  /** A full table that keeps nobody else out stays as it is; otherwise whoever is forgotten was idle. */
  lemma RoomRemembers(c: Config, peers: map<NodeId, PeerBucket>, id: NodeId, m: Memory, now: Instant)
    requires ValidConfig(c) && PeersOk(c, peers, now) && |peers| <= c.maxPeers && Remembers(c, peers, id, m, now)
    requires |RoomFor(c, peers, now)| >= c.maxPeers
    ensures Remembers(c, RoomFor(c, peers, now), id, m, now)
  {
    if c.maxPeers == 1 {
      var kept := RoomFor(c, peers, now);
      assert |kept| == |kept.Keys|;
      var some :| some in kept;
      forall other | other in peers ensures other in kept {
        OneSender(peers, some, other);
      }
    }
  }

  lemma NewcomerRemembers(c: Config, peers: map<NodeId, PeerBucket>, sender: NodeId, id: NodeId, m: Memory, now: Instant)
    requires ValidConfig(c) && PeersOk(c, peers, now) && |peers| <= c.maxPeers && Remembers(c, peers, id, m, now)
    requires sender !in peers && id != sender && Admit(c, peers, sender, now).Some?
    ensures Remembers(c, Admit(c, peers, sender, now).value, id, m, now)
  {
    var admitted := Admit(c, peers, sender, now).value;
    if m.Seen? && id !in admitted && c.maxPeers == 1 {
      assert sender in admitted && admitted[sender].lastSeen == now;
      if id !in peers {
        var other :| other in peers && peers[other].lastSeen >= m.bucket.updatedAt + c.idleTtl as real;
      }
    }
  }

  function SpentBy(c: Config, s: State, call: Call, id: NodeId, byBytes: bool): real {
    if call.sender == id then Spent(c, s, call, byBytes) else 0.0
  }

  /** A call keeps the memory of every sender. */
  lemma ServeRemembers(c: Config, peers: map<NodeId, PeerBucket>, call: Call, id: NodeId, m: Memory)
    requires ValidConfig(c) && PeersOk(c, peers, call.now) && |peers| <= c.maxPeers && Remembers(c, peers, id, m, call.now)
    requires 1 <= call.size <= c.perPeer.byteBurst
    ensures var after := Serve(c, peers, call).0; Remembers(c, after, id, MemoryAfter(after, id, m), call.now)
  {
    var admitted := Admit(c, peers, call.sender, call.now);
    AdmitKeepsOk(c, peers, call.sender, call.now);
    if admitted.None? {
      RoomRemembers(c, peers, id, m, call.now);
    } else if call.sender == id {
      if id in peers {
        RefillMeets(peers[id].bucket, c.perPeer, call.now);
        RefillBalanced(peers[id].bucket, c.perPeer, call.now);
      }
    } else if call.sender in peers {
      SeenLater(c, peers, admitted.value, call.sender, id, m, call.now);
      SeenLater(c, peers, Serve(c, peers, call).0, call.sender, id, m, call.now);
    } else {
      NewcomerRemembers(c, peers, call.sender, id, m, call.now);
      SeenLater(c, admitted.value, Serve(c, peers, call).0, call.sender, id, m, call.now);
    }
  }

  /** One other sender's bucket changes and it is seen no earlier than before. */
  lemma SeenLater(c: Config, peers: map<NodeId, PeerBucket>, after: map<NodeId, PeerBucket>, sender: NodeId, id: NodeId,
                  m: Memory, now: Instant)
    requires Remembers(c, peers, id, m, now) && sender in peers && id != sender
    requires sender in after && after == peers[sender := after[sender]] && after[sender].lastSeen >= peers[sender].lastSeen
    ensures Remembers(c, after, id, m, now)
  {
    if m.Seen? && id !in after && c.maxPeers == 1 {
      var other :| other in peers && peers[other].lastSeen >= m.bucket.updatedAt + c.idleTtl as real;
      assert other in after && after[other].lastSeen >= m.bucket.updatedAt + c.idleTtl as real;
    }
  }

  /** A call takes from a sender's remembered level exactly what it lets by. */
  lemma MemorySpends(c: Config, peers: map<NodeId, PeerBucket>, call: Call, id: NodeId, m: Memory, byBytes: bool)
    requires ValidConfig(c) && PeersOk(c, peers, call.now) && |peers| <= c.maxPeers && Remembers(c, peers, id, m, call.now)
    requires 1 <= call.size <= c.perPeer.byteBurst && EarnsBack(SettingOf(c), byBytes)
    ensures var (after, result) := Serve(c, peers, call);
      MemoryLevel(c, MemoryAfter(after, id, m), call.now, byBytes) ==
      MemoryLevel(c, m, call.now, byBytes) - if call.sender == id && result.Allowed? then Cost(call, byBytes) else 0.0
  {
    var (after, result) := Serve(c, peers, call);
    AdmitKeepsOk(c, peers, call.sender, call.now);
    if call.sender == id && Admit(c, peers, id, call.now).Some? {
      var own := Admit(c, peers, id, call.now).value[id].bucket;
      if id in peers {
        RefillMeets(peers[id].bucket, c.perPeer, call.now);
      } else if m.Seen? {
        ReadmittedLate(c, peers, id, m.bucket, call.now);
        AwayFills(c, m.bucket, call.now, byBytes);
      }
      LevelNow(own, c.perPeer, call.now, byBytes);
      LevelNow(after[id].bucket, c.perPeer, call.now, byBytes);
    }
  }

  lemma AllowSpends(c: Config, s: State, call: Call, id: NodeId, m: Memory, byBytes: bool)
    requires ValidConfig(c) && StateOk(c, s, call.now) && Remembers(c, s.peers, id, m, call.now) && EarnsBack(SettingOf(c), byBytes)
    ensures var after := Allow(c, s, call).0.peers;
      && Remembers(c, after, id, MemoryAfter(after, id, m), call.now)
      && MemoryLevel(c, MemoryAfter(after, id, m), call.now, byBytes) ==
         MemoryLevel(c, m, call.now, byBytes) - SpentBy(c, s, call, id, byBytes)
  {
    if 1 <= call.size <= c.perPeer.byteBurst {
      ServeRemembers(c, s.peers, call, id, m);
      MemorySpends(c, s.peers, call, id, m, byBytes);
    }
  }

  // ---------- whole stretches of calls ----------

  predicate Ordered(calls: seq<Call>, from: Instant, to: Instant)
    decreases |calls|
  {
    if calls == [] then from <= to else from <= calls[0].now && Ordered(calls[1..], calls[0].now, to)
  }

  function Run(c: Config, s: State, calls: seq<Call>): State
    decreases |calls|
  {
    if calls == [] then s else Run(c, Allow(c, s, calls[0]).0, calls[1..])
  }

  /** Packets or bytes admitted along the calls. */
  function Admitted(c: Config, s: State, calls: seq<Call>, byBytes: bool): real
    decreases |calls|
  {
    if calls == [] then 0.0
    else Spent(c, s, calls[0], byBytes) + Admitted(c, Allow(c, s, calls[0]).0, calls[1..], byBytes)
  }

  function AdmittedFrom(c: Config, s: State, calls: seq<Call>, id: NodeId, byBytes: bool): real
    decreases |calls|
  {
    if calls == [] then 0.0
    else SpentBy(c, s, calls[0], id, byBytes) + AdmittedFrom(c, Allow(c, s, calls[0]).0, calls[1..], id, byBytes)
  }

  lemma Later(c: Config, s: State, from: Instant, to: Instant)
    requires StateOk(c, s, from) && from <= to
    ensures StateOk(c, s, to)
  {
  }

  lemma {:induction false} StretchSpends(c: Config, s: State, calls: seq<Call>, from: Instant, to: Instant, byBytes: bool)
    requires ValidConfig(c) && StateOk(c, s, from) && Ordered(calls, from, to)
    ensures Admitted(c, s, calls, byBytes) <= Level(s.whole, c.whole, from, byBytes) + Earned(Rate(c.whole, byBytes), from, to)
    decreases |calls|
  {
    if calls == [] {
      EarnedGrows(Rate(c.whole, byBytes), from, to);
      EarnedGrows(Rate(c.whole, byBytes), s.whole.updatedAt, from);
    } else {
      var now := calls[0].now;
      Later(c, s, from, now);
      LevelGrows(s.whole, c.whole, from, now, byBytes);
      WholeSpends(c, s, calls[0], byBytes);
      AllowKeepsOk(c, s, calls[0]);
      StretchSpends(c, Allow(c, s, calls[0]).0, calls[1..], now, to, byBytes);
      EarnedAdds(Rate(c.whole, byBytes), from, now, to);
    }
  }

  lemma {:induction false} SenderStretchSpends(c: Config, s: State, calls: seq<Call>, from: Instant, to: Instant, id: NodeId,
                                                m: Memory, byBytes: bool)
    requires ValidConfig(c) && StateOk(c, s, from) && Ordered(calls, from, to) && EarnsBack(SettingOf(c), byBytes)
    requires Remembers(c, s.peers, id, m, from)
    ensures AdmittedFrom(c, s, calls, id, byBytes) <= MemoryLevel(c, m, from, byBytes) + Earned(Rate(c.perPeer, byBytes), from, to)
    decreases |calls|
  {
    var rate := Rate(c.perPeer, byBytes);
    if calls == [] {
      EarnedGrows(rate, from, to);
      if m.Seen? {
        EarnedGrows(rate, m.bucket.updatedAt, from);
      }
    } else {
      var now := calls[0].now;
      Later(c, s, from, now);
      if m.Seen? {
        LevelGrows(m.bucket, c.perPeer, from, now, byBytes);
      } else {
        EarnedGrows(rate, from, now);
      }
      AllowSpends(c, s, calls[0], id, m, byBytes);
      AllowKeepsOk(c, s, calls[0]);
      var after := Allow(c, s, calls[0]).0;
      SenderStretchSpends(c, after, calls[1..], now, to, id, MemoryAfter(after.peers, id, m), byBytes);
      EarnedAdds(rate, from, now, to);
    }
  }

  lemma {:induction false} RunRemembers(c: Config, s: State, calls: seq<Call>, from: Instant, to: Instant, id: NodeId, m: Memory)
    returns (last: Memory)
    requires ValidConfig(c) && StateOk(c, s, from) && Ordered(calls, from, to) && Remembers(c, s.peers, id, m, from)
    ensures Remembers(c, Run(c, s, calls).peers, id, last, to)
    decreases |calls|
  {
    last := m;
    if calls != [] {
      Later(c, s, from, calls[0].now);
      if 1 <= calls[0].size <= c.perPeer.byteBurst {
        ServeRemembers(c, s.peers, calls[0], id, m);
      }
      AllowKeepsOk(c, s, calls[0]);
      var after := Allow(c, s, calls[0]).0;
      last := RunRemembers(c, after, calls[1..], calls[0].now, to, id, MemoryAfter(after.peers, id, m));
    }
  }

  lemma {:induction false} RunKeepsOk(c: Config, s: State, calls: seq<Call>, from: Instant, to: Instant)
    requires ValidConfig(c) && StateOk(c, s, from) && Ordered(calls, from, to)
    ensures StateOk(c, Run(c, s, calls), to)
    decreases |calls|
  {
    if calls == [] {
      Later(c, s, from, to);
    } else {
      Later(c, s, from, calls[0].now);
      AllowKeepsOk(c, s, calls[0]);
      RunKeepsOk(c, Allow(c, s, calls[0]).0, calls[1..], calls[0].now, to);
    }
  }

  /** Over any stretch of calls the node forwards at most its burst and what its rate earns meanwhile. */
  lemma IntervalBound(c: Config, start: Instant, before: seq<Call>, calls: seq<Call>, from: Instant, to: Instant, byBytes: bool)
    requires ValidConfig(c) && Ordered(before, start, from) && Ordered(calls, from, to)
    ensures Admitted(c, Run(c, Fresh(c, start), before), calls, byBytes) <=
            Burst(c.whole, byBytes) + Earned(Rate(c.whole, byBytes), from, to)
  {
    RunKeepsOk(c, Fresh(c, start), before, start, from);
    StretchSpends(c, Run(c, Fresh(c, start), before), calls, from, to, byBytes);
  }

  /** The same for each sender, if what it can have spent is earned back before it can start over. */
  lemma SenderIntervalBound(c: Config, start: Instant, before: seq<Call>, calls: seq<Call>, from: Instant, to: Instant, id: NodeId, byBytes: bool)
    requires ValidConfig(c) && Ordered(before, start, from) && Ordered(calls, from, to) && EarnsBack(SettingOf(c), byBytes)
    ensures AdmittedFrom(c, Run(c, Fresh(c, start), before), calls, id, byBytes) <=
            Burst(c.perPeer, byBytes) + Earned(Rate(c.perPeer, byBytes), from, to)
  {
    RunKeepsOk(c, Fresh(c, start), before, start, from);
    var m := RunRemembers(c, Fresh(c, start), before, start, from, id, Unseen);
    SenderStretchSpends(c, Run(c, Fresh(c, start), before), calls, from, to, id, m, byBytes);
  }

  // ---------- the limiter object ----------

  datatype Stats = Stats(packets: nat, bytes: nat, peerDrops: nat, globalDrops: nat, capacityDrops: nat)

  function Tallied(t: Stats, size: nat, r: Result): Stats {
    match r
    case Allowed => t.(packets := t.packets + 1, bytes := t.bytes + size)
    case PeerLimited => t.(peerDrops := t.peerDrops + 1)
    case GlobalLimited => t.(globalDrops := t.globalDrops + 1)
    case CapacityLimited => t.(capacityDrops := t.capacityDrops + 1)
    case Invalid => t
  }

  class RelayForwardLimiter {
    const config: Config
    var whole: Bucket
    var peers: map<NodeId, PeerBucket>
    var stats: Stats

    constructor (c: Config, now: Instant)
      ensures config == c && State(whole, peers) == Fresh(c, now) && stats == Stats(0, 0, 0, 0, 0)
    {
      config := c;
      whole, peers, stats := FullBucket(c.whole, now), map[], Stats(0, 0, 0, 0, 0);
    }

    /** Every call is counted once; a refused call takes no tokens. */
    method AllowForward(sender: NodeId, size: nat, now: Instant) returns (r: Result)
      modifies this
      ensures (State(whole, peers), r) == Allow(config, old(State(whole, peers)), Call(sender, size, now))
      ensures stats == Tallied(old(stats), size, r)
    {
      if !ValidConfig(config) || size == 0 {
        return Invalid;
      }
      if size > config.whole.byteBurst {
        stats := stats.(globalDrops := stats.globalDrops + 1);
        return GlobalLimited;
      }
      if size > config.perPeer.byteBurst {
        stats := stats.(peerDrops := stats.peerDrops + 1);
        return PeerLimited;
      }
      whole := Refill(whole, config.whole, now);
      if whole.packets < 1.0 || whole.bytes < size as real {
        stats := stats.(globalDrops := stats.globalDrops + 1);
        return GlobalLimited;
      }
      if sender !in peers {
        if |peers| >= config.maxPeers {
          PurgeIdle(now);
        }
        if |peers| >= config.maxPeers {
          stats := stats.(capacityDrops := stats.capacityDrops + 1);
          return CapacityLimited;
        }
        peers := peers[sender := PeerBucket(FullBucket(config.perPeer, now), now)];
      } else {
        peers := peers[sender := PeerBucket(Refill(peers[sender].bucket, config.perPeer, now), now)];
      }
      var own := peers[sender].bucket;
      if own.packets < 1.0 || own.bytes < size as real {
        stats := stats.(peerDrops := stats.peerDrops + 1);
        return PeerLimited;
      }
      whole := Spend(whole, size);
      peers := peers[sender := peers[sender].(bucket := Spend(own, size))];
      stats := stats.(packets := stats.packets + 1, bytes := stats.bytes + size);
      return Allowed;
    }

    method PurgeIdle(now: Instant)
      modifies this`peers
      ensures peers == Purge(config, old(peers), now)
    {
      var left := peers.Keys;
      ghost var was := peers;
      while left != {}
        invariant left <= was.Keys
        invariant forall id :: id in left ==> id in peers
        invariant forall id :: id in peers ==> id in was && peers[id] == was[id]
        invariant forall id :: id in was && id !in left ==> (id in peers <==> id in Purge(config, was, now))
        decreases |left|
      {
        var id :| id in left;
        left := left - {id};
        if now >= peers[id].lastSeen && now - peers[id].lastSeen >= config.idleTtl as real {
          peers := peers - {id};
        }
      }
    }
  }
}
