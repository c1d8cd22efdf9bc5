/**
 The per-sender rate bound depends on how soon an idle sender may be forgotten. Whenever a sender has not earned
 back what it can have spent by the time it can start over, here is a run in which it exceeds its bound.
 */
module RelayForgetting {
  import opened Basics
  import opened RelayLimiter

  // ---------- calls that the node-wide bucket never stops ----------

  function ServeAll(c: Config, peers: map<NodeId, PeerBucket>, calls: seq<Call>): map<NodeId, PeerBucket>
    decreases |calls|
  {
    if calls == [] then peers else ServeAll(c, Serve(c, peers, calls[0]).0, calls[1..])
  }

  function ServedOnce(c: Config, peers: map<NodeId, PeerBucket>, call: Call, id: NodeId, byBytes: bool): real {
    if call.sender == id && Serve(c, peers, call).1.Allowed? then Cost(call, byBytes) else 0.0
  }

  /** Packets or bytes of one sender let by along the calls. */
  function Served(c: Config, peers: map<NodeId, PeerBucket>, calls: seq<Call>, id: NodeId, byBytes: bool): real
    decreases |calls|
  {
    if calls == [] then 0.0
    else ServedOnce(c, peers, calls[0], id, byBytes) + Served(c, Serve(c, peers, calls[0]).0, calls[1..], id, byBytes)
  }

  lemma {:induction false} ServeAllInTwo(c: Config, peers: map<NodeId, PeerBucket>, a: seq<Call>, b: seq<Call>)
    ensures ServeAll(c, peers, a + b) == ServeAll(c, ServeAll(c, peers, a), b)
    decreases |a|
  {
    if a == [] {
      assert a + b == b;
    } else {
      HeadAndTail(a, b);
      ServeAllInTwo(c, Serve(c, peers, a[0]).0, a[1..], b);
    }
  }

  lemma {:induction false} ServedInTwo(c: Config, peers: map<NodeId, PeerBucket>, a: seq<Call>, b: seq<Call>, id: NodeId, byBytes: bool)
    ensures Served(c, peers, a + b, id, byBytes) == Served(c, peers, a, id, byBytes) + Served(c, ServeAll(c, peers, a), b, id, byBytes)
    decreases |a|
  {
    if a == [] {
      assert a + b == b;
    } else {
      HeadAndTail(a, b);
      ServedInTwo(c, Serve(c, peers, a[0]).0, a[1..], b, id, byBytes);
    }
  }

  function Volume(calls: seq<Call>): nat {
    if calls == [] then 0 else calls[0].size + Volume(calls[1..])
  }

  predicate Modest(q: Quota, calls: seq<Call>) {
    forall call :: call in calls ==> 1 <= call.size <= q.byteBurst
  }

  /** The node-wide bucket covers another `k` bytes in packets of any size. */
  ghost predicate Ample(c: Config, s: State, now: Instant, k: nat) {
    BucketOk(s.whole, c.whole, now) && s.whole.packets >= k as real && s.whole.bytes >= k as real
  }

  lemma AmpleAllow(c: Config, s: State, call: Call, from: Instant, k: nat)
    requires ValidConfig(c) && Ample(c, s, from, k) && from <= call.now && 1 <= call.size <= c.perPeer.byteBurst && call.size <= k
    ensures var (after, result) := Allow(c, s, call);
      (after.peers, result) == Serve(c, s.peers, call) && Ample(c, after, call.now, k - call.size)
  {
    EarnedGrows(c.whole.packetRate, s.whole.updatedAt, call.now);
    EarnedGrows(c.whole.byteRate, s.whole.updatedAt, call.now);
  }

  lemma {:induction false} AmpleRun(c: Config, s: State, calls: seq<Call>, from: Instant, to: Instant, k: nat, id: NodeId, byBytes: bool)
    requires ValidConfig(c) && Ample(c, s, from, k) && Ordered(calls, from, to) && Modest(c.perPeer, calls) && Volume(calls) <= k
    ensures Run(c, s, calls).peers == ServeAll(c, s.peers, calls)
    ensures AdmittedFrom(c, s, calls, id, byBytes) == Served(c, s.peers, calls, id, byBytes)
    ensures Ample(c, Run(c, s, calls), to, k - Volume(calls))
    decreases |calls|
  {
    if calls != [] {
      AmpleAllow(c, s, calls[0], from, k);
      AmpleRun(c, Allow(c, s, calls[0]).0, calls[1..], calls[0].now, to, k - calls[0].size, id, byBytes);
    }
  }

  lemma {:induction false} OrderedJoins(a: seq<Call>, b: seq<Call>, from: Instant, middle: Instant, to: Instant)
    requires Ordered(a, from, middle) && Ordered(b, middle, to)
    ensures Ordered(a + b, from, to)
    decreases |a|
  {
    if a == [] {
      assert a + b == b;
      OrderedFrom(b, from, middle, to);
    } else {
      OrderedJoins(a[1..], b, a[0].now, middle, to);
      HeadAndTail(a, b);
    }
  }

  lemma OrderedFrom(calls: seq<Call>, from: Instant, middle: Instant, to: Instant)
    requires from <= middle && Ordered(calls, middle, to)
    ensures Ordered(calls, from, to)
  {
  }

  // ---------- one bucket ----------

  /** Calls of sender 1 that its bucket affords one after the other. */
  predicate Affordable(q: Quota, b: Bucket, calls: seq<Call>)
    decreases |calls|
  {
    calls == [] ||
    (var full := Refill(b, q, calls[0].now);
     && calls[0].sender == 1 && 1 <= calls[0].size <= q.byteBurst && Affords(full, calls[0].size)
     && Affordable(q, Spend(full, calls[0].size), calls[1..]))
  }

  function Drawn(q: Quota, b: Bucket, calls: seq<Call>): Bucket
    decreases |calls|
  {
    if calls == [] then b else Drawn(q, Spend(Refill(b, q, calls[0].now), calls[0].size), calls[1..])
  }

  function TotalCost(calls: seq<Call>, byBytes: bool): real {
    if calls == [] then 0.0 else Cost(calls[0], byBytes) + TotalCost(calls[1..], byBytes)
  }

  lemma {:induction false} AffordableInTwo(q: Quota, b: Bucket, x: seq<Call>, y: seq<Call>, byBytes: bool)
    requires Affordable(q, b, x) && Affordable(q, Drawn(q, b, x), y)
    ensures Affordable(q, b, x + y) && Drawn(q, b, x + y) == Drawn(q, Drawn(q, b, x), y)
    ensures TotalCost(x + y, byBytes) == TotalCost(x, byBytes) + TotalCost(y, byBytes)
    decreases |x|
  {
    if x == [] {
      assert x + y == y;
    } else {
      AffordableInTwo(q, Spend(Refill(b, q, x[0].now), x[0].size), x[1..], y, byBytes);
      HeadAndTail(x, y);
    }
  }

  /** When sender 1 was last seen after its calls. */
  function SeenAfter(calls: seq<Call>, seen: Instant): Instant {
    if calls == [] then seen else calls[|calls| - 1].now
  }

  /** A sender in the table is served what its bucket affords, and nobody else is touched. */
  lemma {:induction false} KnownServed(c: Config, peers: map<NodeId, PeerBucket>, calls: seq<Call>, byBytes: bool)
    requires 1 in peers && Affordable(c.perPeer, peers[1].bucket, calls)
    ensures var e := ServeAll(c, peers, calls);
      1 in e && e == peers[1 := e[1]] && e[1].lastSeen == SeenAfter(calls, peers[1].lastSeen)
    ensures Served(c, peers, calls, 1, byBytes) == TotalCost(calls, byBytes)
    decreases |calls|
  {
    if calls != [] {
      var after := Serve(c, peers, calls[0]).0;
      assert after == peers[1 := after[1]];
      KnownServed(c, after, calls[1..], byBytes);
    }
  }

  /** So is one that is let in with a full bucket. */
  lemma NewcomerServed(c: Config, peers: map<NodeId, PeerBucket>, calls: seq<Call>, t: Instant, byBytes: bool)
    requires 1 !in peers && |RoomFor(c, peers, t)| < c.maxPeers
    requires calls != [] && calls[0].now == t && Affordable(c.perPeer, FullBucket(c.perPeer, t), calls)
    ensures var e := ServeAll(c, peers, calls);
      1 in e && e == RoomFor(c, peers, t)[1 := e[1]] && e[1].lastSeen == SeenAfter(calls, t)
    ensures Served(c, peers, calls, 1, byBytes) == TotalCost(calls, byBytes)
  {
    var after := Serve(c, peers, calls[0]).0;
    var room := RoomFor(c, peers, t);
    assert after == room[1 := after[1]];
    KnownServed(c, after, calls[1..], byBytes);
  }

  // ---------- a spell: running into as much debt as possible ----------

  function Repeat(t: Instant, n: nat): seq<Call> {
    if n == 0 then [] else [Call(1, 1, t)] + Repeat(t, n - 1)
  }

  lemma {:induction false} RepeatDraws(q: Quota, b: Bucket, t: Instant, n: nat)
    requires ValidQuota(q) && b.updatedAt == t && b.packets >= n as real && b.bytes >= n as real
    ensures Affordable(q, b, Repeat(t, n)) && Drawn(q, b, Repeat(t, n)) == Bucket(b.packets - n as real, b.bytes - n as real, t)
    ensures TotalCost(Repeat(t, n), false) == n as real && Ordered(Repeat(t, n), t, t) && |Repeat(t, n)| == n
    ensures n > 0 ==> Repeat(t, n)[0].now == t && Repeat(t, n)[n - 1].now == t
    decreases n
  {
    if n > 0 {
      assert Repeat(t, n)[1..] == Repeat(t, n - 1);
      RepeatDraws(q, Spend(b, 1), t, n - 1);
    }
  }

  /** Starting from `x`, `n` steps of `d` down. */
  function Down(x: real, d: real, n: nat): real
    decreases n
  {
    if n == 0 then x else Down(x - d, d, n - 1)
  }

  lemma {:induction false} DownIs(x: real, d: real, n: nat)
    ensures Down(x, d, n) == x - n as real * d
    decreases n
  {
    if n > 0 {
      DownIs(x - d, d, n - 1);
      assert n as real * d == (n - 1) as real * d + d;
    }
  }

  /** One byte whenever one has been earned. */
  function Drip(t: Instant, step: real, n: nat): seq<Call>
    decreases n
  {
    if n == 0 then [] else [Call(1, 1, t + step)] + Drip(t + step, step, n - 1)
  }

  lemma DripHead(t: Instant, step: real, n: nat)
    requires n > 0
    ensures Drip(t, step, n) != [] && Drip(t, step, n)[0] == Call(1, 1, t + step)
    ensures Drip(t, step, n)[1..] == Drip(t + step, step, n - 1)
  {
  }

  /** A dripping sender loses the packets it does not earn with its bytes. */
  lemma {:induction false} DripDraws(q: Quota, b: Bucket, step: real, n: nat, loss: real)
    requires ValidQuota(q) && step > 0.0 && Earned(q.byteRate, 0.0, step) == 1.0
    requires loss == 1.0 - Earned(q.packetRate, 0.0, step) && 0.0 < loss
    requires b.bytes == 0.0 && b.packets <= q.packetBurst as real - 1.0 && Down(b.packets, loss, n) >= 0.0
    ensures var calls := Drip(b.updatedAt, step, n);
      && Affordable(q, b, calls)
      && Drawn(q, b, calls) == Bucket(Down(b.packets, loss, n), 0.0, Down(b.updatedAt, -step, n))
      && TotalCost(calls, false) == n as real
    decreases n
  {
    if n > 0 {
      DripHead(b.updatedAt, step, n);
      DownIs(b.packets - loss, loss, n - 1);
      assert (n - 1) as real * loss >= 0.0;
      DripOnce(q, b, step, loss);
      DripDraws(q, Bucket(b.packets - loss, 0.0, b.updatedAt + step), step, n - 1, loss);
    }
  }

  lemma DripOnce(q: Quota, b: Bucket, step: real, loss: real)
    requires ValidQuota(q) && step > 0.0 && Earned(q.byteRate, 0.0, step) == 1.0
    requires loss == 1.0 - Earned(q.packetRate, 0.0, step) && b.bytes == 0.0 && 0.0 < loss <= b.packets <= q.packetBurst as real - 1.0
    ensures var now := b.updatedAt + step;
      Refill(b, q, now) == Bucket(b.packets + 1.0 - loss, 1.0, now) && Spend(Refill(b, q, now), 1) == Bucket(b.packets - loss, 0.0, now)
  {
    EarnedShifts(q.byteRate, b.updatedAt, step);
    EarnedShifts(q.packetRate, b.updatedAt, step);
  }

  lemma {:induction false} DripOrdered(t: Instant, step: real, n: nat)
    requires step > 0.0
    ensures Ordered(Drip(t, step, n), t, Down(t, -step, n))
    decreases n
  {
    if n > 0 {
      DripHead(t, step, n);
      DripOrdered(t + step, step, n - 1);
    }
  }

  lemma EarnedShifts(rate: real, t: Instant, d: real)
    ensures Earned(rate, t, t + d) == Earned(rate, 0.0, d)
  {
  }

  /** Bytes are the smaller burst but come in faster, so draining the packets takes time. */
  predicate Slow(q: Quota, byBytes: bool) {
    !byBytes && q.byteRate > q.packetRate && q.packetBurst > q.byteBurst
  }

  function Step(q: Quota): real
    requires ValidQuota(q)
  {
    1000.0 / q.byteRate
  }

  /** Packets lost per drip. */
  function Loss(q: Quota): real
    requires ValidQuota(q)
  {
    1.0 - q.packetRate / q.byteRate
  }

  function Drips(q: Quota): int
    requires ValidQuota(q) && Slow(q, false)
  {
    LossPositive(q);
    ((q.packetBurst - q.byteBurst) as real / Loss(q)).Floor
  }

  lemma LossPositive(q: Quota)
    requires ValidQuota(q) && q.byteRate > q.packetRate
    ensures 0.0 < Loss(q) < 1.0
  {
    var g := q.packetRate / q.byteRate;
    assert g * q.byteRate == q.packetRate;
  }

  /** Packets left after the drips: not enough for another. */
  function Left(q: Quota): real
    requires ValidQuota(q) && Slow(q, false)
  {
    (q.packetBurst - q.byteBurst) as real - Drips(q) as real * Loss(q)
  }

  lemma DripsFit(q: Quota)
    requires ValidQuota(q) && Slow(q, false)
    ensures Drips(q) >= 0 && 0.0 <= Left(q) < Loss(q)
  {
    LossPositive(q);
    FloorFits((q.packetBurst - q.byteBurst) as real, Loss(q), Drips(q));
  }

  lemma FloorFits(total: real, part: real, n: int)
    requires total >= 0.0 && part > 0.0 && n == (total / part).Floor
    ensures n >= 0 && 0.0 <= total - n as real * part < part
  {
    AtMost(n as real, total / part, part);
    Scales(total / part, n as real + 1.0, part);
  }

  lemma Scales(a: real, b: real, k: real)
    requires a < b && k > 0.0
    ensures a * k < b * k
  {
    assert (b - a) * k > 0.0;
  }

  lemma AtMost(a: real, b: real, k: real)
    requires a <= b && k > 0.0
    ensures a * k <= b * k
  {
    assert (b - a) * k >= 0.0;
  }

  /** The wait until the last packet can be paid for. */
  function Wait(q: Quota): real
    requires ValidQuota(q) && Slow(q, false)
  {
    1000.0 * (1.0 - Left(q)) / q.packetRate
  }

  function SpellLength(q: Quota, byBytes: bool): real
    requires ValidQuota(q)
  {
    if Slow(q, byBytes) then Drips(q) as real * Step(q) + Wait(q) else 0.0
  }

  function Spell(q: Quota, byBytes: bool, t: Instant): seq<Call>
    requires ValidQuota(q)
  {
    if byBytes then [Call(1, q.byteBurst, t)]
    else if !Slow(q, byBytes) then Repeat(t, Min(q.packetBurst, q.byteBurst))
    else
      DripsFit(q);
      Repeat(t, q.byteBurst) + (Drip(t, Step(q), Drips(q)) + [Call(1, 1, t + SpellLength(q, false))])
  }

  /** What every spell does: it starts at `t`, lasts its length, and leaves the largest possible debt. */
  ghost predicate Ruins(q: Quota, byBytes: bool, t: Instant, calls: seq<Call>, d: real)
    requires ValidQuota(q)
  {
    && calls != [] && calls[0].now == t && calls[|calls| - 1].now == t + d && Ordered(calls, t, t + d)
    && Affordable(q, FullBucket(q, t), calls)
    && TotalCost(calls, byBytes) == MaxDebt(q, byBytes) + Earned(Rate(q, byBytes), 0.0, d)
  }

  lemma StepEarns(q: Quota)
    requires ValidQuota(q) && Slow(q, false)
    ensures Step(q) > 0.0 && Earned(q.byteRate, 0.0, Step(q)) == 1.0 && Earned(q.packetRate, 0.0, Step(q)) == 1.0 - Loss(q)
  {
    var s := Step(q);
    assert s * q.byteRate == 1000.0;
    assert q.byteRate * (s / 1000.0) == 1.0;
    assert s / 1000.0 == 1.0 / q.byteRate;
    assert q.packetRate * (1.0 / q.byteRate) == q.packetRate / q.byteRate;
  }

  /** The last wait earns what the last packet lacks, and more than a byte. */
  lemma WaitEarns(q: Quota)
    requires ValidQuota(q) && Slow(q, false)
    ensures Wait(q) > 0.0 && Earned(q.packetRate, 0.0, Wait(q)) == 1.0 - Left(q) && Earned(q.byteRate, 0.0, Wait(q)) >= 1.0
  {
    DripsFit(q);
    LossPositive(q);
    var w, lack := Wait(q), 1.0 - Left(q);
    var x := w / 1000.0;
    assert lack > 0.0 && x == lack / q.packetRate;
    assert x * q.packetRate == lack;
    EarnsAByte(q, x, lack);
  }

  lemma EarnsAByte(q: Quota, x: real, lack: real)
    requires ValidQuota(q) && x > 0.0 && x * q.packetRate == lack && lack > 1.0 - Loss(q)
    ensures q.byteRate * x >= 1.0
  {
    var g := q.packetRate / q.byteRate;
    assert g * q.byteRate == q.packetRate;
    assert x * q.packetRate == g * (q.byteRate * x);
  }

  lemma SlowOrdered(q: Quota, t: Instant)
    requires ValidQuota(q) && Slow(q, false)
    ensures Ordered(Spell(q, false, t), t, t + SpellLength(q, false))
  {
    DripsFit(q);
    StepEarns(q);
    WaitEarns(q);
    var end := t + SpellLength(q, false);
    var middle := Down(t, -Step(q), Drips(q));
    DownIs(t, -Step(q), Drips(q));
    RepeatDraws(q, FullBucket(q, t), t, q.byteBurst);
    TailOrdered(q, t, middle, end);
    OrderedJoins(Repeat(t, q.byteBurst), Drip(t, Step(q), Drips(q)) + [Call(1, 1, end)], t, t, end);
  }

  lemma TailOrdered(q: Quota, t: Instant, middle: Instant, end: Instant)
    requires ValidQuota(q) && Slow(q, false) && Drips(q) >= 0 && Step(q) > 0.0
    requires middle == Down(t, -Step(q), Drips(q)) && middle <= end
    ensures Ordered(Drip(t, Step(q), Drips(q)) + [Call(1, 1, end)], t, end)
  {
    DripOrdered(t, Step(q), Drips(q));
    var last := [Call(1, 1, end)];
    assert last[1..] == [];
    OrderedJoins(Drip(t, Step(q), Drips(q)), last, t, middle, end);
  }

  function Low(q: Quota, t: Instant): Bucket
    requires Slow(q, false)
  {
    Bucket((q.packetBurst - q.byteBurst) as real, 0.0, t)
  }

  lemma DripsLand(q: Quota, t: Instant)
    requires ValidQuota(q) && Slow(q, false)
    ensures Drips(q) >= 0 && Down(Low(q, t).packets, Loss(q), Drips(q)) == Left(q) >= 0.0
    ensures Down(t, -Step(q), Drips(q)) == t + Drips(q) as real * Step(q)
  {
    DripsFit(q);
    DownIs(Low(q, t).packets, Loss(q), Drips(q));
    DownIs(t, -Step(q), Drips(q));
  }

  lemma DripsAfford(q: Quota, t: Instant)
    requires ValidQuota(q) && Slow(q, false)
    ensures Drips(q) >= 0
    ensures var drip := Drip(t, Step(q), Drips(q));
      && Affordable(q, Low(q, t), drip) && TotalCost(drip, false) == Drips(q) as real
      && Drawn(q, Low(q, t), drip) == Bucket(Left(q), 0.0, t + Drips(q) as real * Step(q))
  {
    DripsLand(q, t);
    LossPositive(q);
    StepEarns(q);
    DripDraws(q, Low(q, t), Step(q), Drips(q), Loss(q));
  }

  lemma EndAfford(q: Quota, t: Instant)
    requires ValidQuota(q) && Slow(q, false)
    ensures Drips(q) >= 0
    ensures var tail := Drip(t, Step(q), Drips(q)) + [Call(1, 1, t + SpellLength(q, false))];
      Affordable(q, Low(q, t), tail) && TotalCost(tail, false) == Drips(q) as real + 1.0
  {
    DripsAfford(q, t);
    var drip, end := Drip(t, Step(q), Drips(q)), t + SpellLength(q, false);
    LastCall(q, Drawn(q, Low(q, t), drip), end);
    AffordableInTwo(q, Low(q, t), drip, [Call(1, 1, end)], false);
  }

  lemma SlowAffordable(q: Quota, t: Instant)
    requires ValidQuota(q) && Slow(q, false)
    ensures Affordable(q, FullBucket(q, t), Spell(q, false, t))
    ensures TotalCost(Spell(q, false, t), false) == q.byteBurst as real + (Drips(q) as real + 1.0)
  {
    EndAfford(q, t);
    RepeatDraws(q, FullBucket(q, t), t, q.byteBurst);
    AffordableInTwo(q, FullBucket(q, t), Repeat(t, q.byteBurst),
                    Drip(t, Step(q), Drips(q)) + [Call(1, 1, t + SpellLength(q, false))], false);
  }

  lemma SlowSpellRuins(q: Quota, t: Instant)
    requires ValidQuota(q) && Slow(q, false)
    ensures Ruins(q, false, t, Spell(q, false, t), SpellLength(q, false))
  {
    DripsFit(q);
    SlowOrdered(q, t);
    SlowAffordable(q, t);
    SlowBalance(q);
    assert Repeat(t, q.byteBurst)[0].now == t;
  }

  lemma LastCall(q: Quota, b: Bucket, end: Instant)
    requires ValidQuota(q) && Slow(q, false) && b.bytes == 0.0 && b.packets == Left(q) && end == b.updatedAt + Wait(q)
    ensures Affordable(q, b, [Call(1, 1, end)]) && TotalCost([Call(1, 1, end)], false) == 1.0
  {
    WaitEarns(q);
    EarnedShifts(q.packetRate, b.updatedAt, Wait(q));
    EarnedShifts(q.byteRate, b.updatedAt, Wait(q));
    var last := [Call(1, 1, end)];
    assert last[1..] == [];
    assert Affords(Refill(b, q, end), 1);
    assert TotalCost(last, false) == 1.0 + TotalCost(last[1..], false);
  }

  /** Packets sent are the burst and what was earned meanwhile. */
  lemma SlowBalance(q: Quota)
    requires ValidQuota(q) && Slow(q, false)
    ensures q.byteBurst as real + (Drips(q) as real + 1.0) ==
            q.packetBurst as real + Earned(q.packetRate, 0.0, SpellLength(q, false))
  {
    StepEarns(q);
    WaitEarns(q);
    var m := Drips(q) as real;
    EarnedAdds(q.packetRate, 0.0, m * Step(q), SpellLength(q, false));
    EarnedShifts(q.packetRate, m * Step(q), Wait(q));
    EarnedScales(q.packetRate, Step(q), m);
    assert m * (1.0 - Loss(q)) == m - m * Loss(q);
  }

  lemma EarnedScales(rate: real, d: real, n: real)
    ensures Earned(rate, 0.0, n * d) == n * Earned(rate, 0.0, d)
  {
    assert n * d / 1000.0 == n * (d / 1000.0);
    assert rate * (n * (d / 1000.0)) == n * (rate * (d / 1000.0));
  }

  lemma SpellRuins(q: Quota, byBytes: bool, t: Instant)
    requires ValidQuota(q)
    ensures SpellLength(q, byBytes) >= 0.0 && Ruins(q, byBytes, t, Spell(q, byBytes, t), SpellLength(q, byBytes))
  {
    var calls := Spell(q, byBytes, t);
    if byBytes {
      assert calls[1..] == [];
      assert TotalCost(calls, true) == q.byteBurst as real + TotalCost(calls[1..], true);
    } else if Slow(q, byBytes) {
      SlowSpellRuins(q, t);
      SlowLasts(q);
    } else {
      RepeatDraws(q, FullBucket(q, t), t, Min(q.packetBurst, q.byteBurst));
    }
  }

  lemma SlowLasts(q: Quota)
    requires ValidQuota(q) && Slow(q, false)
    ensures SpellLength(q, false) >= 0.0
  {
    DripsFit(q);
    StepEarns(q);
    WaitEarns(q);
    assert Drips(q) as real * Step(q) >= 0.0;
  }

  lemma {:induction false} AffordableModest(q: Quota, b: Bucket, calls: seq<Call>)
    requires Affordable(q, b, calls)
    ensures Modest(q, calls)
    decreases |calls|
  {
    if calls != [] {
      AffordableModest(q, Spend(Refill(b, q, calls[0].now), calls[0].size), calls[1..]);
      assert calls == [calls[0]] + calls[1..];
    }
  }

  /** In order within the times, and small enough for a sender's bucket. */
  ghost predicate Timed(q: Quota, calls: seq<Call>, from: Instant, to: Instant) {
    Ordered(calls, from, to) && Modest(q, calls)
  }

  lemma TimedJoins(q: Quota, a: seq<Call>, b: seq<Call>, from: Instant, middle: Instant, to: Instant)
    requires Timed(q, a, from, middle) && Timed(q, b, middle, to)
    ensures Timed(q, a + b, from, to)
  {
    OrderedJoins(a, b, from, middle, to);
  }

  // ---------- a cycle: a spell, a crowd that fills the table, and a newcomer that clears it ----------

  function Crowd(t: Instant, from: NodeId, n: nat): seq<Call>
    decreases n
  {
    if n == 0 then [] else [Call(from, 1, t)] + Crowd(t, from + 1, n - 1)
  }

  ghost predicate SeenBy(peers: map<NodeId, PeerBucket>, t: Instant, below: NodeId) {
    forall id :: id in peers ==> id < below && peers[id].lastSeen <= t
  }

  lemma JoinsCrowd(c: Config, peers: map<NodeId, PeerBucket>, t: Instant, from: NodeId)
    requires ValidConfig(c) && |peers| < c.maxPeers && SeenBy(peers, t, from)
    ensures var e := Serve(c, peers, Call(from, 1, t)).0; |e| == |peers| + 1 && SeenBy(e, t, from + 1)
  {
    var e := Serve(c, peers, Call(from, 1, t)).0;
    assert e.Keys == peers.Keys + {from} && |e| == |e.Keys|;
  }

  lemma CrowdHead(t: Instant, from: NodeId, n: nat)
    requires n > 0
    ensures Crowd(t, from, n) != [] && Crowd(t, from, n)[0] == Call(from, 1, t)
    ensures Crowd(t, from, n)[1..] == Crowd(t, from + 1, n - 1)
  {
  }

  lemma {:induction false} CrowdFills(c: Config, peers: map<NodeId, PeerBucket>, t: Instant, from: NodeId, n: nat, byBytes: bool)
    requires ValidConfig(c) && |peers| + n <= c.maxPeers && SeenBy(peers, t, from) && from >= 2
    ensures var e := ServeAll(c, peers, Crowd(t, from, n)); |e| == |peers| + n && SeenBy(e, t, from + n)
    ensures Served(c, peers, Crowd(t, from, n), 1, byBytes) == 0.0
    decreases n
  {
    if n > 0 {
      CrowdHead(t, from, n);
      JoinsCrowd(c, peers, t, from);
      CrowdFills(c, Serve(c, peers, Call(from, 1, t)).0, t, from + 1, n - 1, byBytes);
    }
  }

  lemma {:induction false} CrowdTimed(q: Quota, t: Instant, from: NodeId, n: nat)
    requires ValidQuota(q)
    ensures Timed(q, Crowd(t, from, n), t, t)
    decreases n
  {
    if n > 0 {
      CrowdHead(t, from, n);
      CrowdTimed(q, t, from + 1, n - 1);
    }
  }

  lemma Clears(c: Config, peers: map<NodeId, PeerBucket>, t: Instant, id: NodeId)
    requires ValidConfig(c) && |peers| >= c.maxPeers && SeenBy(peers, t - c.idleTtl as real, id)
    ensures Serve(c, peers, Call(id, 1, t)).0 == map[id := PeerBucket(Spend(FullBucket(c.perPeer, t), 1), t)]
  {
    assert RoomFor(c, peers, t) == map[];
  }

  /** How many others fit beside sender 1 and the one found in the table. */
  function Fill(g: Setting): nat {
    if g.maxPeers <= 2 then 0 else g.maxPeers - 2
  }

  function After(g: Setting, id: NodeId): NodeId {
    id + 1 + Fill(g)
  }

  /** Only one sender is in the table, and sender 1 will be let in. */
  ghost predicate Lone(c: Config, peers: map<NodeId, PeerBucket>, id: NodeId, t: Instant) {
    peers.Keys == {id} && id >= 2 && peers[id].lastSeen + (Absence(SettingOf(c)) - c.idleTtl as real) <= t
  }

  function Clearing(idleTtl: nat, t: Instant, id: NodeId): seq<Call> {
    [Call(id, 1, t + idleTtl as real)]
  }

  function Others(g: Setting, t: Instant, id: NodeId): seq<Call> {
    Crowd(t, id + 1, Fill(g)) + Clearing(g.idleTtl, t, After(g, id))
  }

  function Cycle(g: Setting, byBytes: bool, t: Instant, id: NodeId): seq<Call>
    requires ValidSetting(g)
  {
    Spell(g.quota, byBytes, t) + Others(g, t + SpellLength(g.quota, byBytes), id)
  }

  function Period(g: Setting, byBytes: bool): real
    requires ValidSetting(g)
  {
    SpellLength(g.quota, byBytes) + Absence(g)
  }

  lemma LoneLetsIn(c: Config, peers: map<NodeId, PeerBucket>, id: NodeId, t: Instant)
    requires ValidConfig(c) && Lone(c, peers, id, t)
    ensures var room := RoomFor(c, peers, t);
      1 !in peers && 1 !in room && |room| + 1 + Fill(SettingOf(c)) == c.maxPeers && SeenBy(room, t, id + 1)
  {
    assert |peers| == |peers.Keys| == 1;
    if c.maxPeers == 1 {
      assert RoomFor(c, peers, t) == map[];
    }
  }

  lemma OthersTimed(g: Setting, id: NodeId, t: Instant)
    requires ValidSetting(g)
    ensures Timed(g.quota, Others(g, t, id), t, t + Absence(g))
  {
    var last := Clearing(g.idleTtl, t, After(g, id));
    CrowdTimed(g.quota, t, id + 1, Fill(g));
    assert last[1..] == [];
    TimedJoins(g.quota, Crowd(t, id + 1, Fill(g)), last, t, t, t + Absence(g));
  }

  lemma LastClears(c: Config, full: map<NodeId, PeerBucket>, id: NodeId, t: Instant, byBytes: bool)
    requires ValidConfig(c) && id >= 2 && |full| >= c.maxPeers && SeenBy(full, t, id)
    ensures var last := Clearing(c.idleTtl, t, id);
      Lone(c, ServeAll(c, full, last), id, t + Absence(SettingOf(c))) && Served(c, full, last, 1, byBytes) == 0.0
  {
    var last := Clearing(c.idleTtl, t, id);
    assert last[1..] == [];
    Clears(c, full, t + c.idleTtl as real, id);
  }

  lemma JoinServes(c: Config, peers: map<NodeId, PeerBucket>, a: seq<Call>, b: seq<Call>, taken: real, id: NodeId, t: Instant,
                   byBytes: bool)
    requires Served(c, peers, a, 1, byBytes) == taken && Served(c, ServeAll(c, peers, a), b, 1, byBytes) == 0.0
    requires Lone(c, ServeAll(c, ServeAll(c, peers, a), b), id, t)
    ensures Served(c, peers, a + b, 1, byBytes) == taken && Lone(c, ServeAll(c, peers, a + b), id, t)
  {
    ServeAllInTwo(c, peers, a, b);
    ServedInTwo(c, peers, a, b, 1, byBytes);
  }

  lemma OthersClear(c: Config, peers: map<NodeId, PeerBucket>, id: NodeId, t: Instant, byBytes: bool)
    requires ValidConfig(c) && id >= 2 && |peers| + Fill(SettingOf(c)) == c.maxPeers && SeenBy(peers, t, id + 1)
    ensures var g := SettingOf(c);
      && Served(c, peers, Others(g, t, id), 1, byBytes) == 0.0
      && Lone(c, ServeAll(c, peers, Others(g, t, id)), After(g, id), t + Absence(g))
  {
    var g := SettingOf(c);
    var crowd, last := Crowd(t, id + 1, Fill(g)), Clearing(g.idleTtl, t, After(g, id));
    CrowdFills(c, peers, t, id + 1, Fill(g), byBytes);
    LastClears(c, ServeAll(c, peers, crowd), After(g, id), t, byBytes);
    JoinServes(c, peers, crowd, last, 0.0, After(g, id), t + Absence(g), byBytes);
  }

  /** What sender 1 is let by with in one cycle. */
  function Takings(q: Quota, byBytes: bool): real
    requires ValidQuota(q)
  {
    MaxDebt(q, byBytes) + Earned(Rate(q, byBytes), 0.0, SpellLength(q, byBytes))
  }

  lemma SpellServed(c: Config, byBytes: bool, peers: map<NodeId, PeerBucket>, id: NodeId, t: Instant)
    requires ValidConfig(c) && Lone(c, peers, id, t)
    ensures var spell := Spell(c.perPeer, byBytes, t); var e := ServeAll(c, peers, spell);
      && Served(c, peers, spell, 1, byBytes) == Takings(c.perPeer, byBytes)
      && |e| + Fill(SettingOf(c)) == c.maxPeers && SeenBy(e, t + SpellLength(c.perPeer, byBytes), id + 1)
  {
    var spell := Spell(c.perPeer, byBytes, t);
    SpellRuins(c.perPeer, byBytes, t);
    LoneLetsIn(c, peers, id, t);
    NewcomerServed(c, peers, spell, t, byBytes);
    var room, e := RoomFor(c, peers, t), ServeAll(c, peers, spell);
    assert e.Keys == room.Keys + {1} && |e| == |e.Keys| && |room| == |room.Keys|;
  }

  lemma SpellThenOthers(c: Config, peers: map<NodeId, PeerBucket>, spell: seq<Call>, taken: real, id: NodeId, end: Instant, byBytes: bool)
    requires ValidConfig(c) && id >= 2 && Served(c, peers, spell, 1, byBytes) == taken
    requires var e := ServeAll(c, peers, spell); |e| + Fill(SettingOf(c)) == c.maxPeers && SeenBy(e, end, id + 1)
    ensures var g := SettingOf(c); var cycle := spell + Others(g, end, id);
      Served(c, peers, cycle, 1, byBytes) == taken && Lone(c, ServeAll(c, peers, cycle), After(g, id), end + Absence(g))
  {
    var g := SettingOf(c);
    OthersClear(c, ServeAll(c, peers, spell), id, end, byBytes);
    JoinServes(c, peers, spell, Others(g, end, id), taken, After(g, id), end + Absence(g), byBytes);
  }

  /** A cycle lets sender 1 by with all it can owe, and ends as it began. */
  lemma CycleServes(c: Config, byBytes: bool, peers: map<NodeId, PeerBucket>, id: NodeId, t: Instant)
    requires ValidConfig(c) && Lone(c, peers, id, t)
    ensures var g := SettingOf(c);
      && Served(c, peers, Cycle(g, byBytes, t, id), 1, byBytes) == Takings(c.perPeer, byBytes)
      && Lone(c, ServeAll(c, peers, Cycle(g, byBytes, t, id)), After(g, id), t + Period(g, byBytes))
  {
    SpellServed(c, byBytes, peers, id, t);
    SpellThenOthers(c, peers, Spell(c.perPeer, byBytes, t), Takings(c.perPeer, byBytes), id,
                    t + SpellLength(c.perPeer, byBytes), byBytes);
  }

  lemma CycleTimed(g: Setting, byBytes: bool, t: Instant, id: NodeId)
    requires ValidSetting(g)
    ensures Timed(g.quota, Cycle(g, byBytes, t, id), t, t + Period(g, byBytes))
  {
    var spell, end := Spell(g.quota, byBytes, t), t + SpellLength(g.quota, byBytes);
    SpellRuins(g.quota, byBytes, t);
    AffordableModest(g.quota, FullBucket(g.quota, t), spell);
    OthersTimed(g, id, end);
    TimedJoins(g.quota, spell, Others(g, end, id), t, end, end + Absence(g));
  }

  function Cycles(g: Setting, byBytes: bool, t: Instant, id: NodeId, n: nat): seq<Call>
    requires ValidSetting(g)
    decreases n
  {
    if n == 0 then [] else Cycle(g, byBytes, t, id) + Cycles(g, byBytes, t + Period(g, byBytes), After(g, id), n - 1)
  }

  lemma {:induction false} CyclesServe(c: Config, byBytes: bool, peers: map<NodeId, PeerBucket>, id: NodeId, t: Instant, n: nat)
    requires ValidConfig(c) && Lone(c, peers, id, t)
    ensures Served(c, peers, Cycles(SettingOf(c), byBytes, t, id, n), 1, byBytes) == Down(0.0, -Takings(c.perPeer, byBytes), n)
    decreases n
  {
    if n > 0 {
      var g := SettingOf(c);
      var first, next := Cycle(g, byBytes, t, id), t + Period(g, byBytes);
      CycleServes(c, byBytes, peers, id, t);
      CyclesServe(c, byBytes, ServeAll(c, peers, first), After(g, id), next, n - 1);
      ServedInTwo(c, peers, first, Cycles(g, byBytes, next, After(g, id), n - 1), 1, byBytes);
      DownShifts(n - 1, -Takings(c.perPeer, byBytes));
    }
  }

  lemma {:induction false} CyclesTimed(g: Setting, byBytes: bool, id: NodeId, t: Instant, n: nat)
    requires ValidSetting(g)
    ensures Timed(g.quota, Cycles(g, byBytes, t, id, n), t, Down(t, -Period(g, byBytes), n))
    decreases n
  {
    if n > 0 {
      var next := t + Period(g, byBytes);
      CycleTimed(g, byBytes, t, id);
      CyclesTimed(g, byBytes, After(g, id), next, n - 1);
      TimedJoins(g.quota, Cycle(g, byBytes, t, id), Cycles(g, byBytes, next, After(g, id), n - 1), t, next,
                 Down(t, -Period(g, byBytes), n));
    }
  }

  lemma DownShifts(n: nat, d: real)
    ensures Down(0.0, d, n + 1) == Down(0.0, d, n) - d
  {
    DownIs(0.0, d, n);
    DownIs(0.0, d, n + 1);
    assert (n + 1) as real * d == n as real * d + d;
  }

  // ---------- the condition is needed ----------

  lemma EnoughCycles(burst: real, debt: real, earned: real, spell: real) returns (n: nat)
    requires burst >= 0.0 && debt > earned
    ensures n as real * (debt + spell) > burst + n as real * (spell + earned)
  {
    var gap := debt - earned;
    var k := (burst / gap).Floor;
    FloorFits(burst, gap, k);
    n := k + 1;
    assert n as real * gap == k as real * gap + gap;
    assert n as real * (debt + spell) == n as real * gap + n as real * (spell + earned);
  }

  /** The cycles begin once sender 2 is alone in the table. */
  const BEFORE := [Call(2, 1, 0.0)]

  function Start(g: Setting): Instant {
    Absence(g) - g.idleTtl as real
  }

  lemma BeginsLone(c: Config, k: nat)
    requires ValidConfig(c) && c.whole == Quota(1.0, k, 1.0, k) && k >= 1
    ensures var s := Run(c, Fresh(c, 0.0), BEFORE); Ample(c, s, Start(SettingOf(c)), k - 1) && Lone(c, s.peers, 2, Start(SettingOf(c)))
    ensures Ordered(BEFORE, 0.0, Start(SettingOf(c)))
  {
    assert BEFORE[1..] == [];
    assert Volume(BEFORE) == 1;
    AmpleRun(c, Fresh(c, 0.0), BEFORE, 0.0, Start(SettingOf(c)), k, 1, false);
  }

  /** Calls that take sender 1 over its bound whenever the node-wide quota covers them. */
  lemma BreakingCalls(g: Setting, byBytes: bool) returns (calls: seq<Call>, to: Instant, total: real)
    requires ValidSetting(g) && !EarnsBack(g, byBytes)
    ensures Timed(g.quota, calls, Start(g), to) && total > Burst(g.quota, byBytes) + Earned(Rate(g.quota, byBytes), Start(g), to)
    ensures forall c, peers :: ValidConfig(c) && SettingOf(c) == g && Lone(c, peers, 2, Start(g)) ==>
      Served(c, peers, calls, 1, byBytes) == total
  {
    var n, end := BreakingCycles(g, byBytes);
    calls, to, total := Cycles(g, byBytes, Start(g), 2, n), end, Down(0.0, -Takings(g.quota, byBytes), n);
    CyclesTimed(g, byBytes, 2, Start(g), n);
    forall c, peers | ValidConfig(c) && SettingOf(c) == g && Lone(c, peers, 2, Start(g))
      ensures Served(c, peers, calls, 1, byBytes) == total
    {
      CyclesServe(c, byBytes, peers, 2, Start(g), n);
    }
  }

  /**
   The condition is needed: for every per-sender quota, table size and idle time that break it there is a run in
   which a sender that is forgotten and comes back exceeds its bound.
   */
  lemma ForgottenTooSoon(g: Setting, byBytes: bool)
    returns (c: Config, before: seq<Call>, calls: seq<Call>, from: Instant, to: Instant)
    requires ValidSetting(g) && !EarnsBack(g, byBytes)
    ensures ValidConfig(c) && SettingOf(c) == g
    ensures Ordered(before, 0.0, from) && Ordered(calls, from, to)
    ensures AdmittedFrom(c, Run(c, Fresh(c, 0.0), before), calls, 1, byBytes) >
            Burst(g.quota, byBytes) + Earned(Rate(g.quota, byBytes), from, to)
  {
    var total: real;
    before, from := BEFORE, Start(g);
    calls, to, total := BreakingCalls(g, byBytes);
    var k := 1 + Volume(calls);
    c := Config(g.quota, Quota(1.0, k, 1.0, k), g.maxPeers, g.idleTtl);
    BeginsLone(c, k);
    AmpleRun(c, Run(c, Fresh(c, 0.0), before), calls, from, to, k - 1, 1, byBytes);
  }

  lemma BreakingCycles(g: Setting, byBytes: bool) returns (n: nat, end: Instant)
    requires ValidSetting(g) && !EarnsBack(g, byBytes)
    ensures end == Down(Start(g), -Period(g, byBytes), n)
    ensures Down(0.0, -Takings(g.quota, byBytes), n) > Burst(g.quota, byBytes) + Earned(Rate(g.quota, byBytes), Start(g), end)
  {
    var q, rate, d := g.quota, Rate(g.quota, byBytes), SpellLength(g.quota, byBytes);
    n := EnoughCycles(Burst(q, byBytes), MaxDebt(q, byBytes), Earned(rate, 0.0, Absence(g)), Earned(rate, 0.0, d));
    end := Down(Start(g), -Period(g, byBytes), n);
    CyclesExceed(q, byBytes, n, Start(g), end, Period(g, byBytes), d, Absence(g));
  }

  lemma CyclesExceed(q: Quota, byBytes: bool, n: nat, from: Instant, to: Instant, period: real, d: real, away: real)
    requires period == d + away && to == Down(from, -period, n)
    requires var rate := Rate(q, byBytes);
      n as real * (MaxDebt(q, byBytes) + Earned(rate, 0.0, d)) >
      Burst(q, byBytes) + n as real * (Earned(rate, 0.0, d) + Earned(rate, 0.0, away))
    ensures Down(0.0, -(MaxDebt(q, byBytes) + Earned(Rate(q, byBytes), 0.0, d)), n) >
            Burst(q, byBytes) + Earned(Rate(q, byBytes), from, to)
  {
    var rate := Rate(q, byBytes);
    DownIs(from, -period, n);
    DownIs(0.0, -(MaxDebt(q, byBytes) + Earned(rate, 0.0, d)), n);
    EarnedShifts(rate, from, n as real * period);
    EarnedScales(rate, period, n as real);
    EarnedAdds(rate, 0.0, d, period);
    EarnedShifts(rate, d, away);
  }

  /** No run of any limiter with this setting lets a sender exceed its burst and what its rate earns. */
  ghost predicate SenderBounded(g: Setting, byBytes: bool) {
    forall c: Config, start: Instant, before: seq<Call>, calls: seq<Call>, from: Instant, to: Instant, id: NodeId ::
      ValidConfig(c) && SettingOf(c) == g && Ordered(before, start, from) && Ordered(calls, from, to) ==>
        AdmittedFrom(c, Run(c, Fresh(c, start), before), calls, id, byBytes) <=
        Burst(g.quota, byBytes) + Earned(Rate(g.quota, byBytes), from, to)
  }

  /** The per-sender bound holds in every run if and only if what can be owed is earned back while away. */
  lemma SenderBoundIsExact(g: Setting, byBytes: bool)
    requires ValidSetting(g)
    ensures SenderBounded(g, byBytes) <==> EarnsBack(g, byBytes)
  {
    if EarnsBack(g, byBytes) {
      forall c: Config, start: Instant, before: seq<Call>, calls: seq<Call>, from: Instant, to: Instant, id: NodeId
        | ValidConfig(c) && SettingOf(c) == g && Ordered(before, start, from) && Ordered(calls, from, to)
        ensures AdmittedFrom(c, Run(c, Fresh(c, start), before), calls, id, byBytes) <=
                Burst(g.quota, byBytes) + Earned(Rate(g.quota, byBytes), from, to)
      {
        SenderIntervalBound(c, start, before, calls, from, to, id, byBytes);
      }
    } else {
      var c, before, calls, from, to := ForgottenTooSoon(g, byBytes);
    }
  }
}
