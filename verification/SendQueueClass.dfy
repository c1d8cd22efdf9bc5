/**
 One priority class of the transport's send queue: a FIFO lane per peer and a rotation of the peers that have
 something to send.
 */
module SendQueueClass {
  import opened Basics

  type Key = nat
  type Datagram = seq<byte>

  datatype Limits = Limits(itemsPerPeer: nat, bytesPerPeer: nat, items: nat, bytes: nat)

  datatype Lane = Lane(items: seq<Datagram>, bytes: nat)

  const EMPTY_LANE := Lane([], 0)

  /** Only peers with a nonempty lane appear in `lanes`. */
  datatype Class = Class(lanes: map<Key, Lane>, rotation: seq<Key>, items: nat, bytes: nat)

  const EMPTY_CLASS := Class(map[], [], 0, 0)

  datatype Result = Queued | Invalid | PerPeerItemLimit | PerPeerByteLimit | GlobalItemLimit | GlobalByteLimit

  function LaneOf(c: Class, key: Key): Lane {
    if key in c.lanes then c.lanes[key] else EMPTY_LANE
  }

  function Admit(limits: Limits, c: Class, key: Key, data: Datagram): Result {
    var lane := LaneOf(c, key);
    if |lane.items| >= limits.itemsPerPeer then PerPeerItemLimit
    else if |data| > limits.bytesPerPeer - lane.bytes then PerPeerByteLimit
    else if c.items >= limits.items then GlobalItemLimit
    else if |data| > limits.bytes - c.bytes then GlobalByteLimit
    else Queued
  }

  function Enqueue(limits: Limits, c: Class, key: Key, data: Datagram): Class {
    if !Admit(limits, c, key, data).Queued? then c
    else
      var lane := LaneOf(c, key);
      Class(c.lanes[key := Lane(lane.items + [data], lane.bytes + |data|)],
            if lane.items == [] then c.rotation + [key] else c.rotation,
            c.items + 1, c.bytes + |data|)
  }

  /** Serves the peer at the front; it goes to the back if it has more to send. */
  function Pop(c: Class): (Class, Option<(Key, Datagram)>)
    requires c.rotation != []
  {
    var key := c.rotation[0];
    var rest := c.rotation[1..];
    var lane := LaneOf(c, key);
    if lane.items == [] then (c.(rotation := rest), None)
    else
      var data := lane.items[0];
      var left := Lane(lane.items[1..], Minus(lane.bytes, |data|));
      (Class(if left.items == [] then c.lanes - {key} else c.lanes[key := left],
             if left.items == [] then rest else rest + [key],
             Minus(c.items, 1), Minus(c.bytes, |data|)),
       Some((key, data)))
  }

  /** Counter arithmetic; `PopKeepsOk` shows that it never goes below zero in a reachable queue. */
  function Minus(a: nat, b: nat): nat {
    if a >= b then a - b else 0
  }

  // ---------- the invariant ----------

  function Size(items: seq<Datagram>): nat {
    if items == [] then 0 else |items[0]| + Size(items[1..])
  }

  function Weight(lane: Lane, byBytes: bool): nat {
    if byBytes then lane.bytes else |lane.items|
  }

  function Total(lanes: map<Key, Lane>, rotation: seq<Key>, byBytes: bool): nat {
    if rotation == [] then 0
    else (if rotation[0] in lanes then Weight(lanes[rotation[0]], byBytes) else 0) + Total(lanes, rotation[1..], byBytes)
  }

  predicate LaneOk(limits: Limits, lane: Lane) {
    lane.items != [] && |lane.items| <= limits.itemsPerPeer && lane.bytes == Size(lane.items) <= limits.bytesPerPeer
  }

  /** The rotation lists exactly the peers with something queued, once each. */
  ghost predicate RotationOk(limits: Limits, lanes: map<Key, Lane>, rotation: seq<Key>) {
    && NoRepeats(rotation)
    && (forall key :: key in rotation <==> key in lanes)
    && (forall key :: key in lanes ==> LaneOk(limits, lanes[key]))
  }

  /** The counters are the real sums, within the limits. */
  ghost predicate CountersOk(limits: Limits, c: Class) {
    && c.items == Total(c.lanes, c.rotation, false) <= limits.items
    && c.bytes == Total(c.lanes, c.rotation, true) <= limits.bytes
  }

  ghost predicate ClassOk(limits: Limits, c: Class) {
    RotationOk(limits, c.lanes, c.rotation) && CountersOk(limits, c)
  }

  lemma {:induction false} SizeAppend(items: seq<Datagram>, data: Datagram)
    ensures Size(items + [data]) == Size(items) + |data|
  {
    if items == [] {
      assert Size([data]) == |data| + Size([]);
    } else {
      SizeAppend(items[1..], data);
      assert (items + [data])[1..] == items[1..] + [data];
    }
  }

  lemma {:induction false} TotalAppend(lanes: map<Key, Lane>, rotation: seq<Key>, key: Key, byBytes: bool)
    ensures Total(lanes, rotation + [key], byBytes) ==
            Total(lanes, rotation, byBytes) + if key in lanes then Weight(lanes[key], byBytes) else 0
  {
    if rotation == [] {
      assert Total(lanes, [key], byBytes) == (if key in lanes then Weight(lanes[key], byBytes) else 0) + Total(lanes, [], byBytes);
    } else {
      TotalAppend(lanes, rotation[1..], key, byBytes);
      assert (rotation + [key])[1..] == rotation[1..] + [key];
    }
  }

  /** Peers outside the rotation do not count. */
  lemma {:induction false} TotalLocal(lanes: map<Key, Lane>, other: map<Key, Lane>, rotation: seq<Key>, byBytes: bool)
    requires forall key :: key in rotation ==> (key in lanes <==> key in other) && (key in lanes ==> lanes[key] == other[key])
    ensures Total(lanes, rotation, byBytes) == Total(other, rotation, byBytes)
  {
    if rotation != [] {
      TotalLocal(lanes, other, rotation[1..], byBytes);
    }
  }

  lemma {:induction false} TotalUpdate(lanes: map<Key, Lane>, rotation: seq<Key>, key: Key, lane: Lane, byBytes: bool)
    requires NoRepeats(rotation) && key in rotation && key in lanes
    ensures Total(lanes[key := lane], rotation, byBytes) ==
            Total(lanes, rotation, byBytes) - Weight(lanes[key], byBytes) + Weight(lane, byBytes)
    ensures Total(lanes, rotation, byBytes) >= Weight(lanes[key], byBytes)
  {
    if rotation[0] == key {
      TotalLocal(lanes, lanes[key := lane], rotation[1..], byBytes);
    } else {
      TotalUpdate(lanes, rotation[1..], key, lane, byBytes);
    }
  }

  lemma EnqueueKeepsRotation(limits: Limits, c: Class, key: Key, data: Datagram)
    requires ClassOk(limits, c) && Admit(limits, c, key, data).Queued?
    ensures var d := Enqueue(limits, c, key, data); RotationOk(limits, d.lanes, d.rotation)
  {
    SizeAppend(LaneOf(c, key).items, data);
  }

  lemma EnqueueKeepsCounters(limits: Limits, c: Class, key: Key, data: Datagram)
    requires ClassOk(limits, c) && Admit(limits, c, key, data).Queued?
    ensures CountersOk(limits, Enqueue(limits, c, key, data))
  {
    var lane := LaneOf(c, key);
    var more := Lane(lane.items + [data], lane.bytes + |data|);
    if key in c.lanes {
      TotalUpdate(c.lanes, c.rotation, key, more, false);
      TotalUpdate(c.lanes, c.rotation, key, more, true);
    } else {
      TotalLocal(c.lanes, c.lanes[key := more], c.rotation, false);
      TotalLocal(c.lanes, c.lanes[key := more], c.rotation, true);
      TotalAppend(c.lanes[key := more], c.rotation, key, false);
      TotalAppend(c.lanes[key := more], c.rotation, key, true);
    }
  }

  lemma EnqueueKeepsOk(limits: Limits, c: Class, key: Key, data: Datagram)
    requires ClassOk(limits, c)
    ensures ClassOk(limits, Enqueue(limits, c, key, data))
  {
    if Admit(limits, c, key, data).Queued? {
      EnqueueKeepsRotation(limits, c, key, data);
      EnqueueKeepsCounters(limits, c, key, data);
    }
  }

  /** What the peer has queued, and what the class has queued, counted on the datagrams themselves. */
  ghost predicate FitsPeer(limits: Limits, items: seq<Datagram>, data: Datagram) {
    |items| + 1 <= limits.itemsPerPeer && Size(items) + |data| <= limits.bytesPerPeer
  }

  function Queue(c: Class, keys: seq<Key>): seq<Datagram> {
    if keys == [] then [] else LaneOf(c, keys[0]).items + Queue(c, keys[1..])
  }

  ghost predicate FitsClass(limits: Limits, all: seq<Datagram>, data: Datagram) {
    |all| + 1 <= limits.items && Size(all) + |data| <= limits.bytes
  }

  lemma {:induction false} SizeJoin(a: seq<Datagram>, b: seq<Datagram>)
    ensures Size(a + b) == Size(a) + Size(b)
  {
    if a == [] {
      assert a + b == b;
    } else {
      SizeJoin(a[1..], b);
      HeadAndTail(a, b);
    }
  }

  lemma {:induction false} TotalIsQueue(limits: Limits, c: Class, keys: seq<Key>)
    requires forall key :: key in keys ==> key in c.lanes && LaneOk(limits, c.lanes[key])
    ensures Total(c.lanes, keys, false) == |Queue(c, keys)| && Total(c.lanes, keys, true) == Size(Queue(c, keys))
  {
    if keys != [] {
      assert keys[0] in keys;
      TotalIsQueue(limits, c, keys[1..]);
      SizeJoin(LaneOf(c, keys[0]).items, Queue(c, keys[1..]));
    }
  }

  /**
   A datagram is queued exactly when the peer's own datagrams and those of everybody in the class leave room for it, and
   a refusal names the first limit in the way: the peer's items, the peer's bytes, all items, all bytes.
   */
  lemma AdmitExactly(limits: Limits, c: Class, key: Key, data: Datagram)
    requires ClassOk(limits, c)
    ensures var own := LaneOf(c, key).items; var all := Queue(c, c.rotation); var r := Admit(limits, c, key, data);
      && (r == Queued <==> FitsPeer(limits, own, data) && FitsClass(limits, all, data))
      && (r == PerPeerItemLimit <==> |own| == limits.itemsPerPeer)
      && (r == PerPeerByteLimit <==> |own| < limits.itemsPerPeer && Size(own) + |data| > limits.bytesPerPeer)
      && (r == GlobalItemLimit <==> FitsPeer(limits, own, data) && |all| == limits.items)
      && (r == GlobalByteLimit <==> FitsPeer(limits, own, data) && |all| < limits.items && Size(all) + |data| > limits.bytes)
  {
    TotalIsQueue(limits, c, c.rotation);
  }

  /** What is queued goes to the back of the peer's own lane, and a peer that had nothing queued goes to the back of the rotation. */
  lemma QueuedAtTheBack(limits: Limits, c: Class, key: Key, data: Datagram)
    requires ClassOk(limits, c) && Admit(limits, c, key, data) == Queued
    ensures var d := Enqueue(limits, c, key, data);
      && LaneOf(d, key).items == LaneOf(c, key).items + [data]
      && (forall other :: other != key ==> LaneOf(d, other) == LaneOf(c, other))
      && d.rotation == if key in c.rotation then c.rotation else c.rotation + [key]
  {
  }

  lemma TotalsAfterPop(c: Class, key: Key, left: Lane, byBytes: bool)
    requires NoRepeats(c.rotation) && c.rotation != [] && key == c.rotation[0] && key in c.lanes
    ensures Total(c.lanes, c.rotation, byBytes) == Weight(c.lanes[key], byBytes) + Total(c.lanes - {key}, c.rotation[1..], byBytes)
    ensures Total(c.lanes[key := left], c.rotation[1..] + [key], byBytes) ==
            Weight(left, byBytes) + Total(c.lanes - {key}, c.rotation[1..], byBytes)
  {
    var rest := c.rotation[1..];
    TotalLocal(c.lanes, c.lanes - {key}, rest, byBytes);
    TotalLocal(c.lanes[key := left], c.lanes - {key}, rest, byBytes);
    TotalAppend(c.lanes[key := left], rest, key, byBytes);
  }

  lemma PopKeepsRotation(limits: Limits, c: Class)
    requires ClassOk(limits, c) && c.rotation != []
    ensures RotationOk(limits, Pop(c).0.lanes, Pop(c).0.rotation)
  {
    assert c.rotation[0] in c.lanes && LaneOk(limits, c.lanes[c.rotation[0]]);
    RotationAfterPop(c.rotation);
  }

  lemma PopKeepsCounters(limits: Limits, c: Class)
    requires ClassOk(limits, c) && c.rotation != []
    ensures CountersOk(limits, Pop(c).0)
    ensures Pop(c).1.Some? && c.items >= 1 && c.bytes >= |Pop(c).1.value.1|
  {
    var key := c.rotation[0];
    assert key in c.lanes && LaneOk(limits, c.lanes[key]);
    var lane := c.lanes[key];
    assert lane.bytes == |lane.items[0]| + Size(lane.items[1..]);
    var left := Lane(lane.items[1..], lane.bytes - |lane.items[0]|);
    TotalsAfterPop(c, key, left, false);
    TotalsAfterPop(c, key, left, true);
  }

  /** A pop of a rotation in order always delivers, and subtracts exactly what it delivers. */
  lemma PopKeepsOk(limits: Limits, c: Class)
    requires ClassOk(limits, c) && c.rotation != []
    ensures ClassOk(limits, Pop(c).0)
    ensures Pop(c).1.Some? && c.items >= 1 && c.bytes >= |Pop(c).1.value.1|
  {
    PopKeepsRotation(limits, c);
    PopKeepsCounters(limits, c);
  }

  lemma RotationAfterPop(rotation: seq<Key>)
    requires NoRepeats(rotation) && rotation != []
    ensures NoRepeats(rotation[1..]) && NoRepeats(rotation[1..] + [rotation[0]])
    ensures forall key :: key in rotation[1..] <==> key in rotation && key != rotation[0]
    ensures forall key :: key in rotation[1..] + [rotation[0]] <==> key in rotation
  {
  }

  // ---------- runs ----------

  datatype Op = EnqueueOp(key: Key, data: Datagram) | PopOp

  /** What the class does for an operation; a pop of an empty rotation does nothing. */
  function Next(limits: Limits, c: Class, op: Op): (Class, Option<(Key, Datagram)>) {
    match op
    case EnqueueOp(key, data) => (Enqueue(limits, c, key, data), None)
    case PopOp => if c.rotation == [] then (c, None) else Pop(c)
  }

  function Run(limits: Limits, c: Class, ops: seq<Op>): Class
    decreases |ops|
  {
    if ops == [] then c else Run(limits, Next(limits, c, ops[0]).0, ops[1..])
  }

  lemma NextKeepsOk(limits: Limits, c: Class, op: Op)
    requires ClassOk(limits, c)
    ensures ClassOk(limits, Next(limits, c, op).0)
  {
    match op
    case EnqueueOp(key, data) => EnqueueKeepsOk(limits, c, key, data);
    case PopOp => if c.rotation != [] { PopKeepsOk(limits, c); }
  }

  lemma {:induction false} RunKeepsOk(limits: Limits, c: Class, ops: seq<Op>)
    requires ClassOk(limits, c)
    ensures ClassOk(limits, Run(limits, c, ops))
    decreases |ops|
  {
    if ops != [] {
      NextKeepsOk(limits, c, ops[0]);
      RunKeepsOk(limits, Next(limits, c, ops[0]).0, ops[1..]);
    }
  }

  // ---------- conservation ----------

  /** The datagrams accepted for one peer along a run, in order. */
  function Accepted(limits: Limits, c: Class, ops: seq<Op>, key: Key): seq<Datagram>
    decreases |ops|
  {
    if ops == [] then []
    else
      (if ops[0].EnqueueOp? && ops[0].key == key && Admit(limits, c, key, ops[0].data).Queued? then [ops[0].data] else [])
      + Accepted(limits, Next(limits, c, ops[0]).0, ops[1..], key)
  }

  /** The datagrams delivered to one peer along a run, in order. */
  function Delivered(limits: Limits, c: Class, ops: seq<Op>, key: Key): seq<Datagram>
    decreases |ops|
  {
    if ops == [] then []
    else
      var out := Next(limits, c, ops[0]).1;
      (if out.Some? && out.value.0 == key then [out.value.1] else [])
      + Delivered(limits, Next(limits, c, ops[0]).0, ops[1..], key)
  }

  lemma NextConserves(limits: Limits, c: Class, op: Op, key: Key)
    requires ClassOk(limits, c)
    ensures var (d, out) := Next(limits, c, op);
      LaneOf(c, key).items + (if op.EnqueueOp? && op.key == key && Admit(limits, c, key, op.data).Queued? then [op.data] else [])
      == (if out.Some? && out.value.0 == key then [out.value.1] else []) + LaneOf(d, key).items
  {
    if op.PopOp? && c.rotation != [] {
      PopKeepsOk(limits, c);
      var front := c.rotation[0];
      assert front in c.lanes && LaneOk(limits, c.lanes[front]);
    }
  }

  /** Per peer, what was queued and accepted is what was delivered and what is still queued, in the same order. */
  lemma {:induction false} NothingLostOrDuplicated(limits: Limits, c: Class, ops: seq<Op>, key: Key)
    requires ClassOk(limits, c)
    ensures LaneOf(c, key).items + Accepted(limits, c, ops, key) ==
            Delivered(limits, c, ops, key) + LaneOf(Run(limits, c, ops), key).items
    decreases |ops|
  {
    if ops != [] {
      var (d, out) := Next(limits, c, ops[0]);
      NextConserves(limits, c, ops[0], key);
      NextKeepsOk(limits, c, ops[0]);
      NothingLostOrDuplicated(limits, d, ops[1..], key);
      var accepted := if ops[0].EnqueueOp? && ops[0].key == key && Admit(limits, c, key, ops[0].data).Queued? then [ops[0].data] else [];
      var delivered := if out.Some? && out.value.0 == key then [out.value.1] else [];
      calc {
        LaneOf(c, key).items + Accepted(limits, c, ops, key);
        LaneOf(c, key).items + (accepted + Accepted(limits, d, ops[1..], key));
        { Associate(LaneOf(c, key).items, accepted, Accepted(limits, d, ops[1..], key)); }
        (delivered + LaneOf(d, key).items) + Accepted(limits, d, ops[1..], key);
        { Associate(delivered, LaneOf(d, key).items, Accepted(limits, d, ops[1..], key)); }
        delivered + (Delivered(limits, d, ops[1..], key) + LaneOf(Run(limits, d, ops[1..]), key).items);
        { Associate(delivered, Delivered(limits, d, ops[1..], key), LaneOf(Run(limits, d, ops[1..]), key).items); }
        Delivered(limits, c, ops, key) + LaneOf(Run(limits, c, ops), key).items;
      }
    }
  }

  // ---------- fairness ----------

  function Pops(ops: seq<Op>): nat {
    if ops == [] then 0 else (if ops[0].PopOp? then 1 else 0) + Pops(ops[1..])
  }

  /**
   Whatever is queued meanwhile, the next `p` pops serve exactly the first `p` peers of the rotation, so the peer
   at index `p` is at the front, with its own next datagram, after exactly `p` pops.
   */
  lemma {:induction false} ServedInTurn(limits: Limits, c: Class, ops: seq<Op>, p: nat)
    requires ClassOk(limits, c) && p < |c.rotation| && Pops(ops) == p
    ensures var d := Run(limits, c, ops);
      && ClassOk(limits, d) && d.rotation != [] && d.rotation[0] == c.rotation[p]
      && Delivered(limits, c, ops, c.rotation[p]) == []
      && LaneOf(c, c.rotation[p]).items + Accepted(limits, c, ops, c.rotation[p]) == LaneOf(d, c.rotation[p]).items
      && Pop(d).1 == Some((c.rotation[p], LaneOf(c, c.rotation[p]).items[0]))
    decreases |ops|
  {
    var key := c.rotation[p];
    assert key in c.lanes && LaneOk(limits, c.lanes[key]);
    RunKeepsOk(limits, c, ops);
    NothingLostOrDuplicated(limits, c, ops, key);
    TurnComes(limits, c, ops, p);
  }

  lemma PopAdvances(limits: Limits, c: Class, p: nat)
    requires ClassOk(limits, c) && 0 < p < |c.rotation|
    ensures var (d, out) := Pop(c);
      p - 1 < |d.rotation| && d.rotation[p - 1] == c.rotation[p] && (out.Some? ==> out.value.0 != c.rotation[p])
  {
  }

  lemma EnqueueKeepsTurn(limits: Limits, c: Class, key: Key, data: Datagram, p: nat)
    requires p < |c.rotation|
    ensures var d := Enqueue(limits, c, key, data); p < |d.rotation| && d.rotation[p] == c.rotation[p]
  {
  }

  lemma {:induction false} TurnComes(limits: Limits, c: Class, ops: seq<Op>, p: nat)
    requires ClassOk(limits, c) && p < |c.rotation| && Pops(ops) == p
    ensures var d := Run(limits, c, ops);
      d.rotation != [] && d.rotation[0] == c.rotation[p] && Delivered(limits, c, ops, c.rotation[p]) == []
    decreases |ops|
  {
    if ops != [] {
      var d := Next(limits, c, ops[0]).0;
      NextKeepsOk(limits, c, ops[0]);
      if ops[0].PopOp? {
        PopAdvances(limits, c, p);
        TurnComes(limits, d, ops[1..], p - 1);
      } else {
        EnqueueKeepsTurn(limits, c, ops[0].key, ops[0].data, p);
        TurnComes(limits, d, ops[1..], p);
      }
    }
  }
}
