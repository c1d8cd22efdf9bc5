/** The bounded send queue: reserved control capacity, control served first, peers in rotation within each class. */
module SendQueue {
  import opened Basics
  import opened SendQueueClass

  datatype Priority = Control | Data

  datatype PeerQueue = PeerQueue(control: Lane, data: Lane)

  const NO_QUEUE := PeerQueue(EMPTY_LANE, EMPTY_LANE)

  function Pick(q: PeerQueue, p: Priority): Lane {
    if p.Control? then q.control else q.data
  }

  function Replace(q: PeerQueue, p: Priority, lane: Lane): PeerQueue {
    if p.Control? then q.(control := lane) else q.(data := lane)
  }

  ghost function Lanes(peers: map<Key, PeerQueue>, p: Priority): map<Key, Lane> {
    map k | k in peers && Pick(peers[k], p).items != [] :: Pick(peers[k], p)
  }

  predicate ValidLimits(l: Limits) {
    l.itemsPerPeer > 0 && l.bytesPerPeer > 0 && l.items > 0 && l.bytes > 0
  }

  // ---------- whole-queue runs seen by one class ----------

  datatype Call = EnqueueCall(key: Key, data: Datagram, priority: Priority) | PopCall

  datatype Queues = Queues(control: Class, data: Class)

  function ClassOf(q: Queues, p: Priority): Class {
    if p.Control? then q.control else q.data
  }

  function LimitsOf(control: Limits, data: Limits, p: Priority): Limits {
    if p.Control? then control else data
  }

  /** What a call means to one class: control is popped whenever it has anything. */
  function Seen(q: Queues, call: Call, p: Priority): seq<Op> {
    match call
    case EnqueueCall(key, data, priority) => if priority == p then [EnqueueOp(key, data)] else []
    case PopCall => if p.Control? <==> q.control.rotation != [] then [PopOp] else []
  }

  function NextQueues(control: Limits, data: Limits, q: Queues, call: Call): Queues {
    match call
    case EnqueueCall(key, bytes, priority) =>
      if priority.Control? then q.(control := Enqueue(control, q.control, key, bytes))
      else q.(data := Enqueue(data, q.data, key, bytes))
    case PopCall =>
      if q.control.rotation != [] then q.(control := Pop(q.control).0)
      else if q.data.rotation != [] then q.(data := Pop(q.data).0)
      else q
  }

  function RunQueues(control: Limits, data: Limits, q: Queues, calls: seq<Call>): Queues
    decreases |calls|
  {
    if calls == [] then q else RunQueues(control, data, NextQueues(control, data, q, calls[0]), calls[1..])
  }

  function AllSeen(control: Limits, data: Limits, q: Queues, calls: seq<Call>, p: Priority): seq<Op>
    decreases |calls|
  {
    if calls == [] then []
    else Seen(q, calls[0], p) + AllSeen(control, data, NextQueues(control, data, q, calls[0]), calls[1..], p)
  }

  /** Each class of a run of the whole queue behaves as if it were alone. */
  lemma {:induction false} ClassesAreIndependent(control: Limits, data: Limits, q: Queues, calls: seq<Call>, p: Priority)
    ensures ClassOf(RunQueues(control, data, q, calls), p) ==
            Run(LimitsOf(control, data, p), ClassOf(q, p), AllSeen(control, data, q, calls, p))
    decreases |calls|
  {
    if calls != [] {
      var next := NextQueues(control, data, q, calls[0]);
      ClassesAreIndependent(control, data, next, calls[1..], p);
      SeenFirst(Seen(q, calls[0], p), AllSeen(control, data, next, calls[1..], p));
    }
  }

  // ---------- what the whole queue accepts and delivers ----------

  /** The class that a pop is served from. */
  function ServedClass(q: Queues): Priority {
    if q.control.rotation != [] then Control else Data
  }

  function Popped(q: Queues): Option<(Key, Datagram)> {
    var c := ClassOf(q, ServedClass(q));
    if c.rotation == [] then None else Pop(c).1
  }

  /** The datagrams accepted for one peer and class along the calls, in order. */
  function AcceptedBy(control: Limits, data: Limits, q: Queues, calls: seq<Call>, key: Key, p: Priority): seq<Datagram>
    decreases |calls|
  {
    if calls == [] then []
    else
      var call := calls[0];
      (if call.EnqueueCall? && call.key == key && call.priority == p
          && Admit(LimitsOf(control, data, p), ClassOf(q, p), key, call.data).Queued? then [call.data] else [])
      + AcceptedBy(control, data, NextQueues(control, data, q, call), calls[1..], key, p)
  }

  /** The datagrams of one class popped for one peer along the calls, in order. */
  function DeliveredBy(control: Limits, data: Limits, q: Queues, calls: seq<Call>, key: Key, p: Priority): seq<Datagram>
    decreases |calls|
  {
    if calls == [] then []
    else
      var call, out := calls[0], Popped(q);
      (if call.PopCall? && ServedClass(q) == p && out.Some? && out.value.0 == key then [out.value.1] else [])
      + DeliveredBy(control, data, NextQueues(control, data, q, call), calls[1..], key, p)
  }

  lemma {:induction false} AcceptedSeen(control: Limits, data: Limits, q: Queues, calls: seq<Call>, key: Key, p: Priority)
    ensures AcceptedBy(control, data, q, calls, key, p) ==
            Accepted(LimitsOf(control, data, p), ClassOf(q, p), AllSeen(control, data, q, calls, p), key)
    decreases |calls|
  {
    if calls != [] {
      var next := NextQueues(control, data, q, calls[0]);
      AcceptedSeen(control, data, next, calls[1..], key, p);
      SeenFirst(Seen(q, calls[0], p), AllSeen(control, data, next, calls[1..], p));
    }
  }

  lemma {:induction false} DeliveredSeen(control: Limits, data: Limits, q: Queues, calls: seq<Call>, key: Key, p: Priority)
    ensures DeliveredBy(control, data, q, calls, key, p) ==
            Delivered(LimitsOf(control, data, p), ClassOf(q, p), AllSeen(control, data, q, calls, p), key)
    decreases |calls|
  {
    if calls != [] {
      var next := NextQueues(control, data, q, calls[0]);
      DeliveredSeen(control, data, next, calls[1..], key, p);
      SeenFirst(Seen(q, calls[0], p), AllSeen(control, data, next, calls[1..], p));
    }
  }

  lemma SeenFirst(seen: seq<Op>, rest: seq<Op>)
    requires |seen| <= 1
    ensures seen == [] ==> seen + rest == rest
    ensures seen != [] ==> (seen + rest)[0] == seen[0] && (seen + rest)[1..] == rest
  {
  }

  /** Per peer and class, what was queued and accepted is what was popped and what is still queued, in the same order. */
  lemma QueueConserves(control: Limits, data: Limits, q: Queues, calls: seq<Call>, key: Key, p: Priority)
    requires ClassOk(LimitsOf(control, data, p), ClassOf(q, p))
    ensures LaneOf(ClassOf(q, p), key).items + AcceptedBy(control, data, q, calls, key, p) ==
            DeliveredBy(control, data, q, calls, key, p) + LaneOf(ClassOf(RunQueues(control, data, q, calls), p), key).items
  {
    AcceptedSeen(control, data, q, calls, key, p);
    DeliveredSeen(control, data, q, calls, key, p);
    ClassesAreIndependent(control, data, q, calls, p);
    NothingLostOrDuplicated(LimitsOf(control, data, p), ClassOf(q, p), AllSeen(control, data, q, calls, p), key);
  }

  function PopCalls(calls: seq<Call>): nat {
    if calls == [] then 0 else (if calls[0].PopCall? then 1 else 0) + PopCalls(calls[1..])
  }

  /** While control has peers waiting, every pop is served from it. */
  lemma {:induction false} ControlTakesPops(control: Limits, data: Limits, q: Queues, calls: seq<Call>)
    requires PopCalls(calls) <= |q.control.rotation|
    ensures Pops(AllSeen(control, data, q, calls, Control)) == PopCalls(calls)
    decreases |calls|
  {
    if calls != [] {
      var next := NextQueues(control, data, q, calls[0]);
      ControlTakesPops(control, data, next, calls[1..]);
      SeenFirst(Seen(q, calls[0], Control), AllSeen(control, data, next, calls[1..], Control));
    }
  }

  /** The control peer at index `k` gets the pop after exactly `k` pops of the queue, whatever is queued meanwhile. */
  lemma ControlInTurn(control: Limits, data: Limits, q: Queues, calls: seq<Call>, k: nat)
    requires ClassOk(control, q.control) && k < |q.control.rotation| && PopCalls(calls) == k
    ensures var key := q.control.rotation[k];
      LaneOf(q.control, key).items != [] && Popped(RunQueues(control, data, q, calls)) == Some((key, LaneOf(q.control, key).items[0]))
  {
    ControlTakesPops(control, data, q, calls);
    ClassesAreIndependent(control, data, q, calls, Control);
    assert q.control.rotation[k] in q.control.lanes && LaneOk(control, q.control.lanes[q.control.rotation[k]]);
    ServedInTurn(control, q.control, AllSeen(control, data, q, calls, Control), k);
  }

  /** The data peer at index `k` gets the first pop that control leaves to data after exactly `k` others. */
  lemma DataInTurn(control: Limits, data: Limits, q: Queues, calls: seq<Call>, k: nat)
    requires ClassOk(data, q.data) && k < |q.data.rotation| && Pops(AllSeen(control, data, q, calls, Data)) == k
    requires RunQueues(control, data, q, calls).control.rotation == []
    ensures var key := q.data.rotation[k];
      LaneOf(q.data, key).items != [] && Popped(RunQueues(control, data, q, calls)) == Some((key, LaneOf(q.data, key).items[0]))
  {
    ClassesAreIndependent(control, data, q, calls, Data);
    assert q.data.rotation[k] in q.data.lanes && LaneOk(data, q.data.lanes[q.data.rotation[k]]);
    ServedInTurn(data, q.data, AllSeen(control, data, q, calls, Data), k);
  }

  // ---------- the queue object ----------

  class BoundedSendQueue {
    const controlLimits: Limits
    const dataLimits: Limits
    var peers: map<Key, PeerQueue>
    var activeControl: seq<Key>
    var activeData: seq<Key>
    var controlItems: nat
    var controlBytes: nat
    var dataItems: nat
    var dataBytes: nat

    ghost function View(): Queues
      reads this
    {
      Queues(Class(Lanes(peers, Control), activeControl, controlItems, controlBytes),
             Class(Lanes(peers, Data), activeData, dataItems, dataBytes))
    }

    /** Lane byte counts are real, and a peer with nothing queued is forgotten. */
    ghost predicate Valid()
      reads this
    {
      forall k :: k in peers ==> Kept(peers[k])
    }

    constructor (control: Limits, data: Limits)
      ensures Valid() && View() == Queues(EMPTY_CLASS, EMPTY_CLASS)
      ensures controlLimits == control && dataLimits == data
    {
      controlLimits, dataLimits := control, data;
      peers, activeControl, activeData := map[], [], [];
      controlItems, controlBytes, dataItems, dataBytes := 0, 0, 0, 0;
    }

    method EnqueueDatagram(key: Key, data: Datagram, p: Priority) returns (r: Result)
      requires Valid()
      modifies this
      ensures Valid()
      ensures !ValidLimits(controlLimits) || !ValidLimits(dataLimits) ==> r == Invalid && View() == old(View())
      ensures ValidLimits(controlLimits) && ValidLimits(dataLimits) ==>
        && r == Admit(LimitsOf(controlLimits, dataLimits, p), ClassOf(old(View()), p), key, data)
        && View() == NextQueues(controlLimits, dataLimits, old(View()), EnqueueCall(key, data, p))
    {
      if !ValidLimits(controlLimits) || !ValidLimits(dataLimits) {
        return Invalid;
      }
      r := CheckLimits(key, data, p);
      if r.Queued? {
        Append(key, data, p);
      }
    }

    method CheckLimits(key: Key, data: Datagram, p: Priority) returns (r: Result)
      requires Valid()
      ensures r == Admit(LimitsOf(controlLimits, dataLimits, p), ClassOf(View(), p), key, data)
    {
      var limits := LimitsOf(controlLimits, dataLimits, p);
      var items := if p.Control? then controlItems else dataItems;
      var bytes := if p.Control? then controlBytes else dataBytes;
      var lane := if key in peers then Pick(peers[key], p) else EMPTY_LANE;
      assert |lane.items| == |LaneOf(ClassOf(View(), p), key).items|;
      if |lane.items| >= limits.itemsPerPeer {
        return PerPeerItemLimit;
      }
      if |data| > limits.bytesPerPeer - lane.bytes {
        return PerPeerByteLimit;
      }
      if items >= limits.items {
        return GlobalItemLimit;
      }
      if |data| > limits.bytes - bytes {
        return GlobalByteLimit;
      }
      return Queued;
    }

    method Append(key: Key, data: Datagram, p: Priority)
      requires Valid() && Admit(LimitsOf(controlLimits, dataLimits, p), ClassOf(View(), p), key, data).Queued?
      modifies this
      ensures Valid() && View() == NextQueues(controlLimits, dataLimits, old(View()), EnqueueCall(key, data, p))
    {
      var queue := if key in peers then peers[key] else NO_QUEUE;
      LaneSeen(peers, key, queue, p);
      EnqueuedClass(peers, key, queue, p, data, LimitsOf(controlLimits, dataLimits, p), ClassOf(View(), p));
      KeptAfterEnqueue(queue, p, data);
      if Pick(queue, p).items == [] {
        SetActive(p, (if p.Control? then activeControl else activeData) + [key]);
      }
      StoreAndCount(key, Replace(queue, p, Grown(Pick(queue, p), data)), |data|, p);
    }

    method StoreAndCount(key: Key, queue: PeerQueue, size: nat, p: Priority)
      modifies this`peers, this`controlItems, this`controlBytes, this`dataItems, this`dataBytes
      ensures peers == old(peers)[key := queue]
      ensures p.Control? ==> unchanged(`dataItems, `dataBytes)
      ensures p.Control? ==> controlItems == old(controlItems) + 1 && controlBytes == old(controlBytes) + size
      ensures p.Data? ==> unchanged(`controlItems, `controlBytes)
      ensures p.Data? ==> dataItems == old(dataItems) + 1 && dataBytes == old(dataBytes) + size
    {
      peers := peers[key := queue];
      if p.Control? {
        controlItems, controlBytes := controlItems + 1, controlBytes + size;
      } else {
        dataItems, dataBytes := dataItems + 1, dataBytes + size;
      }
    }

    method PopDatagram() returns (r: Option<(Key, Datagram)>)
      requires Valid()
      modifies this
      ensures Valid() && View() == NextQueues(controlLimits, dataLimits, old(View()), PopCall)
      ensures r == Popped(old(View()))
    {
      if activeControl != [] {
        r := PopFrom(Control);
      } else if activeData != [] {
        r := PopFrom(Data);
      } else {
        r := None;
      }
    }

    method PopFrom(p: Priority) returns (r: Option<(Key, Datagram)>)
      requires Valid() && (if p.Control? then activeControl else activeData) != []
      modifies this
      ensures Valid() && r == Pop(ClassOf(old(View()), p)).1
      ensures View() == if p.Control? then old(View()).(control := Pop(old(View()).control).0)
                        else old(View()).(data := Pop(old(View()).data).0)
    {
      var active := if p.Control? then activeControl else activeData;
      var key := active[0];
      active := active[1..];
      var queue := if key in peers then peers[key] else NO_QUEUE;
      var lane := Pick(queue, p);
      assert lane == LaneOf(ClassOf(View(), p), key);
      if lane.items == [] {
        SetActive(p, active);
        return None;
      }
      var data := lane.items[0];
      var left := Lane(lane.items[1..], Minus(lane.bytes, |data|));
      LanesAfterPop(peers, key, queue, p, left);
      if left.items != [] {
        active := active + [key];
      }
      SetActive(p, active);
      if p.Control? {
        controlItems, controlBytes := Minus(controlItems, 1), Minus(controlBytes, |data|);
      } else {
        dataItems, dataBytes := Minus(dataItems, 1), Minus(dataBytes, |data|);
      }
      var rest := Replace(queue, p, left);
      if rest.control.items == [] && rest.data.items == [] {
        peers := peers - {key};
      } else {
        peers := peers[key := rest];
      }
      return Some((key, data));
    }

    method SetActive(p: Priority, active: seq<Key>)
      modifies this`activeControl, this`activeData
      ensures activeControl == (if p.Control? then active else old(activeControl))
      ensures activeData == (if p.Control? then old(activeData) else active)
    {
      if p.Control? {
        activeControl := active;
      } else {
        activeData := active;
      }
    }
  }

  ghost predicate Kept(q: PeerQueue) {
    && q.control.bytes == Size(q.control.items) && q.data.bytes == Size(q.data.items)
    && (q.control.items != [] || q.data.items != [])
  }

  function Grown(lane: Lane, data: Datagram): Lane {
    Lane(lane.items + [data], lane.bytes + |data|)
  }

  function Other(p: Priority): Priority {
    if p.Control? then Data else Control
  }

  lemma LaneSeen(peers: map<Key, PeerQueue>, key: Key, queue: PeerQueue, p: Priority)
    requires queue == (if key in peers then peers[key] else NO_QUEUE)
    requires key in peers ==> Kept(peers[key])
    ensures var lanes := Lanes(peers, p); Pick(queue, p) == if key in lanes then lanes[key] else EMPTY_LANE
  {
  }

  lemma KeptAfterEnqueue(queue: PeerQueue, p: Priority, data: Datagram)
    requires queue == NO_QUEUE || Kept(queue)
    ensures Kept(Replace(queue, p, Grown(Pick(queue, p), data)))
  {
    SizeAppend(Pick(queue, p).items, data);
  }

  lemma LanesAfterEnqueue(peers: map<Key, PeerQueue>, key: Key, queue: PeerQueue, p: Priority, more: Lane)
    requires queue == (if key in peers then peers[key] else NO_QUEUE) && more.items != []
    ensures var after := peers[key := Replace(queue, p, more)];
      Lanes(after, p) == Lanes(peers, p)[key := more] && Lanes(after, Other(p)) == Lanes(peers, Other(p))
  {
  }

  /** The class after its lane has grown, and the other class's lanes untouched. */
  lemma EnqueuedClass(peers: map<Key, PeerQueue>, key: Key, queue: PeerQueue, p: Priority, data: Datagram, limits: Limits, c: Class)
    requires queue == (if key in peers then peers[key] else NO_QUEUE) && (key in peers ==> Kept(peers[key]))
    requires c.lanes == Lanes(peers, p) && Admit(limits, c, key, data).Queued?
    ensures var lane := Pick(queue, p);
      var after := peers[key := Replace(queue, p, Grown(lane, data))];
      && Enqueue(limits, c, key, data) ==
           Class(Lanes(after, p), if lane.items == [] then c.rotation + [key] else c.rotation, c.items + 1, c.bytes + |data|)
      && Lanes(after, Other(p)) == Lanes(peers, Other(p))
  {
    var lane := Pick(queue, p);
    LaneSeen(peers, key, queue, p);
    LanesAfterEnqueue(peers, key, queue, p, Grown(lane, data));
  }

  lemma LanesAfterPop(peers: map<Key, PeerQueue>, key: Key, queue: PeerQueue, p: Priority, left: Lane)
    requires queue == (if key in peers then peers[key] else NO_QUEUE) && key in peers
    ensures var rest := Replace(queue, p, left);
      var after := if rest.control.items == [] && rest.data.items == [] then peers - {key} else peers[key := rest];
      && Lanes(after, p) == (if left.items == [] then Lanes(peers, p) - {key} else Lanes(peers, p)[key := left])
      && Lanes(after, Other(p)) == Lanes(peers, Other(p))
  {
  }
}
