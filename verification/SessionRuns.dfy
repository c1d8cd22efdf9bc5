/**
 Whole runs of one session manager. Every critical section is one step with arbitrary arguments, so other
 calls may fall between the three sections of INIT handling in any number and order.
 */
module SessionRuns {
  import opened Basics
  import Frames
  import opened Replay
  import opened SessionLaws
  import opened SessionTable

  datatype Op =
    | Initiate(id: SessionId, peer: NodeId, peerStatic: PublicKey, ephemeral: nat, now: Time, timeout: nat)
    | Admit(init: InitFrame, outerId: SessionId, now: Time)
    | Decide(init: InitFrame, now: Time, ttl: nat)
    | Commit(init: InitFrame, ephemeral: nat, now: Time, grace: int)
    | Respond(id: SessionId, response: Option<ResponseFrame>, now: Time, grace: int)
    | Remove(peer: NodeId)
    | PurgeRetired(now: Time)
    | PurgePending(now: Time)
    | PurgeReplays(now: Time)
    | Send(peer: NodeId, logical: nat)
    | Receive(frame: DataFrame)

  ghost function Next(c: Config, t: Table, op: Op): Table {
    match op
    case Initiate(id, peer, peerStatic, ephemeral, now, timeout) =>
      CreateInit(c, t, id, peer, peerStatic, ephemeral, now, timeout).0
    case Admit(init, outerId, now) => InitAdmit(c, t, init, outerId, now).0
    case Decide(init, now, ttl) => InitDecide(c, t, init, now, ttl).0
    case Commit(init, ephemeral, now, grace) => InitCommit(c, t, init, ephemeral, now, grace).0
    case Respond(id, response, now, grace) => HandleResponse(c, t, id, response, now, grace).0
    case Remove(peer) => RemoveSession(t, peer)
    case PurgeRetired(now) => t.(retired := LiveRetired(t.retired, now))
    case PurgePending(now) => t.(pending := LivePending(t.pending, now))
    case PurgeReplays(now) => t.(replays := LiveReplays(t.replays, now))
    case Send(peer, logical) => Encrypt(c, t, peer, logical).0
    case Receive(frame) => Decrypt(t, frame).0
  }

  ghost function Run(c: Config, t: Table, ops: seq<Op>): Table
    decreases |ops|
  {
    if ops == [] then t else Run(c, Next(c, t, ops[0]), ops[1..])
  }

  lemma NextKeepsInv(c: Config, t: Table, op: Op)
    requires Inv(c.capacity, t)
    ensures Inv(c.capacity, Next(c, t, op))
  {
    match op
    case Initiate(id, peer, peerStatic, ephemeral, now, timeout) =>
      CreateInitKeepsInv(c, t, id, peer, peerStatic, ephemeral, now, timeout);
    case Admit(init, outerId, now) => AdmitKeepsInv(c, t, init, outerId, now);
    case Decide(init, now, ttl) => DecideKeepsInv(c, t, init, now, ttl);
    case Commit(init, ephemeral, now, grace) => InitCommitKeepsInv(c, t, init, ephemeral, now, grace);
    case Respond(id, response, now, grace) => HandleResponseKeepsInv(c, t, id, response, now, grace);
    case Remove(peer) => RemoveKeepsInv(c.capacity, t, peer);
    case PurgeRetired(now) =>
      PurgesOnlyForget(t, now);
      ForgettingKeepsInv(c.capacity, t, Next(c, t, op));
    case PurgePending(now) =>
      PurgesOnlyForget(t, now);
      ForgettingKeepsInv(c.capacity, t, Next(c, t, op));
    case PurgeReplays(now) =>
    case Send(peer, logical) => EncryptKeepsInv(c, t, peer, logical);
    case Receive(frame) => DecryptKeepsInv(c.capacity, t, frame);
  }

  /** In every reachable table the two active maps are inverse, identities are disjoint and capacities hold. */
  lemma {:induction false} EveryTableConsistent(c: Config, t: Table, ops: seq<Op>)
    requires Inv(c.capacity, t)
    ensures Inv(c.capacity, Run(c, t, ops))
    decreases |ops|
  {
    if ops != [] {
      NextKeepsInv(c, t, ops[0]);
      EveryTableConsistent(c, Next(c, t, ops[0]), ops[1..]);
    }
  }

  /** A teardown anywhere in a run leaves no trace of the peer in any of the maps. */
  lemma TeardownIsComplete(c: Config, ops: seq<Op>, peer: NodeId)
    ensures NothingOf(Next(c, Run(c, EMPTY, ops), Remove(peer)), peer)
    ensures SameForOthers(Run(c, EMPTY, ops), Next(c, Run(c, EMPTY, ops), Remove(peer)), peer)
  {
    EveryTableConsistent(c, EMPTY, ops);
    var t := Run(c, EMPTY, ops);
    RemoveLeavesNothing(t, peer);
    RemoveSparesOthers(t, peer);
  }

  // ---------- no frame is delivered twice ----------

  /** The ephemeral this node drew for a session names that session among all it ever had. */
  function Own(s: Session): nat {
    if s.initiatedLocally then s.key.initiatorEphemeral else s.key.responderEphemeral
  }

  /** The ephemeral the peer drew. */
  function Others(s: Session): nat {
    if s.initiatedLocally then s.key.responderEphemeral else s.key.initiatorEphemeral
  }

  /** What stands behind an identity: a handshake still waiting, or a session with its window. */
  datatype Slot = Waiting(own: nat) | Live(own: nat, other: nat, key: SessionKey, window: Window, sendSeq: nat)

  function SlotOfSession(s: Session): Slot {
    Live(Own(s), Others(s), s.key, s.window, s.sendSeq)
  }

  ghost function SlotOf(t: Table, id: SessionId): Option<Slot> {
    if id in t.byId then
      if t.byId[id] in t.sessions then Some(SlotOfSession(t.sessions[t.byId[id]])) else None
    else if id in t.retired then Some(SlotOfSession(t.retired[id].session))
    else if id in t.pending then Some(Waiting(t.pending[id].ephemeral))
    else None
  }

  /** Every slot of `r` other than `id` is an unchanged slot of `t`. */
  ghost predicate KeepsSlotsBut(t: Table, r: Table, id: SessionId) {
    forall other :: other != id && SlotOf(r, other).Some? ==> SlotOf(r, other) == SlotOf(t, other)
  }

  ghost predicate KeepsSlots(t: Table, r: Table) {
    forall id :: SlotOf(r, id).Some? ==> SlotOf(r, id) == SlotOf(t, id)
  }

  lemma ForgettingKeepsSlots(cap: Capacity, t: Table, r: Table)
    requires Inv(cap, t) && OnlyForgets(t, r)
    ensures KeepsSlots(t, r)
  {
  }

  lemma RemoveKeepsSlots(cap: Capacity, t: Table, peer: NodeId)
    requires Inv(cap, t)
    ensures KeepsSlots(t, RemoveSession(t, peer))
  {
    var r := RemoveSession(t, peer);
    forall id | SlotOf(r, id).Some? ensures SlotOf(r, id) == SlotOf(t, id) {
      if id in r.byId {
        assert r.byId[id] == t.byId[id];
      } else if id in r.retired {
        assert id in t.retired && id !in t.byId;
      } else {
        assert id in t.pending;
      }
    }
  }

  /** Sealing a frame advances one send counter and nothing else. */
  lemma SendTouchesOneSlot(c: Config, t: Table, peer: NodeId, logical: nat)
    requires Inv(c.capacity, t) && Encrypt(c, t, peer, logical).1.Some?
    ensures var id := t.sessions[peer].id;
      && KeepsSlotsBut(t, Encrypt(c, t, peer, logical).0, id)
      && SlotOf(t, id) == Some(SlotOfSession(t.sessions[peer]))
      && SlotOf(Encrypt(c, t, peer, logical).0, id)
         == Some(SlotOfSession(t.sessions[peer]).(sendSeq := t.sessions[peer].sendSeq + 1))
  {
  }

  /** Superseding moves a session between maps without touching its key or window. */
  lemma SupersedeKeepsSlots(cap: Capacity, t: Table, peer: NodeId, now: Time, grace: int)
    requires Inv(cap, t) && peer in t.sessions
    ensures KeepsSlots(t, Superseded(t, peer, now, cap.retired, grace))
  {
    var s := t.sessions[peer];
    var r := Superseded(t, peer, now, cap.retired, grace);
    RetireBounded(t.retired, s, now, cap.retired, grace);
    forall id | SlotOf(r, id).Some? ensures SlotOf(r, id) == SlotOf(t, id) {
      if id in r.byId {
        assert id in t.byId && id != s.id && t.byId[id] != peer;
      } else if id == s.id && id in r.retired {
        assert r.retired[id].session == s;
      }
    }
  }

  lemma AddActiveKeepsSlots(t: Table, s: Session)
    requires forall id :: id in t.byId ==> t.byId[id] != s.peer
    ensures var r := t.(sessions := t.sessions[s.peer := s], byId := t.byId[s.id := s.peer]);
      KeepsSlotsBut(t, r, s.id) && SlotOf(r, s.id) == Some(SlotOfSession(s))
  {
  }

  lemma CreateKeepsSlots(
    cap: Capacity, t: Table, peer: NodeId, id: SessionId, key: SessionKey, local: bool, now: Time, grace: int)
    requires Inv(cap, t)
    ensures var r := CreateSession(t, peer, id, key, local, now, cap.retired, grace);
      && KeepsSlotsBut(t, r, id)
      && SlotOf(r, id) == Some(SlotOfSession(NewSession(peer, id, key, local, now)))
  {
    var s := NewSession(peer, id, key, local, now);
    if peer in t.sessions {
      var mid := Superseded(t, peer, now, cap.retired, grace);
      SupersedeKeepsSlots(cap, t, peer, now, grace);
      CreateIsSupersedeThenAdd(t, peer, id, key, local, now, cap.retired, grace);
      AddActiveKeepsSlots(mid, s);
    } else {
      AddActiveKeepsSlots(t, s);
    }
  }

  /** One accepted frame: which session instance took it, and its sequence number. */
  datatype Delivery = Delivery(own: nat, seqNo: WireSeq)

  /** One sealed frame: whose send key, and the 64-bit counter its nonce was made from. */
  datatype Sealing = Sealing(own: nat, counter: nat)

  /** A node with the ephemerals it has drawn and received, the numbers it has taken and the frames it has sealed so far. */
  datatype Node = Node(table: Table, drawn: set<nat>, received: set<nat>, log: seq<Delivery>, sealed: seq<Sealing>)

  ghost function Seen(log: seq<Delivery>, own: nat): set<WireSeq> {
    set d | d in log && d.own == own :: d.seqNo
  }

  /** Randomness works: an ephemeral is never drawn twice. */
  ghost predicate DrawsFresh(n: Node, op: Op) {
    (op.Initiate? || op.Commit?) ==> op.ephemeral !in n.drawn
  }

  /** The ephemerals of others that an operation works with. */
  function Presented(op: Op): set<nat> {
    match op
    case Commit(init, _, _, _) => {init.ephemeral}
    case Respond(_, response, _, _) => if response.Some? then {response.value.ephemeral} else {}
    case _ => {}
  }

  ghost function NextNode(c: Config, n: Node, op: Op): Node {
    Node(
      Next(c, n.table, op),
      if op.Initiate? || op.Commit? then n.drawn + {op.ephemeral} else n.drawn,
      n.received + Presented(op),
      if op.Receive? && Takes(n.table, op.frame)
      then n.log + [Delivery(Own(FindById(n.table, op.frame.id).value), op.frame.seqNo)] else n.log,
      if op.Send? && Encrypt(c, n.table, op.peer, op.logical).1.Some?
      then n.sealed + [Sealing(Own(n.table.sessions[op.peer]), n.table.sessions[op.peer].sendSeq)] else n.sealed)
  }

  ghost predicate Honest(c: Config, n: Node, ops: seq<Op>)
    decreases |ops|
  {
    ops == [] || (DrawsFresh(n, ops[0]) && Honest(c, NextNode(c, n, ops[0]), ops[1..]))
  }

  ghost function RunNode(c: Config, n: Node, ops: seq<Op>): Node
    decreases |ops|
  {
    if ops == [] then n else RunNode(c, NextNode(c, n, ops[0]), ops[1..])
  }

  /** A slot agrees with the logs: a waiting one was never used, a live one's window and counter stand for its use. */
  ghost predicate Agrees(slot: Slot, n: Node) {
    && slot.own in n.drawn
    && match slot
       case Waiting(own) => Seen(n.log, own) == {} && forall e :: e in n.sealed ==> e.own != own
       case Live(own, other, _, window, sendSeq) =>
         && other in n.received && Refines(window, Seen(n.log, own))
         && forall e :: e in n.sealed && e.own == own ==> e.counter < sendSeq
  }

  ghost predicate Tracked(n: Node) {
    && (forall id :: SlotOf(n.table, id).Some? ==> Agrees(SlotOf(n.table, id).value, n))
    && (forall a, b :: a != b && SlotOf(n.table, a).Some? && SlotOf(n.table, b).Some? ==>
          SlotOf(n.table, a).value.own != SlotOf(n.table, b).value.own)
    && (forall d :: d in n.log ==> d.own in n.drawn)
    && (forall e :: e in n.sealed ==> e.own in n.drawn)
    && NoRepeats(n.log) && NoRepeats(n.sealed)
  }

  lemma KeptSlotsStayTracked(n: Node, r: Table, drawn: set<nat>, received: set<nat>)
    requires Tracked(n) && KeepsSlots(n.table, r) && n.drawn <= drawn && n.received <= received
    ensures Tracked(n.(table := r, drawn := drawn, received := received))
  {
  }

  /** One identity gets a new slot with a name of its own; the rest is kept. */
  lemma NewSlotStaysTracked(n: Node, r: Table, drawn: set<nat>, received: set<nat>, id: SessionId)
    requires Tracked(n) && KeepsSlotsBut(n.table, r, id) && n.drawn <= drawn && n.received <= received
    requires SlotOf(r, id).Some? && Agrees(SlotOf(r, id).value, n.(drawn := drawn, received := received))
    requires forall other :: other != id && SlotOf(n.table, other).Some? ==>
      SlotOf(n.table, other).value.own != SlotOf(r, id).value.own
    ensures Tracked(n.(table := r, drawn := drawn, received := received))
  {
  }

  lemma NothingSeenOfUndrawn(n: Node, own: nat)
    requires Tracked(n) && own !in n.drawn
    ensures Seen(n.log, own) == {} && forall e :: e in n.sealed ==> e.own != own
    ensures forall id :: SlotOf(n.table, id).Some? ==> SlotOf(n.table, id).value.own != own
  {
  }

  lemma InitiateSlots(c: Config, t: Table, op: Op)
    requires Inv(c.capacity, t) && op.Initiate?
    ensures var (r, frame) := CreateInit(c, t, op.id, op.peer, op.peerStatic, op.ephemeral, op.now, op.timeout);
      if frame.Some? then KeepsSlotsBut(t, r, op.id) && SlotOf(r, op.id) == Some(Waiting(op.ephemeral)) else KeepsSlots(t, r)
  {
    var purged := t.(pending := LivePending(t.pending, op.now));
    ForgettingKeepsSlots(c.capacity, t, purged);
  }

  lemma InitiateStaysTracked(c: Config, n: Node, op: Op)
    requires Inv(c.capacity, n.table) && Tracked(n) && op.Initiate? && DrawsFresh(n, op)
    ensures Tracked(NextNode(c, n, op))
  {
    var r := Next(c, n.table, op);
    InitiateSlots(c, n.table, op);
    NothingSeenOfUndrawn(n, op.ephemeral);
    if CreateInit(c, n.table, op.id, op.peer, op.peerStatic, op.ephemeral, op.now, op.timeout).1.Some? {
      NewSlotStaysTracked(n, r, n.drawn + {op.ephemeral}, n.received + Presented(op), op.id);
    } else {
      KeptSlotsStayTracked(n, r, n.drawn + {op.ephemeral}, n.received + Presented(op));
    }
  }

  lemma CommitStaysTracked(c: Config, n: Node, op: Op)
    requires Inv(c.capacity, n.table) && Tracked(n) && op.Commit? && DrawsFresh(n, op)
    ensures Tracked(NextNode(c, n, op))
  {
    var r := Next(c, n.table, op);
    var purged := n.table.(pending := LivePending(n.table.pending, op.now));
    ForgettingKeepsSlots(c.capacity, n.table, purged);
    ForgettingKeepsInv(c.capacity, n.table, purged);
    NothingSeenOfUndrawn(n, op.ephemeral);
    if InitCommit(c, n.table, op.init, op.ephemeral, op.now, op.grace).1.Some? {
      var key := SplitKey(op.init.ephemeral, op.ephemeral);
      CreateKeepsSlots(c.capacity, purged, HashPublicKey(op.init.initiator), op.init.id, key, false, op.now, op.grace);
      FreshRefinesNothing();
      NewSlotStaysTracked(n, r, n.drawn + {op.ephemeral}, n.received + Presented(op), op.init.id);
    } else {
      KeptSlotsStayTracked(n, r, n.drawn + {op.ephemeral}, n.received + Presented(op));
    }
  }

  lemma RejectedResponseOnlyForgets(
    c: Config, t: Table, id: SessionId, frame: Option<ResponseFrame>, now: Time, grace: int)
    requires !HandleResponse(c, t, id, frame, now, grace).1
    ensures OnlyForgets(t, HandleResponse(c, t, id, frame, now, grace).0)
  {
  }

  lemma AcceptedSlots(c: Config, t: Table, op: Op, purged: Table, taken: Table)
    requires Inv(c.capacity, t) && op.Respond? && HandleResponse(c, t, op.id, op.response, op.now, op.grace).1
    requires purged == t.(pending := LivePending(t.pending, op.now)) && op.id in purged.pending
    requires taken == purged.(pending := purged.pending - {op.id})
    ensures var p := purged.pending[op.id]; var key := SplitKey(p.ephemeral, op.response.value.ephemeral);
      && KeepsSlotsBut(t, Next(c, t, op), op.id) && SlotOf(t, op.id) == Some(Waiting(p.ephemeral))
      && SlotOf(Next(c, t, op), op.id) == Some(SlotOfSession(NewSession(p.peer, op.id, key, true, op.now)))
  {
    var p := purged.pending[op.id];
    ForgettingKeepsSlots(c.capacity, t, taken);
    ForgettingKeepsInv(c.capacity, t, taken);
    CreateKeepsSlots(c.capacity, taken, p.peer, op.id, SplitKey(p.ephemeral, op.response.value.ephemeral), true, op.now, op.grace);
  }

  lemma AcceptedResponseStaysTracked(c: Config, n: Node, op: Op, purged: Table, taken: Table)
    requires Inv(c.capacity, n.table) && Tracked(n) && op.Respond?
    requires HandleResponse(c, n.table, op.id, op.response, op.now, op.grace).1
    requires purged == n.table.(pending := LivePending(n.table.pending, op.now)) && op.id in purged.pending
    requires taken == purged.(pending := purged.pending - {op.id})
    ensures Tracked(NextNode(c, n, op))
  {
    AcceptedSlots(c, n.table, op, purged, taken);
    FreshRefinesNothing();
    assert Agrees(SlotOf(n.table, op.id).value, n);
    NewSlotStaysTracked(n, Next(c, n.table, op), n.drawn, n.received + Presented(op), op.id);
  }

  lemma RespondStaysTracked(c: Config, n: Node, op: Op)
    requires Inv(c.capacity, n.table) && Tracked(n) && op.Respond?
    ensures Tracked(NextNode(c, n, op))
  {
    if HandleResponse(c, n.table, op.id, op.response, op.now, op.grace).1 {
      var purged := n.table.(pending := LivePending(n.table.pending, op.now));
      AcceptedResponseStaysTracked(c, n, op, purged, purged.(pending := purged.pending - {op.id}));
    } else {
      RejectedResponseOnlyForgets(c, n.table, op.id, op.response, op.now, op.grace);
      ForgettingKeepsSlots(c.capacity, n.table, Next(c, n.table, op));
      KeptSlotsStayTracked(n, Next(c, n.table, op), n.drawn, n.received + Presented(op));
    }
  }

  lemma StoringTouchesOneSlot(cap: Capacity, t: Table, id: SessionId, window: Window)
    requires Inv(cap, t) && FindById(t, id).Some?
    ensures var s := FindById(t, id).value; var r := StoreById(t, id, s.(window := window));
      && SlotOf(t, id) == Some(SlotOfSession(s)) && KeepsSlotsBut(t, r, id)
      && SlotOf(r, id) == Some(SlotOfSession(s).(window := window))
  {
    if id in t.byId {
      assert forall other :: other in t.byId && other != id ==> t.byId[other] != t.byId[id];
    }
  }

  /** Taking a frame's number changes one window and nothing else. */
  lemma ReceiveTouchesOneSlot(cap: Capacity, t: Table, frame: DataFrame)
    requires Inv(cap, t) && Takes(t, frame)
    ensures SlotOf(t, frame.id) == Some(SlotOfSession(FindById(t, frame.id).value))
    ensures KeepsSlotsBut(t, Decrypt(t, frame).0, frame.id)
    ensures var slot := SlotOf(t, frame.id).value;
      && Check(slot.window, frame.seqNo) && slot.key == frame.key
      && slot.window.last < frame.seqNo + REPLAY_BITS
      && SlotOf(Decrypt(t, frame).0, frame.id) == Some(slot.(window := Update(slot.window, frame.seqNo)))
  {
    StoringTouchesOneSlot(cap, t, frame.id, Update(FindById(t, frame.id).value.window, frame.seqNo));
  }

  lemma SeenGrows(log: seq<Delivery>, d: Delivery, own: nat)
    ensures Seen(log + [d], own) == if own == d.own then Seen(log, own) + {d.seqNo} else Seen(log, own)
  {
    var more := log + [d];
    assert forall e :: e in more <==> e in log || e == d;
  }

  lemma AcceptingStaysTracked(n: Node, r: Table, id: SessionId, seqNo: WireSeq)
    requires Tracked(n) && KeepsSlotsBut(n.table, r, id)
    requires SlotOf(n.table, id).Some? && SlotOf(n.table, id).value.Live?
    requires var slot := SlotOf(n.table, id).value;
      && Check(slot.window, seqNo) && slot.window.last < seqNo + REPLAY_BITS
      && SlotOf(r, id) == Some(slot.(window := Update(slot.window, seqNo)))
    ensures Tracked(n.(table := r, log := n.log + [Delivery(SlotOf(n.table, id).value.own, seqNo)]))
  {
    var slot := SlotOf(n.table, id).value;
    var d := Delivery(slot.own, seqNo);
    var after := n.(table := r, log := n.log + [d]);
    assert Agrees(slot, n);
    CheckIsExact(slot.window, Seen(n.log, slot.own), seqNo);
    UpdateRecords(slot.window, Seen(n.log, slot.own), seqNo);
    assert d !in n.log;
    forall other | SlotOf(r, other).Some?
      ensures Agrees(SlotOf(r, other).value, after)
      ensures SlotOf(n.table, other).Some? && SlotOf(r, other).value.own == SlotOf(n.table, other).value.own
    {
      SeenGrows(n.log, d, SlotOf(r, other).value.own);
    }
  }

  lemma SealingStaysTracked(n: Node, r: Table, id: SessionId)
    requires Tracked(n) && KeepsSlotsBut(n.table, r, id)
    requires SlotOf(n.table, id).Some? && SlotOf(n.table, id).value.Live?
    requires var slot := SlotOf(n.table, id).value; SlotOf(r, id) == Some(slot.(sendSeq := slot.sendSeq + 1))
    ensures var slot := SlotOf(n.table, id).value;
      Tracked(n.(table := r, sealed := n.sealed + [Sealing(slot.own, slot.sendSeq)]))
  {
    var slot := SlotOf(n.table, id).value;
    var after := n.(table := r, sealed := n.sealed + [Sealing(slot.own, slot.sendSeq)]);
    assert Agrees(slot, n);
    forall other | SlotOf(r, other).Some?
      ensures Agrees(SlotOf(r, other).value, after)
      ensures SlotOf(n.table, other).Some? && SlotOf(r, other).value.own == SlotOf(n.table, other).value.own
    {
      assert other != id ==> SlotOf(n.table, other).value.own != slot.own;
    }
  }

  lemma ReceiveStaysTracked(c: Config, n: Node, frame: DataFrame)
    requires Inv(c.capacity, n.table) && Tracked(n) && Takes(n.table, frame)
    ensures Tracked(NextNode(c, n, Receive(frame)))
  {
    ReceiveTouchesOneSlot(c.capacity, n.table, frame);
    AcceptingStaysTracked(n, Decrypt(n.table, frame).0, frame.id, frame.seqNo);
  }

  lemma SendNode(c: Config, n: Node, peer: NodeId, logical: nat)
    requires Encrypt(c, n.table, peer, logical).1.Some?
    ensures var s := n.table.sessions[peer];
      NextNode(c, n, Send(peer, logical)) ==
      n.(table := Encrypt(c, n.table, peer, logical).0, sealed := n.sealed + [Sealing(Own(s), s.sendSeq)])
  {
    assert n.received + Presented(Send(peer, logical)) == n.received;
  }

  lemma SendStaysTracked(c: Config, n: Node, peer: NodeId, logical: nat)
    requires Inv(c.capacity, n.table) && Tracked(n) && Encrypt(c, n.table, peer, logical).1.Some?
    ensures Tracked(NextNode(c, n, Send(peer, logical)))
  {
    SendNode(c, n, peer, logical);
    SendTouchesOneSlot(c, n.table, peer, logical);
    SealingStaysTracked(n, Encrypt(c, n.table, peer, logical).0, n.table.sessions[peer].id);
  }

  /** An operation that only forgets and draws nothing. */
  lemma ForgettingStaysTracked(c: Config, n: Node, op: Op)
    requires Inv(c.capacity, n.table) && Tracked(n) && OnlyForgets(n.table, Next(c, n.table, op))
    requires !op.Initiate? && !op.Commit? && !op.Receive? && !op.Send?
    ensures Tracked(NextNode(c, n, op))
  {
    ForgettingKeepsSlots(c.capacity, n.table, Next(c, n.table, op));
    KeptSlotsStayTracked(n, Next(c, n.table, op), n.drawn, n.received + Presented(op));
  }

  lemma PurgeStaysTracked(c: Config, n: Node, op: Op)
    requires Inv(c.capacity, n.table) && Tracked(n) && (op.PurgeRetired? || op.PurgePending? || op.PurgeReplays?)
    ensures Tracked(NextNode(c, n, op))
  {
    PurgesOnlyForget(n.table, op.now);
    ForgettingStaysTracked(c, n, op);
  }

  lemma RemoveStaysTracked(c: Config, n: Node, peer: NodeId)
    requires Inv(c.capacity, n.table) && Tracked(n)
    ensures Tracked(NextNode(c, n, Remove(peer)))
  {
    RemoveKeepsSlots(c.capacity, n.table, peer);
    KeptSlotsStayTracked(n, RemoveSession(n.table, peer), n.drawn, n.received + Presented(Remove(peer)));
  }

  /** A call that is refused changes nothing but the ephemerals seen. */
  lemma RefusedStaysTracked(c: Config, n: Node, op: Op)
    requires Tracked(n) && (op.Receive? || op.Send?)
    requires op.Receive? ==> !Takes(n.table, op.frame)
    requires op.Send? ==> Encrypt(c, n.table, op.peer, op.logical).1.None?
    ensures Tracked(NextNode(c, n, op))
  {
    KeptSlotsStayTracked(n, n.table, n.drawn, n.received + Presented(op));
  }

  lemma NextStaysTracked(c: Config, n: Node, op: Op)
    requires Inv(c.capacity, n.table) && Tracked(n) && DrawsFresh(n, op)
    ensures Tracked(NextNode(c, n, op))
  {
    match op
    case Initiate(_, _, _, _, _, _) => InitiateStaysTracked(c, n, op);
    case Commit(_, _, _, _) => CommitStaysTracked(c, n, op);
    case Respond(_, _, _, _) => RespondStaysTracked(c, n, op);
    case Receive(frame) => if Takes(n.table, frame) { ReceiveStaysTracked(c, n, frame); } else { RefusedStaysTracked(c, n, op); }
    case Remove(peer) => RemoveStaysTracked(c, n, peer);
    case Send(peer, logical) =>
      if Encrypt(c, n.table, peer, logical).1.Some? { SendStaysTracked(c, n, peer, logical); } else { RefusedStaysTracked(c, n, op); }
    case Admit(init, outerId, now) =>
      AdmitOnlyForgets(c, n.table, init, outerId, now);
      ForgettingStaysTracked(c, n, op);
    case Decide(init, now, ttl) =>
      DecideOnlyForgets(c, n.table, init, now, ttl);
      ForgettingStaysTracked(c, n, op);
    case _ => PurgeStaysTracked(c, n, op);
  }

  lemma {:induction false} RunStaysTracked(c: Config, n: Node, ops: seq<Op>)
    requires Inv(c.capacity, n.table) && Tracked(n) && Honest(c, n, ops)
    ensures Inv(c.capacity, RunNode(c, n, ops).table) && Tracked(RunNode(c, n, ops))
    decreases |ops|
  {
    if ops != [] {
      NextKeepsInv(c, n.table, ops[0]);
      NextStaysTracked(c, n, ops[0]);
      RunStaysTracked(c, NextNode(c, n, ops[0]), ops[1..]);
    }
  }

  const START := Node(EMPTY, {}, {}, [], [])

  /** Over any run, rekeys and evictions included, no session instance takes the same sequence number twice. */
  lemma NoFrameDeliveredTwice(c: Config, ops: seq<Op>)
    requires Honest(c, START, ops)
    ensures NoRepeats(RunNode(c, START, ops).log)
  {
    RunStaysTracked(c, START, ops);
  }

  /** Over any run no send key seals two frames with the same nonce. */
  lemma NoNonceUsedTwice(c: Config, ops: seq<Op>)
    requires Honest(c, START, ops)
    ensures NoRepeats(RunNode(c, START, ops).sealed)
  {
    RunStaysTracked(c, START, ops);
  }

  /** The session has not taken this number and has not moved 2048 past it. */
  ghost predicate StillOpen(n: Node, s: Session, seqNo: WireSeq) {
    seqNo !in Seen(n.log, Own(s)) && forall seen :: seen in Seen(n.log, Own(s)) ==> seqNo > seen - 2048
  }

  /**
   After any run a frame is accepted exactly when its payload is padded as the format says and some session the node
   holds, active or retired, has its identity and key, is the other end of it, and still has its number open.
   */
  lemma AcceptanceIsExact(c: Config, ops: seq<Op>, frame: DataFrame)
    requires Honest(c, START, ops)
    ensures var n := RunNode(c, START, ops);
      Decrypt(n.table, frame).1 <==>
        && Padded(frame.payload)
        && exists s :: Holds(n.table, s) && s.id == frame.id && frame.key == s.key && frame.byInitiator != s.initiatedLocally
             && StillOpen(n, s, frame.seqNo)
  {
    var n := RunNode(c, START, ops);
    RunStaysTracked(c, START, ops);
    TrackedAcceptance(c.capacity, n, frame);
    Frames.PaddingExactly(frame.payload);
  }

  lemma TrackedAcceptance(cap: Capacity, n: Node, frame: DataFrame)
    requires Inv(cap, n.table) && Tracked(n)
    ensures Takes(n.table, frame) <==>
      && Frames.Readable(frame.payload)
      && exists s :: Holds(n.table, s) && s.id == frame.id && frame.key == s.key && frame.byInitiator != s.initiatedLocally
           && StillOpen(n, s, frame.seqNo)
  {
    forall s | Holds(n.table, s) && s.id == frame.id
      ensures FindById(n.table, frame.id) == Some(s) && (Check(s.window, frame.seqNo) <==> StillOpen(n, s, frame.seqNo))
    {
      FoundIsHeld(cap, n.table, frame.id, s);
      OpenIsChecked(cap, n, s, frame.seqNo);
    }
    if FindById(n.table, frame.id).Some? {
      FoundIsHeld(cap, n.table, frame.id, FindById(n.table, frame.id).value);
    }
  }

  lemma OpenIsChecked(cap: Capacity, n: Node, s: Session, seqNo: WireSeq)
    requires Inv(cap, n.table) && Tracked(n) && FindById(n.table, s.id) == Some(s)
    ensures Check(s.window, seqNo) <==> StillOpen(n, s, seqNo)
  {
    FoundAgrees(cap, n, s.id);
    CheckIsExact(s.window, Seen(n.log, Own(s)), seqNo);
  }

  lemma FoundAgrees(cap: Capacity, n: Node, id: SessionId)
    requires Inv(cap, n.table) && Tracked(n) && FindById(n.table, id).Some?
    ensures Agrees(SlotOfSession(FindById(n.table, id).value), n)
  {
    assert SlotOf(n.table, id) == Some(SlotOfSession(FindById(n.table, id).value));
  }

  lemma {:induction false} RunOnlyDraws(c: Config, n: Node, ops: seq<Op>)
    ensures n.drawn <= RunNode(c, n, ops).drawn && n.received <= RunNode(c, n, ops).received
    decreases |ops|
  {
    if ops != [] {
      RunOnlyDraws(c, NextNode(c, n, ops[0]), ops[1..]);
    }
  }

  /**
   No run ever takes a frame that the node sealed itself, in this session or any other, as long as nobody else
   presents an ephemeral that the node drew.
   */
  lemma ReflectionRefused(c: Config, ops: seq<Op>, peer: NodeId, logical: nat, later: seq<Op>)
    requires Honest(c, START, ops) && Honest(c, RunNode(c, START, ops), later)
    requires var end := RunNode(c, RunNode(c, START, ops), later); end.drawn !! end.received
    requires Encrypt(c, RunNode(c, START, ops).table, peer, logical).1.Some?
    ensures var n := RunNode(c, START, ops);
      !Takes(RunNode(c, n, later).table, Encrypt(c, n.table, peer, logical).1.value)
  {
    var n := RunNode(c, START, ops);
    RunStaysTracked(c, START, ops);
    RunStaysTracked(c, n, later);
    RunOnlyDraws(c, n, later);
    SealedWithOwn(c, n, peer, logical);
    OwnFrameRefused(c.capacity, RunNode(c, n, later), Encrypt(c, n.table, peer, logical).1.value);
  }

  /** The ephemeral drawn by the end that sealed a frame. */
  function Sealer(frame: DataFrame): nat {
    if frame.byInitiator then frame.key.initiatorEphemeral else frame.key.responderEphemeral
  }

  lemma SealedWithOwn(c: Config, n: Node, peer: NodeId, logical: nat)
    requires Inv(c.capacity, n.table) && Tracked(n) && Encrypt(c, n.table, peer, logical).1.Some?
    ensures Sealer(Encrypt(c, n.table, peer, logical).1.value) in n.drawn
  {
    FoundAgrees(c.capacity, n, n.table.sessions[peer].id);
  }

  lemma OwnFrameRefused(cap: Capacity, n: Node, frame: DataFrame)
    requires Inv(cap, n.table) && Tracked(n) && Sealer(frame) in n.drawn && n.drawn !! n.received
    ensures !Takes(n.table, frame)
  {
    if FindById(n.table, frame.id).Some? {
      FoundAgrees(cap, n, frame.id);
    }
  }
}
