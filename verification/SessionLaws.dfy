/** Which session a frame meets, what the other end makes of it, and when a handshake message is taken. */
module SessionLaws {
  import opened Basics
  import opened Frames
  import opened Replay
  import opened SessionTable

  // ---------- finding a session ----------

  /** An identity finds its active session, or its retired one, and nothing when it has neither. */
  lemma FoundExactly(cap: Capacity, t: Table)
    requires Inv(cap, t)
    ensures forall p :: p in t.sessions ==> FindById(t, t.sessions[p].id) == Some(t.sessions[p])
    ensures forall id :: id in t.retired ==> FindById(t, id) == Some(t.retired[id].session)
    ensures forall id :: (forall p :: p in t.sessions ==> t.sessions[p].id != id) && id !in t.retired ==> FindById(t, id) == None
  {
  }

  /** The node holds this session, active or inside its grace window. */
  ghost predicate Holds(t: Table, s: Session) {
    (exists p :: p in t.sessions && t.sessions[p] == s) || (exists id :: id in t.retired && t.retired[id].session == s)
  }

  lemma FoundIsHeld(cap: Capacity, t: Table, id: SessionId, s: Session)
    requires Inv(cap, t)
    ensures FindById(t, id) == Some(s) <==> Holds(t, s) && s.id == id
  {
    FoundExactly(cap, t);
  }

  /** The payload's length fields and size agree: the bytes and their prefix rounded up to the bucket. */
  predicate Padded(p: Payload) {
    && p.bucket in {32, 64, 128, 256} && p.logical <= 4092
    && p.size % p.bucket == 0 && p.logical + 4 <= p.size < p.logical + 4 + p.bucket
  }

  /** Some session the node holds was sealed for: its identity, its key, its other end, a number its window leaves open. */
  ghost predicate Meant(t: Table, frame: DataFrame) {
    exists s :: Holds(t, s) && s.id == frame.id && frame.key == s.key && frame.byInitiator != s.initiatedLocally && Check(s.window, frame.seqNo)
  }

  /** A frame is accepted exactly when it is padded as the format says and meant for a session the node holds. */
  lemma OpenedExactly(cap: Capacity, t: Table, frame: DataFrame)
    requires Inv(cap, t)
    ensures Decrypt(t, frame).1 <==> Padded(frame.payload) && Meant(t, frame)
  {
    PaddingExactly(frame.payload);
    MeantExactly(cap, t, frame);
  }

  lemma MeantExactly(cap: Capacity, t: Table, frame: DataFrame)
    requires Inv(cap, t)
    ensures Meant(t, frame) <==> FindById(t, frame.id).Some? && Unseals(FindById(t, frame.id).value, frame)
  {
    forall s | Holds(t, s) && s.id == frame.id ensures FindById(t, frame.id) == Some(s) {
      FoundIsHeld(cap, t, frame.id, s);
    }
    if FindById(t, frame.id).Some? {
      FoundIsHeld(cap, t, frame.id, FindById(t, frame.id).value);
    }
  }

  // ---------- a sealed frame at the other end ----------

  /** The two ends of one session. */
  predicate Ends(s: Session, other: Session) {
    s.id == other.id && s.key == other.key && s.initiatedLocally != other.initiatedLocally
  }

  /** What a node holds it opens. */
  lemma HeldIsOpened(cap: Capacity, u: Table, s: Session, frame: DataFrame)
    requires Inv(cap, u) && Holds(u, s) && frame.id == s.id && Unseals(s, frame) && Readable(frame.payload) && ProperlyPadded(frame.payload)
    ensures Decrypt(u, frame).1
  {
    FoundIsHeld(cap, u, s.id, s);
  }

  /** A sealed frame carries the session's identity, key and direction, and the next number. */
  lemma SealedFrame(c: Config, t: Table, peer: NodeId, logical: nat)
    requires Encrypt(c, t, peer, logical).1.Some? && t.sessions[peer].sendSeq < 0x1_0000_0000
    ensures var s := t.sessions[peer]; var frame := Encrypt(c, t, peer, logical).1.value;
      && frame.id == s.id && frame.key == s.key && frame.byInitiator == s.initiatedLocally && frame.seqNo == s.sendSeq
      && frame.payload.logical == logical && Readable(frame.payload) && ProperlyPadded(frame.payload)
  {
    MadeIsReadable(logical, c.bucket);
  }

  /**
   Whatever one end seals the other end accepts, as long as it holds its end, has not taken that number and has not
   moved 2048 past it, and the sender has not used up the 32-bit numbers.
   */
  lemma SealedIsAccepted(c: Config, t: Table, peer: NodeId, logical: nat, cap: Capacity, u: Table, other: Session, taken: set<WireSeq>)
    requires Encrypt(c, t, peer, logical).1.Some? && t.sessions[peer].sendSeq < 0x1_0000_0000
    requires Inv(cap, u) && Holds(u, other) && Ends(t.sessions[peer], other) && Refines(other.window, taken)
    requires t.sessions[peer].sendSeq !in taken && forall n :: n in taken ==> t.sessions[peer].sendSeq > n - 2048
    ensures Decrypt(u, Encrypt(c, t, peer, logical).1.value).1
  {
    SealedFrame(c, t, peer, logical);
    CheckIsExact(other.window, taken, t.sessions[peer].sendSeq);
    HeldIsOpened(cap, u, other, Encrypt(c, t, peer, logical).1.value);
  }

  /** Sealing is refused exactly when the payload is too large, the bucket unsupported or there is no session. */
  lemma SealsExactly(c: Config, t: Table, peer: NodeId, logical: nat)
    requires peer in t.sessions ==> t.sessions[peer].established
    ensures Encrypt(c, t, peer, logical).1.Some? <==> c.bucket in {32, 64, 128, 256} && logical <= 4092 && peer in t.sessions
    ensures Encrypt(c, t, peer, logical).1.Some? ==>
      Encrypt(c, t, peer, logical).0 == t.(sessions := t.sessions[peer := t.sessions[peer].(sendSeq := t.sessions[peer].sendSeq + 1)])
    ensures Encrypt(c, t, peer, logical).1.None? ==> Encrypt(c, t, peer, logical).0 == t
  {
    FrameMade(logical, c.bucket);
  }

  /** Sealing `sizes` in a row, and opening the frames in order at the other end. */
  ghost function Sealed(c: Config, t: Table, peer: NodeId, sizes: seq<nat>): seq<DataFrame>
    decreases |sizes|
  {
    if sizes == [] then []
    else
      var (r, frame) := Encrypt(c, t, peer, sizes[0]);
      (if frame.Some? then [frame.value] else []) + Sealed(c, r, peer, sizes[1..])
  }

  ghost predicate AllOpened(u: Table, frames: seq<DataFrame>)
    decreases |frames|
  {
    frames == [] || (Decrypt(u, frames[0]).1 && AllOpened(Decrypt(u, frames[0]).0, frames[1..]))
  }

  /** No number from `n` on has been taken. */
  predicate Below(w: Window, n: nat) {
    w.last < n || (w.last == 0 == n && !w.bits[0])
  }

  /** The sender may seal `left` more frames, and the receiver has taken no number from the next one on. */
  ghost predicate InStep(c: Config, t: Table, peer: NodeId, left: nat, cap: Capacity, u: Table, p: NodeId) {
    && Inv(c.capacity, t) && Inv(cap, u) && peer in t.sessions && p in u.sessions && Ends(t.sessions[peer], u.sessions[p])
    && c.bucket in {32, 64, 128, 256} && t.sessions[peer].sendSeq + left <= 0x1_0000_0000
    && Below(u.sessions[p].window, t.sessions[peer].sendSeq)
  }

  lemma SenderMoves(c: Config, t: Table, peer: NodeId, size: nat)
    requires Inv(c.capacity, t) && peer in t.sessions && c.bucket in {32, 64, 128, 256} && size <= 4092
    ensures var (r, frame) := Encrypt(c, t, peer, size);
      frame.Some? && Inv(c.capacity, r) && peer in r.sessions && r.sessions[peer] == t.sessions[peer].(sendSeq := t.sessions[peer].sendSeq + 1)
  {
    SealsExactly(c, t, peer, size);
    EncryptKeepsInv(c, t, peer, size);
  }

  lemma ReceiverMoves(cap: Capacity, u: Table, p: NodeId, frame: DataFrame)
    requires Inv(cap, u) && p in u.sessions && frame.id == u.sessions[p].id && Decrypt(u, frame).1 && Below(u.sessions[p].window, frame.seqNo)
    ensures var r := Decrypt(u, frame).0;
      && Inv(cap, r) && p in r.sessions && r.sessions[p] == u.sessions[p].(window := r.sessions[p].window)
      && Below(r.sessions[p].window, frame.seqNo + 1)
  {
    FoundExactly(cap, u);
    DecryptKeepsInv(cap, u, frame);
  }

  /** Both ends move on by one number. */
  lemma StaysInStep(c: Config, t: Table, r: Table, peer: NodeId, left: nat, cap: Capacity, u: Table, v: Table, p: NodeId)
    requires InStep(c, t, peer, left, cap, u, p) && left > 0
    requires Inv(c.capacity, r) && peer in r.sessions && r.sessions[peer] == t.sessions[peer].(sendSeq := t.sessions[peer].sendSeq + 1)
    requires Inv(cap, v) && p in v.sessions && v.sessions[p] == u.sessions[p].(window := v.sessions[p].window)
    requires Below(v.sessions[p].window, r.sessions[peer].sendSeq)
    ensures InStep(c, r, peer, left - 1, cap, v, p)
  {
  }

  lemma NextIsOpened(c: Config, t: Table, peer: NodeId, size: nat, left: nat, cap: Capacity, u: Table, p: NodeId)
    requires InStep(c, t, peer, left, cap, u, p) && left > 0 && Encrypt(c, t, peer, size).1.Some?
    ensures var frame := Encrypt(c, t, peer, size).1.value;
      Decrypt(u, frame).1 && frame.id == u.sessions[p].id && frame.seqNo == t.sessions[peer].sendSeq
  {
    SealedFrame(c, t, peer, size);
    assert Holds(u, u.sessions[p]);
    HeldIsOpened(cap, u, u.sessions[p], Encrypt(c, t, peer, size).1.value);
  }

  lemma OneMoreFrame(c: Config, t: Table, peer: NodeId, size: nat, left: nat, cap: Capacity, u: Table, p: NodeId)
    returns (r: Table, frame: DataFrame, v: Table)
    requires InStep(c, t, peer, left, cap, u, p) && left > 0 && size <= 4092
    ensures Encrypt(c, t, peer, size) == (r, Some(frame)) && Decrypt(u, frame) == (v, true)
    ensures InStep(c, r, peer, left - 1, cap, v, p)
  {
    SenderMoves(c, t, peer, size);
    NextIsOpened(c, t, peer, size, left, cap, u, p);
    r, frame := Encrypt(c, t, peer, size).0, Encrypt(c, t, peer, size).1.value;
    v := Decrypt(u, frame).0;
    ReceiverMoves(cap, u, p, frame);
    StaysInStep(c, t, r, peer, left, cap, u, v, p);
  }

  lemma OpensInTurn(u: Table, v: Table, frame: DataFrame, rest: seq<DataFrame>)
    requires Decrypt(u, frame) == (v, true) && AllOpened(v, rest)
    ensures AllOpened(u, [frame] + rest)
  {
    HeadAndTail([frame], rest);
  }

  /** A stream of frames delivered in order is accepted whole. */
  lemma {:induction false} StreamIsAccepted(c: Config, t: Table, peer: NodeId, sizes: seq<nat>, cap: Capacity, u: Table, p: NodeId)
    requires InStep(c, t, peer, |sizes|, cap, u, p) && forall i :: 0 <= i < |sizes| ==> sizes[i] <= 4092
    ensures |Sealed(c, t, peer, sizes)| == |sizes| && AllOpened(u, Sealed(c, t, peer, sizes))
    decreases |sizes|
  {
    if sizes != [] {
      var r, frame, v := OneMoreFrame(c, t, peer, sizes[0], |sizes|, cap, u, p);
      StreamIsAccepted(c, r, peer, sizes[1..], cap, v, p);
      OpensInTurn(u, v, frame, Sealed(c, r, peer, sizes[1..]));
    }
  }

  // ---------- handshake messages ----------

  /** The identity is in use: active, retired, or pending and not timed out. */
  predicate InUse(t: Table, id: SessionId, now: Time) {
    id in t.byId || id in t.retired || (id in t.pending && now < t.pending[id].expires)
  }

  /** A handshake starts exactly for a fresh identity and a peer's own key while a pending slot is free. */
  lemma StartsExactly(c: Config, t: Table, id: SessionId, peer: NodeId, peerStatic: PublicKey, ephemeral: nat, now: Time, timeout: nat)
    ensures var (r, frame) := CreateInit(c, t, id, peer, peerStatic, ephemeral, now, timeout);
      && (frame.Some? <==> id != 0 && peerStatic == KeyOf(peer) && !InUse(t, id, now) && |LivePending(t.pending, now)| < c.capacity.pending)
      && (frame.Some? ==>
            && frame.value == InitFrame(id, c.network, c.publicKey, KeyOf(peer), ephemeral)
            && id in r.pending && r.pending[id] == Pending(peer, KeyOf(peer), ephemeral, now + timeout))
      && r.sessions == t.sessions && r.byId == t.byId && r.retired == t.retired && r.replays == t.replays
      && (forall other :: other in t.pending && now < t.pending[other].expires && other != id ==>
            other in r.pending && r.pending[other] == t.pending[other])
  {
  }

  /** An init is admitted exactly for this network, under its own identity, when neither it nor its identity is known. */
  lemma AdmitsExactly(c: Config, t: Table, frame: InitFrame, outerId: SessionId, now: Time)
    ensures InitAdmit(c, t, frame, outerId, now).1 <==>
      && frame.id == outerId && frame.network == c.network && !InUse(t, frame.id, now)
      && !(frame in t.replays && now < t.replays[frame])
  {
  }

  /** A frame noted as a replay is refused by both sections until the note runs out. */
  lemma ReplayIsRefused(c: Config, t: Table, frame: InitFrame, outerId: SessionId, now: Time, ttl: nat)
    requires frame in t.replays && now < t.replays[frame]
    ensures !InitAdmit(c, t, frame, outerId, now).1 && !InitDecide(c, t, frame, now, ttl).1
  {
  }

  /** The decision notes the frame, yields to the lower identity, gives up an own pending handshake, and checks for room. */
  lemma DecidesExactly(c: Config, t: Table, frame: InitFrame, now: Time, ttl: nat)
    ensures var (r, ok) := InitDecide(c, t, frame, now, ttl);
      var peer := HashPublicKey(frame.initiator);
      var waiting := exists id :: id in t.pending && now < t.pending[id].expires && t.pending[id].peer == peer;
      var seen := frame in t.replays && now < t.replays[frame];
      var ours := peer in t.sessions && t.sessions[peer].established && t.sessions[peer].initiatedLocally;
      && (ok <==> frame.responder == c.publicKey && frame.initiator != ZeroKey && !seen
                  && !(c.node < peer && (waiting || ours)) && (peer in t.sessions || |t.sessions| < c.capacity.active))
      && (frame.responder == c.publicKey && frame.initiator != ZeroKey ==>
            frame in r.replays && (!seen ==> r.replays[frame] == now + ttl))
      && r.sessions == t.sessions && r.byId == t.byId && r.retired == t.retired
  {
    var purged := LivePending(t.pending, now);
    var peer := HashPublicKey(frame.initiator);
    var first := FirstPendingFor(purged, peer);
    if first.Some? {
      assert first.value in t.pending && now < t.pending[first.value].expires && t.pending[first.value].peer == peer;
    } else {
      forall id | id in t.pending && now < t.pending[id].expires ensures t.pending[id].peer != peer {
        assert id in purged;
      }
    }
  }

  /** The commit answers exactly when the identity is still free and there is room, and then installs the shared key. */
  lemma CommitsExactly(c: Config, t: Table, frame: InitFrame, ephemeral: nat, now: Time, grace: int)
    ensures var (r, response) := InitCommit(c, t, frame, ephemeral, now, grace);
      var peer := HashPublicKey(frame.initiator);
      && (response.Some? <==> !InUse(t, frame.id, now) && (peer in t.sessions || |t.sessions| < c.capacity.active))
      && (response.Some? ==>
            && response.value == ResponseFrame(frame.id, c.publicKey, frame.ephemeral, ephemeral)
            && r.sessions == t.sessions[peer := Session(frame.id, peer, SplitKey(frame.ephemeral, ephemeral), 0, Fresh(), true, false, now)])
      && (response.None? ==> r.sessions == t.sessions && r.retired == t.retired)
  {
  }

  /** A response is taken exactly when it answers a live pending handshake, does not lose the tie and finds room. */
  lemma ResponseTakenExactly(c: Config, t: Table, id: SessionId, frame: Option<ResponseFrame>, now: Time, grace: int)
    ensures var (r, ok) := HandleResponse(c, t, id, frame, now, grace);
      && (ok <==>
            && id in t.pending && now < t.pending[id].expires && frame.Some? && frame.value.id == id
            && frame.value.initiatorEphemeral == t.pending[id].ephemeral && frame.value.responder == t.pending[id].peerStatic
            && HashPublicKey(frame.value.responder) == t.pending[id].peer
            && var peer := t.pending[id].peer;
               && !(peer in t.sessions && t.sessions[peer].established && !t.sessions[peer].initiatedLocally && peer < c.node)
               && (peer in t.sessions || |t.sessions| < c.capacity.active))
      && (ok ==> var peer := t.pending[id].peer;
            var key := SplitKey(t.pending[id].ephemeral, frame.value.ephemeral);
            r.sessions == t.sessions[peer := Session(id, peer, key, 0, Fresh(), true, true, now)])
      && (!ok ==> r.sessions == t.sessions && r.retired == t.retired)
      && id !in r.pending
  {
  }
}
