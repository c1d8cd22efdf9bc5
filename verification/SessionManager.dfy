/** The session manager as the program keeps it: maps updated in place, one method per critical section. */
module SessionManagers {
  import opened Basics
  import opened Frames
  import Replay
  import opened SessionLaws
  import opened SessionTable

  class SessionManager {
    const config: Config
    var sessions: map<NodeId, Session>
    var sessionToPeer: map<SessionId, NodeId>
    var retired: map<SessionId, Retired>
    var pendingInitiators: map<SessionId, Pending>
    var handshakeReplays: map<InitFrame, Time>
    var retiredGrace: int
    var handshakeTimeout: nat
    var replayTtl: nat

    ghost function View(): Table
      reads this
    {
      Table(sessions, sessionToPeer, retired, pendingInitiators, handshakeReplays)
    }

    ghost predicate Valid()
      reads this
    {
      Inv(config.capacity, View())
    }

    constructor (config: Config)
      ensures Valid() && View() == EMPTY && this.config == config
      ensures retiredGrace == 10000 && handshakeTimeout == 15000 && replayTtl == 120000
    {
      this.config := config;
      sessions, sessionToPeer, retired, pendingInitiators, handshakeReplays := map[], map[], map[], map[], map[];
      retiredGrace, handshakeTimeout, replayTtl := 10000, 15000, 120000;
    }

    method PurgeRetired(now: Time)
      requires Valid()
      modifies this`retired
      ensures Valid() && retired == LiveRetired(old(retired), now)
    {
      PurgeKeepsInv(config.capacity, View(), now);
      PurgeRetiredLocked(now);
    }

    method PurgeRetiredLocked(now: Time)
      modifies this`retired
      ensures retired == LiveRetired(old(retired), now)
    {
      var todo := retired.Keys;
      while todo != {}
        invariant todo <= old(retired).Keys
        invariant forall id :: id in retired <==> id in old(retired) && (id in todo || now < old(retired)[id].expires)
        invariant forall id :: id in retired ==> retired[id] == old(retired)[id]
      {
        var id :| id in todo;
        if retired[id].expires <= now {
          retired := retired - {id};
        }
        todo := todo - {id};
      }
    }

    method PurgeIncompleteHandshakes(now: Time)
      requires Valid()
      modifies this`pendingInitiators
      ensures Valid() && pendingInitiators == LivePending(old(pendingInitiators), now)
    {
      PurgeKeepsInv(config.capacity, View(), now);
      PurgeIncompleteHandshakesLocked(now);
    }

    method PurgeIncompleteHandshakesLocked(now: Time)
      modifies this`pendingInitiators
      ensures pendingInitiators == LivePending(old(pendingInitiators), now)
    {
      var todo := pendingInitiators.Keys;
      while todo != {}
        invariant todo <= old(pendingInitiators).Keys
        invariant forall id :: id in pendingInitiators <==>
          id in old(pendingInitiators) && (id in todo || now < old(pendingInitiators)[id].expires)
        invariant forall id :: id in pendingInitiators ==> pendingInitiators[id] == old(pendingInitiators)[id]
      {
        var id :| id in todo;
        if pendingInitiators[id].expires <= now {
          pendingInitiators := pendingInitiators - {id};
        }
        todo := todo - {id};
      }
    }

    method PurgeHandshakeReplays(now: Time)
      requires Valid()
      modifies this`handshakeReplays
      ensures Valid() && handshakeReplays == LiveReplays(old(handshakeReplays), now)
    {
      PurgeHandshakeReplaysLocked(now);
    }

    method PurgeHandshakeReplaysLocked(now: Time)
      modifies this`handshakeReplays
      ensures handshakeReplays == LiveReplays(old(handshakeReplays), now)
    {
      var todo := handshakeReplays.Keys;
      while todo != {}
        invariant todo <= old(handshakeReplays).Keys
        invariant forall f :: f in handshakeReplays <==>
          f in old(handshakeReplays) && (f in todo || now < old(handshakeReplays)[f])
        invariant forall f :: f in handshakeReplays ==> handshakeReplays[f] == old(handshakeReplays)[f]
      {
        var f :| f in todo;
        if handshakeReplays[f] <= now {
          handshakeReplays := handshakeReplays - {f};
        }
        todo := todo - {f};
      }
    }

    /** The retired entry that expires first, the smaller identity winning ties. */
    method FindVictim() returns (victim: SessionId)
      requires retired != map[]
      ensures IsOldest(retired, victim)
    {
      victim :| victim in retired;
      var todo := retired.Keys - {victim};
      while todo != {}
        invariant todo <= retired.Keys && victim in retired
        invariant forall id :: id in retired && id !in todo ==> RetiresBefore(retired, victim, id)
      {
        var id :| id in todo;
        if !RetiresBefore(retired, victim, id) {
          victim := id;
        }
        todo := todo - {id};
      }
    }

    method RetireSession(s: Session, now: Time)
      modifies this`retired
      ensures retired == Retire(old(retired), s, now, config.capacity.retired, retiredGrace)
    {
      PurgeRetiredLocked(now);
      if config.capacity.retired == 0 {
        return;
      }
      if s.id !in retired && |retired| >= config.capacity.retired {
        var victim := FindVictim();
        assert RetiresBefore(retired, victim, Oldest(retired)) && RetiresBefore(retired, Oldest(retired), victim);
        retired := retired - {victim};
      }
      retired := retired[s.id := Retired(s, now + retiredGrace)];
    }

    method CreateAndInstall(peer: NodeId, id: SessionId, key: SessionKey, local: bool, now: Time)
      modifies this`sessions, this`sessionToPeer, this`retired
      ensures View() == CreateSession(old(View()), peer, id, key, local, now, config.capacity.retired, retiredGrace)
    {
      if peer in sessions && sessions[peer].established {
        RetireSession(sessions[peer], now);
        sessionToPeer := sessionToPeer - {sessions[peer].id};
      }
      sessions := sessions[peer := NewSession(peer, id, key, local, now)];
      sessionToPeer := sessionToPeer[id := peer];
    }

    method RemoveSession(peer: NodeId)
      requires Valid()
      modifies this`sessions, this`sessionToPeer, this`retired, this`pendingInitiators
      ensures Valid()
      ensures View() == SessionTable.RemoveSession(old(View()), peer)
    {
      RemoveKeepsInv(config.capacity, View(), peer);
      RemoveSessionLocked(peer);
    }

    method RemoveSessionLocked(peer: NodeId)
      modifies this`sessions, this`sessionToPeer, this`retired, this`pendingInitiators
      ensures View() == SessionTable.RemoveSession(old(View()), peer)
    {
      if peer in sessions {
        sessionToPeer := sessionToPeer - {sessions[peer].id};
        retired := retired - {sessions[peer].id};
        sessions := sessions - {peer};
      } else {
        assert sessions - {peer} == sessions;
      }
      DropRetiredOf(peer);
      DropPendingOf(peer);
    }

    method DropRetiredOf(peer: NodeId)
      modifies this`retired
      ensures retired == RetiredOfOthers(old(retired), peer)
    {
      var todo := retired.Keys;
      while todo != {}
        invariant todo <= old(retired).Keys
        invariant forall id :: id in retired <==>
          id in old(retired) && (id in todo || old(retired)[id].session.peer != peer)
        invariant forall id :: id in retired ==> retired[id] == old(retired)[id]
      {
        var id :| id in todo;
        if retired[id].session.peer == peer {
          retired := retired - {id};
        }
        todo := todo - {id};
      }
    }

    method DropPendingOf(peer: NodeId)
      modifies this`pendingInitiators
      ensures pendingInitiators == PendingOfOthers(old(pendingInitiators), peer)
    {
      var todo := pendingInitiators.Keys;
      while todo != {}
        invariant todo <= old(pendingInitiators).Keys
        invariant forall id :: id in pendingInitiators <==>
          id in old(pendingInitiators) && (id in todo || old(pendingInitiators)[id].peer != peer)
        invariant forall id :: id in pendingInitiators ==> pendingInitiators[id] == old(pendingInitiators)[id]
      {
        var id :| id in todo;
        if pendingInitiators[id].peer == peer {
          pendingInitiators := pendingInitiators - {id};
        }
        todo := todo - {id};
      }
    }

    method CreateHandshakeInit(id: SessionId, peer: NodeId, peerStatic: PublicKey, ephemeral: nat, now: Time)
      returns (frame: Option<InitFrame>)
      requires Valid()
      modifies this`pendingInitiators
      ensures Valid()
      ensures (View(), frame) == CreateInit(config, old(View()), id, peer, peerStatic, ephemeral, now, handshakeTimeout)
    {
      CreateInitKeepsInv(config, View(), id, peer, peerStatic, ephemeral, now, handshakeTimeout);
      frame := CreateHandshakeInitLocked(id, peer, peerStatic, ephemeral, now);
    }

    method CreateHandshakeInitLocked(id: SessionId, peer: NodeId, peerStatic: PublicKey, ephemeral: nat, now: Time)
      returns (frame: Option<InitFrame>)
      modifies this`pendingInitiators
      ensures (View(), frame) == CreateInit(config, old(View()), id, peer, peerStatic, ephemeral, now, handshakeTimeout)
    {
      if id == 0 || peerStatic == ZeroKey || peer != HashPublicKey(peerStatic) {
        return None;
      }
      PurgeIncompleteHandshakesLocked(now);
      if id in pendingInitiators || id in sessionToPeer || id in retired {
        return None;
      }
      if |pendingInitiators| >= config.capacity.pending {
        return None;
      }
      pendingInitiators := pendingInitiators[id := Pending(peer, peerStatic, ephemeral, now + handshakeTimeout)];
      return Some(InitFrame(id, config.network, config.publicKey, peerStatic, ephemeral));
    }

    method AdmitInit(frame: InitFrame, outerId: SessionId, now: Time) returns (ok: bool)
      requires Valid()
      modifies this`pendingInitiators, this`handshakeReplays
      ensures Valid()
      ensures (View(), ok) == InitAdmit(config, old(View()), frame, outerId, now)
    {
      AdmitKeepsInv(config, View(), frame, outerId, now);
      ok := AdmitInitLocked(frame, outerId, now);
    }

    method AdmitInitLocked(frame: InitFrame, outerId: SessionId, now: Time) returns (ok: bool)
      modifies this`pendingInitiators, this`handshakeReplays
      ensures (View(), ok) == InitAdmit(config, old(View()), frame, outerId, now)
    {
      if frame.id != outerId || frame.network != config.network {
        return false;
      }
      PurgeIncompleteHandshakesLocked(now);
      PurgeHandshakeReplaysLocked(now);
      if frame in handshakeReplays {
        return false;
      }
      return !(frame.id in sessionToPeer || frame.id in retired || frame.id in pendingInitiators);
    }

    /** The pending handshake with this peer that comes first in identity order. */
    method FindPendingFor(peer: NodeId) returns (first: Option<SessionId>)
      ensures first == FirstPendingFor(pendingInitiators, peer)
    {
      first := None;
      var todo := pendingInitiators.Keys;
      while todo != {}
        invariant todo <= pendingInitiators.Keys
        invariant first.None? ==>
          forall id :: id in pendingInitiators && id !in todo ==> pendingInitiators[id].peer != peer
        invariant first.Some? ==>
          && first.value in pendingInitiators && pendingInitiators[first.value].peer == peer
          && forall id :: id in pendingInitiators && id !in todo && pendingInitiators[id].peer == peer ==> first.value <= id
      {
        var id :| id in todo;
        if pendingInitiators[id].peer == peer && (first.None? || id < first.value) {
          first := Some(id);
        }
        todo := todo - {id};
      }
      assert first.Some? ==> IsFirstPendingFor(pendingInitiators, peer, first.value);
    }

    method DecideInit(frame: InitFrame, now: Time) returns (ok: bool)
      requires Valid()
      modifies this`pendingInitiators, this`handshakeReplays
      ensures Valid()
      ensures (View(), ok) == InitDecide(config, old(View()), frame, now, replayTtl)
    {
      DecideKeepsInv(config, View(), frame, now, replayTtl);
      ok := DecideInitLocked(frame, now);
    }

    method DecideInitLocked(frame: InitFrame, now: Time) returns (ok: bool)
      modifies this`pendingInitiators, this`handshakeReplays
      ensures (View(), ok) == InitDecide(config, old(View()), frame, now, replayTtl)
    {
      if !Opens(config, frame) {
        return false;
      }
      var peer := HashPublicKey(frame.initiator);
      PurgeIncompleteHandshakesLocked(now);
      PurgeHandshakeReplaysLocked(now);
      if frame in handshakeReplays {
        return false;
      }
      handshakeReplays := handshakeReplays[frame := now + replayTtl];
      ok := SettleWith(peer);
    }

    method SettleWith(peer: NodeId) returns (ok: bool)
      modifies this`pendingInitiators
      ensures (View(), ok) == Settle(config, old(View()), peer)
    {
      var localHasPriority := config.node < peer;
      var activeLocal := peer in sessions && sessions[peer].established && sessions[peer].initiatedLocally;
      var pending := FindPendingFor(peer);
      if localHasPriority && (pending.Some? || activeLocal) {
        return false;
      }
      if !localHasPriority && pending.Some? {
        pendingInitiators := pendingInitiators - {pending.value};
      }
      return !(peer !in sessions && |sessions| >= config.capacity.active);
    }

    method CommitInit(frame: InitFrame, ephemeral: nat, now: Time) returns (response: Option<ResponseFrame>)
      requires Valid()
      modifies this`sessions, this`sessionToPeer, this`retired, this`pendingInitiators
      ensures Valid()
      ensures (View(), response) == InitCommit(config, old(View()), frame, ephemeral, now, retiredGrace)
    {
      InitCommitKeepsInv(config, View(), frame, ephemeral, now, retiredGrace);
      response := CommitInitLocked(frame, ephemeral, now);
    }

    method CommitInitLocked(frame: InitFrame, ephemeral: nat, now: Time) returns (response: Option<ResponseFrame>)
      modifies this`sessions, this`sessionToPeer, this`retired, this`pendingInitiators
      ensures (View(), response) == InitCommit(config, old(View()), frame, ephemeral, now, retiredGrace)
    {
      var peer := HashPublicKey(frame.initiator);
      PurgeIncompleteHandshakesLocked(now);
      if frame.id in sessionToPeer || frame.id in retired || frame.id in pendingInitiators {
        return None;
      }
      if peer !in sessions && |sessions| >= config.capacity.active {
        return None;
      }
      CreateAndInstall(peer, frame.id, SplitKey(frame.ephemeral, ephemeral), false, now);
      return Some(ResponseFrame(frame.id, config.publicKey, frame.ephemeral, ephemeral));
    }

    method HandleHandshakeResponse(id: SessionId, frame: Option<ResponseFrame>, now: Time) returns (ok: bool)
      requires Valid()
      modifies this`sessions, this`sessionToPeer, this`retired, this`pendingInitiators
      ensures Valid()
      ensures (View(), ok) == HandleResponse(config, old(View()), id, frame, now, retiredGrace)
    {
      HandleResponseKeepsInv(config, View(), id, frame, now, retiredGrace);
      ok := HandleHandshakeResponseLocked(id, frame, now);
    }

    method HandleHandshakeResponseLocked(id: SessionId, frame: Option<ResponseFrame>, now: Time) returns (ok: bool)
      modifies this`sessions, this`sessionToPeer, this`retired, this`pendingInitiators
      ensures (View(), ok) == HandleResponse(config, old(View()), id, frame, now, retiredGrace)
    {
      PurgeIncompleteHandshakesLocked(now);
      if id !in pendingInitiators {
        return false;
      }
      var state := pendingInitiators[id];
      pendingInitiators := pendingInitiators - {id};
      if frame.None? || frame.value.id != id || !Answers(state, frame.value) {
        return false;
      }
      if state.peer in sessions && sessions[state.peer].established && !sessions[state.peer].initiatedLocally
         && state.peer < config.node
      {
        return false;
      }
      if state.peer !in sessions && |sessions| >= config.capacity.active {
        return false;
      }
      CreateAndInstall(state.peer, id, SplitKey(state.ephemeral, frame.value.ephemeral), true, now);
      return true;
    }

    /** A payload that cannot be framed, or has no session, draws no sequence number. */
    method EncryptMessage(peer: NodeId, logical: nat) returns (frame: Option<DataFrame>)
      requires Valid()
      modifies this`sessions
      ensures Valid() && (View(), frame) == Encrypt(config, old(View()), peer, logical)
    {
      EncryptKeepsInv(config, View(), peer, logical);
      frame := EncryptMessageLocked(peer, logical);
    }

    method EncryptMessageLocked(peer: NodeId, logical: nat) returns (frame: Option<DataFrame>)
      modifies this`sessions
      ensures (View(), frame) == Encrypt(config, old(View()), peer, logical)
    {
      if !SupportedBucket(config.bucket) || logical > MAX_LOGICAL {
        return None;
      }
      var size := PaddedSize(logical, config.bucket);
      if size > MAX_PAYLOAD || peer !in sessions || !sessions[peer].established {
        return None;
      }
      var s := sessions[peer];
      sessions := sessions[peer := s.(sendSeq := s.sendSeq + 1)];
      return Some(DataFrame(s.id, s.sendSeq % 0x1_0000_0000, s.key, s.initiatedLocally, Payload(logical, config.bucket, size)));
    }

    /** The window moves before the padding is checked. */
    method DecryptMessage(frame: DataFrame) returns (ok: bool)
      requires Valid()
      modifies this`sessions, this`retired
      ensures Valid() && (View(), ok) == Decrypt(old(View()), frame)
      ensures ok <==> Padded(frame.payload) && Meant(old(View()), frame)
    {
      OpenedExactly(config.capacity, View(), frame);
      DecryptKeepsInv(config.capacity, View(), frame);
      if frame.payload.size < MIN_BUCKET || frame.payload.size > MAX_PAYLOAD {
        return false;
      }
      var taken := TakeNumber(frame);
      if !taken {
        return false;
      }
      return SupportedBucket(frame.payload.bucket) && frame.payload.logical <= MAX_LOGICAL
             && PaddedSize(frame.payload.logical, frame.payload.bucket) == frame.payload.size;
    }

    method TakeNumber(frame: DataFrame) returns (taken: bool)
      requires Readable(frame.payload)
      modifies this`sessions, this`retired
      ensures View() == Decrypt(old(View()), frame).0 && taken == Takes(old(View()), frame)
    {
      if frame.id in sessionToPeer {
        var peer := sessionToPeer[frame.id];
        if peer !in sessions || !sessions[peer].established {
          return false;
        }
        var s := sessions[peer];
        if !Replay.Check(s.window, frame.seqNo) || !Unseals(s, frame) {
          return false;
        }
        sessions := sessions[peer := s.(window := Replay.Update(s.window, frame.seqNo))];
        return true;
      }
      if frame.id !in retired || !retired[frame.id].session.established {
        return false;
      }
      var r := retired[frame.id];
      if !Replay.Check(r.session.window, frame.seqNo) || !Unseals(r.session, frame) {
        return false;
      }
      retired := retired[frame.id := r.(session := r.session.(window := Replay.Update(r.session.window, frame.seqNo)))];
      return true;
    }
  }
}
