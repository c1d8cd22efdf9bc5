/**
 The session table of one node: what every critical section of the session manager does to the active,
 retired, pending and replay maps. Noise, hashing and AEAD are symbolic; clock readings are arguments.
 */
module SessionTable {
  import opened Basics
  import Frames
  import Replay

  type SessionId = nat

  /** The secret both ends split from one handshake, named by the two ephemerals that went into it. */
  datatype SessionKey = SplitKey(initiatorEphemeral: nat, responderEphemeral: nat)

  datatype Session = Session(
    id: SessionId, peer: NodeId, key: SessionKey, sendSeq: nat, window: Replay.Window,
    established: bool, initiatedLocally: bool, establishedAt: Time)

  datatype Retired = Retired(session: Session, expires: Time)

  datatype Pending = Pending(peer: NodeId, peerStatic: PublicKey, ephemeral: nat, expires: Time)

  /** A handshake INIT; it can be opened only by the holder of `responder`. Its transcript hash is the frame itself. */
  datatype InitFrame = InitFrame(
    id: SessionId, network: nat, initiator: PublicKey, responder: PublicKey, ephemeral: nat)

  /** The answer to the INIT whose ephemeral was `initiatorEphemeral`, authenticated by `responder`. */
  datatype ResponseFrame = ResponseFrame(
    id: SessionId, responder: PublicKey, initiatorEphemeral: nat, ephemeral: nat)

  /** A session frame: header identity and sequence number bound to the key, and the direction, it was sealed for. */
  datatype DataFrame = DataFrame(id: SessionId, seqNo: Replay.WireSeq, key: SessionKey, byInitiator: bool, payload: Frames.Payload)

  datatype Capacity = Capacity(active: nat, retired: nat, pending: nat)

  datatype Config = Config(node: NodeId, publicKey: PublicKey, network: nat, capacity: Capacity, bucket: nat)

  datatype Table = Table(
    sessions: map<NodeId, Session>,
    byId: map<SessionId, NodeId>,
    retired: map<SessionId, Retired>,
    pending: map<SessionId, Pending>,
    replays: map<InitFrame, Time>)

  const EMPTY := Table(map[], map[], map[], map[], map[])

  predicate Knows(t: Table, id: SessionId) {
    id in t.byId || id in t.retired || id in t.pending
  }

  // ---------- purging ----------

  function LiveRetired(retired: map<SessionId, Retired>, now: Time): map<SessionId, Retired> {
    map id | id in retired && now < retired[id].expires :: retired[id]
  }

  function LivePending(pending: map<SessionId, Pending>, now: Time): map<SessionId, Pending> {
    map id | id in pending && now < pending[id].expires :: pending[id]
  }

  function LiveReplays(replays: map<InitFrame, Time>, now: Time): map<InitFrame, Time> {
    map f | f in replays && now < replays[f] :: replays[f]
  }

  // ---------- retiring ----------

  predicate RetiresBefore(retired: map<SessionId, Retired>, a: SessionId, b: SessionId)
    requires a in retired && b in retired
  {
    retired[a].expires < retired[b].expires || (retired[a].expires == retired[b].expires && a <= b)
  }

  predicate IsOldest(retired: map<SessionId, Retired>, id: SessionId) {
    id in retired && forall other :: other in retired ==> RetiresBefore(retired, id, other)
  }

  lemma OldestExists(retired: map<SessionId, Retired>)
    requires retired != map[]
    ensures exists id :: IsOldest(retired, id)
    decreases |retired|
  {
    var some :| some in retired;
    var rest := retired - {some};
    if rest == map[] {
      forall other | other in retired ensures other == some {
        assert other != some ==> other in rest;
      }
      assert IsOldest(retired, some);
    } else {
      assert rest.Keys == retired.Keys - {some};
      OldestExists(rest);
      var best :| IsOldest(rest, best);
      var winner := if RetiresBefore(retired, some, best) then some else best;
      forall other | other in retired ensures RetiresBefore(retired, winner, other) {
        assert other != some ==> other in rest && RetiresBefore(rest, best, other);
      }
      assert IsOldest(retired, winner);
    }
  }

  ghost function Oldest(retired: map<SessionId, Retired>): (id: SessionId)
    requires retired != map[]
    ensures IsOldest(retired, id)
  {
    OldestExists(retired);
    var id :| IsOldest(retired, id);
    id
  }

  ghost function Retire(
    retired: map<SessionId, Retired>, s: Session, now: Time, cap: nat, grace: int): map<SessionId, Retired>
  {
    var live := LiveRetired(retired, now);
    if cap == 0 then live
    else
      var roomy := if s.id !in live && |live| >= cap then live - {Oldest(live)} else live;
      roomy[s.id := Retired(s, now + grace)]
  }

  // ---------- creating and removing sessions ----------

  function NewSession(peer: NodeId, id: SessionId, key: SessionKey, local: bool, now: Time): Session {
    Session(id, peer, key, 0, Replay.Fresh(), true, local, now)
  }

  /** Supersedes the peer's active session, if any, and installs the new keys. */
  ghost function CreateSession(
    t: Table, peer: NodeId, id: SessionId, key: SessionKey, local: bool, now: Time, cap: nat, grace: int): Table
  {
    var superseded := peer in t.sessions && t.sessions[peer].established;
    var retired := if superseded then Retire(t.retired, t.sessions[peer], now, cap, grace) else t.retired;
    var byId := if superseded then t.byId - {t.sessions[peer].id} else t.byId;
    t.(sessions := t.sessions[peer := NewSession(peer, id, key, local, now)],
       byId := byId[id := peer],
       retired := retired)
  }

  function RetiredOfOthers(retired: map<SessionId, Retired>, peer: NodeId): map<SessionId, Retired> {
    map id | id in retired && retired[id].session.peer != peer :: retired[id]
  }

  function PendingOfOthers(pending: map<SessionId, Pending>, peer: NodeId): map<SessionId, Pending> {
    map id | id in pending && pending[id].peer != peer :: pending[id]
  }

  function RemoveSession(t: Table, peer: NodeId): Table {
    var byId := if peer in t.sessions then t.byId - {t.sessions[peer].id} else t.byId;
    var retired := if peer in t.sessions then t.retired - {t.sessions[peer].id} else t.retired;
    t.(sessions := t.sessions - {peer},
       byId := byId,
       retired := RetiredOfOthers(retired, peer),
       pending := PendingOfOthers(t.pending, peer))
  }

  // ---------- the initiator ----------

  function CreateInit(
    c: Config, t: Table, id: SessionId, peer: NodeId, peerStatic: PublicKey,
    ephemeral: nat, now: Time, timeout: nat): (Table, Option<InitFrame>)
  {
    if id == 0 || peerStatic == ZeroKey || peer != HashPublicKey(peerStatic) then (t, None)
    else
      var purged := t.(pending := LivePending(t.pending, now));
      if Knows(purged, id) || |purged.pending| >= c.capacity.pending then (purged, None)
      else
        (purged.(pending := purged.pending[id := Pending(peer, peerStatic, ephemeral, now + timeout)]),
         Some(InitFrame(id, c.network, c.publicKey, peerStatic, ephemeral)))
  }

  // ---------- the responder: three critical sections ----------

  /** First section: refuse replays and identities already in use. */
  function InitAdmit(c: Config, t: Table, frame: InitFrame, outerId: SessionId, now: Time): (Table, bool) {
    if frame.id != outerId || frame.network != c.network then (t, false)
    else
      var purged := t.(pending := LivePending(t.pending, now), replays := LiveReplays(t.replays, now));
      (purged, frame !in purged.replays && !Knows(purged, frame.id))
  }

  predicate IsFirstPendingFor(pending: map<SessionId, Pending>, peer: NodeId, id: SessionId) {
    && id in pending && pending[id].peer == peer
    && forall other :: other in pending && pending[other].peer == peer ==> id <= other
  }

  lemma FirstPendingExists(pending: map<SessionId, Pending>, peer: NodeId, id: SessionId)
    requires id in pending && pending[id].peer == peer
    ensures exists first :: IsFirstPendingFor(pending, peer, first)
    decreases id
  {
    if !IsFirstPendingFor(pending, peer, id) {
      var smaller :| smaller in pending && pending[smaller].peer == peer && smaller < id;
      FirstPendingExists(pending, peer, smaller);
    }
  }

  ghost function FirstPendingFor(pending: map<SessionId, Pending>, peer: NodeId): (first: Option<SessionId>)
    ensures first.Some? ==> IsFirstPendingFor(pending, peer, first.value)
    ensures first.None? ==> forall id :: id in pending ==> pending[id].peer != peer
  {
    if id :| id in pending && pending[id].peer == peer then
      FirstPendingExists(pending, peer, id);
      var first :| IsFirstPendingFor(pending, peer, first);
      Some(first)
    else None
  }

  /** The frame opens under this node's static key and names a usable initiator. */
  predicate Opens(c: Config, frame: InitFrame) {
    frame.responder == c.publicKey && frame.initiator != ZeroKey
  }

  /** Settles simultaneous initiation with `peer` in favour of the lower identity, then checks capacity. */
  ghost function Settle(c: Config, t: Table, peer: NodeId): (Table, bool) {
    var priority := c.node < peer;
    var first := FirstPendingFor(t.pending, peer);
    var activeLocal := peer in t.sessions && t.sessions[peer].established && t.sessions[peer].initiatedLocally;
    if priority && (first.Some? || activeLocal) then (t, false)
    else
      var yielded := if !priority && first.Some? then t.(pending := t.pending - {first.value}) else t;
      (yielded, peer in yielded.sessions || |yielded.sessions| < c.capacity.active)
  }

  /** Second section: remember the transcript and settle who answers whom. */
  ghost function InitDecide(c: Config, t: Table, frame: InitFrame, now: Time, ttl: nat): (Table, bool) {
    if !Opens(c, frame) then (t, false)
    else
      var purged := t.(pending := LivePending(t.pending, now), replays := LiveReplays(t.replays, now));
      if frame in purged.replays then (purged, false)
      else Settle(c, purged.(replays := purged.replays[frame := now + ttl]), HashPublicKey(frame.initiator))
  }

  /** Third section: install the session unless its identity or the capacity was taken meanwhile. */
  ghost function InitCommit(
    c: Config, t: Table, frame: InitFrame, ephemeral: nat, now: Time, grace: int): (Table, Option<ResponseFrame>)
  {
    var peer := HashPublicKey(frame.initiator);
    var purged := t.(pending := LivePending(t.pending, now));
    if Knows(purged, frame.id) || (peer !in purged.sessions && |purged.sessions| >= c.capacity.active) then (purged, None)
    else
      (CreateSession(purged, peer, frame.id, SplitKey(frame.ephemeral, ephemeral), false, now, c.capacity.retired, grace),
       Some(ResponseFrame(frame.id, c.publicKey, frame.ephemeral, ephemeral)))
  }

  // ---------- the response ----------

  predicate Answers(p: Pending, frame: ResponseFrame) {
    && frame.initiatorEphemeral == p.ephemeral && frame.responder == p.peerStatic
    && HashPublicKey(frame.responder) == p.peer
  }

  /** `frame` is None when the bytes do not parse. */
  ghost function HandleResponse(
    c: Config, t: Table, id: SessionId, frame: Option<ResponseFrame>, now: Time, grace: int): (Table, bool)
  {
    var purged := t.(pending := LivePending(t.pending, now));
    if id !in purged.pending then (purged, false)
    else
      var p := purged.pending[id];
      var taken := purged.(pending := purged.pending - {id});
      if frame.None? || frame.value.id != id || !Answers(p, frame.value) then (taken, false)
      else
        var active := p.peer in taken.sessions;
        if active && taken.sessions[p.peer].established && !taken.sessions[p.peer].initiatedLocally && p.peer < c.node then
          (taken, false)
        else if !active && |taken.sessions| >= c.capacity.active then (taken, false)
        else
          (CreateSession(taken, p.peer, id, SplitKey(p.ephemeral, frame.value.ephemeral), true, now, c.capacity.retired, grace),
           true)
  }

  // ---------- data frames ----------

  /** The active session with this identity, else a superseded one still inside its grace window. */
  function FindById(t: Table, id: SessionId): (s: Option<Session>) {
    if id in t.byId then
      var peer := t.byId[id];
      if peer in t.sessions && t.sessions[peer].established then Some(t.sessions[peer]) else None
    else if id in t.retired && t.retired[id].session.established then Some(t.retired[id].session)
    else None
  }

  function StoreById(t: Table, id: SessionId, s: Session): Table {
    if id in t.byId then t.(sessions := t.sessions[t.byId[id] := s])
    else if id in t.retired then t.(retired := t.retired[id := t.retired[id].(session := s)])
    else t
  }

  /** The frame was sealed by the other end of this session and its number is still open. */
  predicate Unseals(s: Session, frame: DataFrame) {
    Replay.Check(s.window, frame.seqNo) && frame.key == s.key && frame.byInitiator != s.initiatedLocally
  }

  /** The frame is authenticated, so its number is taken whether or not its padding proves proper. */
  predicate Takes(t: Table, frame: DataFrame) {
    Frames.Readable(frame.payload) && FindById(t, frame.id).Some? && Unseals(FindById(t, frame.id).value, frame)
  }

  /** Authenticated decryption of one frame: the table after it and whether the frame was accepted. */
  function Decrypt(t: Table, frame: DataFrame): (Table, bool) {
    if !Takes(t, frame) then (t, false)
    else
      var s := FindById(t, frame.id).value;
      (StoreById(t, frame.id, s.(window := Replay.Update(s.window, frame.seqNo))), Frames.ProperlyPadded(frame.payload))
  }

  /** A payload that cannot be framed draws no sequence number. */
  function Encrypt(c: Config, t: Table, peer: NodeId, logical: nat): (Table, Option<DataFrame>) {
    if Frames.FrameSize(logical, c.bucket).Some? && peer in t.sessions && t.sessions[peer].established then
      var s := t.sessions[peer];
      (t.(sessions := t.sessions[peer := s.(sendSeq := s.sendSeq + 1)]),
       Some(DataFrame(s.id, s.sendSeq % 0x1_0000_0000, s.key, s.initiatedLocally,
                      Frames.Payload(logical, c.bucket, Frames.PaddedSize(logical, c.bucket)))))
    else (t, None)
  }

  // ---------- the invariant ----------

  /** The two active maps are inverse to each other and hold established sessions only. */
  ghost predicate Inverse(sessions: map<NodeId, Session>, byId: map<SessionId, NodeId>) {
    && (forall p :: p in sessions ==>
          && sessions[p].peer == p && sessions[p].established
          && sessions[p].id in byId && byId[sessions[p].id] == p)
    && (forall id :: id in byId ==> byId[id] in sessions && sessions[byId[id]].id == id)
  }

  /** No identity is active, retired or pending at the same time. */
  ghost predicate Apart(
    byId: map<SessionId, NodeId>, retired: map<SessionId, Retired>, pending: map<SessionId, Pending>)
  {
    && (forall id :: id in byId ==> id !in retired && id !in pending)
    && (forall id :: id in retired ==> id !in pending)
  }

  ghost predicate RetiredOk(retired: map<SessionId, Retired>) {
    forall id :: id in retired ==> retired[id].session.id == id && retired[id].session.established
  }

  ghost predicate PendingOk(pending: map<SessionId, Pending>) {
    forall id :: id in pending ==> HashPublicKey(pending[id].peerStatic) == pending[id].peer
  }

  ghost predicate Inv(cap: Capacity, t: Table) {
    && Inverse(t.sessions, t.byId)
    && Apart(t.byId, t.retired, t.pending)
    && |t.sessions| <= cap.active && |t.retired| <= cap.retired && |t.pending| <= cap.pending
    && RetiredOk(t.retired) && PendingOk(t.pending)
  }

  // ---------- size facts ----------

  lemma SubmapSize<K, V>(small: map<K, V>, big: map<K, V>)
    requires small.Keys <= big.Keys
    ensures |small| <= |big|
  {
    assert big.Keys == small.Keys + (big.Keys - small.Keys);
    assert |small| == |small.Keys| && |big| == |big.Keys|;
  }

  lemma InsertSize<K, V>(m: map<K, V>, k: K, v: V)
    ensures |m[k := v]| == if k in m then |m| else |m| + 1
  {
    assert m[k := v].Keys == m.Keys + {k};
    assert |m| == |m.Keys| && |m[k := v]| == |m[k := v].Keys|;
    if k in m { assert m.Keys + {k} == m.Keys; }
  }

  lemma RemoveSize<K, V>(m: map<K, V>, k: K)
    requires k in m
    ensures |m - {k}| == |m| - 1
  {
    assert (m - {k}).Keys == m.Keys - {k};
    assert |m| == |m.Keys| && |m - {k}| == |(m - {k}).Keys|;
  }

  // ---------- every section keeps the invariant ----------

  ghost predicate Submap<K, V>(small: map<K, V>, big: map<K, V>) {
    forall k :: k in small ==> k in big && small[k] == big[k]
  }

  /** `r` differs from `t` in nothing but forgotten retired and pending entries and the replay cache. */
  ghost predicate OnlyForgets(t: Table, r: Table) {
    r.sessions == t.sessions && r.byId == t.byId && Submap(r.retired, t.retired) && Submap(r.pending, t.pending)
  }

  lemma ForgettingKeepsInv(cap: Capacity, t: Table, r: Table)
    requires Inv(cap, t) && OnlyForgets(t, r)
    ensures Inv(cap, r)
  {
    SubmapSize(r.retired, t.retired);
    SubmapSize(r.pending, t.pending);
  }

  lemma PurgesOnlyForget(t: Table, now: Time)
    ensures OnlyForgets(t, t.(pending := LivePending(t.pending, now)))
    ensures OnlyForgets(t, t.(retired := LiveRetired(t.retired, now)))
  {
  }

  lemma AdmitOnlyForgets(c: Config, t: Table, frame: InitFrame, outerId: SessionId, now: Time)
    ensures OnlyForgets(t, InitAdmit(c, t, frame, outerId, now).0)
  {
  }

  lemma SettleOnlyForgets(c: Config, t: Table, peer: NodeId)
    ensures OnlyForgets(t, Settle(c, t, peer).0)
  {
  }

  lemma DecideOnlyForgets(c: Config, t: Table, frame: InitFrame, now: Time, ttl: nat)
    ensures OnlyForgets(t, InitDecide(c, t, frame, now, ttl).0)
  {
    var noted := t.(pending := LivePending(t.pending, now),
                    replays := LiveReplays(t.replays, now)[frame := now + ttl]);
    SettleOnlyForgets(c, noted, HashPublicKey(frame.initiator));
  }

  /** Retiring drops expired entries and at most one more, keeps the rest, and never exceeds the capacity. */
  lemma RetireBounded(retired: map<SessionId, Retired>, s: Session, now: Time, cap: nat, grace: int)
    requires |retired| <= cap
    ensures var r := Retire(retired, s, now, cap, grace);
      && |r| <= cap
      && (forall id :: id in r && id != s.id ==> id in retired && r[id] == retired[id] && now < retired[id].expires)
      && (s.id in r <==> cap > 0 || (s.id in retired && now < retired[s.id].expires))
      && (cap > 0 ==> r[s.id] == Retired(s, now + grace))
      && (forall id :: id in retired && now < retired[id].expires && id !in r ==>
            IsOldest(LiveRetired(retired, now), id) && cap > 0 && |LiveRetired(retired, now)| == cap && s.id !in LiveRetired(retired, now))
  {
    var live := LiveRetired(retired, now);
    SubmapSize(live, retired);
    if cap > 0 {
      if s.id !in live && |live| >= cap {
        RemoveSize(live, Oldest(live));
        InsertSize(live - {Oldest(live)}, s.id, Retired(s, now + grace));
      } else {
        InsertSize(live, s.id, Retired(s, now + grace));
      }
    }
  }

  lemma DropActiveKeepsInv(cap: Capacity, t: Table, peer: NodeId)
    requires Inv(cap, t) && peer in t.sessions
    ensures Inv(cap, t.(sessions := t.sessions - {peer}, byId := t.byId - {t.sessions[peer].id}))
  {
    RemoveSize(t.sessions, peer);
  }

  lemma AddActiveKeepsInv(cap: Capacity, t: Table, s: Session)
    requires Inv(cap, t) && !Knows(t, s.id) && s.peer !in t.sessions && |t.sessions| < cap.active
    requires s.established
    ensures Inv(cap, t.(sessions := t.sessions[s.peer := s], byId := t.byId[s.id := s.peer]))
  {
    InsertSize(t.sessions, s.peer, s);
  }

  lemma RetireKeepsInv(cap: Capacity, t: Table, s: Session, now: Time, grace: int)
    requires Inv(cap, t) && !Knows(t, s.id) && s.established
    ensures Inv(cap, t.(retired := Retire(t.retired, s, now, cap.retired, grace)))
  {
    RetireBounded(t.retired, s, now, cap.retired, grace);
  }

  /** The table once the peer's active session has moved to the retired map. */
  ghost function Superseded(t: Table, peer: NodeId, now: Time, cap: nat, grace: int): Table
    requires peer in t.sessions
  {
    t.(sessions := t.sessions - {peer},
       byId := t.byId - {t.sessions[peer].id},
       retired := Retire(t.retired, t.sessions[peer], now, cap, grace))
  }

  lemma SupersedeKeepsInv(cap: Capacity, t: Table, peer: NodeId, now: Time, grace: int)
    requires Inv(cap, t) && peer in t.sessions
    ensures Inv(cap, Superseded(t, peer, now, cap.retired, grace))
  {
    DropActiveKeepsInv(cap, t, peer);
    var dropped := t.(sessions := t.sessions - {peer}, byId := t.byId - {t.sessions[peer].id});
    RetireKeepsInv(cap, dropped, t.sessions[peer], now, grace);
  }

  lemma SupersedeFreesRoom(cap: Capacity, t: Table, peer: NodeId, id: SessionId, now: Time, grace: int)
    requires Inv(cap, t) && peer in t.sessions && !Knows(t, id)
    ensures var r := Superseded(t, peer, now, cap.retired, grace);
      !Knows(r, id) && peer !in r.sessions && |r.sessions| < cap.active
  {
    RemoveSize(t.sessions, peer);
    RetireBounded(t.retired, t.sessions[peer], now, cap.retired, grace);
  }

  lemma CreateIsSupersedeThenAdd(
    t: Table, peer: NodeId, id: SessionId, key: SessionKey, local: bool, now: Time, cap: nat, grace: int)
    requires peer in t.sessions && t.sessions[peer].established
    ensures var r := Superseded(t, peer, now, cap, grace);
      var s := NewSession(peer, id, key, local, now);
      CreateSession(t, peer, id, key, local, now, cap, grace)
      == r.(sessions := r.sessions[s.peer := s], byId := r.byId[s.id := s.peer])
  {
    var s := NewSession(peer, id, key, local, now);
    assert (t.sessions - {peer})[peer := s] == t.sessions[peer := s];
  }

  /** Installing a session under an identity not in use keeps the table consistent. */
  lemma CreateKeepsInv(
    cap: Capacity, t: Table, peer: NodeId, id: SessionId, key: SessionKey, local: bool, now: Time, grace: int)
    requires Inv(cap, t) && !Knows(t, id)
    requires peer in t.sessions || |t.sessions| < cap.active
    ensures Inv(cap, CreateSession(t, peer, id, key, local, now, cap.retired, grace))
  {
    var s := NewSession(peer, id, key, local, now);
    if peer in t.sessions {
      SupersedeKeepsInv(cap, t, peer, now, grace);
      SupersedeFreesRoom(cap, t, peer, id, now, grace);
      AddActiveKeepsInv(cap, Superseded(t, peer, now, cap.retired, grace), s);
      CreateIsSupersedeThenAdd(t, peer, id, key, local, now, cap.retired, grace);
    } else {
      AddActiveKeepsInv(cap, t, s);
    }
  }

  lemma AddPendingKeepsInv(cap: Capacity, t: Table, id: SessionId, p: Pending)
    requires Inv(cap, t) && !Knows(t, id) && |t.pending| < cap.pending && HashPublicKey(p.peerStatic) == p.peer
    ensures Inv(cap, t.(pending := t.pending[id := p]))
  {
    InsertSize(t.pending, id, p);
  }

  lemma CreateInitKeepsInv(
    c: Config, t: Table, id: SessionId, peer: NodeId, peerStatic: PublicKey, ephemeral: nat, now: Time, timeout: nat)
    requires Inv(c.capacity, t)
    ensures Inv(c.capacity, CreateInit(c, t, id, peer, peerStatic, ephemeral, now, timeout).0)
  {
    var purged := t.(pending := LivePending(t.pending, now));
    ForgettingKeepsInv(c.capacity, t, purged);
    if CreateInit(c, t, id, peer, peerStatic, ephemeral, now, timeout).1.Some? {
      AddPendingKeepsInv(c.capacity, purged, id, Pending(peer, peerStatic, ephemeral, now + timeout));
    }
  }

  lemma InitCommitKeepsInv(c: Config, t: Table, frame: InitFrame, ephemeral: nat, now: Time, grace: int)
    requires Inv(c.capacity, t)
    ensures Inv(c.capacity, InitCommit(c, t, frame, ephemeral, now, grace).0)
  {
    var purged := t.(pending := LivePending(t.pending, now));
    ForgettingKeepsInv(c.capacity, t, purged);
    if InitCommit(c, t, frame, ephemeral, now, grace).1.Some? {
      var peer := HashPublicKey(frame.initiator);
      CreateKeepsInv(c.capacity, purged, peer, frame.id, SplitKey(frame.ephemeral, ephemeral), false, now, grace);
    }
  }

  lemma HandleResponseKeepsInv(
    c: Config, t: Table, id: SessionId, frame: Option<ResponseFrame>, now: Time, grace: int)
    requires Inv(c.capacity, t)
    ensures Inv(c.capacity, HandleResponse(c, t, id, frame, now, grace).0)
  {
    var purged := t.(pending := LivePending(t.pending, now));
    ForgettingKeepsInv(c.capacity, t, purged);
    if id in purged.pending {
      var taken := purged.(pending := purged.pending - {id});
      ForgettingKeepsInv(c.capacity, purged, taken);
      if HandleResponse(c, t, id, frame, now, grace).1 {
        var p := purged.pending[id];
        CreateKeepsInv(c.capacity, taken, p.peer, id, SplitKey(p.ephemeral, frame.value.ephemeral), true, now, grace);
      }
    }
  }

  /** Nothing active, retired or pending belongs to the peer. */
  ghost predicate NothingOf(t: Table, peer: NodeId) {
    && peer !in t.sessions
    && (forall id :: id in t.byId ==> t.byId[id] != peer)
    && (forall id :: id in t.retired ==> t.retired[id].session.peer != peer)
    && (forall id :: id in t.pending ==> t.pending[id].peer != peer)
  }

  /** Everything belonging to other peers is the same in both tables. */
  ghost predicate SameForOthers(t: Table, r: Table, peer: NodeId) {
    && (forall p :: p in t.sessions && p != peer ==> p in r.sessions && r.sessions[p] == t.sessions[p])
    && (forall id :: id in t.retired && t.retired[id].session.peer != peer ==>
          id in r.retired && r.retired[id] == t.retired[id])
    && (forall id :: id in t.pending && t.pending[id].peer != peer ==>
          id in r.pending && r.pending[id] == t.pending[id])
  }

  lemma RemoveKeepsInv(cap: Capacity, t: Table, peer: NodeId)
    requires Inv(cap, t)
    ensures Inv(cap, RemoveSession(t, peer))
  {
    if peer in t.sessions {
      DropActiveKeepsInv(cap, t, peer);
      var dropped := t.(sessions := t.sessions - {peer}, byId := t.byId - {t.sessions[peer].id});
      ForgettingKeepsInv(cap, dropped, RemoveSession(t, peer));
    } else {
      assert t.sessions - {peer} == t.sessions;
      ForgettingKeepsInv(cap, t, RemoveSession(t, peer));
    }
  }

  /** Tearing a peer down leaves nothing of that peer behind... */
  lemma RemoveLeavesNothing(t: Table, peer: NodeId)
    requires Inverse(t.sessions, t.byId)
    ensures NothingOf(RemoveSession(t, peer), peer)
  {
  }

  /** ...and takes nothing from anyone else. */
  lemma RemoveSparesOthers(t: Table, peer: NodeId)
    requires peer in t.sessions ==> t.sessions[peer].id !in t.retired
    ensures SameForOthers(t, RemoveSession(t, peer), peer)
  {
  }

  lemma ReplaceActiveKeepsInv(cap: Capacity, t: Table, peer: NodeId, s: Session)
    requires Inv(cap, t) && peer in t.sessions
    requires s.id == t.sessions[peer].id && s.peer == peer && s.established
    ensures Inv(cap, t.(sessions := t.sessions[peer := s]))
  {
    InsertSize(t.sessions, peer, s);
  }

  lemma ReplaceRetiredKeepsInv(cap: Capacity, t: Table, id: SessionId, s: Session)
    requires Inv(cap, t) && id in t.retired && s.id == id && s.established
    ensures Inv(cap, t.(retired := t.retired[id := t.retired[id].(session := s)]))
  {
    InsertSize(t.retired, id, t.retired[id].(session := s));
  }

  lemma DecryptKeepsInv(cap: Capacity, t: Table, frame: DataFrame)
    requires Inv(cap, t)
    ensures Inv(cap, Decrypt(t, frame).0)
  {
    if Takes(t, frame) {
      var s := FindById(t, frame.id).value;
      var u := s.(window := Replay.Update(s.window, frame.seqNo));
      if frame.id in t.byId {
        ReplaceActiveKeepsInv(cap, t, t.byId[frame.id], u);
      } else {
        ReplaceRetiredKeepsInv(cap, t, frame.id, u);
      }
    }
  }

  lemma EncryptKeepsInv(c: Config, t: Table, peer: NodeId, logical: nat)
    requires Inv(c.capacity, t)
    ensures Inv(c.capacity, Encrypt(c, t, peer, logical).0)
  {
    if peer in t.sessions {
      var s := t.sessions[peer];
      ReplaceActiveKeepsInv(c.capacity, t, peer, s.(sendSeq := s.sendSeq + 1));
    }
  }

  lemma AdmitKeepsInv(c: Config, t: Table, frame: InitFrame, outerId: SessionId, now: Time)
    requires Inv(c.capacity, t)
    ensures Inv(c.capacity, InitAdmit(c, t, frame, outerId, now).0)
  {
    AdmitOnlyForgets(c, t, frame, outerId, now);
    ForgettingKeepsInv(c.capacity, t, InitAdmit(c, t, frame, outerId, now).0);
  }

  lemma DecideKeepsInv(c: Config, t: Table, frame: InitFrame, now: Time, ttl: nat)
    requires Inv(c.capacity, t)
    ensures Inv(c.capacity, InitDecide(c, t, frame, now, ttl).0)
  {
    DecideOnlyForgets(c, t, frame, now, ttl);
    ForgettingKeepsInv(c.capacity, t, InitDecide(c, t, frame, now, ttl).0);
  }

  lemma PurgeKeepsInv(cap: Capacity, t: Table, now: Time)
    ensures Inv(cap, t) ==> Inv(cap, t.(retired := LiveRetired(t.retired, now))) && Inv(cap, t.(pending := LivePending(t.pending, now)))
  {
    if Inv(cap, t) {
      PurgesOnlyForget(t, now);
      ForgettingKeepsInv(cap, t, t.(retired := LiveRetired(t.retired, now)));
      ForgettingKeepsInv(cap, t, t.(pending := LivePending(t.pending, now)));
    }
  }
}
