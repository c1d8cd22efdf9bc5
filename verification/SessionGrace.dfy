/** The grace window over whole runs: what a rekey supersedes stays readable until it runs out, is evicted or torn down. */
module SessionGrace {
  import opened Basics
  import opened Frames
  import opened Replay
  import opened SessionLaws
  import opened SessionRuns
  import opened SessionTable

  /** The operation may cost the retired session its place: it ran out, it is the oldest of a full map, or its peer goes. */
  ghost predicate Endangers(c: Config, t: Table, op: Op, id: SessionId)
    requires id in t.retired
  {
    match op
    case PurgeRetired(now) => now >= t.retired[id].expires
    case Remove(peer) => peer == t.retired[id].session.peer
    case Commit(_, _, now, _) => now >= t.retired[id].expires || Evictable(c, t, id, now)
    case Respond(_, _, now, _) => now >= t.retired[id].expires || Evictable(c, t, id, now)
    case _ => false
  }

  ghost predicate Evictable(c: Config, t: Table, id: SessionId, now: Time) {
    IsOldest(LiveRetired(t.retired, now), id) && |LiveRetired(t.retired, now)| >= c.capacity.retired
  }

  /** The same session of the same node, whatever its window has taken. */
  ghost predicate SameButWindow(a: Session, b: Session) {
    b == a.(window := b.window)
  }

  ghost predicate StaysRetired(t: Table, r: Table, id: SessionId)
    requires id in t.retired
  {
    id in r.retired && r.retired[id].expires == t.retired[id].expires && SameButWindow(t.retired[id].session, r.retired[id].session)
  }

  lemma CreateSparesRetired(
    c: Config, t: Table, peer: NodeId, newId: SessionId, key: SessionKey, local: bool, now: Time, grace: int, id: SessionId)
    requires Inv(c.capacity, t) && id in t.retired && now < t.retired[id].expires && !Evictable(c, t, id, now)
    ensures var r := CreateSession(t, peer, newId, key, local, now, c.capacity.retired, grace);
      id in r.retired && r.retired[id] == t.retired[id]
  {
    if peer in t.sessions {
      RetireBounded(t.retired, t.sessions[peer], now, c.capacity.retired, grace);
    }
  }

  lemma CommitSparesRetired(c: Config, t: Table, op: Op, id: SessionId)
    requires Inv(c.capacity, t) && op.Commit? && id in t.retired && !Endangers(c, t, op, id)
    ensures StaysRetired(t, Next(c, t, op), id)
  {
    var purged := t.(pending := LivePending(t.pending, op.now));
    PurgeKeepsInv(c.capacity, t, op.now);
    var key := SplitKey(op.init.ephemeral, op.ephemeral);
    CreateSparesRetired(c, purged, HashPublicKey(op.init.initiator), op.init.id, key, false, op.now, op.grace, id);
  }

  lemma RespondSparesRetired(c: Config, t: Table, op: Op, id: SessionId)
    requires Inv(c.capacity, t) && op.Respond? && id in t.retired && !Endangers(c, t, op, id)
    ensures StaysRetired(t, Next(c, t, op), id)
  {
    if HandleResponse(c, t, op.id, op.response, op.now, op.grace).1 {
      var p := t.pending[op.id];
      var taken := t.(pending := LivePending(t.pending, op.now) - {op.id});
      ForgettingKeepsInv(c.capacity, t, taken);
      CreateSparesRetired(c, taken, p.peer, op.id, SplitKey(p.ephemeral, op.response.value.ephemeral), true, op.now, op.grace, id);
    }
  }

  lemma ReceiveSparesRetired(t: Table, frame: DataFrame, id: SessionId)
    requires id in t.retired
    ensures StaysRetired(t, Decrypt(t, frame).0, id)
  {
  }

  /** These touch no retired session. */
  lemma OthersSpareRetired(c: Config, t: Table, op: Op)
    requires op.Initiate? || op.Admit? || op.PurgePending? || op.PurgeReplays? || op.Send?
    ensures Next(c, t, op).retired == t.retired
  {
  }

  lemma DecideSparesRetired(c: Config, t: Table, init: InitFrame, now: Time, ttl: nat)
    ensures InitDecide(c, t, init, now, ttl).0.retired == t.retired
  {
  }

  lemma NextSparesRetired(c: Config, t: Table, op: Op, id: SessionId)
    requires Inv(c.capacity, t) && id in t.retired && !Endangers(c, t, op, id)
    ensures StaysRetired(t, Next(c, t, op), id)
  {
    match op
    case Commit(_, _, _, _) => CommitSparesRetired(c, t, op, id);
    case Respond(_, _, _, _) => RespondSparesRetired(c, t, op, id);
    case Receive(frame) => ReceiveSparesRetired(t, frame, id);
    case Decide(init, now, ttl) => DecideSparesRetired(c, t, init, now, ttl);
    case Remove(peer) => RemoveSparesOthers(t, peer);
    case PurgeRetired(_) =>
    case _ => OthersSpareRetired(c, t, op);
  }

  /** No operation of the run endangers the retired session. */
  ghost predicate Undisturbed(c: Config, n: Node, ops: seq<Op>, id: SessionId)
    decreases |ops|
  {
    ops == [] || (id in n.table.retired && !Endangers(c, n.table, ops[0], id) && Undisturbed(c, NextNode(c, n, ops[0]), ops[1..], id))
  }

  lemma {:induction false} RunSparesRetired(c: Config, n: Node, ops: seq<Op>, id: SessionId)
    requires Inv(c.capacity, n.table) && id in n.table.retired && Undisturbed(c, n, ops, id)
    ensures StaysRetired(n.table, RunNode(c, n, ops).table, id)
    decreases |ops|
  {
    if ops != [] {
      NextSparesRetired(c, n.table, ops[0], id);
      NextKeepsInv(c, n.table, ops[0]);
      RunSparesRetired(c, NextNode(c, n, ops[0]), ops[1..], id);
    }
  }

  /** The operation installs a session of another identity for a peer that has one. */
  ghost predicate Rekeys(c: Config, t: Table, op: Op, peer: NodeId) {
    && (op.Commit? || op.Respond?) && peer in t.sessions
    && var r := Next(c, t, op); peer in r.sessions && r.sessions[peer].id != t.sessions[peer].id
  }

  lemma CreateRetires(
    c: Config, t: Table, owner: NodeId, id: SessionId, key: SessionKey, local: bool, now: Time, grace: int, peer: NodeId)
    requires Inv(c.capacity, t) && c.capacity.retired > 0 && peer in t.sessions
    requires CreateSession(t, owner, id, key, local, now, c.capacity.retired, grace).sessions[peer].id != t.sessions[peer].id
    ensures var s := t.sessions[peer]; var r := CreateSession(t, owner, id, key, local, now, c.capacity.retired, grace);
      s.id in r.retired && r.retired[s.id] == Retired(s, now + grace)
  {
    RetireBounded(t.retired, t.sessions[peer], now, c.capacity.retired, grace);
  }

  lemma CommitRetires(c: Config, t: Table, op: Op, peer: NodeId)
    requires Inv(c.capacity, t) && op.Commit? && Rekeys(c, t, op, peer) && c.capacity.retired > 0
    ensures var s := t.sessions[peer]; var r := Next(c, t, op);
      s.id in r.retired && r.retired[s.id] == Retired(s, op.now + op.grace)
  {
    var purged := t.(pending := LivePending(t.pending, op.now));
    PurgeKeepsInv(c.capacity, t, op.now);
    CreateRetires(c, purged, HashPublicKey(op.init.initiator), op.init.id, SplitKey(op.init.ephemeral, op.ephemeral), false, op.now, op.grace, peer);
  }

  lemma RespondRetires(c: Config, t: Table, op: Op, peer: NodeId)
    requires Inv(c.capacity, t) && op.Respond? && Rekeys(c, t, op, peer) && c.capacity.retired > 0
    ensures var s := t.sessions[peer]; var r := Next(c, t, op);
      s.id in r.retired && r.retired[s.id] == Retired(s, op.now + op.grace)
  {
    var p := t.pending[op.id];
    var taken := t.(pending := LivePending(t.pending, op.now) - {op.id});
    ForgettingKeepsInv(c.capacity, t, taken);
    CreateRetires(c, taken, p.peer, op.id, SplitKey(p.ephemeral, op.response.value.ephemeral), true, op.now, op.grace, peer);
  }

  /** A rekey moves the superseded session, window and all, to the retired map for its grace window. */
  lemma RekeyRetires(c: Config, t: Table, op: Op, peer: NodeId)
    requires Inv(c.capacity, t) && Rekeys(c, t, op, peer) && c.capacity.retired > 0
    ensures var s := t.sessions[peer]; var r := Next(c, t, op);
      s.id in r.retired && r.retired[s.id] == Retired(s, op.now + op.grace)
  {
    if op.Commit? { CommitRetires(c, t, op, peer); } else { RespondRetires(c, t, op, peer); }
  }

  /**
   After a rekey with room for retired sessions, a frame of the superseded session is still accepted, whatever the node
   does meanwhile, until its grace runs out, it is evicted as the oldest or its peer is torn down.
   */
  lemma GraceIsKept(c: Config, ops: seq<Op>, op: Op, peer: NodeId, later: seq<Op>, frame: DataFrame)
    requires Honest(c, START, ops) && c.capacity.retired > 0
    requires var n := RunNode(c, START, ops); DrawsFresh(n, op) && Rekeys(c, n.table, op, peer)
    requires var n := RunNode(c, START, ops); var m := NextNode(c, n, op);
      Honest(c, m, later) && Undisturbed(c, m, later, n.table.sessions[peer].id)
    requires var n := RunNode(c, START, ops); var s := n.table.sessions[peer]; var end := RunNode(c, NextNode(c, n, op), later);
      && frame.id == s.id && frame.key == s.key && frame.byInitiator != s.initiatedLocally
      && Readable(frame.payload) && ProperlyPadded(frame.payload) && StillOpen(end, s, frame.seqNo)
    ensures var n := RunNode(c, START, ops); Decrypt(RunNode(c, NextNode(c, n, op), later).table, frame).1
  {
    var n := RunNode(c, START, ops);
    var s := n.table.sessions[peer];
    RunStaysTracked(c, START, ops);
    var m := NextNode(c, n, op);
    NextKeepsInv(c, n.table, op);
    NextStaysTracked(c, n, op);
    RekeyRetires(c, n.table, op, peer);
    var end := RunNode(c, m, later);
    RunSparesRetired(c, m, later, s.id);
    RunStaysTracked(c, m, later);
    RetiredIsOpened(c, end, s, frame);
  }

  lemma RetiredIsOpened(c: Config, n: Node, s: Session, frame: DataFrame)
    requires Inv(c.capacity, n.table) && Tracked(n) && s.id in n.table.retired && SameButWindow(s, n.table.retired[s.id].session)
    requires frame.id == s.id && frame.key == s.key && frame.byInitiator != s.initiatedLocally
    requires Readable(frame.payload) && ProperlyPadded(frame.payload) && StillOpen(n, s, frame.seqNo)
    ensures Decrypt(n.table, frame).1
  {
    var now := n.table.retired[s.id].session;
    assert Holds(n.table, now);
    FoundIsHeld(c.capacity, n.table, s.id, now);
    OpenIsChecked(c.capacity, n, now, frame.seqNo);
  }
}
