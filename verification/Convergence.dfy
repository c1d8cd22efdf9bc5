/**
 Two session managers that may start handshakes with each other at the same time, over a network that
 delays, reorders and duplicates. INIT handling keeps its three sections; starting a handshake may fall
 between them, but INIT and response handling share one receive thread.
 */
module Convergence {
  import opened Basics
  import opened SessionTable

  /** One end of the pair: its configuration, the INIT it would send, the INIT it may receive, and a time by
      which nothing the pair creates has expired. */
  datatype Ends = Ends(config: Config, other: NodeId, mine: InitFrame, theirs: InitFrame, deadline: Time)

  datatype Active = Active(id: SessionId, local: bool, key: SessionKey)

  /** All that matters of a table to this pair. */
  datatype View = View(waiting: bool, active: Option<Active>, noted: bool)

  ghost function ActiveOf(t: Table, other: NodeId): Option<Active> {
    if other in t.sessions
    then Some(Active(t.sessions[other].id, t.sessions[other].initiatedLocally, t.sessions[other].key))
    else None
  }

  ghost function ViewOf(e: Ends, t: Table): View {
    View(e.mine.id in t.pending, ActiveOf(t, e.other), e.theirs in t.replays)
  }

  predicate WellPosed(e: Ends) {
    && e.config.node != e.other && e.config.publicKey == KeyOf(e.config.node)
    && e.mine.id != 0 && e.mine.id != e.theirs.id
    && e.mine == InitFrame(e.mine.id, e.config.network, e.config.publicKey, KeyOf(e.other), e.mine.ephemeral)
    && e.theirs == InitFrame(e.theirs.id, e.config.network, KeyOf(e.other), e.config.publicKey, e.theirs.ephemeral)
  }

  /** The pending entries for the other end are at most this end's own handshake, which outlives the deadline. */
  ghost predicate PendingScoped(e: Ends, pending: map<SessionId, Pending>) {
    && (forall id :: id in pending && pending[id].peer == e.other ==> id == e.mine.id)
    && (e.mine.id in pending ==>
          var p := pending[e.mine.id];
          p == Pending(e.other, KeyOf(e.other), e.mine.ephemeral, p.expires) && e.deadline <= p.expires)
    && e.theirs.id !in pending
  }

  ghost predicate Framed(e: Ends, t: Table) {
    && Inv(e.config.capacity, t)
    && PendingScoped(e, t.pending)
    && (e.theirs in t.replays ==> e.deadline <= t.replays[e.theirs])
    && (e.theirs !in t.replays ==> !Knows(t, e.theirs.id))
    && (e.other in t.sessions || |t.sessions| < e.config.capacity.active)
  }

  /** This end can still start its handshake. */
  ghost predicate Ready(e: Ends, t: Table) {
    !Knows(t, e.mine.id) && |t.pending| < e.config.capacity.pending
  }

  // ---------- what each section does to the view ----------

  lemma PurgeKeepsScope(e: Ends, t: Table, now: Time)
    requires PendingScoped(e, t.pending) && now < e.deadline
    ensures PendingScoped(e, LivePending(t.pending, now))
    ensures e.mine.id in LivePending(t.pending, now) <==> e.mine.id in t.pending
  {
  }

  lemma PurgeKeepsFrame(e: Ends, t: Table, now: Time)
    requires Framed(e, t) && now < e.deadline
    ensures var r := t.(pending := LivePending(t.pending, now));
      Framed(e, r) && ViewOf(e, r) == ViewOf(e, t) && (Ready(e, t) ==> Ready(e, r))
      && (!Knows(t, e.theirs.id) ==> !Knows(r, e.theirs.id))
  {
    var r := t.(pending := LivePending(t.pending, now));
    ForgettingKeepsInv(e.config.capacity, t, r);
    PurgeKeepsScope(e, t, now);
    SubmapSize(r.pending, t.pending);
  }

  lemma StartView(e: Ends, t: Table, now: Time, timeout: nat)
    requires WellPosed(e) && Framed(e, t) && Ready(e, t) && now < e.deadline <= now + timeout
    ensures var (r, frame) :=
        CreateInit(e.config, t, e.mine.id, e.other, KeyOf(e.other), e.mine.ephemeral, now, timeout);
      frame == Some(e.mine) && Framed(e, r) && ViewOf(e, r) == ViewOf(e, t).(waiting := true)
      && (!Knows(t, e.theirs.id) ==> !Knows(r, e.theirs.id))
  {
    PurgeKeepsFrame(e, t, now);
    var purged := t.(pending := LivePending(t.pending, now));
    AddPendingKeepsInv(e.config.capacity, purged, e.mine.id,
                       Pending(e.other, KeyOf(e.other), e.mine.ephemeral, now + timeout));
  }

  lemma AdmitView(e: Ends, t: Table, now: Time)
    requires WellPosed(e) && Framed(e, t) && now < e.deadline
    ensures var (r, ok) := InitAdmit(e.config, t, e.theirs, e.theirs.id, now);
      (ok <==> !ViewOf(e, t).noted) && Framed(e, r) && ViewOf(e, r) == ViewOf(e, t)
      && (Ready(e, t) ==> Ready(e, r))
  {
    PurgeKeepsFrame(e, t, now);
  }

  lemma SettleView(e: Ends, t: Table)
    requires Framed(e, t) && e.theirs in t.replays
    ensures var (r, ok) := Settle(e.config, t, e.other); var v := ViewOf(e, t);
      var priority := e.config.node < e.other;
      && (ok <==> !(priority && (v.waiting || (v.active.Some? && v.active.value.local))))
      && Framed(e, r) && (Ready(e, t) ==> Ready(e, r))
      && (!Knows(t, e.theirs.id) ==> !Knows(r, e.theirs.id))
      && ViewOf(e, r) == if priority then v else v.(waiting := false)
  {
    var r := Settle(e.config, t, e.other).0;
    SettleOnlyForgets(e.config, t, e.other);
    ForgettingKeepsInv(e.config.capacity, t, r);
    SubmapSize(r.pending, t.pending);
    assert FirstPendingFor(t.pending, e.other) == if e.mine.id in t.pending then Some(e.mine.id) else None;
  }

  lemma NoteKeepsFrame(e: Ends, t: Table, now: Time, ttl: nat)
    requires Framed(e, t) && now < e.deadline <= now + ttl && e.theirs !in t.replays
    ensures var r := t.(replays := LiveReplays(t.replays, now)[e.theirs := now + ttl]);
      Framed(e, r) && ViewOf(e, r) == ViewOf(e, t).(noted := true) && (Ready(e, t) ==> Ready(e, r))
  {
  }

  lemma DecideView(e: Ends, t: Table, now: Time, ttl: nat)
    requires WellPosed(e) && Framed(e, t) && now < e.deadline <= now + ttl
    ensures var (r, ok) := InitDecide(e.config, t, e.theirs, now, ttl); var v := ViewOf(e, t);
      var priority := e.config.node < e.other;
      && (ok <==> !v.noted && !(priority && (v.waiting || (v.active.Some? && v.active.value.local))))
      && Framed(e, r) && (Ready(e, t) ==> Ready(e, r))
      && (ok ==> !Knows(r, e.theirs.id))
      && ViewOf(e, r) == if v.noted || priority then v.(noted := true) else v.(noted := true, waiting := false)
  {
    PurgeKeepsFrame(e, t, now);
    var purged := t.(pending := LivePending(t.pending, now));
    if e.theirs !in t.replays {
      NoteKeepsFrame(e, purged, now, ttl);
      SettleView(e, purged.(replays := LiveReplays(t.replays, now)[e.theirs := now + ttl]));
    }
  }

  lemma CreateView(e: Ends, t: Table, id: SessionId, key: SessionKey, local: bool, now: Time, grace: int)
    requires Framed(e, t) && !Knows(t, id) && (e.theirs in t.replays || id != e.theirs.id)
    ensures var r := CreateSession(t, e.other, id, key, local, now, e.config.capacity.retired, grace);
      Framed(e, r) && ViewOf(e, r) == ViewOf(e, t).(active := Some(Active(id, local, key)))
      && r.pending == t.pending
      && (forall other :: other != id && !Knows(t, other) ==> !Knows(r, other))
  {
    CreateKeepsInv(e.config.capacity, t, e.other, id, key, local, now, grace);
    if e.other in t.sessions {
      RetireBounded(t.retired, t.sessions[e.other], now, e.config.capacity.retired, grace);
    }
  }

  lemma CommitView(e: Ends, t: Table, ephemeral: nat, now: Time, grace: int)
    requires WellPosed(e) && Framed(e, t) && !Knows(t, e.theirs.id) && e.theirs in t.replays && now < e.deadline
    ensures var (r, response) := InitCommit(e.config, t, e.theirs, ephemeral, now, grace);
      && response == Some(ResponseFrame(e.theirs.id, e.config.publicKey, e.theirs.ephemeral, ephemeral))
      && Framed(e, r) && (Ready(e, t) ==> Ready(e, r))
      && ViewOf(e, r) == ViewOf(e, t).(active := Some(Active(e.theirs.id, false, SplitKey(e.theirs.ephemeral, ephemeral))))
  {
    PurgeKeepsFrame(e, t, now);
    var purged := t.(pending := LivePending(t.pending, now));
    CreateView(e, purged, e.theirs.id, SplitKey(e.theirs.ephemeral, ephemeral), false, now, grace);
  }

  lemma TakeKeepsFrame(e: Ends, t: Table)
    requires Framed(e, t)
    ensures var r := t.(pending := t.pending - {e.mine.id});
      Framed(e, r) && ViewOf(e, r) == ViewOf(e, t).(waiting := false)
  {
    var r := t.(pending := t.pending - {e.mine.id});
    ForgettingKeepsInv(e.config.capacity, t, r);
  }

  lemma ResponseView(e: Ends, t: Table, frame: ResponseFrame, now: Time, grace: int)
    requires WellPosed(e) && Framed(e, t) && now < e.deadline
    requires frame == ResponseFrame(e.mine.id, KeyOf(e.other), e.mine.ephemeral, frame.ephemeral)
    ensures var r := HandleResponse(e.config, t, e.mine.id, Some(frame), now, grace).0; var v := ViewOf(e, t);
      var keeps := v.active.Some? && !v.active.value.local && e.other < e.config.node;
      && Framed(e, r)
      && ViewOf(e, r) ==
         if !v.waiting then v
         else if keeps then v.(waiting := false)
         else v.(waiting := false, active := Some(Active(e.mine.id, true, SplitKey(e.mine.ephemeral, frame.ephemeral))))
  {
    PurgeKeepsFrame(e, t, now);
    var purged := t.(pending := LivePending(t.pending, now));
    if e.mine.id in purged.pending {
      TakeKeepsFrame(e, purged);
      var taken := purged.(pending := purged.pending - {e.mine.id});
      CreateView(e, taken, e.mine.id, SplitKey(e.mine.ephemeral, frame.ephemeral), true, now, grace);
    }
  }
}
