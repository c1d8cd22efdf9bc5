/**
 Which advertisements a recipient has already been sent. Contents get revision numbers; a recipient is
 remembered with the revision of the last advertisement whose every chunk was handed to the transport.
 */
module GossipDelta {
  import opened Basics
  import opened PeerTable
  import PrefixOrder
  import opened GossipBatches

  datatype Current = Current(peer: AdvertisedPeer, revision: nat)

  datatype Tracker = Tracker(current: map<NodeId, Current>, sent: map<NodeId, map<NodeId, nat>>, next: nat)

  const RESET := Tracker(map[], map[], 1)

  function Canonicalized(p: AdvertisedPeer): AdvertisedPeer {
    p.(prefixes := PrefixOrder.SortUnique(p.prefixes))
  }

  /** A later entry for the same node replaces an earlier one. */
  function Wanted(advertised: seq<AdvertisedPeer>): (r: map<NodeId, AdvertisedPeer>)
    ensures forall id :: id in r ==> r[id].nodeId == id
  {
    if advertised == [] then map[]
    else
      var last := advertised[|advertised| - 1];
      Wanted(advertised[..|advertised| - 1])[last.nodeId := Canonicalized(last)]
  }

  // ---------- preparing ----------

  predicate Unchanged(t: Tracker, id: NodeId, p: AdvertisedPeer) {
    id in t.current && t.current[id].peer == p
  }

  predicate Changed(t: Tracker, wanted: map<NodeId, AdvertisedPeer>, id: NodeId) {
    id in wanted && !Unchanged(t, id, wanted[id])
  }

  /** Unchanged contents keep their revision, changed ones get a new one of their own. */
  ghost predicate Renumbers(t: Tracker, wanted: map<NodeId, AdvertisedPeer>, current: map<NodeId, Current>, next: nat) {
    && t.next <= next
    && (forall id :: id in current <==> id in wanted)
    && (forall id :: id in wanted ==> current[id].peer == wanted[id])
    && (forall id :: id in wanted && !Changed(t, wanted, id) ==> current[id] == t.current[id])
    && (forall id :: Changed(t, wanted, id) ==> t.next <= current[id].revision < next)
    && (forall id, od :: Changed(t, wanted, id) && Changed(t, wanted, od) && id != od ==> current[id].revision != current[od].revision)
  }

  function Remembered(sent: map<NodeId, map<NodeId, nat>>, wanted: map<NodeId, AdvertisedPeer>): map<NodeId, map<NodeId, nat>> {
    map r | r in sent :: map id | id in sent[r] && id in wanted :: sent[r][id]
  }

  ghost predicate Prepares(t: Tracker, advertised: seq<AdvertisedPeer>, after: Tracker) {
    var wanted := Wanted(advertised);
    Renumbers(t, wanted, after.current, after.next) && after.sent == Remembered(t.sent, wanted)
  }

  predicate AlreadySent(t: Tracker, recipient: NodeId, id: NodeId)
    requires id in t.current
  {
    recipient in t.sent && id in t.sent[recipient] && t.sent[recipient][id] == t.current[id].revision
  }

  predicate Due(t: Tracker, recipient: NodeId, force: bool, id: NodeId)
    requires id in t.current
  {
    force || !AlreadySent(t, recipient, id)
  }

  function UpdateFor(t: Tracker, id: NodeId): Update
    requires id in t.current
  {
    Update(t.current[id].peer, t.current[id].revision)
  }

  /** Exactly the due advertisements. */
  ghost predicate Lists(t: Tracker, recipient: NodeId, force: bool, updates: seq<Update>) {
    && (forall u :: u in updates ==> exists id :: id in t.current && Due(t, recipient, force, id) && u == UpdateFor(t, id))
    && (forall id :: id in t.current && Due(t, recipient, force, id) ==> UpdateFor(t, id) in updates)
  }

  // ---------- committing ----------

  function Raised(m: map<NodeId, nat>, completed: seq<(NodeId, nat)>): map<NodeId, nat> {
    if completed == [] then m
    else
      var n := |completed| - 1;
      var r := Raised(m, completed[..n]);
      var (id, revision) := completed[n];
      r[id := if id in r && r[id] > revision then r[id] else revision]
  }

  function Commit(t: Tracker, recipient: NodeId, completed: seq<(NodeId, nat)>): Tracker {
    var m := if recipient in t.sent then t.sent[recipient] else map[];
    t.(sent := t.sent[recipient := Raised(m, completed)])
  }

  /** Batches are committed one by one as they are sent. */
  function CommitBatches(t: Tracker, recipient: NodeId, groups: seq<seq<Piece>>): Tracker {
    if groups == [] then t
    else Commit(CommitBatches(t, recipient, groups[..|groups| - 1]), recipient, DoneIn(groups[|groups| - 1]))
  }

  // ---------- a node's gossip over time ----------

  /** `log` is what has been handed to the transport; `issued` every revision ever given to a content. */
  datatype System = System(tracker: Tracker, issued: set<(nat, AdvertisedPeer)>, log: map<NodeId, set<AdvertisedPeer>>)

  datatype Act =
    | Send(recipient: NodeId, advertised: seq<AdvertisedPeer>, force: bool, limit: nat,
           prepared: Tracker, updates: seq<Update>, batches: nat)
    | Forget(sent: map<NodeId, map<NodeId, nat>>)

  /** Some of what is remembered of each recipient, unchanged. */
  ghost predicate PartOfSent(some: map<NodeId, map<NodeId, nat>>, sent: map<NodeId, map<NodeId, nat>>) {
    forall r :: r in some ==> r in sent && forall id :: id in some[r] ==> id in sent[r] && some[r][id] == sent[r][id]
  }

  /**
   A send prepares, cuts batches, and hands over the first few in order until one fails; one lock is held throughout.
   Recipients are forgotten under another lock, so also between a prepare and its commits: then only a part of what
   the send records remains.
   */
  ghost predicate Allowed(s: System, act: Act) {
    match act
    case Send(recipient, advertised, force, limit, prepared, updates, batches) =>
      && Prepares(s.tracker, advertised, prepared) && Lists(prepared, recipient, force, updates)
      && batches <= |Groups(updates, limit)|
    case Forget(sent) => PartOfSent(sent, s.tracker.sent)
  }

  function Logged(log: map<NodeId, set<AdvertisedPeer>>, recipient: NodeId): set<AdvertisedPeer> {
    if recipient in log then log[recipient] else {}
  }

  function Assignments(t: Tracker): set<(nat, AdvertisedPeer)> {
    set id | id in t.current :: (t.current[id].revision, t.current[id].peer)
  }

  function Chunks(pieces: seq<Piece>): set<AdvertisedPeer> {
    set i | 0 <= i < |pieces| :: pieces[i].chunk
  }

  function Next(s: System, act: Act): System
    requires Allowed(s, act)
  {
    match act
    case Send(recipient, _, _, limit, prepared, updates, batches) =>
      var groups := Groups(updates, limit)[..batches];
      System(CommitBatches(prepared, recipient, groups),
             s.issued + Assignments(prepared),
             LogAfter(s.log, recipient, groups))
    case Forget(sent) => s.(tracker := s.tracker.(sent := sent))
  }

  // ---------- the invariant ----------

  /** Every chunk of the advertisement has been handed over. */
  ghost predicate WhollySent(log: map<NodeId, set<AdvertisedPeer>>, recipient: NodeId, p: AdvertisedPeer) {
    forall part :: part in Parts(p.prefixes) ==> Chunk(p, part) in Logged(log, recipient)
  }

  /** A revision stands for one content. */
  ghost predicate Numbered(t: Tracker, issued: set<(nat, AdvertisedPeer)>) {
    && (forall x :: x in issued ==> x.0 < t.next)
    && (forall x, y :: x in issued && y in issued && x.0 == y.0 ==> x.1 == y.1)
    && (forall id :: id in t.current ==> t.current[id].peer.nodeId == id && (t.current[id].revision, t.current[id].peer) in issued)
  }

  ghost predicate SentOk(t: Tracker, issued: set<(nat, AdvertisedPeer)>, log: map<NodeId, set<AdvertisedPeer>>) {
    && (forall r, id :: r in t.sent && id in t.sent[r] ==> t.sent[r][id] < t.next)
    && (forall r, id, x :: r in t.sent && id in t.sent[r] && x in issued && x.0 == t.sent[r][id] ==> WhollySent(log, r, x.1))
    && (forall r, id :: r in t.sent && id in t.sent[r] && id in t.current ==> t.sent[r][id] <= t.current[id].revision)
  }

  ghost predicate GossipOk(s: System) {
    Numbered(s.tracker, s.issued) && SentOk(s.tracker, s.issued, s.log)
  }

  /** A content in use has an old number, or a new one that no other content has. */
  lemma NumberOf(t: Tracker, issued: set<(nat, AdvertisedPeer)>, advertised: seq<AdvertisedPeer>, after: Tracker, x: (nat, AdvertisedPeer))
    requires Numbered(t, issued) && Prepares(t, advertised, after) && x in Assignments(after)
    ensures x in issued || exists id :: Changed(t, Wanted(advertised), id) && x == (after.current[id].revision, after.current[id].peer)
    ensures x.0 < after.next
  {
    var id :| id in after.current && x == (after.current[id].revision, after.current[id].peer);
    assert id in Wanted(advertised);
  }

  lemma SameNumberSameContent(t: Tracker, issued: set<(nat, AdvertisedPeer)>, advertised: seq<AdvertisedPeer>, after: Tracker,
                              x: (nat, AdvertisedPeer), y: (nat, AdvertisedPeer))
    requires Numbered(t, issued) && Prepares(t, advertised, after) && x.0 == y.0 && x !in issued
    requires x in Assignments(after) && (y in issued || y in Assignments(after))
    ensures x == y
  {
    NumberOf(t, issued, advertised, after, x);
    if y !in issued {
      NumberOf(t, issued, advertised, after, y);
    }
  }

  lemma IssuedBelowNext(t: Tracker, issued: set<(nat, AdvertisedPeer)>, advertised: seq<AdvertisedPeer>, after: Tracker, x: (nat, AdvertisedPeer))
    requires Numbered(t, issued) && Prepares(t, advertised, after) && (x in issued || x in Assignments(after))
    ensures x.0 < after.next
  {
    if x !in issued {
      NumberOf(t, issued, advertised, after, x);
    }
  }

  lemma PrepareKeepsNumbered(t: Tracker, issued: set<(nat, AdvertisedPeer)>, advertised: seq<AdvertisedPeer>, after: Tracker)
    requires Numbered(t, issued) && Prepares(t, advertised, after)
    ensures Numbered(after, issued + Assignments(after))
  {
    var given := Assignments(after);
    var more := issued + given;
    forall x | x in more ensures x.0 < after.next {
      IssuedBelowNext(t, issued, advertised, after, x);
    }
    forall x, y | x in more && y in more && x.0 == y.0 ensures x.1 == y.1 {
      if x in given && x !in issued {
        SameNumberSameContent(t, issued, advertised, after, x, y);
      } else if y in given && y !in issued {
        SameNumberSameContent(t, issued, advertised, after, y, x);
      }
    }
    forall id | id in after.current
      ensures after.current[id].peer.nodeId == id && (after.current[id].revision, after.current[id].peer) in more
    {
      assert (after.current[id].revision, after.current[id].peer) in given;
    }
  }

  ghost predicate RecordOk(t: Tracker, issued: set<(nat, AdvertisedPeer)>, log: map<NodeId, set<AdvertisedPeer>>, r: NodeId, id: NodeId)
    requires r in t.sent && id in t.sent[r]
  {
    && t.sent[r][id] < t.next && (id in t.current ==> t.sent[r][id] <= t.current[id].revision)
    && forall x :: x in issued && x.0 == t.sent[r][id] ==> WhollySent(log, r, x.1)
  }

  lemma PreparedRecordOk(t: Tracker, issued: set<(nat, AdvertisedPeer)>, log: map<NodeId, set<AdvertisedPeer>>,
                         advertised: seq<AdvertisedPeer>, after: Tracker, r: NodeId, id: NodeId)
    requires Numbered(t, issued) && SentOk(t, issued, log) && Prepares(t, advertised, after)
    requires r in after.sent && id in after.sent[r]
    ensures RecordOk(after, issued + Assignments(after), log, r, id)
  {
    assert r in t.sent && id in t.sent[r] && after.sent[r][id] == t.sent[r][id];
    forall x | x in issued + Assignments(after) && x.0 == after.sent[r][id] ensures WhollySent(log, r, x.1) {
      if x !in issued {
        NumberOf(t, issued, advertised, after, x);
        assert false;
      }
    }
  }

  lemma PrepareKeepsSent(t: Tracker, issued: set<(nat, AdvertisedPeer)>, log: map<NodeId, set<AdvertisedPeer>>,
                         advertised: seq<AdvertisedPeer>, after: Tracker)
    requires Numbered(t, issued) && SentOk(t, issued, log) && Prepares(t, advertised, after)
    ensures SentOk(after, issued + Assignments(after), log)
  {
    forall r, id | r in after.sent && id in after.sent[r] ensures RecordOk(after, issued + Assignments(after), log, r, id) {
      PreparedRecordOk(t, issued, log, advertised, after, r, id);
    }
  }

  // ---------- commits ----------

  lemma {:induction false} RaisedValues(m: map<NodeId, nat>, completed: seq<(NodeId, nat)>)
    ensures var r := Raised(m, completed);
      && (forall id :: id in r ==> (id in m && r[id] == m[id]) || (id, r[id]) in completed)
      && (forall id :: id in m ==> id in r && r[id] >= m[id])
      && (forall x :: x in completed ==> x.0 in r && r[x.0] >= x.1)
  {
    if completed != [] {
      var n := |completed| - 1;
      RaisedValues(m, completed[..n]);
      var shorter, r := Raised(m, completed[..n]), Raised(m, completed);
      assert completed == completed[..n] + [completed[n]];
      forall id | id in r ensures (id in m && r[id] == m[id]) || (id, r[id]) in completed {
        if id in shorter && r[id] == shorter[id] {
          assert (id, r[id]) in completed[..n] ==> (id, r[id]) in completed;
        } else {
          assert (id, r[id]) == completed[n];
        }
      }
    }
  }

  ghost predicate DoneAt(pieces: seq<Piece>, i: nat, id: NodeId, revision: nat) {
    i < |pieces| && pieces[i].done == Some((id, revision))
  }

  /** What a recipient is recorded with after some commits was recorded before or completed in one of them. */
  ghost predicate RecordsFrom(before: Tracker, recipient: NodeId, pieces: seq<Piece>, after: Tracker) {
    && after.current == before.current && after.next == before.next
    && (forall r :: r != recipient ==> (r in after.sent <==> r in before.sent))
    && (forall r :: r != recipient && r in before.sent ==> after.sent[r] == before.sent[r])
    && (recipient in before.sent ==> recipient in after.sent)
    && (recipient in after.sent ==> forall id :: id in after.sent[recipient] ==>
          || (recipient in before.sent && id in before.sent[recipient] && after.sent[recipient][id] == before.sent[recipient][id])
          || exists i :: DoneAt(pieces, i, id, after.sent[recipient][id]))
  }

  lemma CommitRecordsFrom(before: Tracker, recipient: NodeId, pieces: seq<Piece>, t: Tracker, group: seq<Piece>)
    requires RecordsFrom(before, recipient, pieces, t)
    ensures RecordsFrom(before, recipient, pieces + group, Commit(t, recipient, DoneIn(group)))
  {
    var after := Commit(t, recipient, DoneIn(group));
    var m := if recipient in t.sent then t.sent[recipient] else map[];
    RaisedValues(m, DoneIn(group));
    forall id | id in after.sent[recipient]
      ensures (recipient in before.sent && id in before.sent[recipient] && after.sent[recipient][id] == before.sent[recipient][id])
           || exists i :: DoneAt(pieces + group, i, id, after.sent[recipient][id])
    {
      var v := after.sent[recipient][id];
      if (id, v) in DoneIn(group) {
        var i :| 0 <= i < |group| && group[i].done == Some((id, v));
        assert DoneAt(pieces + group, |pieces| + i, id, v);
      } else if i :| DoneAt(pieces, i, id, v) {
        assert DoneAt(pieces + group, i, id, v);
      }
    }
  }

  lemma {:induction false} BatchesRecordFrom(t: Tracker, recipient: NodeId, groups: seq<seq<Piece>>)
    ensures RecordsFrom(t, recipient, Flatten(groups), CommitBatches(t, recipient, groups))
  {
    if groups != [] {
      var n := |groups| - 1;
      BatchesRecordFrom(t, recipient, groups[..n]);
      CommitRecordsFrom(t, recipient, Flatten(groups[..n]), CommitBatches(t, recipient, groups[..n]), groups[n]);
      FlattenAppend(groups[..n], groups[n]);
      assert groups == groups[..n] + [groups[n]];
    }
  }

  /** A revision completed in the batches sent so far belongs to an update whose chunks are all among them. */
  lemma CompletedIsSent(updates: seq<Update>, limit: nat, batches: nat, i: nat, id: NodeId, revision: nat) returns (u: Update)
    requires batches <= |Groups(updates, limit)| && DoneAt(Flatten(Groups(updates, limit)[..batches]), i, id, revision)
    ensures u in updates && u.peer.nodeId == id && u.revision == revision
    ensures forall part :: part in Parts(u.peer.prefixes) ==>
      Chunk(u.peer, part) in Chunks(Flatten(Groups(updates, limit)[..batches]))
  {
    var pieces := Flatten(Groups(updates, limit)[..batches]);
    var stream := Stream(updates, limit);
    BatchesCarryTheStream(updates, limit);
    SentIsPrefix(Groups(updates, limit), batches);
    assert stream[i] == pieces[i];
    u := DoneMeansSent(updates, limit, i, (id, revision));
    forall part | part in Parts(u.peer.prefixes) ensures Chunk(u.peer, part) in Chunks(pieces) {
      var j :| 0 <= j < |stream[..i + 1]| && stream[..i + 1][j].chunk == Chunk(u.peer, part);
      assert pieces[j] == stream[j];
    }
  }

  function LogAfter(log: map<NodeId, set<AdvertisedPeer>>, recipient: NodeId, groups: seq<seq<Piece>>): map<NodeId, set<AdvertisedPeer>> {
    log[recipient := Logged(log, recipient) + Chunks(Flatten(groups))]
  }

  lemma CommittedRecordOk(t: Tracker, issued: set<(nat, AdvertisedPeer)>, log: map<NodeId, set<AdvertisedPeer>>, recipient: NodeId,
                          force: bool, updates: seq<Update>, limit: nat, batches: nat, after: Tracker, r: NodeId, id: NodeId)
    requires Numbered(t, issued) && SentOk(t, issued, log) && Lists(t, recipient, force, updates)
    requires batches <= |Groups(updates, limit)| && r in after.sent && id in after.sent[r]
    requires RecordsFrom(t, recipient, Flatten(Groups(updates, limit)[..batches]), after)
    ensures RecordOk(after, issued, LogAfter(log, recipient, Groups(updates, limit)[..batches]), r, id)
  {
    var groups := Groups(updates, limit)[..batches];
    var more := LogAfter(log, recipient, groups);
    if r != recipient || (r in t.sent && id in t.sent[r] && after.sent[r][id] == t.sent[r][id]) {
      OldRecordOk(t, issued, log, more, after, r, id);
    } else {
      var i :| DoneAt(Flatten(groups), i, id, after.sent[r][id]);
      var u := CompletedIsSent(updates, limit, batches, i, id, after.sent[r][id]);
      NewRecordOk(t, issued, more, recipient, force, updates, after, u);
    }
  }

  lemma CommitKeepsSent(t: Tracker, issued: set<(nat, AdvertisedPeer)>, log: map<NodeId, set<AdvertisedPeer>>,
                        recipient: NodeId, force: bool, updates: seq<Update>, limit: nat, batches: nat)
    requires Numbered(t, issued) && SentOk(t, issued, log) && Lists(t, recipient, force, updates)
    requires batches <= |Groups(updates, limit)|
    ensures var groups := Groups(updates, limit)[..batches];
      SentOk(CommitBatches(t, recipient, groups), issued, LogAfter(log, recipient, groups))
  {
    var groups := Groups(updates, limit)[..batches];
    var after, more := CommitBatches(t, recipient, groups), LogAfter(log, recipient, groups);
    BatchesRecordFrom(t, recipient, groups);
    forall r, id | r in after.sent && id in after.sent[r] ensures RecordOk(after, issued, more, r, id) {
      CommittedRecordOk(t, issued, log, recipient, force, updates, limit, batches, after, r, id);
    }
    RecordsMakeSentOk(after, issued, more);
  }

  lemma RecordsMakeSentOk(t: Tracker, issued: set<(nat, AdvertisedPeer)>, log: map<NodeId, set<AdvertisedPeer>>)
    requires forall r, id :: r in t.sent && id in t.sent[r] ==> RecordOk(t, issued, log, r, id)
    ensures SentOk(t, issued, log)
  {
  }

  lemma OldRecordOk(t: Tracker, issued: set<(nat, AdvertisedPeer)>, log: map<NodeId, set<AdvertisedPeer>>,
                    more: map<NodeId, set<AdvertisedPeer>>, after: Tracker, r: NodeId, id: NodeId)
    requires SentOk(t, issued, log) && after.current == t.current && after.next == t.next
    requires r in t.sent && id in t.sent[r] && r in after.sent && id in after.sent[r] && after.sent[r][id] == t.sent[r][id]
    requires Logged(log, r) <= Logged(more, r)
    ensures RecordOk(after, issued, more, r, id)
  {
    forall x | x in issued && x.0 == after.sent[r][id] ensures WhollySent(more, r, x.1) {
      assert WhollySent(log, r, x.1);
    }
  }

  lemma NewRecordOk(t: Tracker, issued: set<(nat, AdvertisedPeer)>, more: map<NodeId, set<AdvertisedPeer>>, r: NodeId, force: bool,
                    updates: seq<Update>, after: Tracker, u: Update)
    requires Numbered(t, issued) && Lists(t, r, force, updates) && after.current == t.current && after.next == t.next
    requires u in updates && r in after.sent && u.peer.nodeId in after.sent[r] && after.sent[r][u.peer.nodeId] == u.revision
    requires WhollySent(more, r, u.peer)
    ensures RecordOk(after, issued, more, r, u.peer.nodeId)
  {
    var id :| id in t.current && Due(t, r, force, id) && u == UpdateFor(t, id);
    assert (u.revision, u.peer) in issued;
  }

  // ---------- whole runs ----------

  lemma NextKeepsOk(s: System, act: Act)
    requires GossipOk(s) && Allowed(s, act)
    ensures GossipOk(Next(s, act))
  {
    match act
    case Send(recipient, advertised, force, limit, prepared, updates, batches) =>
      var issued := s.issued + Assignments(prepared);
      PrepareKeepsNumbered(s.tracker, s.issued, advertised, prepared);
      PrepareKeepsSent(s.tracker, s.issued, s.log, advertised, prepared);
      CommitKeepsSent(prepared, issued, s.log, recipient, force, updates, limit, batches);
      BatchesRecordFrom(prepared, recipient, Groups(updates, limit)[..batches]);
    case Forget(_) =>
  }

  ghost predicate IsRun(s: System, acts: seq<Act>)
    decreases |acts|
  {
    acts == [] || (Allowed(s, acts[0]) && IsRun(Next(s, acts[0]), acts[1..]))
  }

  ghost function Run(s: System, acts: seq<Act>): System
    requires IsRun(s, acts)
    decreases |acts|
  {
    if acts == [] then s else Run(Next(s, acts[0]), acts[1..])
  }

  const START := System(RESET, {}, map[])

  lemma {:induction false} RunKeepsOk(s: System, acts: seq<Act>)
    requires GossipOk(s) && IsRun(s, acts)
    ensures GossipOk(Run(s, acts))
    decreases |acts|
  {
    if acts != [] {
      NextKeepsOk(s, acts[0]);
      RunKeepsOk(Next(s, acts[0]), acts[1..]);
    }
  }

  lemma OmittedIsSent(s: System, recipient: NodeId, advertised: seq<AdvertisedPeer>, prepared: Tracker,
                      updates: seq<Update>, id: NodeId)
    requires GossipOk(s) && Prepares(s.tracker, advertised, prepared) && Lists(prepared, recipient, false, updates)
    requires id in prepared.current && forall u :: u in updates ==> u.peer.nodeId != id
    ensures WhollySent(s.log, recipient, prepared.current[id].peer)
  {
    PrepareKeepsNumbered(s.tracker, s.issued, advertised, prepared);
    PrepareKeepsSent(s.tracker, s.issued, s.log, advertised, prepared);
    var u := UpdateFor(prepared, id);
    assert u.peer.nodeId == id;
    assert AlreadySent(prepared, recipient, id);
    var x := (u.revision, u.peer);
    assert x in s.issued + Assignments(prepared);
  }

  /**
   After any run, a delta leaves out a peer only if every chunk of its present advertisement, prefix by prefix and
   under the same path and key, has already been handed to the transport for that recipient.
   */
  lemma DeltaIsComplete(acts: seq<Act>, recipient: NodeId, advertised: seq<AdvertisedPeer>, prepared: Tracker,
                        updates: seq<Update>, id: NodeId)
    requires IsRun(START, acts)
    requires Prepares(Run(START, acts).tracker, advertised, prepared) && Lists(prepared, recipient, false, updates)
    requires id in Wanted(advertised) && forall u :: u in updates ==> u.peer.nodeId != id
    ensures var p := Wanted(advertised)[id];
      && WhollySent(Run(START, acts).log, recipient, p)
      && forall x :: x in p.prefixes ==> exists part :: x in part && Chunk(p, part) in Logged(Run(START, acts).log, recipient)
  {
    var s := Run(START, acts);
    RunKeepsOk(START, acts);
    OmittedIsSent(s, recipient, advertised, prepared, updates, id);
    SentPrefixes(s.log, recipient, Wanted(advertised)[id]);
  }

  lemma SentPrefixes(log: map<NodeId, set<AdvertisedPeer>>, recipient: NodeId, p: AdvertisedPeer)
    requires WhollySent(log, recipient, p)
    ensures forall x :: x in p.prefixes ==> exists part :: x in part && Chunk(p, part) in Logged(log, recipient)
  {
    forall x | x in p.prefixes ensures exists part :: x in part && Chunk(p, part) in Logged(log, recipient) {
      var part := PartHolding(p.prefixes, x);
    }
  }

  lemma {:induction false} PartHolding(prefixes: seq<AdvertisedPrefix>, x: AdvertisedPrefix) returns (part: seq<AdvertisedPrefix>)
    requires x in prefixes
    ensures x in part && part in Parts(prefixes)
    decreases |prefixes|
  {
    if |prefixes| <= MAX_PREFIXES || x in prefixes[..MAX_PREFIXES] {
      part := Parts(prefixes)[0];
    } else {
      assert x in prefixes[MAX_PREFIXES..];
      part := PartHolding(prefixes[MAX_PREFIXES..], x);
    }
  }

  // ---------- a send that goes through settles the recipient ----------

  lemma {:induction false} BatchesRecordAll(t: Tracker, recipient: NodeId, groups: seq<seq<Piece>>, i: nat, id: NodeId, revision: nat)
    requires DoneAt(Flatten(groups), i, id, revision)
    ensures var after := CommitBatches(t, recipient, groups);
      recipient in after.sent && id in after.sent[recipient] && after.sent[recipient][id] >= revision
  {
    var n := |groups| - 1;
    FlattenAppend(groups[..n], groups[n]);
    assert groups == groups[..n] + [groups[n]];
    var shorter := CommitBatches(t, recipient, groups[..n]);
    RaisedValues(if recipient in shorter.sent then shorter.sent[recipient] else map[], DoneIn(groups[n]));
    if i < |Flatten(groups[..n])| {
      BatchesRecordAll(t, recipient, groups[..n], i, id, revision);
    } else {
      assert groups[n][i - |Flatten(groups[..n])|].done == Some((id, revision));
    }
  }

  lemma {:induction false} BatchesLowerNothing(t: Tracker, recipient: NodeId, groups: seq<seq<Piece>>)
    ensures var after := CommitBatches(t, recipient, groups);
      recipient in t.sent ==>
        && recipient in after.sent
        && forall id :: id in t.sent[recipient] ==> id in after.sent[recipient] && after.sent[recipient][id] >= t.sent[recipient][id]
  {
    if groups != [] && recipient in t.sent {
      var n := |groups| - 1;
      BatchesLowerNothing(t, recipient, groups[..n]);
      RaisedValues(CommitBatches(t, recipient, groups[..n]).sent[recipient], DoneIn(groups[n]));
    }
  }

  lemma DueIsSettled(t: Tracker, recipient: NodeId, updates: seq<Update>, limit: nat, u: Update)
    requires u in updates && Fits(u, limit)
    ensures var after := CommitBatches(t, recipient, Groups(updates, limit));
      && recipient in after.sent && u.peer.nodeId in after.sent[recipient]
      && after.sent[recipient][u.peer.nodeId] >= u.revision
  {
    FittingCompletes(updates, limit, u);
    BatchesCarryTheStream(updates, limit);
    var x := (u.peer.nodeId, u.revision);
    var i :| 0 <= i < |Stream(updates, limit)| && Stream(updates, limit)[i].done == Some(x);
    BatchesRecordAll(t, recipient, Groups(updates, limit), i, u.peer.nodeId, u.revision);
  }

  lemma RecordedAtLeast(t: Tracker, recipient: NodeId, force: bool, updates: seq<Update>, limit: nat, id: NodeId)
    requires Lists(t, recipient, force, updates) && id in t.current && t.current[id].peer.nodeId == id
    requires Fits(UpdateFor(t, id), limit)
    ensures var after := CommitBatches(t, recipient, Groups(updates, limit));
      recipient in after.sent && id in after.sent[recipient] && after.sent[recipient][id] >= t.current[id].revision
  {
    if Due(t, recipient, force, id) {
      DueIsSettled(t, recipient, updates, limit, UpdateFor(t, id));
    } else {
      BatchesLowerNothing(t, recipient, Groups(updates, limit));
    }
  }

  lemma ExactlyRecorded(t: Tracker, issued: set<(nat, AdvertisedPeer)>, log: map<NodeId, set<AdvertisedPeer>>, recipient: NodeId, id: NodeId)
    requires SentOk(t, issued, log) && recipient in t.sent && id in t.sent[recipient] && id in t.current
    requires t.sent[recipient][id] >= t.current[id].revision
    ensures AlreadySent(t, recipient, id)
  {
  }

  /** Once every batch has gone out, only advertisements too large to send remain due. */
  lemma FullSendSettles(t: Tracker, issued: set<(nat, AdvertisedPeer)>, log: map<NodeId, set<AdvertisedPeer>>,
                        recipient: NodeId, force: bool, updates: seq<Update>, limit: nat, id: NodeId)
    requires Numbered(t, issued) && SentOk(t, issued, log) && Lists(t, recipient, force, updates)
    requires id in t.current && Fits(UpdateFor(t, id), limit)
    ensures var after := CommitBatches(t, recipient, Groups(updates, limit));
      id in after.current && AlreadySent(after, recipient, id)
  {
    var groups := Groups(updates, limit);
    var after := CommitBatches(t, recipient, groups);
    assert groups[..|groups|] == groups;
    CommitKeepsSent(t, issued, log, recipient, force, updates, limit, |groups|);
    BatchesRecordFrom(t, recipient, groups);
    RecordedAtLeast(t, recipient, force, updates, limit, id);
    ExactlyRecorded(after, issued, LogAfter(log, recipient, groups), recipient, id);
  }
}
