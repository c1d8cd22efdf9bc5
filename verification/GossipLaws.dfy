/** What a delta is made from and when a node stays quiet: the other half of `GossipDelta.DeltaIsComplete`. */
module GossipLaws {
  import opened Basics
  import opened PeerTable
  import PrefixOrder
  import opened GossipBatches
  import opened GossipDelta

  /** Canonicalising keeps the peer, its path and which records it has, and puts them in ascending order once each. */
  lemma CanonicalExactly(p: AdvertisedPeer)
    ensures var q := Canonicalized(p);
      && q.nodeId == p.nodeId && q.key == p.key && q.path == p.path
      && (forall ap :: ap in q.prefixes <==> ap in p.prefixes)
      && forall i, j :: 0 <= i < j < |q.prefixes| ==> PrefixOrder.Less(q.prefixes[i], q.prefixes[j])
  {
    PrefixOrder.SortUniqueMeets(p.prefixes);
  }

  /** The entry is the last one for its node. */
  ghost predicate LastFor(advertised: seq<AdvertisedPeer>, id: NodeId, i: nat) {
    i < |advertised| && advertised[i].nodeId == id && forall j :: i < j < |advertised| ==> advertised[j].nodeId != id
  }

  /** Every node with an entry is wanted, with the contents of its last one. */
  lemma {:induction false} LastEntryIsWanted(advertised: seq<AdvertisedPeer>, id: NodeId, i: nat)
    requires LastFor(advertised, id, i)
    ensures id in Wanted(advertised) && Wanted(advertised)[id] == Canonicalized(advertised[i])
  {
    var n := |advertised| - 1;
    if i < n {
      LastEntryIsWanted(advertised[..n], id, i);
    }
  }

  lemma {:induction false} WantedHasEntry(advertised: seq<AdvertisedPeer>, id: NodeId) returns (i: nat)
    requires id in Wanted(advertised)
    ensures LastFor(advertised, id, i)
  {
    var n := |advertised| - 1;
    if advertised[n].nodeId == id {
      i := n;
    } else {
      i := WantedHasEntry(advertised[..n], id);
    }
  }

  /** What a recipient was sent of a node still advertised is remembered; of a node no longer advertised it is forgotten. */
  lemma PrepareRemembers(t: Tracker, advertised: seq<AdvertisedPeer>, after: Tracker, r: NodeId, id: NodeId)
    requires Prepares(t, advertised, after)
    ensures r in after.sent && id in after.sent[r] <==> r in t.sent && id in t.sent[r] && id in Wanted(advertised)
    ensures r in after.sent && id in after.sent[r] ==> after.sent[r][id] == t.sent[r][id]
  {
  }

  /** A forced update lists every node; any other lists exactly those whose present revision the recipient was not sent. */
  lemma ListedExactly(t: Tracker, recipient: NodeId, force: bool, updates: seq<Update>, id: NodeId)
    requires Lists(t, recipient, force, updates) && id in t.current
    requires forall other :: other in t.current ==> t.current[other].peer.nodeId == other
    ensures Update(t.current[id].peer, t.current[id].revision) in updates <==>
      force || !(recipient in t.sent && id in t.sent[recipient] && t.sent[recipient][id] == t.current[id].revision)
  {
    if UpdateFor(t, id) in updates {
      var other :| other in t.current && Due(t, recipient, force, other) && UpdateFor(t, id) == UpdateFor(t, other);
      assert other == id;
    }
  }

  lemma {:induction false} CommittingKeepsContents(t: Tracker, recipient: NodeId, groups: seq<seq<Piece>>)
    ensures CommitBatches(t, recipient, groups).current == t.current
  {
    if groups != [] {
      CommittingKeepsContents(t, recipient, groups[..|groups| - 1]);
    }
  }

  /**
   Once every batch of an update has gone out, the next update to that recipient does not repeat an advertisement that
   fits and has not changed meanwhile, unless it is forced.
   */
  lemma QuietWhenSettled(t: Tracker, issued: set<(nat, AdvertisedPeer)>, log: map<NodeId, set<AdvertisedPeer>>, recipient: NodeId,
                         force: bool, updates: seq<Update>, limit: nat, advertised: seq<AdvertisedPeer>, again: Tracker,
                         next: seq<Update>, id: NodeId)
    requires Numbered(t, issued) && SentOk(t, issued, log) && Lists(t, recipient, force, updates)
    requires id in t.current && Fits(UpdateFor(t, id), limit)
    requires id in Wanted(advertised) && Wanted(advertised)[id] == t.current[id].peer
    requires Prepares(CommitBatches(t, recipient, Groups(updates, limit)), advertised, again) && Lists(again, recipient, false, next)
    ensures forall u :: u in next ==> u.peer.nodeId != id
  {
    var after := CommitBatches(t, recipient, Groups(updates, limit));
    FullSendSettles(t, issued, log, recipient, force, updates, limit, id);
    CommittingKeepsContents(t, recipient, Groups(updates, limit));
    NotDue(after, advertised, again, recipient, id);
    forall u | u in next ensures u.peer.nodeId != id {
      var other :| other in again.current && Due(again, recipient, false, other) && u == UpdateFor(again, other);
      assert again.current[other].peer == Wanted(advertised)[other];
    }
  }

  lemma NotDue(t: Tracker, advertised: seq<AdvertisedPeer>, again: Tracker, recipient: NodeId, id: NodeId)
    requires id in t.current && AlreadySent(t, recipient, id) && Prepares(t, advertised, again)
    requires id in Wanted(advertised) && Wanted(advertised)[id] == t.current[id].peer
    ensures id in again.current && !Due(again, recipient, false, id)
  {
    assert !Changed(t, Wanted(advertised), id);
  }
}
