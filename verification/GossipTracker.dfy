/** The delta tracker as the object it is: two maps and a counter, updated in place. */
module GossipTrackers {
  import opened Basics
  import PeerTable
  import GossipBatches
  import opened GossipDelta

  class GossipDeltaTracker {
    var current: map<NodeId, Current>
    var sent: map<NodeId, map<NodeId, nat>>
    var next: nat

    ghost function View(): Tracker
      reads this
    {
      Tracker(current, sent, next)
    }

    constructor ()
      ensures View() == RESET
    {
      current, sent, next := map[], map[], 1;
    }

    method Reset()
      modifies this
      ensures View() == RESET
    {
      current, sent, next := map[], map[], 1;
    }

    method Prepare(recipient: NodeId, advertised: seq<PeerTable.AdvertisedPeer>, force: bool) returns (updates: seq<GossipBatches.Update>)
      modifies this
      ensures Prepares(old(View()), advertised, View())
      ensures Lists(View(), recipient, force, updates)
    {
      var wanted := CollectWanted(advertised);
      Renumber(wanted);
      sent := Remembered(sent, wanted);
      updates := ListDue(recipient, force);
    }

    static method CollectWanted(advertised: seq<PeerTable.AdvertisedPeer>) returns (wanted: map<NodeId, PeerTable.AdvertisedPeer>)
      ensures wanted == Wanted(advertised)
    {
      wanted := map[];
      for i := 0 to |advertised|
        invariant wanted == Wanted(advertised[..i])
      {
        assert advertised[..i + 1][..i] == advertised[..i];
        wanted := wanted[advertised[i].nodeId := Canonicalized(advertised[i])];
      }
      assert advertised[..|advertised|] == advertised;
    }

    /** Drops what is no longer advertised and renumbers what has changed. */
    method Renumber(wanted: map<NodeId, PeerTable.AdvertisedPeer>)
      modifies this`current, this`next
      ensures Renumbers(old(View()), wanted, current, next)
    {
      ghost var was := View();
      current := StillWanted(current, wanted);
      var left := wanted.Keys;
      RenumberStart(was, wanted);
      while left != {}
        invariant Renumbering(was, wanted, left, current, next)
        decreases |left|
      {
        var id :| id in left;
        if id !in current || current[id].peer != wanted[id] {
          RenumberStep(was, wanted, left, current, next, id);
          current := current[id := Current(wanted[id], next)];
          next := next + 1;
        } else {
          KeepStep(was, wanted, left, current, next, id);
        }
        left := left - {id};
      }
      RenumberDone(was, wanted, current, next);
    }

    method ListDue(recipient: NodeId, force: bool) returns (updates: seq<GossipBatches.Update>)
      ensures Lists(View(), recipient, force, updates)
    {
      updates := [];
      var left := current.Keys;
      while left != {}
        invariant left <= current.Keys
        invariant forall u :: u in updates ==> exists id :: id in current && Due(View(), recipient, force, id) && u == UpdateFor(View(), id)
        invariant forall id :: id in current && id !in left && Due(View(), recipient, force, id) ==> UpdateFor(View(), id) in updates
        decreases |left|
      {
        var id :| id in left;
        left := left - {id};
        var alreadySent := recipient in sent && id in sent[recipient] && sent[recipient][id] == current[id].revision;
        if force || !alreadySent {
          updates := updates + [GossipBatches.Update(current[id].peer, current[id].revision)];
        }
      }
    }

    method CommitRevisions(recipient: NodeId, completed: seq<(NodeId, nat)>)
      modifies this`sent
      ensures View() == Commit(old(View()), recipient, completed)
    {
      var m := if recipient in sent then sent[recipient] else map[];
      ghost var start := m;
      for i := 0 to |completed|
        invariant m == Raised(start, completed[..i])
      {
        assert completed[..i + 1][..i] == completed[..i];
        var (id, revision) := completed[i];
        m := m[id := if id in m && m[id] > revision then m[id] else revision];
      }
      assert completed[..|completed|] == completed;
      sent := sent[recipient := m];
    }

    /** Recipients that are not given are forgotten; what is remembered of the others stays. */
    method RetainRecipients(recipients: set<NodeId>)
      modifies this`sent
      ensures sent.Keys == old(sent).Keys * recipients && PartOfSent(sent, old(sent))
      ensures forall r :: r in sent ==> sent[r] == old(sent)[r]
    {
      var left := sent.Keys;
      while left != {}
        invariant left <= old(sent).Keys
        invariant forall r :: r in sent <==> r in old(sent) && (r in left || r in recipients)
        invariant forall r :: r in sent ==> sent[r] == old(sent)[r]
        decreases |left|
      {
        var r :| r in left;
        left := left - {r};
        if r !in recipients {
          sent := sent - {r};
        }
      }
    }
  }

  ghost predicate Numbers(was: Tracker, wanted: map<NodeId, PeerTable.AdvertisedPeer>, current: map<NodeId, Current>, next: nat, id: NodeId) {
    && id in wanted && id in current && current[id].peer == wanted[id]
    && if Changed(was, wanted, id) then was.next <= current[id].revision < next else current[id] == was.current[id]
  }

  /** Everything wanted but what is left has its number; what is left is as it was. */
  ghost predicate Renumbering(was: Tracker, wanted: map<NodeId, PeerTable.AdvertisedPeer>, left: set<NodeId>, current: map<NodeId, Current>,
                              next: nat) {
    && was.next <= next && left <= wanted.Keys
    && (forall id :: id in current ==> id in wanted)
    && (forall id :: id in left ==> (id in current <==> id in was.current))
    && (forall id :: id in left && id in current ==> current[id] == was.current[id])
    && (forall id :: id in wanted && id !in left ==> Numbers(was, wanted, current, next, id))
    && (forall id, od :: Changed(was, wanted, id) && Changed(was, wanted, od) && id !in left && od !in left && id != od ==>
          current[id].revision != current[od].revision)
  }

  function StillWanted(current: map<NodeId, Current>, wanted: map<NodeId, PeerTable.AdvertisedPeer>): map<NodeId, Current> {
    map id | id in current && id in wanted :: current[id]
  }

  lemma RenumberStart(was: Tracker, wanted: map<NodeId, PeerTable.AdvertisedPeer>)
    ensures Renumbering(was, wanted, wanted.Keys, StillWanted(was.current, wanted), was.next)
  {
  }

  lemma RenumberDone(was: Tracker, wanted: map<NodeId, PeerTable.AdvertisedPeer>, current: map<NodeId, Current>, next: nat)
    requires Renumbering(was, wanted, {}, current, next)
    ensures Renumbers(was, wanted, current, next)
  {
    forall id | id in wanted ensures Numbers(was, wanted, current, next, id) {
    }
  }

  lemma RenumberStep(was: Tracker, wanted: map<NodeId, PeerTable.AdvertisedPeer>, left: set<NodeId>, current: map<NodeId, Current>,
                     next: nat, id: NodeId)
    requires Renumbering(was, wanted, left, current, next) && id in left && Changed(was, wanted, id)
    ensures Renumbering(was, wanted, left - {id}, current[id := Current(wanted[id], next)], next + 1)
  {
    var after := current[id := Current(wanted[id], next)];
    forall od | od in wanted && od !in left - {id} ensures Numbers(was, wanted, after, next + 1, od) {
      assert od != id ==> Numbers(was, wanted, current, next, od);
    }
    forall a, b | Changed(was, wanted, a) && Changed(was, wanted, b) && a !in left - {id} && b !in left - {id} && a != b
      ensures after[a].revision != after[b].revision
    {
      assert (a != id ==> Numbers(was, wanted, current, next, a)) && (b != id ==> Numbers(was, wanted, current, next, b));
    }
  }

  lemma KeepStep(was: Tracker, wanted: map<NodeId, PeerTable.AdvertisedPeer>, left: set<NodeId>, current: map<NodeId, Current>,
                 next: nat, id: NodeId)
    requires Renumbering(was, wanted, left, current, next) && id in left && !Changed(was, wanted, id)
    ensures Renumbering(was, wanted, left - {id}, current, next)
  {
  }
}
