/** Gossip batches on the wire: the size they are packed by is the size they are encoded to. */
module GossipWire {
  import opened Basics
  import opened PeerTable
  import PeerCodec
  import opened GossipBatches
  import Wire

  /** How identities and keys are written as bytes; sizes do not depend on it. */
  datatype Naming = Naming(id: NodeId -> PeerCodec.Bytes32, key: PublicKey -> PeerCodec.Bytes32)

  function IdsOnWire(w: Naming, ids: seq<NodeId>): (r: seq<PeerCodec.Bytes32>)
    ensures |r| == |ids|
  {
    if ids == [] then [] else [w.id(ids[0])] + IdsOnWire(w, ids[1..])
  }

  function OnWire(w: Naming, p: AdvertisedPeer): PeerCodec.WirePeer {
    PeerCodec.WirePeer(w.id(p.nodeId), w.key(p.key), IdsOnWire(w, p.path), p.prefixes)
  }

  function AllOnWire(w: Naming, peers: seq<AdvertisedPeer>): (r: seq<PeerCodec.WirePeer>)
    ensures |r| == |peers| && forall i :: 0 <= i < |peers| ==> r[i] == OnWire(w, peers[i])
  {
    seq(|peers|, i requires 0 <= i < |peers| => OnWire(w, peers[i]))
  }

  /** Sequence numbers are 64-bit fields. */
  ghost predicate Representable(p: AdvertisedPeer) {
    forall ap :: ap in p.prefixes ==> Wire.Fits(ap.sequence, 8)
  }

  /** The size the batches are packed by is the size of their encoding. */
  lemma {:induction false} TableSizeIsEncoded(w: Naming, peers: seq<AdvertisedPeer>)
    ensures TableSize(peers) == 3 + |PeerCodec.EncodePeers(AllOnWire(w, peers))|
  {
    if peers != [] {
      var n := |peers| - 1;
      TableSizeIsEncoded(w, peers[..n]);
      PeerCodec.EncodedSizeGrows(AllOnWire(w, peers[..n]), OnWire(w, peers[n]));
      assert AllOnWire(w, peers) == AllOnWire(w, peers[..n]) + [OnWire(w, peers[n])];
    }
  }

  lemma EntryOkIsFit(w: Naming, p: AdvertisedPeer)
    requires Representable(p)
    ensures EntryOk(p) <==> PeerCodec.PeerFits(OnWire(w, p))
  {
    var q := OnWire(w, p);
    assert forall i :: 0 <= i < |q.prefixes| ==> q.prefixes[i] in p.prefixes;
    assert forall ap :: ap in p.prefixes ==> exists i :: 0 <= i < |q.prefixes| && q.prefixes[i] == ap;
  }

  /** A table is serializable exactly when the serializer accepts it, and then has the predicted number of bytes. */
  lemma SerializableIsEncodable(w: Naming, peers: seq<AdvertisedPeer>)
    requires forall p :: p in peers ==> Representable(p)
    ensures Serializable(peers) <==> PeerCodec.EncodeTable(AllOnWire(w, peers)).Some?
    ensures Serializable(peers) ==> |PeerCodec.EncodeTable(AllOnWire(w, peers)).value| == TableSize(peers)
  {
    TableSizeIsEncoded(w, peers);
    var wire := AllOnWire(w, peers);
    forall i | 0 <= i < |peers| ensures EntryOk(peers[i]) <==> PeerCodec.PeerFits(wire[i]) {
      EntryOkIsFit(w, peers[i]);
    }
    assert forall p :: p in peers ==> exists i :: 0 <= i < |peers| && peers[i] == p;
  }

  // ---------- batches ----------

  ghost predicate Among(part: seq<AdvertisedPrefix>, prefixes: seq<AdvertisedPrefix>) {
    forall ap :: ap in part ==> ap in prefixes
  }

  lemma {:induction false} PiecesRepresentable(u: Update, parts: seq<seq<AdvertisedPrefix>>)
    requires Representable(u.peer) && forall part :: part in parts ==> Among(part, u.peer.prefixes)
    ensures forall piece :: piece in PiecesOf(u, parts) ==> Representable(piece.chunk)
  {
    if parts != [] {
      assert parts[0] in parts && forall part :: part in parts[1..] ==> part in parts;
      PiecesRepresentable(u, parts[1..]);
    }
  }

  lemma {:induction false} PartsWithin(prefixes: seq<AdvertisedPrefix>)
    ensures forall part :: part in Parts(prefixes) ==> Among(part, prefixes)
    decreases |prefixes|
  {
    if |prefixes| > MAX_PREFIXES {
      var rest := prefixes[MAX_PREFIXES..];
      PartsWithin(rest);
      forall part | part in Parts(rest) ensures Among(part, prefixes) {
        assert Among(part, rest);
      }
    }
  }

  lemma {:induction false} StreamRepresentable(updates: seq<Update>, limit: nat)
    requires forall u :: u in updates ==> Representable(u.peer)
    ensures forall piece :: piece in Stream(updates, limit) ==> Representable(piece.chunk)
  {
    if updates != [] {
      StreamRepresentable(updates[1..], limit);
      assert updates[0] in updates;
      PartsWithin(updates[0].peer.prefixes);
      PiecesRepresentable(updates[0], Parts(updates[0].peer.prefixes));
    }
  }

  lemma {:induction false} InFlatten<T>(groups: seq<seq<T>>, g: seq<T>, x: T)
    requires g in groups && x in g
    ensures x in Flatten(groups)
  {
    if g != groups[0] {
      InFlatten(groups[1..], g, x);
    }
  }

  /** Every batch is accepted by the serializer and its encoding stays within the limit. */
  lemma BatchesEncode(w: Naming, updates: seq<Update>, limit: nat, g: seq<Piece>)
    requires g in Groups(updates, limit) && forall u :: u in updates ==> Representable(u.peer)
    ensures var encoded := PeerCodec.EncodeTable(AllOnWire(w, ChunksOf(g))); encoded.Some? && |encoded.value| <= limit
  {
    BatchesCarryTheStream(updates, limit);
    StreamRepresentable(updates, limit);
    forall p | p in ChunksOf(g) ensures Representable(p) {
      var i :| 0 <= i < |g| && g[i].chunk == p;
      InFlatten(Groups(updates, limit), g, g[i]);
    }
    SerializableIsEncodable(w, ChunksOf(g));
  }
}
