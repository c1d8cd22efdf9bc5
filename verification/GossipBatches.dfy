/**
 Cutting advertisements into protocol-sized chunks and packing the chunks greedily into messages. The
 reference is a plain stream of chunks; every batch is a stretch of it.
 */
module GossipBatches {
  import opened Basics
  import opened PeerTable

  datatype Update = Update(peer: AdvertisedPeer, revision: nat)

  /** `completed` lists the advertisements whose last chunk is in this batch. */
  datatype Batch = Batch(peers: seq<AdvertisedPeer>, completed: seq<(NodeId, nat)>)

  // ---------- chunks ----------

  /** The prefixes in order, at most sixteen at a time; one empty part when there are none. */
  function Parts(prefixes: seq<AdvertisedPrefix>): (r: seq<seq<AdvertisedPrefix>>)
    ensures r != []
    decreases |prefixes|
  {
    if |prefixes| <= MAX_PREFIXES then [prefixes]
    else [prefixes[..MAX_PREFIXES]] + Parts(prefixes[MAX_PREFIXES..])
  }

  function Flatten<T>(parts: seq<seq<T>>): seq<T> {
    if parts == [] then [] else parts[0] + Flatten(parts[1..])
  }

  lemma {:induction false} PartsRebuild(prefixes: seq<AdvertisedPrefix>)
    ensures Flatten(Parts(prefixes)) == prefixes
    ensures forall part :: part in Parts(prefixes) ==> |part| <= MAX_PREFIXES
    decreases |prefixes|
  {
    if |prefixes| <= MAX_PREFIXES {
      assert Flatten([prefixes]) == prefixes + Flatten([]);
    } else {
      PartsRebuild(prefixes[MAX_PREFIXES..]);
      assert Parts(prefixes)[1..] == Parts(prefixes[MAX_PREFIXES..]);
    }
  }

  /** The loop's slice arithmetic gives the same parts. */
  lemma {:induction false} PartAt(prefixes: seq<AdvertisedPrefix>, k: nat)
    ensures k < |Parts(prefixes)| <==> k == 0 || MAX_PREFIXES * k < |prefixes|
    ensures k < |Parts(prefixes)| ==> MAX_PREFIXES * k <= |prefixes|
    ensures k < |Parts(prefixes)| ==>
      Parts(prefixes)[k] == prefixes[MAX_PREFIXES * k..Min(|prefixes|, MAX_PREFIXES * k + MAX_PREFIXES)]
    decreases |prefixes|
  {
    if |prefixes| > MAX_PREFIXES && k > 0 {
      PartAt(prefixes[MAX_PREFIXES..], k - 1);
    }
  }

  function Chunk(peer: AdvertisedPeer, part: seq<AdvertisedPrefix>): AdvertisedPeer {
    peer.(prefixes := part)
  }

  predicate ChunkFits(chunk: AdvertisedPeer, limit: nat) {
    Serializable([chunk]) && TableSize([chunk]) <= limit
  }

  /** The advertisement can be sent: every one of its chunks fits a message of its own. */
  predicate Fits(u: Update, limit: nat) {
    && |u.peer.path| <= MAX_PATH_HOPS
    && forall part :: part in Parts(u.peer.prefixes) ==> ChunkFits(Chunk(u.peer, part), limit)
  }

  // ---------- the stream of chunks ----------

  datatype Piece = Piece(chunk: AdvertisedPeer, done: Option<(NodeId, nat)>)

  function PiecesOf(u: Update, parts: seq<seq<AdvertisedPrefix>>): seq<Piece> {
    if parts == [] then []
    else
      var done := if |parts| == 1 then Some((u.peer.nodeId, u.revision)) else None;
      [Piece(Chunk(u.peer, parts[0]), done)] + PiecesOf(u, parts[1..])
  }

  function SendablePieces(u: Update, limit: nat): seq<Piece> {
    if Fits(u, limit) then PiecesOf(u, Parts(u.peer.prefixes)) else []
  }

  function Stream(updates: seq<Update>, limit: nat): seq<Piece> {
    if updates == [] then []
    else SendablePieces(updates[0], limit) + Stream(updates[1..], limit)
  }

  function ChunksOf(pieces: seq<Piece>): (r: seq<AdvertisedPeer>)
    ensures |r| == |pieces| && forall i :: 0 <= i < |r| ==> r[i] == pieces[i].chunk
  {
    if pieces == [] then [] else ChunksOf(pieces[..|pieces| - 1]) + [pieces[|pieces| - 1].chunk]
  }

  function DoneIn(pieces: seq<Piece>): (r: seq<(NodeId, nat)>)
    ensures forall x :: x in r <==> exists i :: 0 <= i < |pieces| && pieces[i].done == Some(x)
  {
    if pieces == [] then []
    else
      var last := pieces[|pieces| - 1];
      var r := DoneIn(pieces[..|pieces| - 1]);
      if last.done.Some? then r + [last.done.value] else r
  }

  // ---------- greedy packing ----------

  predicate Carries(chunks: seq<AdvertisedPeer>, limit: nat) {
    Serializable(chunks) && TableSize(chunks) <= limit
  }

  datatype Packing = Packing(groups: seq<seq<Piece>>, current: seq<Piece>)

  function Flush(p: Packing): Packing {
    if p.current == [] then p else Packing(p.groups + [p.current], [])
  }

  function Pack(p: Packing, piece: Piece, limit: nat): Packing {
    var q := if Carries(ChunksOf(p.current) + [piece.chunk], limit) then p else Flush(p);
    q.(current := q.current + [piece])
  }

  function PackAll(p: Packing, pieces: seq<Piece>, limit: nat): Packing
    decreases |pieces|
  {
    if pieces == [] then p else PackAll(Pack(p, pieces[0], limit), pieces[1..], limit)
  }

  function Groups(updates: seq<Update>, limit: nat): seq<seq<Piece>> {
    Flush(PackAll(Packing([], []), Stream(updates, limit), limit)).groups
  }

  // ---------- every batch is a stretch of the stream that fits ----------

  ghost predicate Packed(p: Packing, stream: seq<Piece>, limit: nat) {
    && Flatten(p.groups) + p.current == stream
    && (forall g :: g in p.groups ==> g != [] && Carries(ChunksOf(g), limit))
    && (p.current != [] ==> Carries(ChunksOf(p.current), limit))
  }

  lemma {:induction false} FlattenAppend<T>(parts: seq<seq<T>>, last: seq<T>)
    ensures Flatten(parts + [last]) == Flatten(parts) + last
  {
    if parts == [] {
      assert Flatten([last]) == last + Flatten([]);
    } else {
      FlattenAppend(parts[1..], last);
      assert (parts + [last])[1..] == parts[1..] + [last];
    }
  }

  lemma FlushPacked(p: Packing, stream: seq<Piece>, limit: nat)
    requires Packed(p, stream, limit)
    ensures Packed(Flush(p), stream, limit) && Flush(p).current == [] && Flatten(Flush(p).groups) == stream
  {
    if p.current != [] {
      FlattenAppend(p.groups, p.current);
    }
    assert Flatten(Flush(p).groups) + [] == Flatten(Flush(p).groups);
  }

  lemma GrowPacked(p: Packing, stream: seq<Piece>, piece: Piece, limit: nat)
    requires Packed(p, stream, limit) && Carries(ChunksOf(p.current) + [piece.chunk], limit)
    ensures Packed(p.(current := p.current + [piece]), stream + [piece], limit)
  {
    var grown := p.current + [piece];
    Associate(Flatten(p.groups), p.current, [piece]);
    assert grown[..|grown| - 1] == p.current;
  }

  lemma PackPacked(p: Packing, stream: seq<Piece>, piece: Piece, limit: nat)
    requires Packed(p, stream, limit) && ChunkFits(piece.chunk, limit)
    ensures Packed(Pack(p, piece, limit), stream + [piece], limit)
  {
    if Carries(ChunksOf(p.current) + [piece.chunk], limit) {
      GrowPacked(p, stream, piece, limit);
    } else {
      FlushPacked(p, stream, limit);
      assert ChunksOf([]) + [piece.chunk] == [piece.chunk];
      GrowPacked(Flush(p), stream, piece, limit);
    }
  }

  lemma {:induction false} PackAllPacked(p: Packing, stream: seq<Piece>, pieces: seq<Piece>, limit: nat)
    requires Packed(p, stream, limit) && forall i :: 0 <= i < |pieces| ==> ChunkFits(pieces[i].chunk, limit)
    ensures Packed(PackAll(p, pieces, limit), stream + pieces, limit)
    decreases |pieces|
  {
    if pieces == [] {
      assert stream + pieces == stream;
    } else {
      PackPacked(p, stream, pieces[0], limit);
      PackAllPacked(Pack(p, pieces[0], limit), stream + [pieces[0]], pieces[1..], limit);
      MoveHead(stream, pieces);
    }
  }

  lemma {:induction false} PiecesFit(u: Update, parts: seq<seq<AdvertisedPrefix>>, limit: nat)
    requires forall part :: part in parts ==> ChunkFits(Chunk(u.peer, part), limit)
    ensures forall i :: 0 <= i < |PiecesOf(u, parts)| ==> ChunkFits(PiecesOf(u, parts)[i].chunk, limit)
  {
    if parts != [] {
      PiecesFit(u, parts[1..], limit);
    }
  }

  lemma {:induction false} StreamFits(updates: seq<Update>, limit: nat)
    ensures forall i :: 0 <= i < |Stream(updates, limit)| ==> ChunkFits(Stream(updates, limit)[i].chunk, limit)
  {
    if updates != [] {
      StreamFits(updates[1..], limit);
      if Fits(updates[0], limit) {
        PiecesFit(updates[0], Parts(updates[0].peer.prefixes), limit);
      }
    }
  }

  /** The batches, laid end to end, are the stream; each is nonempty, serializable and within the limit. */
  lemma BatchesCarryTheStream(updates: seq<Update>, limit: nat)
    ensures Flatten(Groups(updates, limit)) == Stream(updates, limit)
    ensures forall g :: g in Groups(updates, limit) ==> g != [] && Carries(ChunksOf(g), limit)
  {
    var stream := Stream(updates, limit);
    StreamFits(updates, limit);
    PackAllPacked(Packing([], []), [], stream, limit);
    assert [] + stream == stream;
    FlushPacked(PackAll(Packing([], []), stream, limit), stream, limit);
  }

  // ---------- a revision completes with its last chunk ----------

  ghost predicate Within(peer: AdvertisedPeer, parts: seq<seq<AdvertisedPrefix>>, pieces: seq<Piece>) {
    forall part :: part in parts ==> exists j :: 0 <= j < |pieces| && pieces[j].chunk == Chunk(peer, part)
  }

  lemma {:induction false} PiecesComplete(u: Update, parts: seq<seq<AdvertisedPrefix>>)
    requires parts != []
    ensures var pieces := PiecesOf(u, parts);
      && |pieces| == |parts| && Within(u.peer, parts, pieces)
      && forall i :: 0 <= i < |pieces| ==>
           pieces[i].done == if i == |pieces| - 1 then Some((u.peer.nodeId, u.revision)) else None
  {
    var pieces := PiecesOf(u, parts);
    if |parts| > 1 {
      PiecesComplete(u, parts[1..]);
      var rest := PiecesOf(u, parts[1..]);
      assert pieces[1..] == rest;
      forall part | part in parts ensures exists j :: 0 <= j < |pieces| && pieces[j].chunk == Chunk(u.peer, part) {
        if part == parts[0] {
          assert pieces[0].chunk == Chunk(u.peer, part);
        } else {
          assert part in parts[1..];
          var j :| 0 <= j < |rest| && rest[j].chunk == Chunk(u.peer, part);
          assert pieces[j + 1] == rest[j];
        }
      }
    } else {
      assert pieces[0].chunk == Chunk(u.peer, parts[0]);
    }
  }

  lemma WithinLonger(peer: AdvertisedPeer, parts: seq<seq<AdvertisedPrefix>>, before: seq<Piece>, pieces: seq<Piece>, after: seq<Piece>)
    requires Within(peer, parts, pieces)
    ensures Within(peer, parts, before + pieces + after)
  {
    var all := before + pieces + after;
    forall part | part in parts ensures exists j :: 0 <= j < |all| && all[j].chunk == Chunk(peer, part) {
      var j :| 0 <= j < |pieces| && pieces[j].chunk == Chunk(peer, part);
      assert all[|before| + j] == pieces[j];
    }
  }

  /** By the time a revision is marked complete, every chunk of it has gone by. */
  lemma {:induction false} DoneMeansSent(updates: seq<Update>, limit: nat, i: nat, x: (NodeId, nat)) returns (u: Update)
    requires i < |Stream(updates, limit)| && Stream(updates, limit)[i].done == Some(x)
    ensures u in updates && (u.peer.nodeId, u.revision) == x
    ensures Within(u.peer, Parts(u.peer.prefixes), Stream(updates, limit)[..i + 1])
  {
    var stream, first := Stream(updates, limit), SendablePieces(updates[0], limit);
    if i < |first| {
      u := updates[0];
      PiecesComplete(u, Parts(u.peer.prefixes));
      assert stream[..i + 1] == [] + first + [];
      WithinLonger(u.peer, Parts(u.peer.prefixes), [], first, []);
    } else {
      var rest, k := Stream(updates[1..], limit), i - |first|;
      u := DoneMeansSent(updates[1..], limit, k, x);
      assert stream[..i + 1] == first + rest[..k + 1] + [];
      WithinLonger(u.peer, Parts(u.peer.prefixes), first, rest[..k + 1], []);
    }
  }

  /** Every advertisement that fits is completed somewhere in the stream. */
  lemma {:induction false} FittingCompletes(updates: seq<Update>, limit: nat, u: Update)
    requires u in updates && Fits(u, limit)
    ensures (u.peer.nodeId, u.revision) in DoneIn(Stream(updates, limit))
  {
    var stream, first := Stream(updates, limit), SendablePieces(updates[0], limit);
    if u == updates[0] {
      PiecesComplete(u, Parts(u.peer.prefixes));
      assert stream[|first| - 1].done == Some((u.peer.nodeId, u.revision));
    } else {
      FittingCompletes(updates[1..], limit, u);
      var rest := Stream(updates[1..], limit);
      var i :| 0 <= i < |rest| && rest[i].done == Some((u.peer.nodeId, u.revision));
      assert stream[|first| + i] == rest[i];
    }
  }

  // ---------- batches sent in order ----------

  /** The chunks of the first `k` batches are a prefix of the stream. */
  lemma {:induction false} SentIsPrefix<T>(groups: seq<seq<T>>, k: nat)
    requires k <= |groups|
    ensures |Flatten(groups[..k])| <= |Flatten(groups)|
    ensures Flatten(groups[..k]) == Flatten(groups)[..|Flatten(groups[..k])|]
  {
    if k > 0 {
      SentIsPrefix(groups[1..], k - 1);
      assert groups[..k][1..] == groups[1..][..k - 1];
    }
  }

  // ---------- the batching loops ----------

  function BatchOf(group: seq<Piece>): Batch {
    Batch(ChunksOf(group), DoneIn(group))
  }

  function BatchesOf(groups: seq<seq<Piece>>): seq<Batch> {
    if groups == [] then [] else BatchesOf(groups[..|groups| - 1]) + [BatchOf(groups[|groups| - 1])]
  }

  lemma {:induction false} PackAllTwice(p: Packing, a: seq<Piece>, b: seq<Piece>, limit: nat)
    ensures PackAll(p, a + b, limit) == PackAll(PackAll(p, a, limit), b, limit)
    decreases |a|
  {
    if a == [] {
      assert a + b == b;
    } else {
      var all, q := a + b, Pack(p, a[0], limit);
      PackAllTwice(q, a[1..], b, limit);
      assert all[0] == a[0] && all[1..] == a[1..] + b;
      assert PackAll(p, all, limit) == PackAll(q, a[1..] + b, limit);
    }
  }

  /** Cuts one advertisement; gives up at the first chunk that does not fit. */
  method CutChunks(u: Update, limit: nat) returns (chunks: seq<AdvertisedPeer>, fits: bool)
    ensures fits <==> forall part :: part in Parts(u.peer.prefixes) ==> ChunkFits(Chunk(u.peer, part), limit)
    ensures fits ==> |chunks| == |Parts(u.peer.prefixes)|
    ensures fits ==> forall k :: 0 <= k < |chunks| ==> chunks[k] == Chunk(u.peer, Parts(u.peer.prefixes)[k])
  {
    var n := |u.peer.prefixes|;
    var count := Max(1, (n + MAX_PREFIXES - 1) / MAX_PREFIXES);
    ghost var parts := Parts(u.peer.prefixes);
    PartAt(u.peer.prefixes, count);
    PartAt(u.peer.prefixes, count - 1);
    assert count == |parts|;
    chunks := [];
    for part := 0 to count
      invariant |chunks| == part
      invariant forall k :: 0 <= k < part ==> chunks[k] == Chunk(u.peer, parts[k]) && ChunkFits(chunks[k], limit)
    {
      PartAt(u.peer.prefixes, part);
      var begin := part * MAX_PREFIXES;
      var end := Min(n, begin + MAX_PREFIXES);
      var chunk := Chunk(u.peer, if begin < end then u.peer.prefixes[begin..end] else []);
      assert chunk == Chunk(u.peer, parts[part]);
      if !ChunkFits(chunk, limit) {
        assert parts[part] in parts;
        return [], false;
      }
      chunks := chunks + [chunk];
    }
    fits := true;
  }

  lemma {:induction false} PieceAt(u: Update, parts: seq<seq<AdvertisedPrefix>>, k: nat)
    requires k < |parts|
    ensures |PiecesOf(u, parts)| == |parts|
    ensures PiecesOf(u, parts)[k] ==
      Piece(Chunk(u.peer, parts[k]), if k == |parts| - 1 then Some((u.peer.nodeId, u.revision)) else None)
  {
    if |parts| > 1 {
      PieceAt(u, parts[1..], if k > 0 then k - 1 else 0);
    }
  }

  ghost predicate Represents(batches: seq<Batch>, current: Batch, p: Packing) {
    batches == BatchesOf(p.groups) && current == BatchOf(p.current)
  }

  method FlushBatch(batches: seq<Batch>, current: Batch, ghost p: Packing) returns (more: seq<Batch>, next: Batch)
    requires Represents(batches, current, p)
    ensures Represents(more, next, Flush(p))
  {
    more, next := batches, current;
    if current.peers != [] {
      assert (p.groups + [p.current])[..|p.groups|] == p.groups;
      more, next := batches + [current], Batch([], []);
    }
  }

  method PackPiece(batches: seq<Batch>, current: Batch, chunk: AdvertisedPeer, done: Option<(NodeId, nat)>, limit: nat,
                   ghost p: Packing) returns (more: seq<Batch>, next: Batch)
    requires Represents(batches, current, p)
    ensures Represents(more, next, Pack(p, Piece(chunk, done), limit))
  {
    more, next := batches, current;
    ghost var q := p;
    if !Carries(current.peers + [chunk], limit) {
      more, next := FlushBatch(batches, current, p);
      q := Flush(p);
    }
    ghost var grown := q.current + [Piece(chunk, done)];
    assert grown[..|q.current|] == q.current;
    next := next.(peers := next.peers + [chunk]);
    if done.Some? {
      next := next.(completed := next.completed + [done.value]);
    }
  }

  method PackChunks(batches: seq<Batch>, current: Batch, u: Update, chunks: seq<AdvertisedPeer>, limit: nat, ghost p: Packing)
    returns (more: seq<Batch>, next: Batch)
    requires Represents(batches, current, p) && |chunks| == |Parts(u.peer.prefixes)|
    requires forall k :: 0 <= k < |chunks| ==> chunks[k] == Chunk(u.peer, Parts(u.peer.prefixes)[k])
    ensures Represents(more, next, PackAll(p, PiecesOf(u, Parts(u.peer.prefixes)), limit))
  {
    more, next := batches, current;
    ghost var pieces, q := PiecesOf(u, Parts(u.peer.prefixes)), p;
    PieceAt(u, Parts(u.peer.prefixes), 0);
    assert pieces[0..] == pieces;
    for part := 0 to |chunks|
      invariant Represents(more, next, q) && PackAll(q, pieces[part..], limit) == PackAll(p, pieces, limit)
    {
      PieceAt(u, Parts(u.peer.prefixes), part);
      assert pieces[part..][1..] == pieces[part + 1..];
      var done := if part + 1 == |chunks| then Some((u.peer.nodeId, u.revision)) else None;
      more, next := PackPiece(more, next, chunks[part], done, limit, q);
      q := Pack(q, pieces[part], limit);
    }
    assert pieces[|pieces|..] == [];
  }

  method PackUpdate(batches: seq<Batch>, current: Batch, u: Update, limit: nat, ghost p: Packing)
    returns (more: seq<Batch>, next: Batch)
    requires Represents(batches, current, p)
    ensures Represents(more, next, PackAll(p, SendablePieces(u, limit), limit))
  {
    more, next := batches, current;
    if |u.peer.path| <= MAX_PATH_HOPS {
      var chunks, fits := CutChunks(u, limit);
      if fits {
        more, next := PackChunks(batches, current, u, chunks, limit, p);
      }
    }
  }

  method MakeGossipBatches(updates: seq<Update>, maxPayload: nat) returns (batches: seq<Batch>)
    ensures batches == BatchesOf(Groups(updates, Min(maxPayload, MAX_WIRE_BYTES)))
  {
    var limit := Min(maxPayload, MAX_WIRE_BYTES);
    if limit < 3 {
      NothingFits(updates, limit);
      return [];
    }
    batches := [];
    var current := Batch([], []);
    ghost var p := Packing([], []);
    ghost var whole := PackAll(p, Stream(updates, limit), limit);
    assert updates[0..] == updates;
    for i := 0 to |updates|
      invariant Represents(batches, current, p)
      invariant PackAll(p, Stream(updates[i..], limit), limit) == whole
    {
      batches, current := PackUpdate(batches, current, updates[i], limit, p);
      assert updates[i..][1..] == updates[i + 1..];
      PackAllTwice(p, SendablePieces(updates[i], limit), Stream(updates[i + 1..], limit), limit);
      p := PackAll(p, SendablePieces(updates[i], limit), limit);
    }
    assert updates[|updates|..] == [];
    batches, current := FlushBatch(batches, current, p);
  }

  /** A limit too small for an empty table leaves nothing to send. */
  lemma {:induction false} NothingFits(updates: seq<Update>, limit: nat)
    requires limit < 3
    ensures Stream(updates, limit) == [] && Groups(updates, limit) == []
  {
    if updates != [] {
      NothingFits(updates[1..], limit);
      var part := Parts(updates[0].peer.prefixes)[0];
      assert !ChunkFits(Chunk(updates[0].peer, part), limit);
    }
  }
}
