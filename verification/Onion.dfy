/**
 Onion layering, and the way of an onion from hop to hop. Encryption is symbolic: a sealed layer is its key, nonce
 and contents, and opens only under the same key. Lengths are those of the wire format.
 */
module Onion {
  import opened Basics
  import Frames

  const NODE_ID_SIZE := 32
  const LAYER_OVERHEAD := Frames.NONCE_SIZE + Frames.TAG_SIZE + NODE_ID_SIZE
  const RELAY_SOURCE_OVERHEAD := NODE_ID_SIZE + 1
  const MAX_HOPS := 8

  /** The X25519 secret of two key pairs, the same from either side. */
  datatype LayerKey = SharedBy(low: PublicKey, high: PublicKey)

  function KeyRank(k: PublicKey): int {
    if k.ZeroKey? then -1 else k.owner
  }

  function SharedKey(a: PublicKey, b: PublicKey): LayerKey {
    if KeyRank(a) <= KeyRank(b) then SharedBy(a, b) else SharedBy(b, a)
  }

  datatype Nonce = Nonce(counter: nat, layer: nat)

  datatype Blob = Plain(packet: seq<byte>) | Sealed(key: LayerKey, nonce: Nonce, nextHop: NodeId, inner: Blob)

  function Length(b: Blob): nat {
    match b
    case Plain(packet) => |packet|
    case Sealed(_, _, _, inner) => Frames.NONCE_SIZE + (NODE_ID_SIZE + Length(inner)) + Frames.TAG_SIZE
  }

  // ---------- wrapping ----------

  /** No secret can be derived from an all-zero key. */
  predicate Buildable(path: seq<NodeId>, keys: seq<PublicKey>, packet: seq<byte>) {
    path != [] && |path| == |keys| && |path| <= MAX_HOPS && packet != [] && ZeroKey !in keys
  }

  /** What is left of the onion once the layers before `i` are off. */
  function Layers(self: PublicKey, counter: nat, path: seq<NodeId>, keys: seq<PublicKey>, packet: seq<byte>, i: nat): Blob
    requires |path| == |keys| && i <= |path|
    decreases |path| - i
  {
    if i == |path| then Plain(packet)
    else Sealed(SharedKey(self, keys[i]), Nonce(counter + (|path| - 1 - i), i),
                if i + 1 < |path| then path[i + 1] else ZERO_NODE,
                Layers(self, counter, path, keys, packet, i + 1))
  }

  /** Wraps the destination's layer first; every layer takes the next value of the process-wide counter. */
  method BuildOnion(self: PublicKey, counter: nat, path: seq<NodeId>, keys: seq<PublicKey>, packet: seq<byte>)
    returns (r: Option<Blob>, next: nat)
    ensures r.Some? <==> Buildable(path, keys, packet)
    ensures r.Some? ==> r.value == Layers(self, counter, path, keys, packet, 0) && next == counter + |path|
    ensures r.None? ==> counter <= next <= counter + |path|
  {
    next := counter;
    if path == [] || |path| != |keys| || |path| > MAX_HOPS || packet == [] {
      return None, counter;
    }
    var inner := Plain(packet);
    var i := |path|;
    while i > 0
      invariant 0 <= i <= |path| && next == counter + (|path| - i)
      invariant ZeroKey !in keys[i..]
      invariant inner == Layers(self, counter, path, keys, packet, i)
    {
      i := i - 1;
      var nextHop := if i + 1 < |path| then path[i + 1] else ZERO_NODE;
      if keys[i] == ZeroKey {
        return None, next;
      }
      inner := Sealed(SharedKey(self, keys[i]), Nonce(next, i), nextHop, inner);
      next := next + 1;
    }
    return Some(inner), next;
  }

  /** Every layer adds sixty bytes. */
  lemma {:induction false} LayersLength(self: PublicKey, counter: nat, path: seq<NodeId>, keys: seq<PublicKey>, packet: seq<byte>, i: nat)
    requires |path| == |keys| && i <= |path|
    ensures Length(Layers(self, counter, path, keys, packet, i)) == |packet| + LAYER_OVERHEAD * (|path| - i)
    decreases |path| - i
  {
    if i < |path| {
      LayersLength(self, counter, path, keys, packet, i + 1);
    }
  }

  /** The nonces inside a blob. */
  function Nonces(b: Blob): set<Nonce> {
    match b
    case Plain(_) => {}
    case Sealed(_, nonce, _, inner) => {nonce} + Nonces(inner)
  }

  lemma {:induction false} NoncesInRange(self: PublicKey, counter: nat, path: seq<NodeId>, keys: seq<PublicKey>, packet: seq<byte>, i: nat)
    requires |path| == |keys| && i <= |path|
    ensures forall n :: n in Nonces(Layers(self, counter, path, keys, packet, i)) ==> counter <= n.counter < counter + (|path| - i)
    decreases |path| - i
  {
    if i < |path| {
      NoncesInRange(self, counter, path, keys, packet, i + 1);
    }
  }

  /** Onions built one after the other share no nonce, and neither do the layers of one onion. */
  lemma NoncesNeverRepeat(self: PublicKey, counter: nat, path: seq<NodeId>, keys: seq<PublicKey>, packet: seq<byte>,
                          later: nat, path': seq<NodeId>, keys': seq<PublicKey>, packet': seq<byte>, i: nat)
    requires |path| == |keys| && |path'| == |keys'| && later >= counter + |path| && i < |path|
    ensures Nonces(Layers(self, counter, path, keys, packet, 0)) !! Nonces(Layers(self, later, path', keys', packet', 0))
    ensures Layers(self, counter, path, keys, packet, i).nonce !in Nonces(Layers(self, counter, path, keys, packet, i + 1))
  {
    NoncesInRange(self, counter, path, keys, packet, 0);
    NoncesInRange(self, later, path', keys', packet', 0);
    NoncesInRange(self, counter, path, keys, packet, i + 1);
  }

  // ---------- peeling ----------

  function PeelOnion(self: PublicKey, source: PublicKey, b: Blob): Option<(NodeId, Blob)> {
    if Length(b) < LAYER_OVERHEAD || source.ZeroKey? || b.Plain? || b.key != SharedKey(self, source) then None
    else Some((b.nextHop, b.inner))
  }

  const IP_PACKET := 1
  const PATH_PROBE := 2

  datatype RelayFrame = RelayFrame(source: NodeId, content: nat, blob: Blob)

  datatype Outcome = Dropped | Delivered(blob: Blob) | Forwarded(to: NodeId, frame: RelayFrame)

  /**
   What a node knows: its peers' keys, which of them have an endpoint and a session, the bucket it pads to, and
   whether the quota lets this frame by.
   */
  datatype Hop = Hop(id: NodeId, keys: map<NodeId, PublicKey>, reachable: set<NodeId>, sessions: set<NodeId>,
                     bucket: nat, admits: bool)

  function OwnKey(h: Hop): PublicKey {
    KeyOf(h.id)
  }

  /** The logical payload of the relay frame that carries a blob. */
  function RelaySize(b: Blob): nat {
    RELAY_SOURCE_OVERHEAD + Length(b)
  }

  /** The session layer can frame a payload of this size for the peer. */
  predicate CanFrame(h: Hop, to: NodeId, size: nat) {
    to in h.sessions && Frames.FrameSize(size, h.bucket).Some?
  }

  function HandleRelay(h: Hop, f: RelayFrame): Outcome {
    if f.content != IP_PACKET && f.content != PATH_PROBE then Dropped
    else if f.source !in h.keys then Dropped
    else match PeelOnion(OwnKey(h), h.keys[f.source], f.blob)
      case None => Dropped
      case Some((nextHop, inner)) =>
        if nextHop == ZERO_NODE then Delivered(inner)
        else if nextHop == h.id || nextHop !in h.keys || nextHop !in h.reachable || !h.admits then Dropped
        else if !CanFrame(h, nextHop, RelaySize(inner)) then Dropped
        else Forwarded(nextHop, RelayFrame(f.source, f.content, inner))
  }

  /** The layer opens for this node: sealed under the secret it shares with the source, whose key it knows. */
  predicate OpensFor(h: Hop, f: RelayFrame) {
    f.source in h.keys && h.keys[f.source] != ZeroKey && f.blob.Sealed? && f.blob.key == SharedKey(KeyOf(h.id), h.keys[f.source])
  }

  /**
   A relay frame of a known kind whose layer opens is delivered if it names no next hop; it is forwarded, source and kind
   kept and one layer less, exactly when the next hop is another known node within reach with a session, the quota admits
   it and it can be framed. Everything else is dropped.
   */
  lemma RelayExactly(h: Hop, f: RelayFrame)
    ensures var known := f.content in {1, 2} && OpensFor(h, f);
      && (HandleRelay(h, f).Delivered? <==> known && f.blob.nextHop == ZERO_NODE)
      && (HandleRelay(h, f).Delivered? ==> HandleRelay(h, f).blob == f.blob.inner)
      && (HandleRelay(h, f).Forwarded? <==>
            && known && f.blob.nextHop != ZERO_NODE && f.blob.nextHop != h.id && f.blob.nextHop in h.keys
            && f.blob.nextHop in h.reachable && h.admits && f.blob.nextHop in h.sessions
            && h.bucket in {32, 64, 128, 256} && 33 + Length(f.blob.inner) <= 4092)
      && (HandleRelay(h, f).Forwarded? ==>
            HandleRelay(h, f) == Forwarded(f.blob.nextHop, RelayFrame(f.source, f.content, f.blob.inner)))
  {
    if f.blob.Sealed? {
      Frames.FrameMade(RelaySize(f.blob.inner), h.bucket);
    }
  }

  // ---------- sending ----------

  function PathKeys(keys: map<NodeId, PublicKey>, path: seq<NodeId>): (r: seq<PublicKey>)
    requires forall id :: id in path ==> id in keys
    ensures |r| == |path| && forall i :: 0 <= i < |path| ==> r[i] == keys[path[i]]
  {
    seq(|path|, i requires 0 <= i < |path| => keys[path[i]])
  }

  /** The frame a source hands to the first hop, or None where it drops the packet. */
  function Launch(h: Hop, counter: nat, path: seq<NodeId>, packet: seq<byte>, content: nat): Option<RelayFrame> {
    if path == [] || exists id :: id in path && id !in h.keys then None
    else
      var keys := PathKeys(h.keys, path);
      if !Buildable(path, keys, packet) then None
      else
        var onion := Layers(OwnKey(h), counter, path, keys, packet, 0);
        if !CanFrame(h, path[0], RelaySize(onion)) || path[0] !in h.reachable then None
        else Some(RelayFrame(h.id, content, onion))
  }

  /**
   A packet is launched exactly when every hop's key is known and not zero, there are one to eight hops, the packet is not
   empty, and the first hop is within reach with a session that can frame the whole onion.
   */
  lemma LaunchExactly(h: Hop, counter: nat, path: seq<NodeId>, packet: seq<byte>, content: nat)
    ensures var r := Launch(h, counter, path, packet, content);
      && (r.Some? <==>
            && 1 <= |path| <= 8 && packet != [] && (forall i :: 0 <= i < |path| ==> path[i] in h.keys && h.keys[path[i]] != ZeroKey)
            && path[0] in h.reachable && path[0] in h.sessions && h.bucket in {32, 64, 128, 256} && 33 + 60 * |path| + |packet| <= 4092)
      && (r.Some? ==> r.value.source == h.id && r.value.content == content && Length(r.value.blob) == 60 * |path| + |packet|)
  {
    if path != [] && forall i :: 0 <= i < |path| ==> path[i] in h.keys {
      var keys := PathKeys(h.keys, path);
      assert ZeroKey !in keys <==> forall i :: 0 <= i < |path| ==> h.keys[path[i]] != ZeroKey;
      LayersLength(OwnKey(h), counter, path, keys, packet, 0);
      Frames.FrameMade(RELAY_SOURCE_OVERHEAD + LAYER_OVERHEAD * |path| + |packet|, h.bucket);
    }
  }

  // ---------- delivery ----------

  /** The node can hand relay frames to the next one. */
  predicate Reaches(h: Hop, next: NodeId) {
    next in h.keys && next in h.reachable && next in h.sessions && Frames.SupportedBucket(h.bucket)
  }

  /** The source and the hops of a path, each able to reach the next and all knowing the keys they need. */
  predicate Cooperating(source: Hop, path: seq<NodeId>, hops: seq<Hop>) {
    && |hops| == |path|
    && (forall id :: id in path ==> id in source.keys && source.keys[id] == KeyOf(id))
    && (path != [] ==> Reaches(source, path[0]))
    && (forall i :: 0 <= i < |hops| ==>
          hops[i].id == path[i] && source.id in hops[i].keys && hops[i].keys[source.id] == KeyOf(source.id))
    && (forall i, j :: 0 <= i && j == i + 1 < |hops| ==> Reaches(hops[i], path[j]) && hops[i].admits)
  }

  predicate KeysOf(path: seq<NodeId>, keys: seq<PublicKey>) {
    |keys| == |path| && forall i :: 0 <= i < |path| ==> keys[i] == KeyOf(path[i])
  }

  predicate ProperPath(path: seq<NodeId>) {
    1 <= |path| <= MAX_HOPS && NoRepeats(path) && ZERO_NODE !in path
  }

  /** Each hop opens its layer and forwards the rest if it can be framed; the last one gets the packet. */
  lemma HopReveals(source: Hop, counter: nat, path: seq<NodeId>, keys: seq<PublicKey>, packet: seq<byte>,
                   content: nat, hops: seq<Hop>, i: nat)
    requires ProperPath(path) && KeysOf(path, keys) && Cooperating(source, path, hops) && i < |path|
    requires content == IP_PACKET || content == PATH_PROBE
    ensures HandleRelay(hops[i], RelayFrame(source.id, content, Layers(OwnKey(source), counter, path, keys, packet, i))) ==
      if i + 1 == |path| then Delivered(Plain(packet))
      else if RELAY_SOURCE_OVERHEAD + LAYER_OVERHEAD * (|path| - i - 1) + |packet| > Frames.MAX_LOGICAL then Dropped
      else Forwarded(path[i + 1], RelayFrame(source.id, content, Layers(OwnKey(source), counter, path, keys, packet, i + 1)))
  {
    LayersLength(OwnKey(source), counter, path, keys, packet, i);
    assert SharedKey(OwnKey(source), keys[i]) == SharedKey(OwnKey(hops[i]), OwnKey(source));
    if i + 1 < |path| {
      assert path[i + 1] in path && path[i] != path[i + 1];
      LayersLength(OwnKey(source), counter, path, keys, packet, i + 1);
      Frames.FrameMade(RELAY_SOURCE_OVERHEAD + LAYER_OVERHEAD * (|path| - i - 1) + |packet|, hops[i].bucket);
    }
  }

  /** A layer opens for the hop it was made for and for nobody else. */
  lemma OnlyTheHopOpens(source: NodeId, counter: nat, path: seq<NodeId>, keys: seq<PublicKey>, packet: seq<byte>, i: nat, other: NodeId)
    requires KeysOf(path, keys) && i < |path|
    ensures PeelOnion(KeyOf(other), KeyOf(source), Layers(KeyOf(source), counter, path, keys, packet, i)).Some? <==> other == path[i]
  {
    LayersLength(KeyOf(source), counter, path, keys, packet, i);
  }

  /** The outcome of letting a frame travel hop by hop. */
  function Travel(hops: seq<Hop>, f: RelayFrame): Outcome
    decreases |hops|
  {
    if hops == [] then Dropped
    else match HandleRelay(hops[0], f)
      case Forwarded(to, frame) => if |hops| > 1 && to == hops[1].id then Travel(hops[1..], frame) else Dropped
      case other => other
  }

  function Journey(source: Hop, counter: nat, path: seq<NodeId>, packet: seq<byte>, content: nat, hops: seq<Hop>): Outcome {
    match Launch(source, counter, path, packet, content)
    case None => Dropped
    case Some(frame) => Travel(hops, frame)
  }

  /** The packet with all its layers fits a session frame. */
  predicate Framable(depth: nat, size: nat) {
    RELAY_SOURCE_OVERHEAD + LAYER_OVERHEAD * depth + size <= Frames.MAX_LOGICAL
  }

  /**
   Along every proper path of cooperating nodes the onion arrives if and only if the session layer can frame it
   at the source, and what arrives is the packet.
   */
  lemma OnionArrives(source: Hop, counter: nat, path: seq<NodeId>, packet: seq<byte>, content: nat, hops: seq<Hop>)
    requires ProperPath(path) && Cooperating(source, path, hops) && packet != []
    requires content == IP_PACKET || content == PATH_PROBE
    ensures Journey(source, counter, path, packet, content, hops) ==
            if Framable(|path|, |packet|) then Delivered(Plain(packet)) else Dropped
  {
    var keys := PathKeys(source.keys, path);
    forall i | 0 <= i < |path| ensures keys[i] == KeyOf(path[i]) {
      assert path[i] in path;
    }
    LayersLength(OwnKey(source), counter, path, keys, packet, 0);
    Frames.FrameMade(RELAY_SOURCE_OVERHEAD + LAYER_OVERHEAD * |path| + |packet|, source.bucket);
    if Framable(|path|, |packet|) {
      assert hops[0..] == hops;
      ArrivesFrom(source, counter, path, keys, packet, content, hops, 0);
    }
  }

  lemma OneHop(hops: seq<Hop>, frame: RelayFrame, to: NodeId, rest: RelayFrame)
    requires |hops| > 1 && HandleRelay(hops[0], frame) == Forwarded(to, rest) && to == hops[1].id
    ensures Travel(hops, frame) == Travel(hops[1..], rest)
  {
  }

  lemma {:induction false} ArrivesFrom(source: Hop, counter: nat, path: seq<NodeId>, keys: seq<PublicKey>, packet: seq<byte>,
                                       content: nat, hops: seq<Hop>, i: nat)
    requires ProperPath(path) && KeysOf(path, keys) && Cooperating(source, path, hops) && i < |path|
    requires (content == IP_PACKET || content == PATH_PROBE) && Framable(|path|, |packet|)
    ensures Travel(hops[i..], RelayFrame(source.id, content, Layers(OwnKey(source), counter, path, keys, packet, i))) ==
            Delivered(Plain(packet))
    decreases |path| - i
  {
    HopReveals(source, counter, path, keys, packet, content, hops, i);
    var frame := RelayFrame(source.id, content, Layers(OwnKey(source), counter, path, keys, packet, i));
    assert hops[i..][0] == hops[i];
    if i + 1 < |path| {
      ArrivesFrom(source, counter, path, keys, packet, content, hops, i + 1);
      assert hops[i..][1..] == hops[i + 1..];
      OneHop(hops[i..], frame, hops[i + 1].id, RelayFrame(source.id, content, Layers(OwnKey(source), counter, path, keys, packet, i + 1)));
    }
  }
}
