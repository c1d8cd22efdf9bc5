/** The overlay MTU contract: which inner packets fit the underlay at a route depth, whatever padding they get. */
module Mtu {
  import opened Basics
  import opened Frames
  import opened Onion

  const OUTER_OVERHEAD := 28
  const MINIMUM_MTU := 576
  const MAXIMUM_MTU := 65535

  function WireOverhead(depth: nat, bucket: nat): Option<nat> {
    if depth < 1 || depth > MAX_HOPS || !SupportedBucket(bucket) then None
    else Some(OUTER_OVERHEAD + FrameOverhead(bucket) + if depth > 1 then RELAY_SOURCE_OVERHEAD + depth * LAYER_OVERHEAD else 0)
  }

  function SafeOverlayMtu(underlay: nat, depth: nat, bucket: nat): Option<nat> {
    if underlay > MAXIMUM_MTU then None
    else match WireOverhead(depth, bucket)
      case None => None
      case Some(overhead) => if underlay < overhead + MINIMUM_MTU then None else Some(underlay - overhead)
  }

  /** The bytes around an inner packet: on a direct route 75 and a bucket; on a relayed one 108, 60 a hop and a bucket. */
  lemma MtuExactly(underlay: nat, depth: nat, bucket: nat)
    ensures var around := 28 + 47 + bucket + (if depth > 1 then 33 + 60 * depth else 0);
      && (SafeOverlayMtu(underlay, depth, bucket).Some? <==>
            1 <= depth <= 8 && bucket in {32, 64, 128, 256} && 576 + around <= underlay <= 65535)
      && (SafeOverlayMtu(underlay, depth, bucket).Some? ==> SafeOverlayMtu(underlay, depth, bucket).value == underlay - around)
  {
  }

  predicate FitsRoute(underlay: nat, depth: nat, bucket: nat, size: nat) {
    SafeOverlayMtu(underlay, depth, bucket).Some? && size <= SafeOverlayMtu(underlay, depth, bucket).value
  }

  /** The logical payload of the first frame of a packet: the packet itself on a direct route, else its onion. */
  function FirstPayload(depth: nat, size: nat): nat {
    if depth == 1 then size else RELAY_SOURCE_OVERHEAD + LAYER_OVERHEAD * depth + size
  }

  /** The frame that carries the packet to hop `i`: a data frame when the route is direct, else what is left of the onion. */
  function LogicalSize(self: PublicKey, counter: nat, path: seq<NodeId>, keys: seq<PublicKey>, packet: seq<byte>, i: nat): nat
    requires |path| == |keys| && i < |path|
  {
    if |path| == 1 then |packet| else RelaySize(Layers(self, counter, path, keys, packet, i))
  }

  // ---------- when a frame can be made ----------

  /** Underlays this large leave no packet within the overlay MTU without a frame. */
  predicate UnderlayFramable(underlay: nat, bucket: nat) {
    underlay <= MAX_LOGICAL + FrameOverhead(bucket) + OUTER_OVERHEAD
  }

  /** Every packet the MTU check passes can be framed if and only if the underlay is at most 4167 bytes and a bucket. */
  lemma EveryPacketFramed(underlay: nat, depth: nat, bucket: nat)
    requires SafeOverlayMtu(underlay, depth, bucket).Some?
    ensures (forall size: nat :: FitsRoute(underlay, depth, bucket, size) ==> FrameSize(FirstPayload(depth, size), bucket).Some?) <==>
            UnderlayFramable(underlay, bucket)
    ensures UnderlayFramable(underlay, bucket) <==> underlay <= 4167 + bucket
  {
    var mtu := SafeOverlayMtu(underlay, depth, bucket).value;
    FrameMade(FirstPayload(depth, mtu), bucket);
    assert FitsRoute(underlay, depth, bucket, mtu);
    forall size: nat | FitsRoute(underlay, depth, bucket, size) && UnderlayFramable(underlay, bucket)
      ensures FrameSize(FirstPayload(depth, size), bucket).Some?
    {
      FrameMade(FirstPayload(depth, size), bucket);
    }
  }

  /** A jumbo underlay passes configuration, and the largest packet it admits is never framed. */
  lemma JumboPacketLost()
    ensures SafeOverlayMtu(9000, 2, 64) == Some(8708) && FitsRoute(9000, 2, 64, 8708)
    ensures FrameSize(FirstPayload(2, 8708), 64).None? && !Framable(2, 8708)
  {
    FrameMade(FirstPayload(2, 8708), 64);
  }

  // ---------- whether it fits ----------

  /**
   A packet within the overlay MTU for its depth is framed on every hop and fits the underlay in every frame, when
   the node that makes frame `i` pads to a bucket at most sixty bytes per removed layer larger than the source's.
   */
  lemma EveryFrameFits(self: PublicKey, counter: nat, path: seq<NodeId>, keys: seq<PublicKey>, packet: seq<byte>,
                       underlay: nat, bucket: nat, i: nat, own: nat)
    requires |path| == |keys| && i < |path| && FitsRoute(underlay, |path|, bucket, |packet|)
    requires UnderlayFramable(underlay, bucket) && SupportedBucket(own) && own <= bucket + LAYER_OVERHEAD * i
    ensures var size := FrameSize(LogicalSize(self, counter, path, keys, packet, i), own);
      size.Some? && OUTER_OVERHEAD + size.value <= underlay
  {
    var logical := LogicalSize(self, counter, path, keys, packet, i);
    LayersLength(self, counter, path, keys, packet, i);
    assert logical + LAYER_OVERHEAD * i <= FirstPayload(|path|, |packet|);
    FrameMade(logical, own);
    FrameWithinOverhead(logical, own);
  }

  lemma PaddingGrows(small: nat, large: nat, bucket: nat)
    requires SupportedBucket(bucket) && small <= large
    ensures PaddedSize(small, bucket) <= PaddedSize(large, bucket)
  {
    if bucket == 32 {} else if bucket == 64 {} else if bucket == 128 {} else {}
  }

  /** Everything around the padded payload on the physical wire. */
  const RAW_OVERHEAD := OUTER_OVERHEAD + HEADER_SIZE + NONCE_SIZE + TAG_SIZE

  /** The relay frame with `layers` layers left, padded to this bucket, is no longer than the underlay allows. */
  predicate RelayFits(underlay: nat, layers: nat, size: nat, bucket: nat) {
    RAW_OVERHEAD + PaddedSize(RELAY_SOURCE_OVERHEAD + LAYER_OVERHEAD * layers + size, bucket) <= underlay
  }

  /**
   For any bucket a relay pads to, every packet within the source's MTU fits the relay's frame if and only if a
   packet of exactly the MTU does.
   */
  lemma LargestDecides(underlay: nat, depth: nat, bucket: nat, layers: nat, own: nat)
    requires SafeOverlayMtu(underlay, depth, bucket).Some? && SupportedBucket(own)
    ensures (forall size: nat :: FitsRoute(underlay, depth, bucket, size) ==> RelayFits(underlay, layers, size, own)) <==>
            RelayFits(underlay, layers, SafeOverlayMtu(underlay, depth, bucket).value, own)
  {
    var mtu := SafeOverlayMtu(underlay, depth, bucket).value;
    var base := RELAY_SOURCE_OVERHEAD + LAYER_OVERHEAD * layers;
    assert FitsRoute(underlay, depth, bucket, mtu);
    forall size: nat | FitsRoute(underlay, depth, bucket, size) && RelayFits(underlay, layers, mtu, own)
      ensures RelayFits(underlay, layers, size, own)
    {
      PaddingGrows(base + size, base + mtu, own);
    }
  }

  /** A relay that pads coarsely can outgrow the source's underlay: 32 bytes at the source and 256 at the second hop. */
  lemma CoarseRelayOverflows()
    ensures SafeOverlayMtu(1500, 2, 32) == Some(1240)
    ensures var size := FrameSize(RELAY_SOURCE_OVERHEAD + LAYER_OVERHEAD + 1240, 256);
      size.Some? && OUTER_OVERHEAD + size.value > 1500 && !RelayFits(1500, 1, 1240, 256)
  {
  }

  /** The budget is tight: at any depth a packet of exactly the MTU, padded at worst, fills the underlay to the last byte. */
  lemma BudgetIsTight(underlay: nat, depth: nat, bucket: nat)
    requires SafeOverlayMtu(underlay, depth, bucket).Some? && UnderlayFramable(underlay, bucket)
    ensures var logical := FirstPayload(depth, SafeOverlayMtu(underlay, depth, bucket).value);
      && logical + FrameOverhead(bucket) + OUTER_OVERHEAD == underlay
      && FrameSize(logical, bucket).Some?
      && ((logical + LENGTH_PREFIX) % bucket == 1 ==> OUTER_OVERHEAD + FrameSize(logical, bucket).value == underlay)
  {
    var logical := FirstPayload(depth, SafeOverlayMtu(underlay, depth, bucket).value);
    FrameMade(logical, bucket);
    if (logical + LENGTH_PREFIX) % bucket == 1 {
      PaddedWorstCase(logical, bucket);
    }
  }

  /** Deeper routes never get a larger MTU, so a packet sized for the deepest permitted route fits all others. */
  lemma DeeperIsSmaller(underlay: nat, depth: nat, deeper: nat, bucket: nat)
    requires 1 <= depth <= deeper && SafeOverlayMtu(underlay, deeper, bucket).Some?
    ensures SafeOverlayMtu(underlay, depth, bucket).Some?
    ensures SafeOverlayMtu(underlay, deeper, bucket).value <= SafeOverlayMtu(underlay, depth, bucket).value
  {
  }

  // ---------- end to end ----------

  /** What becomes of a packet that the source routes along a relay path. */
  function SendRelayed(source: Hop, underlay: nat, maxDepth: nat, counter: nat, path: seq<NodeId>, packet: seq<byte>,
                       hops: seq<Hop>): Outcome {
    if |path| > maxDepth || !FitsRoute(underlay, |path|, source.bucket, |packet|) then Dropped
    else Journey(source, counter, path, packet, IP_PACKET, hops)
  }

  /** Along cooperating nodes a packet arrives if and only if it is within the MTU and its onion can be framed. */
  lemma PacketArrives(source: Hop, underlay: nat, maxDepth: nat, counter: nat, path: seq<NodeId>, packet: seq<byte>, hops: seq<Hop>)
    requires ProperPath(path) && Cooperating(source, path, hops) && packet != [] && 2 <= |path| <= maxDepth
    ensures SendRelayed(source, underlay, maxDepth, counter, path, packet, hops) ==
            if FitsRoute(underlay, |path|, source.bucket, |packet|) && Framable(|path|, |packet|)
            then Delivered(Plain(packet)) else Dropped
    ensures UnderlayFramable(underlay, source.bucket) && FitsRoute(underlay, |path|, source.bucket, |packet|) ==>
            Framable(|path|, |packet|)
  {
    OnionArrives(source, counter, path, packet, IP_PACKET, hops);
  }
}
