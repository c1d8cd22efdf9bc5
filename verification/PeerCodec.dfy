/** The peer-table wire format: what the serializer writes and what the deserializer makes of any bytes. */
module PeerCodec {
  import opened Basics
  import opened IpPrefixes
  import opened PeerTable
  import opened Wire

  const VERSION := 4
  const LEGACY_VERSION := 3

  type Bytes32 = s: Bytes | |s| == 32 witness seq(32, _ => 0)

  datatype WirePeer = WirePeer(nodeId: Bytes32, key: Bytes32, path: seq<Bytes32>, prefixes: seq<AdvertisedPrefix>)

  // ---------- address bytes ----------

  function AsBytes(s: seq<bv8>): (r: Bytes)
    ensures |r| == |s| && forall i :: 0 <= i < |s| ==> r[i] == s[i] as byte
  {
    seq(|s|, i requires 0 <= i < |s| => s[i] as byte)
  }

  function AsOctets(s: Bytes): (r: seq<bv8>)
    ensures |r| == |s| && forall i :: 0 <= i < |s| ==> r[i] == s[i] as bv8
  {
    seq(|s|, i requires 0 <= i < |s| => s[i] as bv8)
  }

  lemma OctetRoundTrip(b: bv8)
    ensures (b as byte) as bv8 == b && (b == 0 <==> b as byte == 0)
  {
  }

  lemma OctetsRoundTrip(s: seq<bv8>)
    ensures AsOctets(AsBytes(s)) == s
  {
    forall i | 0 <= i < |s| ensures AsOctets(AsBytes(s))[i] == s[i] {
      OctetRoundTrip(s[i]);
    }
  }

  // ---------- encoding ----------

  function FamilyCode(f: Family): nat {
    match f
    case IPv4 => 4
    case IPv6 => 6
    case OtherFamily(code) => code % 0x100
  }

  function EncodeAddress(ap: AdvertisedPrefix): (r: Bytes)
    ensures |r| == 17
  {
    Encode(FamilyCode(ap.prefix.family), 1) + AsBytes(Canonical(ap.prefix, ap.length).bytes)
  }

  function EncodeDetails(ap: AdvertisedPrefix): (r: Bytes)
    ensures |r| == 17
  {
    Encode(ap.length, 1) + Encode(ap.sequence, 8) + Encode(ap.lease, 4) + Encode(ap.metric, 4)
  }

  function EncodeRecord(ap: AdvertisedPrefix): (r: Bytes)
    ensures |r| == 34
  {
    EncodeAddress(ap) + EncodeDetails(ap)
  }

  function EncodeRecords(prefixes: seq<AdvertisedPrefix>): (r: Bytes)
    ensures |r| == 34 * |prefixes|
  {
    if prefixes == [] then [] else EncodeRecord(prefixes[0]) + EncodeRecords(prefixes[1..])
  }

  function EncodeIds(ids: seq<Bytes32>): (r: Bytes)
    ensures |r| == 32 * |ids|
  {
    if ids == [] then [] else ids[0] + EncodeIds(ids[1..])
  }

  function EncodeHead(p: WirePeer): (r: Bytes)
    ensures |r| == 65
  {
    p.nodeId + p.key + Encode(|p.path|, 1)
  }

  /** A reserved flags byte, the number of prefixes and the prefixes. */
  function EncodeTail(p: WirePeer): (r: Bytes)
    ensures |r| == 2 + 34 * |p.prefixes|
  {
    Encode(0, 1) + Encode(|p.prefixes|, 1) + EncodeRecords(p.prefixes)
  }

  function EncodePeer(p: WirePeer): (r: Bytes)
    ensures |r| == EntrySize(|p.path|, |p.prefixes|)
  {
    EncodeHead(p) + EncodeIds(p.path) + EncodeTail(p)
  }

  function EncodePeers(peers: seq<WirePeer>): Bytes {
    if peers == [] then [] else EncodePeer(peers[0]) + EncodePeers(peers[1..])
  }

  /** Sequence numbers are 64-bit fields; the rest are the serializer's own checks. */
  predicate PeerFits(p: WirePeer) {
    && |p.path| <= MAX_PATH_HOPS && |p.prefixes| <= MAX_PREFIXES
    && forall i :: 0 <= i < |p.prefixes| ==> RecordOk(p.prefixes[i]) && Fits(p.prefixes[i].sequence, 8)
  }

  /** The bytes of a table, or None where the serializer refuses it. */
  function EncodeTable(peers: seq<WirePeer>): Option<Bytes> {
    var body := EncodePeers(peers);
    if |peers| > MAX_PEERS || 3 + |body| > MAX_WIRE_BYTES || exists i :: 0 <= i < |peers| && !PeerFits(peers[i]) then None
    else Some(Encode(VERSION, 1) + Encode(|peers|, 2) + body)
  }

  // ---------- decoding ----------

  predicate ZeroTail(octets: seq<bv8>)
    requires |octets| == ADDRESS_BYTES
  {
    forall i :: 4 <= i < ADDRESS_BYTES ==> octets[i] == 0
  }

  function DecodeAddress(s: Bytes, version: nat): Option<(Address, Bytes)> {
    if version == LEGACY_VERSION then
      var a := Take(s, 4);
      if a.None? then None
      else Some((Address(IPv4, AsOctets(a.value.0) + seq(12, _ => 0 as bv8)), a.value.1))
    else
      var f := TakeNumber(s, 1);
      if f.None? then None
      else
        var b := Take(f.value.1, ADDRESS_BYTES);
        if b.None? || (f.value.0 != 4 && f.value.0 != 6) then None
        else
          var octets := AsOctets(b.value.0);
          if f.value.0 == 4 && !ZeroTail(octets) then None
          else Some((Address(if f.value.0 == 4 then IPv4 else IPv6, octets), b.value.1))
  }

  function DecodeRecord(s: Bytes, version: nat): Option<(AdvertisedPrefix, Bytes)> {
    var a := DecodeAddress(s, version);
    if a.None? then None
    else DecodeDetails(a.value.0, a.value.1)
  }

  function DecodeDetails(address: Address, s: Bytes): Option<(AdvertisedPrefix, Bytes)> {
    if |s| < 17 then None
    else
      var ap := AdvertisedPrefix(address, Decode(s[..1]), Decode(s[1..9]), Decode(s[9..13]), Decode(s[13..17]));
      if RecordOk(ap) then Some((ap, s[17..])) else None
  }

  function DecodeRecords(s: Bytes, n: nat, version: nat): Option<(seq<AdvertisedPrefix>, Bytes)>
    decreases n
  {
    if n == 0 then Some(([], s))
    else
      var a := DecodeRecord(s, version);
      if a.None? then None
      else
        var rest := DecodeRecords(a.value.1, n - 1, version);
        if rest.None? then None else Some(([a.value.0] + rest.value.0, rest.value.1))
  }

  function DecodeIds(s: Bytes, n: nat): Option<(seq<Bytes32>, Bytes)>
    decreases n
  {
    if n == 0 then Some(([], s))
    else if |s| < 32 then None
    else
      var rest := DecodeIds(s[32..], n - 1);
      if rest.None? then None else Some(([s[..32]] + rest.value.0, rest.value.1))
  }

  function DecodePeer(s: Bytes, version: nat): Option<(WirePeer, Bytes)> {
    if |s| < 65 || Decode(s[64..65]) > MAX_PATH_HOPS then None
    else
      var path := DecodeIds(s[65..], Decode(s[64..65]));
      if path.None? then None
      else DecodePrefixes(s[..32], s[32..64], path.value.0, path.value.1, version)
  }

  function DecodePrefixes(nodeId: Bytes32, key: Bytes32, path: seq<Bytes32>, s: Bytes, version: nat): Option<(WirePeer, Bytes)> {
    if |s| < 2 || Decode(s[..1]) != 0 || Decode(s[1..2]) > MAX_PREFIXES then None
    else
      var records := DecodeRecords(s[2..], Decode(s[1..2]), version);
      if records.None? then None else Some((WirePeer(nodeId, key, path, records.value.0), records.value.1))
  }

  function DecodePeers(s: Bytes, n: nat, version: nat): Option<(seq<WirePeer>, Bytes)>
    decreases n
  {
    if n == 0 then Some(([], s))
    else
      var p := DecodePeer(s, version);
      if p.None? then None
      else
        var rest := DecodePeers(p.value.1, n - 1, version);
        if rest.None? then None else Some(([p.value.0] + rest.value.0, rest.value.1))
  }

  /** Every byte must be accounted for. */
  function DecodeTable(data: Bytes): Option<seq<WirePeer>> {
    if |data| < 3 || |data| > MAX_WIRE_BYTES then None
    else
      var version, count := Decode(data[..1]), Decode(data[1..3]);
      if (version != LEGACY_VERSION && version != VERSION) || count > MAX_PEERS then None
      else
        var peers := DecodePeers(data[3..], count, version);
        if peers.None? || peers.value.1 != [] then None else Some(peers.value.0)
  }

  // ---------- the round trip ----------

  function CanonicalRecord(ap: AdvertisedPrefix): AdvertisedPrefix {
    ap.(prefix := Canonical(ap.prefix, ap.length))
  }

  function CanonicalRecords(prefixes: seq<AdvertisedPrefix>): seq<AdvertisedPrefix> {
    if prefixes == [] then [] else [CanonicalRecord(prefixes[0])] + CanonicalRecords(prefixes[1..])
  }

  function CanonicalPeer(p: WirePeer): WirePeer {
    p.(prefixes := CanonicalRecords(p.prefixes))
  }

  function CanonicalPeers(peers: seq<WirePeer>): seq<WirePeer> {
    if peers == [] then [] else [CanonicalPeer(peers[0])] + CanonicalPeers(peers[1..])
  }

  /** An IPv4 prefix is written with zeros behind its four bytes. */
  lemma CanonicalZeroTail(a: Address, length: nat)
    requires a.family.IPv4? && length <= 32
    ensures ZeroTail(Canonical(a, length).bytes)
  {
  }

  lemma AddressRoundTrip(ap: AdvertisedPrefix, rest: Bytes)
    requires RecordOk(ap)
    ensures DecodeAddress(EncodeAddress(ap) + rest, VERSION) == Some((Canonical(ap.prefix, ap.length), rest))
  {
    var c := Canonical(ap.prefix, ap.length);
    var code, bytes := FamilyCode(ap.prefix.family), AsBytes(c.bytes);
    SmallFits(code);
    Associate(Encode(code, 1), bytes, rest);
    TakeEncoded(code, 1, bytes + rest);
    TakeFront(bytes, rest);
    OctetsRoundTrip(c.bytes);
    if ap.prefix.family.IPv4? {
      CanonicalZeroTail(ap.prefix, ap.length);
    }
  }

  lemma DetailsRoundTrip(ap: AdvertisedPrefix, rest: Bytes)
    requires RecordOk(ap) && Fits(ap.sequence, 8)
    ensures DecodeDetails(Canonical(ap.prefix, ap.length), EncodeDetails(ap) + rest) == Some((CanonicalRecord(ap), rest))
  {
    var s := EncodeDetails(ap) + rest;
    SmallFits(ap.length);
    SmallFits(ap.lease);
    SmallFits(ap.metric);
    DecodeEncode(ap.length, 1);
    DecodeEncode(ap.sequence, 8);
    DecodeEncode(ap.lease, 4);
    DecodeEncode(ap.metric, 4);
    assert s[..1] == Encode(ap.length, 1) && s[1..9] == Encode(ap.sequence, 8);
    assert s[9..13] == Encode(ap.lease, 4) && s[13..17] == Encode(ap.metric, 4) && s[17..] == rest;
  }

  lemma RecordRoundTrip(ap: AdvertisedPrefix, rest: Bytes)
    requires RecordOk(ap) && Fits(ap.sequence, 8)
    ensures DecodeRecord(EncodeRecord(ap) + rest, VERSION) == Some((CanonicalRecord(ap), rest))
  {
    Associate(EncodeAddress(ap), EncodeDetails(ap), rest);
    AddressRoundTrip(ap, EncodeDetails(ap) + rest);
    DetailsRoundTrip(ap, rest);
  }

  lemma {:induction false} RecordsRoundTrip(prefixes: seq<AdvertisedPrefix>, rest: Bytes)
    requires forall i :: 0 <= i < |prefixes| ==> RecordOk(prefixes[i]) && Fits(prefixes[i].sequence, 8)
    ensures DecodeRecords(EncodeRecords(prefixes) + rest, |prefixes|, VERSION) == Some((CanonicalRecords(prefixes), rest))
  {
    if prefixes == [] {
      assert EncodeRecords(prefixes) + rest == rest;
    } else {
      RecordRoundTrip(prefixes[0], EncodeRecords(prefixes[1..]) + rest);
      RecordsRoundTrip(prefixes[1..], rest);
      Associate(EncodeRecord(prefixes[0]), EncodeRecords(prefixes[1..]), rest);
    }
  }

  lemma {:induction false} IdsRoundTrip(ids: seq<Bytes32>, rest: Bytes)
    ensures DecodeIds(EncodeIds(ids) + rest, |ids|) == Some((ids, rest))
  {
    if ids == [] {
      assert EncodeIds(ids) + rest == rest;
    } else {
      IdsRoundTrip(ids[1..], rest);
      Associate(ids[0], EncodeIds(ids[1..]), rest);
      TakeFront(ids[0], EncodeIds(ids[1..]) + rest);
      assert [ids[0]] + ids[1..] == ids;
    }
  }

  /** The two bytes in front of the records. */
  lemma TailSlices(p: WirePeer, rest: Bytes)
    ensures var s := EncodeTail(p) + rest;
      s[..1] == Encode(0, 1) && s[1..2] == Encode(|p.prefixes|, 1) && s[2..] == EncodeRecords(p.prefixes) + rest
  {
    var flags, count, records := Encode(0, 1), Encode(|p.prefixes|, 1), EncodeRecords(p.prefixes);
    Associate(flags + count, records, rest);
    var s := flags + count + (records + rest);
    assert s[..1] == flags && s[1..2] == count && s[2..] == records + rest;
  }

  lemma PrefixesRoundTrip(p: WirePeer, rest: Bytes)
    requires PeerFits(p)
    ensures DecodePrefixes(p.nodeId, p.key, p.path, EncodeTail(p) + rest, VERSION) == Some((CanonicalPeer(p), rest))
  {
    SmallFits(0);
    SmallFits(|p.prefixes|);
    DecodeEncode(0, 1);
    DecodeEncode(|p.prefixes|, 1);
    TailSlices(p, rest);
    RecordsRoundTrip(p.prefixes, rest);
  }

  lemma HeadSlices(p: WirePeer, rest: Bytes)
    ensures var s := EncodeHead(p) + rest;
      s[..32] == p.nodeId && s[32..64] == p.key && s[64..65] == Encode(|p.path|, 1) && s[65..] == rest
  {
    var s := EncodeHead(p) + rest;
    assert s[..32] == p.nodeId && s[32..64] == p.key && s[64..65] == Encode(|p.path|, 1) && s[65..] == rest;
  }

  lemma PeerRoundTrip(p: WirePeer, rest: Bytes)
    requires PeerFits(p)
    ensures DecodePeer(EncodePeer(p) + rest, VERSION) == Some((CanonicalPeer(p), rest))
  {
    var head, ids, tail := EncodeHead(p), EncodeIds(p.path), EncodeTail(p);
    Associate(head + ids, tail, rest);
    Associate(head, ids, tail + rest);
    SmallFits(|p.path|);
    DecodeEncode(|p.path|, 1);
    HeadSlices(p, ids + (tail + rest));
    IdsRoundTrip(p.path, tail + rest);
    PrefixesRoundTrip(p, rest);
  }

  lemma {:induction false} PeersRoundTrip(peers: seq<WirePeer>, rest: Bytes)
    requires forall i :: 0 <= i < |peers| ==> PeerFits(peers[i])
    ensures DecodePeers(EncodePeers(peers) + rest, |peers|, VERSION) == Some((CanonicalPeers(peers), rest))
  {
    if peers == [] {
      assert EncodePeers(peers) + rest == rest;
    } else {
      var tail := EncodePeers(peers[1..]) + rest;
      PeerRoundTrip(peers[0], tail);
      PeersRoundTrip(peers[1..], rest);
      Associate(EncodePeer(peers[0]), EncodePeers(peers[1..]), rest);
      var s := EncodePeer(peers[0]) + tail;
      assert DecodePeers(s, |peers|, VERSION) == Some(([CanonicalPeer(peers[0])] + CanonicalPeers(peers[1..]), rest));
    }
  }

  /** Whatever the serializer accepts comes back whole, with its prefixes canonical and no byte left over. */
  lemma TableRoundTrip(peers: seq<WirePeer>)
    requires EncodeTable(peers).Some?
    ensures DecodeTable(EncodeTable(peers).value) == Some(CanonicalPeers(peers))
  {
    var data := EncodeTable(peers).value;
    SmallFits(VERSION);
    SmallFits(|peers|);
    DecodeEncode(VERSION, 1);
    DecodeEncode(|peers|, 2);
    assert data[..1] == Encode(VERSION, 1) && data[1..3] == Encode(|peers|, 2) && data[3..] == EncodePeers(peers) + [];
    PeersRoundTrip(peers, []);
  }

  /** Every peer adds its own size. */
  lemma {:induction false} EncodedSizeGrows(peers: seq<WirePeer>, last: WirePeer)
    ensures |EncodePeers(peers + [last])| == |EncodePeers(peers)| + EntrySize(|last.path|, |last.prefixes|)
  {
    if peers == [] {
      assert EncodePeers([last]) == EncodePeer(last) + EncodePeers([]);
    } else {
      HeadAndTail(peers, [last]);
      EncodedSizeGrows(peers[1..], last);
    }
  }
}
