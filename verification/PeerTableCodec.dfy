/** The peer-table codec as it runs: loops that drive a reader or a writer cursor. */
module PeerTableCodec {
  import opened Basics
  import IpPrefixes
  import opened PeerTable
  import opened PeerCodec
  import opened Wire

  // ---------- reading ----------

  function Prepend<T>(front: seq<T>, o: Option<(seq<T>, Bytes)>): Option<(seq<T>, Bytes)> {
    if o.None? then None else Some((front + o.value.0, o.value.1))
  }

  lemma PrependMore<T>(front: seq<T>, x: T, o: Option<(seq<T>, Bytes)>)
    ensures Prepend(front, Prepend([x], o)) == Prepend(front + [x], o)
  {
    if o.Some? {
      assert front + ([x] + o.value.0) == (front + [x]) + o.value.0;
    }
  }

  lemma PrependNone<T>(o: Option<(seq<T>, Bytes)>)
    ensures Prepend([], o) == o
  {
    if o.Some? {
      assert [] + o.value.0 == o.value.0;
    }
  }

  /** The result of a reading method: the parsed value with the cursor behind it, or a failure. */
  ghost predicate Reads<T>(o: Option<(T, Bytes)>, r: Option<T>, left: Bytes) {
    if o.None? then r.None? else r == Some(o.value.0) && left == o.value.1
  }

  method ReadIds(reader: WireReader, n: nat) returns (r: Option<seq<Bytes32>>)
    requires reader.Valid()
    modifies reader
    ensures reader.Valid() && Reads(DecodeIds(old(reader.Left()), n), r, reader.Left())
  {
    var ids: seq<Bytes32> := [];
    ghost var whole := DecodeIds(reader.Left(), n);
    PrependNone(whole);
    for i := 0 to n
      invariant reader.Valid() && whole == Prepend(ids, DecodeIds(reader.Left(), n - i))
    {
      ghost var left := reader.Left();
      var id := reader.ReadBytes(32);
      if id.None? {
        return None;
      }
      PrependMore(ids, id.value, DecodeIds(left[32..], n - i - 1));
      ids := ids + [id.value];
    }
    assert ids + [] == ids;
    return Some(ids);
  }

  method ReadAddress(reader: WireReader, version: nat) returns (r: Option<IpPrefixes.Address>)
    requires reader.Valid()
    modifies reader
    ensures reader.Valid() && Reads(DecodeAddress(old(reader.Left()), version), r, reader.Left())
  {
    if version == LEGACY_VERSION {
      var a := reader.ReadBytes(4);
      if a.None? {
        return None;
      }
      return Some(IpPrefixes.Address(IpPrefixes.IPv4, AsOctets(a.value) + seq(12, _ => 0 as bv8)));
    }
    var f := reader.ReadNumber(1);
    if f.None? {
      return None;
    }
    var b := reader.ReadBytes(IpPrefixes.ADDRESS_BYTES);
    if b.None? || (f.value != 4 && f.value != 6) {
      return None;
    }
    var octets := AsOctets(b.value);
    if f.value == 4 && !ZeroTail(octets) {
      return None;
    }
    return Some(IpPrefixes.Address(if f.value == 4 then IpPrefixes.IPv4 else IpPrefixes.IPv6, octets));
  }

  method ReadDetails(reader: WireReader, address: IpPrefixes.Address) returns (r: Option<AdvertisedPrefix>)
    requires reader.Valid()
    modifies reader
    ensures reader.Valid() && Reads(DecodeDetails(address, old(reader.Left())), r, reader.Left())
  {
    ghost var s := reader.Left();
    var length := reader.ReadNumber(1);
    if length.None? {
      return None;
    }
    var sequence := reader.ReadNumber(8);
    if sequence.None? {
      return None;
    }
    assert s[1..][..8] == s[1..9] && s[1..][8..] == s[9..];
    var lease := reader.ReadNumber(4);
    if lease.None? {
      return None;
    }
    assert s[9..][..4] == s[9..13] && s[9..][4..] == s[13..];
    var metric := reader.ReadNumber(4);
    if metric.None? {
      return None;
    }
    assert s[13..][..4] == s[13..17] && s[13..][4..] == s[17..];
    var ap := AdvertisedPrefix(address, length.value, sequence.value, lease.value, metric.value);
    if !RecordOk(ap) {
      return None;
    }
    return Some(ap);
  }

  method ReadRecords(reader: WireReader, n: nat, version: nat) returns (r: Option<seq<AdvertisedPrefix>>)
    requires reader.Valid()
    modifies reader
    ensures reader.Valid() && Reads(DecodeRecords(old(reader.Left()), n, version), r, reader.Left())
  {
    var records: seq<AdvertisedPrefix> := [];
    ghost var whole := DecodeRecords(reader.Left(), n, version);
    PrependNone(whole);
    for i := 0 to n
      invariant reader.Valid() && whole == Prepend(records, DecodeRecords(reader.Left(), n - i, version))
    {
      ghost var left := reader.Left();
      var address := ReadAddress(reader, version);
      if address.None? {
        return None;
      }
      var ap := ReadDetails(reader, address.value);
      if ap.None? {
        return None;
      }
      PrependMore(records, ap.value, DecodeRecords(DecodeRecord(left, version).value.1, n - i - 1, version));
      records := records + [ap.value];
    }
    assert records + [] == records;
    return Some(records);
  }

  method ReadPrefixes(reader: WireReader, nodeId: Bytes32, key: Bytes32, path: seq<Bytes32>, version: nat) returns (r: Option<WirePeer>)
    requires reader.Valid()
    modifies reader
    ensures reader.Valid() && Reads(DecodePrefixes(nodeId, key, path, old(reader.Left()), version), r, reader.Left())
  {
    ghost var s := reader.Left();
    var flags := reader.ReadNumber(1);
    if flags.None? {
      return None;
    }
    var count := reader.ReadNumber(1);
    if count.None? {
      return None;
    }
    assert s[1..][..1] == s[1..2] && s[1..][1..] == s[2..];
    if flags.value != 0 || count.value > MAX_PREFIXES {
      return None;
    }
    var records := ReadRecords(reader, count.value, version);
    if records.None? {
      return None;
    }
    return Some(WirePeer(nodeId, key, path, records.value));
  }

  method ReadPeer(reader: WireReader, version: nat) returns (r: Option<WirePeer>)
    requires reader.Valid()
    modifies reader
    ensures reader.Valid() && Reads(DecodePeer(old(reader.Left()), version), r, reader.Left())
  {
    ghost var s := reader.Left();
    var nodeId := reader.ReadBytes(32);
    if nodeId.None? {
      return None;
    }
    var key := reader.ReadBytes(32);
    if key.None? {
      return None;
    }
    assert s[32..][..32] == s[32..64] && s[32..][32..] == s[64..];
    var hops := reader.ReadNumber(1);
    if hops.None? {
      return None;
    }
    assert s[64..][..1] == s[64..65] && s[64..][1..] == s[65..];
    if hops.value > MAX_PATH_HOPS {
      return None;
    }
    var path := ReadIds(reader, hops.value);
    if path.None? {
      return None;
    }
    r := ReadPrefixes(reader, nodeId.value, key.value, path.value, version);
  }

  method ReadPeers(reader: WireReader, n: nat, version: nat) returns (r: Option<seq<WirePeer>>)
    requires reader.Valid()
    modifies reader
    ensures reader.Valid() && Reads(DecodePeers(old(reader.Left()), n, version), r, reader.Left())
  {
    var peers: seq<WirePeer> := [];
    ghost var whole := DecodePeers(reader.Left(), n, version);
    PrependNone(whole);
    for i := 0 to n
      invariant reader.Valid() && whole == Prepend(peers, DecodePeers(reader.Left(), n - i, version))
    {
      ghost var left := reader.Left();
      var p := ReadPeer(reader, version);
      if p.None? {
        return None;
      }
      PrependMore(peers, p.value, DecodePeers(DecodePeer(left, version).value.1, n - i - 1, version));
      peers := peers + [p.value];
    }
    assert peers + [] == peers;
    return Some(peers);
  }

  method DeserializePeerTable(data: Bytes) returns (r: Option<seq<WirePeer>>)
    ensures r == DecodeTable(data)
  {
    if |data| < 3 || |data| > MAX_WIRE_BYTES {
      return None;
    }
    var reader := new WireReader(data);
    var version := reader.ReadNumber(1);
    var count := reader.ReadNumber(2);
    assert data[1..][..2] == data[1..3] && data[1..][2..] == data[3..];
    if (version.value != LEGACY_VERSION && version.value != VERSION) || count.value > MAX_PEERS {
      return None;
    }
    var peers := ReadPeers(reader, count.value, version.value);
    if peers.None? || reader.offset != |data| {
      return None;
    }
    return peers;
  }

  // ---------- writing ----------

  predicate CountsFit(p: WirePeer) {
    |p.path| <= MAX_PATH_HOPS && |p.prefixes| <= MAX_PREFIXES
  }

  /** The size the table will have, or a refusal as soon as a peer is too large or the limit is passed. */
  method Measure(peers: seq<WirePeer>) returns (size: nat, ok: bool)
    ensures ok <==> 3 + |EncodePeers(peers)| <= MAX_WIRE_BYTES && forall i :: 0 <= i < |peers| ==> CountsFit(peers[i])
    ensures ok ==> size == 3 + |EncodePeers(peers)|
  {
    size := 3;
    assert peers[0..] == peers;
    for i := 0 to |peers|
      invariant size + |EncodePeers(peers[i..])| == 3 + |EncodePeers(peers)| && size <= MAX_WIRE_BYTES
      invariant forall k :: 0 <= k < i ==> CountsFit(peers[k])
    {
      if !CountsFit(peers[i]) {
        return size, false;
      }
      var more := EntrySize(|peers[i].path|, |peers[i].prefixes|);
      assert peers[i..][1..] == peers[i + 1..];
      if more > MAX_WIRE_BYTES - size {
        return size, false;
      }
      size := size + more;
    }
    assert peers[|peers|..] == [];
    ok := true;
  }

  /** The writer's output so far, followed by `todo`, is `goal`, and there is room for it. */
  ghost predicate Towards(writer: WireWriter, todo: Bytes, goal: Bytes)
    reads writer, writer.buffer
  {
    writer.Valid() && |todo| <= writer.buffer.Length - writer.offset && writer.Written() + todo == goal
  }

  method WriteIds(writer: WireWriter, ids: seq<Bytes32>)
    requires writer.Valid() && 32 * |ids| <= writer.buffer.Length - writer.offset
    modifies writer, writer.buffer
    ensures writer.Valid() && writer.Written() == old(writer.Written()) + EncodeIds(ids)
  {
    ghost var goal := writer.Written() + EncodeIds(ids);
    assert ids[0..] == ids;
    for i := 0 to |ids|
      invariant Towards(writer, EncodeIds(ids[i..]), goal)
    {
      assert ids[i..][1..] == ids[i + 1..];
      Associate(writer.Written(), ids[i], EncodeIds(ids[i + 1..]));
      var ok := writer.WriteBytes(ids[i]);
    }
    assert ids[|ids|..] == [];
  }

  method WriteAddress(writer: WireWriter, ap: AdvertisedPrefix)
    requires writer.Valid() && 17 <= writer.buffer.Length - writer.offset
    modifies writer, writer.buffer
    ensures writer.Valid() && writer.Written() == old(writer.Written()) + EncodeAddress(ap)
  {
    var code, bytes := FamilyCode(ap.prefix.family), AsBytes(IpPrefixes.Canonical(ap.prefix, ap.length).bytes);
    Associate(writer.Written(), Encode(code, 1), bytes);
    var ok := writer.WriteNumber(code, 1);
    ok := writer.WriteBytes(bytes);
  }

  method WriteDetails(writer: WireWriter, ap: AdvertisedPrefix)
    requires writer.Valid() && 17 <= writer.buffer.Length - writer.offset
    modifies writer, writer.buffer
    ensures writer.Valid() && writer.Written() == old(writer.Written()) + EncodeDetails(ap)
  {
    ghost var before := writer.Written();
    ghost var w := Encode(ap.length, 1);
    var ok := writer.WriteNumber(ap.length, 1);
    ok := writer.WriteNumber(ap.sequence, 8);
    Associate(before, w, Encode(ap.sequence, 8));
    w := w + Encode(ap.sequence, 8);
    ok := writer.WriteNumber(ap.lease, 4);
    Associate(before, w, Encode(ap.lease, 4));
    w := w + Encode(ap.lease, 4);
    ok := writer.WriteNumber(ap.metric, 4);
    Associate(before, w, Encode(ap.metric, 4));
  }

  method WriteRecord(writer: WireWriter, ap: AdvertisedPrefix) returns (ok: bool)
    requires writer.Valid() && 34 <= writer.buffer.Length - writer.offset
    modifies writer, writer.buffer
    ensures writer.Valid() && (ok <==> RecordOk(ap))
    ensures ok ==> writer.Written() == old(writer.Written()) + EncodeRecord(ap)
  {
    if !RecordOk(ap) {
      return false;
    }
    Associate(writer.Written(), EncodeAddress(ap), EncodeDetails(ap));
    WriteAddress(writer, ap);
    WriteDetails(writer, ap);
    return true;
  }

  predicate RecordsAccepted(records: seq<AdvertisedPrefix>) {
    forall i :: 0 <= i < |records| ==> RecordOk(records[i])
  }

  method WriteRecords(writer: WireWriter, records: seq<AdvertisedPrefix>) returns (ok: bool)
    requires writer.Valid() && 34 * |records| <= writer.buffer.Length - writer.offset
    modifies writer, writer.buffer
    ensures writer.Valid() && (ok <==> RecordsAccepted(records))
    ensures ok ==> writer.Written() == old(writer.Written()) + EncodeRecords(records)
  {
    ghost var goal := writer.Written() + EncodeRecords(records);
    assert records[0..] == records;
    for i := 0 to |records|
      invariant Towards(writer, EncodeRecords(records[i..]), goal)
      invariant forall k :: 0 <= k < i ==> RecordOk(records[k])
    {
      assert records[i..][1..] == records[i + 1..];
      Associate(writer.Written(), EncodeRecord(records[i]), EncodeRecords(records[i + 1..]));
      ok := WriteRecord(writer, records[i]);
      if !ok {
        return false;
      }
    }
    assert records[|records|..] == [];
    ok := true;
  }

  method WriteHead(writer: WireWriter, p: WirePeer)
    requires writer.Valid() && 65 <= writer.buffer.Length - writer.offset
    modifies writer, writer.buffer
    ensures writer.Valid() && writer.Written() == old(writer.Written()) + EncodeHead(p)
  {
    ghost var before := writer.Written();
    var ok := writer.WriteBytes(p.nodeId);
    ok := writer.WriteBytes(p.key);
    Associate(before, p.nodeId, p.key);
    ok := writer.WriteNumber(|p.path|, 1);
    Associate(before, p.nodeId + p.key, Encode(|p.path|, 1));
  }

  method WriteTail(writer: WireWriter, p: WirePeer) returns (ok: bool)
    requires writer.Valid() && 2 + 34 * |p.prefixes| <= writer.buffer.Length - writer.offset
    modifies writer, writer.buffer
    ensures writer.Valid() && (ok <==> RecordsAccepted(p.prefixes))
    ensures ok ==> writer.Written() == old(writer.Written()) + EncodeTail(p)
  {
    ghost var before := writer.Written();
    ok := writer.WriteNumber(0, 1);
    ok := writer.WriteNumber(|p.prefixes|, 1);
    Associate(before, Encode(0, 1), Encode(|p.prefixes|, 1));
    ok := WriteRecords(writer, p.prefixes);
    Associate(before, Encode(0, 1) + Encode(|p.prefixes|, 1), EncodeRecords(p.prefixes));
  }

  method WritePeer(writer: WireWriter, p: WirePeer) returns (ok: bool)
    requires writer.Valid() && EntrySize(|p.path|, |p.prefixes|) <= writer.buffer.Length - writer.offset
    modifies writer, writer.buffer
    ensures writer.Valid() && (ok <==> RecordsAccepted(p.prefixes))
    ensures ok ==> writer.Written() == old(writer.Written()) + EncodePeer(p)
  {
    ghost var before := writer.Written();
    WriteHead(writer, p);
    WriteIds(writer, p.path);
    Associate(before, EncodeHead(p), EncodeIds(p.path));
    ok := WriteTail(writer, p);
    Associate(before, EncodeHead(p) + EncodeIds(p.path), EncodeTail(p));
  }

  method WritePeers(writer: WireWriter, peers: seq<WirePeer>) returns (ok: bool)
    requires writer.Valid() && |EncodePeers(peers)| <= writer.buffer.Length - writer.offset
    modifies writer, writer.buffer
    ensures writer.Valid() && (ok <==> forall i :: 0 <= i < |peers| ==> RecordsAccepted(peers[i].prefixes))
    ensures ok ==> writer.Written() == old(writer.Written()) + EncodePeers(peers)
  {
    ghost var goal := writer.Written() + EncodePeers(peers);
    assert peers[0..] == peers;
    for i := 0 to |peers|
      invariant Towards(writer, EncodePeers(peers[i..]), goal)
      invariant forall k :: 0 <= k < i ==> RecordsAccepted(peers[k].prefixes)
    {
      assert peers[i..][1..] == peers[i + 1..];
      Associate(writer.Written(), EncodePeer(peers[i]), EncodePeers(peers[i + 1..]));
      ok := WritePeer(writer, peers[i]);
      if !ok {
        return false;
      }
    }
    assert peers[|peers|..] == [];
    ok := true;
  }

  method SerializePeerTable(peers: seq<WirePeer>) returns (r: Option<Bytes>)
    requires forall i, j :: 0 <= i < |peers| && 0 <= j < |peers[i].prefixes| ==> Fits(peers[i].prefixes[j].sequence, 8)
    ensures r == EncodeTable(peers)
  {
    if |peers| > MAX_PEERS {
      return None;
    }
    var size, measured := Measure(peers);
    if !measured {
      return None;
    }
    var buffer := new byte[size](_ => 0);
    var writer := new WireWriter(buffer);
    var ok := writer.WriteNumber(VERSION, 1);
    ok := writer.WriteNumber(|peers|, 2);
    ghost var header := Encode(VERSION, 1) + Encode(|peers|, 2);
    assert writer.Written() == header;
    ok := WritePeers(writer, peers);
    if !ok {
      return None;
    }
    assert writer.Written() == header + EncodePeers(peers);
    assert writer.offset == buffer.Length && buffer[..buffer.Length] == buffer[..];
    return Some(buffer[..]);
  }
}
