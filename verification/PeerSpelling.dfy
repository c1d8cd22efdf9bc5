/**
 Exactly which bytes are a peer table, in the present version and the legacy one, and which peers they mean. Addresses are
 spelled as they stand, so unlike the serializer's own encoding this covers host bits behind a prefix.
 */
module PeerSpelling {
  import opened Basics
  import opened IpPrefixes
  import opened PeerTable
  import opened PeerCodec
  import opened Wire

  // ---------- lists of anything ----------

  function ReadMany<T>(read: Bytes -> Option<(T, Bytes)>, s: Bytes, n: nat): Option<(seq<T>, Bytes)>
    decreases n
  {
    if n == 0 then Some(([], s))
    else
      var first := read(s);
      if first.None? then None
      else
        var more := ReadMany(read, first.value.1, n - 1);
        if more.None? then None else Some(([first.value.0] + more.value.0, more.value.1))
  }

  function SpellMany<T>(spell: T -> Bytes, xs: seq<T>): Bytes {
    if xs == [] then [] else spell(xs[0]) + SpellMany(spell, xs[1..])
  }

  /** What one read takes is the spelling of what it gives. */
  ghost predicate Sound<T(!new)>(read: Bytes -> Option<(T, Bytes)>, spell: T -> Bytes, says: T -> bool) {
    forall s :: read(s).Some? ==> s == spell(read(s).value.0) + read(s).value.1 && says(read(s).value.0)
  }

  /** What may be said is read back from its spelling, whatever follows. */
  ghost predicate Complete<T(!new)>(read: Bytes -> Option<(T, Bytes)>, spell: T -> Bytes, says: T -> bool) {
    forall x, rest :: says(x) ==> read(spell(x) + rest) == Some((x, rest))
  }

  lemma {:induction false} ManyRead<T(!new)>(read: Bytes -> Option<(T, Bytes)>, spell: T -> Bytes, says: T -> bool, s: Bytes, n: nat)
    requires Sound(read, spell, says) && ReadMany(read, s, n).Some?
    ensures var (xs, rest) := ReadMany(read, s, n).value;
      s == SpellMany(spell, xs) + rest && |xs| == n && forall i :: 0 <= i < n ==> says(xs[i])
    decreases n
  {
    if n > 0 {
      var x, left := read(s).value.0, read(s).value.1;
      ManyRead(read, spell, says, left, n - 1);
      var (more, rest) := ReadMany(read, left, n - 1).value;
      Associate(spell(x), SpellMany(spell, more), rest);
      assert ([x] + more)[1..] == more;
    }
  }

  lemma {:induction false} ManySpelled<T(!new)>(read: Bytes -> Option<(T, Bytes)>, spell: T -> Bytes, says: T -> bool, xs: seq<T>, rest: Bytes)
    requires Complete(read, spell, says) && forall i :: 0 <= i < |xs| ==> says(xs[i])
    ensures ReadMany(read, SpellMany(spell, xs) + rest, |xs|) == Some((xs, rest))
  {
    if xs == [] {
      assert SpellMany(spell, xs) + rest == rest;
    } else {
      ManySpelled(read, spell, says, xs[1..], rest);
      Associate(spell(xs[0]), SpellMany(spell, xs[1..]), rest);
      assert says(xs[0]);
      assert read(spell(xs[0]) + (SpellMany(spell, xs[1..]) + rest)) == Some((xs[0], SpellMany(spell, xs[1..]) + rest));
      assert [xs[0]] + xs[1..] == xs;
    }
  }

  // ---------- the spelling ----------

  predicate Version(v: nat) {
    v == 3 || v == 4
  }

  function SpellAddress(a: Address, v: nat): Bytes {
    if v == 3 then AsBytes(a.bytes[..4]) else Encode(if a.family.IPv4? then 4 else 6, 1) + AsBytes(a.bytes)
  }

  function SpellDetails(ap: AdvertisedPrefix): Bytes {
    Encode(ap.length, 1) + Encode(ap.sequence, 8) + Encode(ap.lease, 4) + Encode(ap.metric, 4)
  }

  function SpellRecord(v: nat): AdvertisedPrefix -> Bytes {
    (ap: AdvertisedPrefix) => SpellAddress(ap.prefix, v) + SpellDetails(ap)
  }

  function SpellId(): Bytes32 -> Bytes {
    (id: Bytes32) => id
  }

  /** A zero byte, the number of records and the records. */
  function SpellTail(p: WirePeer, v: nat): Bytes {
    Encode(0, 1) + (Encode(|p.prefixes|, 1) + SpellMany(SpellRecord(v), p.prefixes))
  }

  function SpellHead(p: WirePeer): Bytes {
    p.nodeId + (p.key + Encode(|p.path|, 1))
  }

  function SpellPeer(v: nat): WirePeer -> Bytes {
    (p: WirePeer) => SpellHead(p) + (SpellMany(SpellId(), p.path) + SpellTail(p, v))
  }

  function SpellTable(peers: seq<WirePeer>, v: nat): Bytes {
    Encode(v, 1) + (Encode(|peers|, 2) + SpellMany(SpellPeer(v), peers))
  }

  /** What a record may say: in the legacy version only IPv4, and behind the four bytes of an IPv4 address only zeros. */
  function RecordSays(v: nat): AdvertisedPrefix -> bool {
    (ap: AdvertisedPrefix) =>
      && RecordOk(ap) && Fits(ap.sequence, 8)
      && (ap.prefix.family.IPv4? ==> ZeroTail(ap.prefix.bytes)) && (v == 3 ==> ap.prefix.family.IPv4?)
  }

  function PeerSays(v: nat): WirePeer -> bool {
    (p: WirePeer) => |p.path| <= 8 && |p.prefixes| <= 16 && forall i :: 0 <= i < |p.prefixes| ==> RecordSays(v)(p.prefixes[i])
  }

  predicate TableSays(peers: seq<WirePeer>, v: nat) {
    |peers| <= 128 && |SpellTable(peers, v)| <= 61440 && forall i :: 0 <= i < |peers| ==> PeerSays(v)(peers[i])
  }

  // ---------- one record ----------

  function ReadRecord(v: nat): Bytes -> Option<(AdvertisedPrefix, Bytes)> {
    (s: Bytes) => DecodeRecord(s, v)
  }

  lemma BytesRoundTrip(s: Bytes)
    ensures AsBytes(AsOctets(s)) == s
  {
    forall i | 0 <= i < |s| ensures AsBytes(AsOctets(s))[i] == s[i] {
      ByteRoundTrip(s[i]);
    }
  }

  lemma AddressRead(s: Bytes, v: nat)
    requires Version(v) && DecodeAddress(s, v).Some?
    ensures var (a, rest) := DecodeAddress(s, v).value;
      && s == SpellAddress(a, v) + rest && !a.family.OtherFamily?
      && (a.family.IPv4? ==> ZeroTail(a.bytes)) && (v == 3 ==> a.family.IPv4?)
  {
    var (a, rest) := DecodeAddress(s, v).value;
    if v == 3 {
      BytesRoundTrip(s[..4]);
      assert a.bytes[..4] == AsOctets(s[..4]);
    } else {
      EncodeDecode(s[..1]);
      BytesRoundTrip(s[1..][..16]);
      assert s == s[..1] + (s[1..][..16] + rest);
      Associate(s[..1], s[1..][..16], rest);
    }
  }

  lemma DetailsRead(a: Address, s: Bytes)
    requires DecodeDetails(a, s).Some?
    ensures var (ap, rest) := DecodeDetails(a, s).value; s == SpellDetails(ap) + rest && ap.prefix == a && RecordOk(ap) && Fits(ap.sequence, 8)
  {
    EncodeDecode(s[..1]);
    EncodeDecode(s[1..9]);
    EncodeDecode(s[9..13]);
    EncodeDecode(s[13..17]);
    assert s == s[..1] + s[1..9] + s[9..13] + s[13..17] + s[17..];
  }

  lemma RecordRead(s: Bytes, v: nat)
    requires Version(v) && DecodeRecord(s, v).Some?
    ensures var (ap, rest) := DecodeRecord(s, v).value; s == SpellRecord(v)(ap) + rest && RecordSays(v)(ap)
  {
    var (ap, rest) := DecodeRecord(s, v).value;
    AddressRead(s, v);
    DetailsRead(DecodeAddress(s, v).value.0, DecodeAddress(s, v).value.1);
    Associate(SpellAddress(ap.prefix, v), SpellDetails(ap), rest);
  }

  lemma LegacyAddress(a: Address, rest: Bytes)
    requires a.family.IPv4? && ZeroTail(a.bytes)
    ensures DecodeAddress(AsBytes(a.bytes[..4]) + rest, 3) == Some((a, rest))
  {
    OctetsRoundTrip(a.bytes[..4]);
    TakeFront(AsBytes(a.bytes[..4]), rest);
    assert a.bytes[..4] + seq(12, _ => 0 as bv8) == a.bytes;
  }

  lemma PresentAddress(a: Address, rest: Bytes)
    requires !a.family.OtherFamily? && (a.family.IPv4? ==> ZeroTail(a.bytes))
    ensures DecodeAddress(SpellAddress(a, 4) + rest, 4) == Some((a, rest))
  {
    var code, bytes := if a.family.IPv4? then 4 else 6, AsBytes(a.bytes);
    SmallFits(code);
    Associate(Encode(code, 1), bytes, rest);
    TakeEncoded(code, 1, bytes + rest);
    TakeFront(bytes, rest);
    OctetsRoundTrip(a.bytes);
  }

  lemma DetailsSpelled(ap: AdvertisedPrefix, rest: Bytes)
    requires RecordOk(ap) && Fits(ap.sequence, 8)
    ensures DecodeDetails(ap.prefix, SpellDetails(ap) + rest) == Some((ap, rest))
  {
    var s := SpellDetails(ap) + rest;
    SmallFits(ap.length);
    SmallFits(ap.lease);
    SmallFits(ap.metric);
    DecodeEncode(ap.length, 1);
    DecodeEncode(ap.sequence, 8);
    DecodeEncode(ap.lease, 4);
    DecodeEncode(ap.metric, 4);
    assert s[..1] == Encode(ap.length, 1) && s[1..9] == Encode(ap.sequence, 8);
    assert s[9..13] == Encode(ap.lease, 4) && s[13..17] == Encode(ap.metric, 4) && s[17..] == rest;
  }

  lemma RecordSpelled(ap: AdvertisedPrefix, v: nat, rest: Bytes)
    requires Version(v) && RecordSays(v)(ap)
    ensures DecodeRecord(SpellRecord(v)(ap) + rest, v) == Some((ap, rest))
  {
    Associate(SpellAddress(ap.prefix, v), SpellDetails(ap), rest);
    if v == 3 { LegacyAddress(ap.prefix, SpellDetails(ap) + rest); } else { PresentAddress(ap.prefix, SpellDetails(ap) + rest); }
    DetailsSpelled(ap, rest);
  }

  lemma RecordsAgree(v: nat)
    requires Version(v)
    ensures Sound(ReadRecord(v), SpellRecord(v), RecordSays(v)) && Complete(ReadRecord(v), SpellRecord(v), RecordSays(v))
  {
    forall s | ReadRecord(v)(s).Some?
      ensures s == SpellRecord(v)(ReadRecord(v)(s).value.0) + ReadRecord(v)(s).value.1 && RecordSays(v)(ReadRecord(v)(s).value.0)
    {
      RecordRead(s, v);
    }
    forall ap, rest | RecordSays(v)(ap) ensures ReadRecord(v)(SpellRecord(v)(ap) + rest) == Some((ap, rest)) {
      RecordSpelled(ap, v, rest);
    }
  }

  lemma {:induction false} RecordsAreMany(s: Bytes, n: nat, v: nat)
    ensures DecodeRecords(s, n, v) == ReadMany(ReadRecord(v), s, n)
    decreases n
  {
    if n > 0 && DecodeRecord(s, v).Some? {
      RecordsAreMany(DecodeRecord(s, v).value.1, n - 1, v);
    }
  }

  // ---------- one peer ----------

  function ReadId(): Bytes -> Option<(Bytes32, Bytes)> {
    (s: Bytes) => if |s| < 32 then None else Some((s[..32], s[32..]))
  }

  function AnyId(): Bytes32 -> bool {
    (id: Bytes32) => true
  }

  lemma IdsAgree()
    ensures Sound(ReadId(), SpellId(), AnyId()) && Complete(ReadId(), SpellId(), AnyId())
  {
    forall s: Bytes | ReadId()(s).Some? ensures s == SpellId()(ReadId()(s).value.0) + ReadId()(s).value.1 {
      assert s == s[..32] + s[32..];
    }
    forall id: Bytes32, rest: Bytes ensures ReadId()(SpellId()(id) + rest) == Some((id, rest)) {
      TakeFront(id, rest);
    }
  }

  lemma {:induction false} IdsAreMany(s: Bytes, n: nat)
    ensures DecodeIds(s, n) == ReadMany(ReadId(), s, n)
    decreases n
  {
    if n > 0 && |s| >= 32 {
      IdsAreMany(s[32..], n - 1);
    }
  }

  /** A one-byte number in front. */
  lemma ByteInFront(s: Bytes)
    requires s != []
    ensures s == Encode(Decode(s[..1]), 1) + s[1..]
  {
    EncodeDecode(s[..1]);
    assert s == s[..1] + s[1..];
  }

  lemma TailJoined(s: Bytes, records: Bytes, count: nat, rest: Bytes)
    requires |s| >= 2 && Decode(s[..1]) == 0 && Decode(s[1..2]) == count && s[2..] == records + rest
    ensures s == Encode(0, 1) + (Encode(count, 1) + records) + rest
  {
    ByteInFront(s);
    ByteInFront(s[1..]);
    assert s[1..][..1] == s[1..2] && s[1..][1..] == s[2..];
    Associate(Encode(count, 1), records, rest);
    Associate(Encode(0, 1), Encode(count, 1) + records, rest);
  }

  lemma TailRead(nodeId: Bytes32, key: Bytes32, path: seq<Bytes32>, s: Bytes, v: nat)
    requires Version(v) && DecodePrefixes(nodeId, key, path, s, v).Some? && |path| <= 8
    ensures var (p, rest) := DecodePrefixes(nodeId, key, path, s, v).value;
      s == SpellTail(p, v) + rest && PeerSays(v)(p) && p.nodeId == nodeId && p.key == key && p.path == path
  {
    var n := Decode(s[1..2]);
    RecordsAreMany(s[2..], n, v);
    RecordsAgree(v);
    ManyRead(ReadRecord(v), SpellRecord(v), RecordSays(v), s[2..], n);
    var records, rest := DecodeRecords(s[2..], n, v).value.0, DecodeRecords(s[2..], n, v).value.1;
    TailJoined(s, SpellMany(SpellRecord(v), records), n, rest);
  }

  lemma HeadJoined(s: Bytes, p: WirePeer, body: Bytes)
    requires |s| >= 65 && s[..32] == p.nodeId && s[32..64] == p.key && Decode(s[64..65]) == |p.path| && s[65..] == body
    ensures s == SpellHead(p) + body
  {
    EncodeDecode(s[64..65]);
    assert s == s[..32] + (s[32..64] + s[64..65]) + s[65..];
  }

  lemma PeerRead(s: Bytes, v: nat)
    requires Version(v) && DecodePeer(s, v).Some?
    ensures var (p, rest) := DecodePeer(s, v).value; s == SpellPeer(v)(p) + rest && PeerSays(v)(p)
  {
    var hops := Decode(s[64..65]);
    IdsAreMany(s[65..], hops);
    IdsAgree();
    ManyRead(ReadId(), SpellId(), AnyId(), s[65..], hops);
    var path, left := DecodeIds(s[65..], hops).value.0, DecodeIds(s[65..], hops).value.1;
    TailRead(s[..32], s[32..64], path, left, v);
    var p, rest := DecodePeer(s, v).value.0, DecodePeer(s, v).value.1;
    var ids, tail := SpellMany(SpellId(), path), SpellTail(p, v);
    HeadJoined(s, p, ids + (tail + rest));
    Associate(ids, tail, rest);
    Associate(SpellHead(p), ids + tail, rest);
  }

  lemma TailSpelled(p: WirePeer, v: nat, rest: Bytes)
    requires Version(v) && PeerSays(v)(p)
    ensures DecodePrefixes(p.nodeId, p.key, p.path, SpellTail(p, v) + rest, v) == Some((p, rest))
  {
    var records := SpellMany(SpellRecord(v), p.prefixes);
    SmallFits(0);
    SmallFits(|p.prefixes|);
    DecodeEncode(0, 1);
    DecodeEncode(|p.prefixes|, 1);
    Associate(Encode(0, 1), Encode(|p.prefixes|, 1) + records, rest);
    Associate(Encode(|p.prefixes|, 1), records, rest);
    var s := Encode(0, 1) + (Encode(|p.prefixes|, 1) + (records + rest));
    assert s[..1] == Encode(0, 1) && s[1..2] == Encode(|p.prefixes|, 1) && s[2..] == records + rest;
    RecordsAreMany(records + rest, |p.prefixes|, v);
    RecordsAgree(v);
    ManySpelled(ReadRecord(v), SpellRecord(v), RecordSays(v), p.prefixes, rest);
  }

  lemma HeadSlices(p: WirePeer, rest: Bytes)
    ensures var s := SpellHead(p) + rest;
      s[..32] == p.nodeId && s[32..64] == p.key && s[64..65] == Encode(|p.path|, 1) && s[65..] == rest
  {
  }

  lemma PeerSpelled(p: WirePeer, v: nat, rest: Bytes)
    requires Version(v) && PeerSays(v)(p)
    ensures DecodePeer(SpellPeer(v)(p) + rest, v) == Some((p, rest))
  {
    var ids, tail := SpellMany(SpellId(), p.path), SpellTail(p, v);
    Associate(SpellHead(p), ids + tail, rest);
    Associate(ids, tail, rest);
    SmallFits(|p.path|);
    DecodeEncode(|p.path|, 1);
    HeadSlices(p, ids + (tail + rest));
    IdsAreMany(ids + (tail + rest), |p.path|);
    IdsAgree();
    ManySpelled(ReadId(), SpellId(), AnyId(), p.path, tail + rest);
    TailSpelled(p, v, rest);
  }

  // ---------- the table ----------

  function ReadPeer(v: nat): Bytes -> Option<(WirePeer, Bytes)> {
    (s: Bytes) => DecodePeer(s, v)
  }

  lemma PeersAgree(v: nat)
    requires Version(v)
    ensures Sound(ReadPeer(v), SpellPeer(v), PeerSays(v)) && Complete(ReadPeer(v), SpellPeer(v), PeerSays(v))
  {
    forall s | ReadPeer(v)(s).Some?
      ensures s == SpellPeer(v)(ReadPeer(v)(s).value.0) + ReadPeer(v)(s).value.1 && PeerSays(v)(ReadPeer(v)(s).value.0)
    {
      PeerRead(s, v);
    }
    forall p, rest | PeerSays(v)(p) ensures ReadPeer(v)(SpellPeer(v)(p) + rest) == Some((p, rest)) {
      PeerSpelled(p, v, rest);
    }
  }

  lemma {:induction false} PeersAreMany(s: Bytes, n: nat, v: nat)
    ensures DecodePeers(s, n, v) == ReadMany(ReadPeer(v), s, n)
    decreases n
  {
    if n > 0 && DecodePeer(s, v).Some? {
      PeersAreMany(DecodePeer(s, v).value.1, n - 1, v);
    }
  }

  lemma TableJoined(data: Bytes, count: nat, body: Bytes)
    requires |data| >= 3 && Decode(data[1..3]) == count && data[3..] == body
    ensures data == Encode(data[0] as nat, 1) + (Encode(count, 2) + body) && Decode(data[..1]) == data[0] as nat
  {
    EncodeDecode(data[..1]);
    EncodeDecode(data[1..3]);
    assert data == data[..1] + (data[1..3] + data[3..]);
  }

  /** Whatever is read as a table is the spelling of what it is read as, in the version its first byte gives. */
  lemma TableRead(data: Bytes)
    requires DecodeTable(data).Some?
    ensures var v := data[0] as nat; var peers := DecodeTable(data).value;
      Version(v) && TableSays(peers, v) && data == SpellTable(peers, v)
  {
    var v, count := Decode(data[..1]), Decode(data[1..3]);
    PeersAreMany(data[3..], count, v);
    PeersAgree(v);
    ManyRead(ReadPeer(v), SpellPeer(v), PeerSays(v), data[3..], count);
    var body := SpellMany(SpellPeer(v), DecodeTable(data).value);
    assert body + [] == body;
    TableJoined(data, count, body);
  }

  lemma TableSlices(v: nat, count: nat, body: Bytes)
    requires Fits(v, 1) && Fits(count, 2)
    ensures var data := Encode(v, 1) + (Encode(count, 2) + body);
      Decode(data[..1]) == v && Decode(data[1..3]) == count && data[3..] == body
  {
    DecodeEncode(v, 1);
    DecodeEncode(count, 2);
    var data := Encode(v, 1) + (Encode(count, 2) + body);
    assert data[..1] == Encode(v, 1) && data[1..3] == Encode(count, 2) && data[3..] == body;
  }

  /** Every table that may be said is read back from its spelling, legacy tables included. */
  lemma TableSpelled(peers: seq<WirePeer>, v: nat)
    requires Version(v) && TableSays(peers, v)
    ensures DecodeTable(SpellTable(peers, v)) == Some(peers)
  {
    var body := SpellMany(SpellPeer(v), peers);
    SmallFits(v);
    SmallFits(|peers|);
    TableSlices(v, |peers|, body);
    assert body + [] == body;
    PeersAreMany(body, |peers|, v);
    PeersAgree(v);
    ManySpelled(ReadPeer(v), SpellPeer(v), PeerSays(v), peers, []);
  }
}
