/** Invite strings: a prefix and the base64url form of a fixed record with a bounded name. */
module Invite {
  import opened Basics
  import opened Wire
  import PeerCodec
  import opened Base64

  const PREFIX := "AEGIS1:"
  const FIXED_SIZE := 108
  const MAX_NAME := 64

  /** An IPv4 endpoint by its address and port as numbers, or any other endpoint. */
  datatype Endpoint = V4(ip: nat, port: nat) | OtherEndpoint

  datatype Payload = Payload(networkId: PeerCodec.Bytes32, bootstrapKey: PeerCodec.Bytes32, creator: PeerCodec.Bytes32, endpoint: Endpoint,
                             prefix: nat, prefixLength: nat, name: Bytes)

  /** The fields are within their C++ types. */
  predicate InRange(p: Payload) {
    && (p.endpoint.V4? ==> p.endpoint.ip < 0x1_0000_0000 && p.endpoint.port < 0x1_0000)
    && p.prefix < 0x1_0000_0000 && p.prefixLength < 0x100
  }

  function CutName(name: Bytes): Bytes {
    name[..Min(|name|, MAX_NAME)]
  }

  function EncodeFixed(p: Payload): (r: Bytes)
    requires p.endpoint.V4?
    ensures |r| == FIXED_SIZE
  {
    p.networkId + p.bootstrapKey + p.creator + Encode(p.endpoint.ip, 4) + Encode(p.endpoint.port, 2)
    + Encode(p.prefix, 4) + Encode(p.prefixLength, 1) + Encode(|CutName(p.name)|, 1)
  }

  function EncodeInvite(p: Payload): string {
    if !p.endpoint.V4? then "" else PREFIX + EncodeBytes(EncodeFixed(p) + CutName(p.name))
  }

  // ---------- decoding ----------

  predicate Blank(c: char) {
    c == ' ' || c == '\t' || c == '\r' || c == '\n' || c == '\"'
  }

  function TrimFront(s: string): string {
    if s != "" && Blank(s[0]) then TrimFront(s[1..]) else s
  }

  function TrimBack(s: string): string {
    if s != "" && Blank(s[|s| - 1]) then TrimBack(s[..|s| - 1]) else s
  }

  function DecodeBody(b: Bytes): Option<Payload> {
    if |b| < FIXED_SIZE then None
    else
      var n := Decode(b[107..108]);
      if Decode(b[106..107]) > 32 || n > MAX_NAME || |b| != FIXED_SIZE + n then None
      else Some(Payload(b[..32], b[32..64], b[64..96], V4(Decode(b[96..100]), Decode(b[100..102])),
                        Decode(b[102..106]), Decode(b[106..107]), b[108..]))
  }

  function DecodeInvite(text: string): Option<Payload> {
    var clean := TrimBack(TrimFront(text));
    if |clean| <= |PREFIX| || clean[..|PREFIX|] != PREFIX then None
    else
      var encoded := clean[|PREFIX|..];
      var bytes := DecodeText(encoded);
      if bytes.None? || |bytes.value| < FIXED_SIZE || EncodeBytes(bytes.value) != encoded then None
      else DecodeBody(bytes.value)
  }

  // ---------- the round trip ----------

  lemma {:induction false} OnlySymbols(k: nat, p: nat, bytes: seq<byte>)
    requires (k == 0 && p == 0) || (k == 2 && p < 4) || (k == 4 && p < 16)
    ensures forall c :: c in EncodeFrom(k, p, bytes) ==> Index(c).Some?
    ensures bytes != [] ==> EncodeFrom(k, p, bytes) != ""
    decreases |bytes|
  {
    if bytes != [] {
      var b := bytes[0] as int;
      if k == 0 {
        OnlySymbols(2, b % 4, bytes[1..]);
        SymbolReads(b / 4);
      } else if k == 2 {
        OnlySymbols(4, b % 16, bytes[1..]);
        SymbolReads(p * 16 + b / 16);
      } else {
        OnlySymbols(0, 0, bytes[1..]);
        SymbolReads(p * 4 + b / 64);
        SymbolReads(b % 64);
      }
    } else if k == 2 {
      SymbolReads(p * 16);
    } else if k == 4 {
      SymbolReads(p * 4);
    }
  }

  lemma FixedFields(p: Payload, name: Bytes)
    requires InRange(p) && p.endpoint.V4?
    ensures var b := EncodeFixed(p) + name;
      && b[..32] == p.networkId && b[32..64] == p.bootstrapKey && b[64..96] == p.creator
      && Decode(b[96..100]) == p.endpoint.ip && Decode(b[100..102]) == p.endpoint.port
  {
    var b := EncodeFixed(p) + name;
    SmallFits(p.endpoint.ip);
    SmallFits(p.endpoint.port);
    DecodeEncode(p.endpoint.ip, 4);
    DecodeEncode(p.endpoint.port, 2);
    assert b[96..100] == Encode(p.endpoint.ip, 4) && b[100..102] == Encode(p.endpoint.port, 2);
  }

  lemma PrefixFields(p: Payload, name: Bytes)
    requires InRange(p) && p.endpoint.V4?
    ensures var b := EncodeFixed(p) + name;
      && Decode(b[102..106]) == p.prefix && Decode(b[106..107]) == p.prefixLength
      && Decode(b[107..108]) == |CutName(p.name)| && b[108..] == name
  {
    var b := EncodeFixed(p) + name;
    SmallFits(p.prefix);
    SmallFits(p.prefixLength);
    SmallFits(|CutName(p.name)|);
    DecodeEncode(p.prefix, 4);
    DecodeEncode(p.prefixLength, 1);
    DecodeEncode(|CutName(p.name)|, 1);
    assert b[102..106] == Encode(p.prefix, 4) && b[106..107] == Encode(p.prefixLength, 1);
    assert b[107..108] == Encode(|CutName(p.name)|, 1);
  }

  lemma BodyRoundTrip(p: Payload)
    requires InRange(p) && p.endpoint.V4?
    ensures DecodeBody(EncodeFixed(p) + CutName(p.name)) == if p.prefixLength <= 32 then Some(p.(name := CutName(p.name))) else None
  {
    FixedFields(p, CutName(p.name));
    PrefixFields(p, CutName(p.name));
  }

  lemma WrappedReads(bytes: Bytes)
    requires |bytes| >= FIXED_SIZE
    ensures DecodeInvite(PREFIX + EncodeBytes(bytes)) == DecodeBody(bytes)
  {
    var encoded := EncodeBytes(bytes);
    var text := PREFIX + encoded;
    OnlySymbols(0, 0, bytes);
    NotBlank(encoded[|encoded| - 1]);
    NotTrimmed(text);
    DecodeUndoes(bytes);
    assert text[..|PREFIX|] == PREFIX && text[|PREFIX|..] == encoded;
  }

  lemma NotBlank(c: char)
    ensures Index(c).Some? ==> !Blank(c)
  {
  }

  lemma NotTrimmed(text: string)
    requires text != "" && !Blank(text[0]) && !Blank(text[|text| - 1])
    ensures TrimBack(TrimFront(text)) == text
  {
  }

  /**
   Decoding an encoded invite gives the payload back with its name cut to 64 bytes, exactly when the endpoint is
   IPv4 and the prefix length at most 32; any other payload is refused.
   */
  lemma InviteRoundTrip(p: Payload)
    requires InRange(p)
    ensures DecodeInvite(EncodeInvite(p)) ==
            if p.endpoint.V4? && p.prefixLength <= 32 then Some(p.(name := CutName(p.name))) else None
  {
    if p.endpoint.V4? {
      WrappedReads(EncodeFixed(p) + CutName(p.name));
      BodyRoundTrip(p);
    }
  }

  // ---------- no second spelling ----------

  /** What an invite can say. */
  predicate Sayable(p: Payload) {
    InRange(p) && p.endpoint.V4? && p.prefixLength <= 32 && |p.name| <= 64
  }

  /** The fixed record cut out of any bytes and put together again. */
  lemma FixedFromParts(b: Bytes, p: Payload)
    requires |b| >= FIXED_SIZE && p.endpoint.V4? && Decode(b[107..108]) == |CutName(p.name)|
    requires b[..32] == p.networkId && b[32..64] == p.bootstrapKey && b[64..96] == p.creator
    requires Decode(b[96..100]) == p.endpoint.ip && Decode(b[100..102]) == p.endpoint.port
    requires Decode(b[102..106]) == p.prefix && Decode(b[106..107]) == p.prefixLength
    ensures EncodeFixed(p) == b[..108]
  {
    EncodeDecode(b[96..100]);
    EncodeDecode(b[100..102]);
    EncodeDecode(b[102..106]);
    EncodeDecode(b[106..107]);
    EncodeDecode(b[107..108]);
    assert b[..108] == b[..32] + b[32..64] + b[64..96] + b[96..100] + b[100..102] + b[102..106] + b[106..107] + b[107..108];
  }

  lemma BodyIsCanonical(b: Bytes)
    requires DecodeBody(b).Some?
    ensures var p := DecodeBody(b).value; Sayable(p) && EncodeFixed(p) + CutName(p.name) == b
  {
    var p := DecodeBody(b).value;
    SmallDecoded(b[96..100]);
    SmallDecoded(b[100..102]);
    SmallDecoded(b[102..106]);
    SmallDecoded(b[106..107]);
    assert CutName(p.name) == b[108..];
    FixedFromParts(b, p);
    assert b == b[..108] + b[108..];
  }

  /** The text without the blanks and quotes around it. */
  function Clean(text: string): string {
    TrimBack(TrimFront(text))
  }

  /**
   A text is an invite exactly when, blanks and quotes around it aside, it is the encoding of a payload with an IPv4
   endpoint, a prefix length of at most 32 and a name of at most 64 bytes, and then that payload is what it says.
   */
  lemma InviteIsCanonical(text: string)
    ensures DecodeInvite(text).Some? ==> Sayable(DecodeInvite(text).value) && EncodeInvite(DecodeInvite(text).value) == Clean(text)
    ensures forall p :: Sayable(p) && Clean(text) == EncodeInvite(p) ==> DecodeInvite(text) == Some(p)
  {
    if DecodeInvite(text).Some? {
      var clean := Clean(text);
      BodyIsCanonical(DecodeText(clean[|PREFIX|..]).value);
      assert clean == clean[..|PREFIX|] + clean[|PREFIX|..];
    }
    forall p | Sayable(p) && Clean(text) == EncodeInvite(p) ensures DecodeInvite(text) == Some(p) {
      SaidIsRead(text, p);
    }
  }

  lemma SaidIsRead(text: string, p: Payload)
    requires Sayable(p) && Clean(text) == EncodeInvite(p)
    ensures DecodeInvite(text) == Some(p)
  {
    WrappedStays(p);
    InviteRoundTrip(p);
    assert CutName(p.name) == p.name;
  }

  lemma WrappedStays(p: Payload)
    requires p.endpoint.V4?
    ensures Clean(EncodeInvite(p)) == EncodeInvite(p)
  {
    var bytes := EncodeFixed(p) + CutName(p.name);
    OnlySymbols(0, 0, bytes);
    var encoded := EncodeBytes(bytes);
    NotBlank(encoded[|encoded| - 1]);
    NotTrimmed(EncodeInvite(p));
  }

  /** Only spaces, tabs, line ends and double quotes are taken off, from both ends, and all of them. */
  lemma {:induction false} FrontTrimmed(text: string) returns (front: string)
    ensures text == front + TrimFront(text) && forall c :: c in front ==> c in {' ', '\t', '\r', '\n', '\"'}
    ensures TrimFront(text) != "" ==> TrimFront(text)[0] !in {' ', '\t', '\r', '\n', '\"'}
  {
    if text != "" && Blank(text[0]) {
      var rest := FrontTrimmed(text[1..]);
      front := [text[0]] + rest;
    } else {
      front := "";
    }
  }

  lemma {:induction false} BackTrimmed(text: string) returns (back: string)
    ensures text == TrimBack(text) + back && forall c :: c in back ==> c in {' ', '\t', '\r', '\n', '\"'}
    ensures TrimBack(text) != "" ==> TrimBack(text)[|TrimBack(text)| - 1] !in {' ', '\t', '\r', '\n', '\"'}
  {
    if text != "" && Blank(text[|text| - 1]) {
      var rest := BackTrimmed(text[..|text| - 1]);
      back := rest + [text[|text| - 1]];
    } else {
      back := "";
    }
  }
}
