/**
 IP addresses and prefixes. The byte-and-mask arithmetic of canonicalisation and containment is proved
 against a reference that looks at one bit at a time.
 */
module IpPrefixes {

  datatype Family = IPv4 | IPv6 | OtherFamily(code: nat)

  const ADDRESS_BYTES := 16

  type Bytes16 = s: seq<bv8> | |s| == ADDRESS_BYTES witness seq(ADDRESS_BYTES, _ => 0)

  datatype Address = Address(family: Family, bytes: Bytes16)

  function BitWidth(f: Family): (r: nat)
    ensures r <= 8 * ADDRESS_BYTES && r % 8 == 0
  {
    match f
    case IPv4 => 32
    case IPv6 => 128
    case OtherFamily(_) => 0
  }

  predicate ValidPrefix(a: Address, length: nat) {
    !a.family.OtherFamily? && length <= BitWidth(a.family)
  }

  // ---------- the bit-level reference ----------

  /** The weight of bit `j` of a byte, counted from the most significant. */
  function Weight(j: nat): bv8
    requires j < 8
  {
    if j == 0 then 0x80 else if j == 1 then 0x40 else if j == 2 then 0x20 else if j == 3 then 0x10
    else if j == 4 then 0x08 else if j == 5 then 0x04 else if j == 6 then 0x02 else 0x01
  }

  predicate Bit(b: bv8, j: nat)
    requires j < 8
  {
    b & Weight(j) != 0
  }

  predicate BitAt(a: Address, k: nat)
    requires k < 8 * ADDRESS_BYTES
  {
    Bit(a.bytes[k / 8], k % 8)
  }

  predicate ShareBits(a: Address, b: Address, n: nat)
    requires n <= 8 * ADDRESS_BYTES
  {
    forall k :: 0 <= k < n ==> BitAt(a, k) == BitAt(b, k)
  }

  /** The address lies in the prefix: same family, same leading bits. */
  predicate Covers(prefix: Address, length: nat, a: Address) {
    ValidPrefix(prefix, length) && a.family == prefix.family && ShareBits(prefix, a, length)
  }

  // ---------- bytes and masks ----------

  /** The leading `r` bits of a byte. */
  function Mask(r: nat): bv8
    requires 0 < r < 8
  {
    if r == 1 then 0x80 else if r == 2 then 0xc0 else if r == 3 then 0xe0 else if r == 4 then 0xf0
    else if r == 5 then 0xf8 else if r == 6 then 0xfc else 0xfe
  }

  lemma MaskIsShift(r: nat)
    requires 0 < r < 8
    ensures Mask(r) == 0xff << (8 - r)
  {
    if r == 1 { assert Mask(1) == 0xff << 7; }
    else if r == 2 { assert Mask(2) == 0xff << 6; }
    else if r == 3 { assert Mask(3) == 0xff << 5; }
    else if r == 4 { assert Mask(4) == 0xff << 4; }
    else if r == 5 { assert Mask(5) == 0xff << 3; }
    else if r == 6 { assert Mask(6) == 0xff << 2; }
    else { assert Mask(7) == 0xff << 1; }
  }

  lemma MaskHasTopBits(r: nat, j: nat)
    requires 0 < r < 8 && j < 8
    ensures Mask(r) & Weight(j) == if j < r then Weight(j) else 0
  {
  }

  lemma MaskKeepsTopBits(b: bv8, r: nat, j: nat)
    requires 0 < r < 8 && j < 8
    ensures Bit(b & Mask(r), j) == (j < r && Bit(b, j))
  {
    MaskHasTopBits(r, j);
    var m, w := Mask(r), Weight(j);
    assert (b & m) & w == b & (m & w);
  }

  /** A byte is determined by its bits. */
  lemma BitsDetermineByte(b: bv8, c: bv8)
    requires forall j :: 0 <= j < 8 ==> Bit(b, j) == Bit(c, j)
    ensures b == c
  {
    assert Bit(b, 0) == Bit(c, 0) && Bit(b, 1) == Bit(c, 1) && Bit(b, 2) == Bit(c, 2) && Bit(b, 3) == Bit(c, 3);
    assert Bit(b, 4) == Bit(c, 4) && Bit(b, 5) == Bit(c, 5) && Bit(b, 6) == Bit(c, 6) && Bit(b, 7) == Bit(c, 7);
  }

  // ---------- canonicalisation ----------

  function CanonicalByte(b: bv8, i: nat, length: nat): bv8 {
    if 8 * i + 8 <= length then b
    else if length <= 8 * i then 0
    else b & Mask(length - 8 * i)
  }

  /** The prefix with its host bits cleared; a length beyond the family's width leaves it alone. */
  function Canonical(a: Address, length: nat): (r: Address)
    ensures r.family == a.family
  {
    if length > BitWidth(a.family) then a
    else Address(a.family, seq(ADDRESS_BYTES, i requires 0 <= i < ADDRESS_BYTES => CanonicalByte(a.bytes[i], i, length)))
  }

  method ClearBytes(bytes: array<bv8>, from: nat, to: nat)
    requires from <= to <= bytes.Length
    modifies bytes
    ensures forall k :: 0 <= k < bytes.Length ==> bytes[k] == if from <= k < to then 0 else old(bytes[k])
  {
    var i := from;
    while i < to
      invariant from <= i <= to
      invariant forall k :: 0 <= k < bytes.Length ==> bytes[k] == if from <= k < i then 0 else old(bytes[k])
    {
      bytes[i] := 0;
      i := i + 1;
    }
  }

  /** Masks the byte the prefix ends in, if it ends inside one, and says where the zeros start. */
  method MaskLastByte(bytes: array<bv8>, length: nat) returns (zeroFrom: nat)
    requires bytes.Length == ADDRESS_BYTES && length <= 8 * ADDRESS_BYTES
    modifies bytes
    ensures zeroFrom == (length + 7) / 8
    ensures forall k :: 0 <= k < zeroFrom ==> bytes[k] == CanonicalByte(old(bytes[k]), k, length)
  {
    var full, remaining := length / 8, length % 8;
    if remaining != 0 {
      bytes[full] := bytes[full] & Mask(remaining);
      zeroFrom := full + 1;
    } else {
      zeroFrom := full;
    }
  }

  method Canonicalize(family: Family, bytes: array<bv8>, length: nat)
    requires bytes.Length == ADDRESS_BYTES
    modifies bytes
    ensures bytes[..] == Canonical(Address(family, old(bytes[..])), length).bytes
  {
    var width := BitWidth(family);
    if length <= width {
      var zeroFrom := MaskLastByte(bytes, length);
      ClearBytes(bytes, zeroFrom, width / 8);
      ClearBytes(bytes, width / 8, bytes.Length);
    }
  }

  lemma CanonicalBit(a: Address, length: nat, k: nat)
    requires length <= BitWidth(a.family) && k < 8 * ADDRESS_BYTES
    ensures BitAt(Canonical(a, length), k) == (k < length && BitAt(a, k))
  {
    var i, j := k / 8, k % 8;
    if 8 * i < length < 8 * i + 8 {
      MaskKeepsTopBits(a.bytes[i], length - 8 * i, j);
    }
  }

  lemma BitsDetermineAddress(a: Address, b: Address)
    requires a.family == b.family && ShareBits(a, b, 8 * ADDRESS_BYTES)
    ensures a == b
  {
    forall i | 0 <= i < ADDRESS_BYTES ensures a.bytes[i] == b.bytes[i] {
      forall j | 0 <= j < 8 ensures Bit(a.bytes[i], j) == Bit(b.bytes[i], j) {
        var k := 8 * i + j;
        assert k / 8 == i && k % 8 == j && BitAt(a, k) == BitAt(b, k);
      }
      BitsDetermineByte(a.bytes[i], b.bytes[i]);
    }
  }

  /** Canonicalising twice changes nothing more. */
  lemma CanonicalIsFixed(a: Address, length: nat)
    ensures Canonical(Canonical(a, length), length) == Canonical(a, length)
  {
    if length <= BitWidth(a.family) {
      var c := Canonical(a, length);
      forall k | 0 <= k < 8 * ADDRESS_BYTES ensures BitAt(Canonical(c, length), k) == BitAt(c, k) {
        CanonicalBit(a, length, k);
        CanonicalBit(c, length, k);
      }
      BitsDetermineAddress(Canonical(c, length), c);
    }
  }

  /** Two addresses have the same canonical prefix exactly when their leading bits agree. */
  lemma CanonicalNamesTheBits(a: Address, b: Address, length: nat)
    requires a.family == b.family && length <= BitWidth(a.family)
    ensures Canonical(a, length) == Canonical(b, length) <==> ShareBits(a, b, length)
  {
    if ShareBits(a, b, length) {
      forall k | 0 <= k < 8 * ADDRESS_BYTES ensures BitAt(Canonical(a, length), k) == BitAt(Canonical(b, length), k) {
        CanonicalBit(a, length, k);
        CanonicalBit(b, length, k);
      }
      BitsDetermineAddress(Canonical(a, length), Canonical(b, length));
    } else {
      var k :| 0 <= k < length && BitAt(a, k) != BitAt(b, k);
      CanonicalBit(a, length, k);
      CanonicalBit(b, length, k);
    }
  }

  // ---------- containment ----------

  predicate TopBitsAgree(b: bv8, c: bv8, r: nat)
    requires r <= 8
  {
    forall j :: 0 <= j < r ==> Bit(b, j) == Bit(c, j)
  }

  lemma MaskedEqual(b: bv8, c: bv8, r: nat)
    requires 0 < r < 8
    ensures b & Mask(r) == c & Mask(r) <==> TopBitsAgree(b, c, r)
  {
    if TopBitsAgree(b, c, r) {
      var x, y := b & Mask(r), c & Mask(r);
      forall j | 0 <= j < 8 ensures Bit(x, j) == Bit(y, j) {
        MaskKeepsTopBits(b, r, j);
        MaskKeepsTopBits(c, r, j);
      }
      BitsDetermineByte(x, y);
    } else {
      var j :| 0 <= j < r && Bit(b, j) != Bit(c, j);
      MaskKeepsTopBits(b, r, j);
      MaskKeepsTopBits(c, r, j);
    }
  }

  lemma BitOfByte(a: Address, i: nat, j: nat)
    requires i < ADDRESS_BYTES && j < 8
    ensures BitAt(a, 8 * i + j) == Bit(a.bytes[i], j)
  {
    var k := 8 * i + j;
    assert k / 8 == i && k % 8 == j;
  }

  lemma AgreeingByteShares(a: Address, b: Address, i: nat, r: nat)
    requires i < ADDRESS_BYTES && r <= 8 && ShareBits(a, b, 8 * i) && TopBitsAgree(a.bytes[i], b.bytes[i], r)
    ensures ShareBits(a, b, 8 * i + r)
  {
    forall k | 8 * i <= k < 8 * i + r ensures BitAt(a, k) == BitAt(b, k) {
      BitOfByte(a, i, k - 8 * i);
      BitOfByte(b, i, k - 8 * i);
    }
  }

  lemma SharedByteAgrees(a: Address, b: Address, i: nat, r: nat)
    requires i < ADDRESS_BYTES && r <= 8 && ShareBits(a, b, 8 * i + r)
    ensures TopBitsAgree(a.bytes[i], b.bytes[i], r)
  {
    forall j | 0 <= j < r ensures Bit(a.bytes[i], j) == Bit(b.bytes[i], j) {
      var k := 8 * i + j;
      BitOfByte(a, i, j);
      BitOfByte(b, i, j);
      assert BitAt(a, k) == BitAt(b, k);
    }
  }

  lemma ByteStep(a: Address, b: Address, i: nat, r: nat)
    requires i < ADDRESS_BYTES && r <= 8 && ShareBits(a, b, 8 * i)
    ensures TopBitsAgree(a.bytes[i], b.bytes[i], r) <==> ShareBits(a, b, 8 * i + r)
  {
    if TopBitsAgree(a.bytes[i], b.bytes[i], r) {
      AgreeingByteShares(a, b, i, r);
    }
    if ShareBits(a, b, 8 * i + r) {
      SharedByteAgrees(a, b, i, r);
    }
  }

  lemma WholeByteStep(a: Address, b: Address, i: nat)
    requires i < ADDRESS_BYTES && ShareBits(a, b, 8 * i)
    ensures a.bytes[i] == b.bytes[i] <==> ShareBits(a, b, 8 * i + 8)
  {
    ByteStep(a, b, i, 8);
    if TopBitsAgree(a.bytes[i], b.bytes[i], 8) {
      BitsDetermineByte(a.bytes[i], b.bytes[i]);
    }
  }

  lemma PartialByteStep(a: Address, b: Address, i: nat, r: nat)
    requires i < ADDRESS_BYTES && 0 < r < 8 && ShareBits(a, b, 8 * i)
    ensures a.bytes[i] & Mask(r) == b.bytes[i] & Mask(r) <==> ShareBits(a, b, 8 * i + r)
  {
    ByteStep(a, b, i, r);
    MaskedEqual(a.bytes[i], b.bytes[i], r);
  }

  /** Whole bytes are compared first, then the partial byte under a mask. */
  method Contains(prefix: Address, length: nat, a: Address) returns (r: bool)
    ensures r <==> Covers(prefix, length, a)
  {
    if !ValidPrefix(prefix, length) || a.family != prefix.family {
      return false;
    }
    var full, remaining := length / 8, length % 8;
    var i := 0;
    while i < full
      invariant 0 <= i <= full
      invariant ShareBits(prefix, a, 8 * i)
    {
      WholeByteStep(prefix, a, i);
      if prefix.bytes[i] != a.bytes[i] {
        return false;
      }
      i := i + 1;
    }
    if remaining != 0 {
      PartialByteStep(prefix, a, full, remaining);
      if prefix.bytes[full] & Mask(remaining) != a.bytes[full] & Mask(remaining) {
        return false;
      }
    }
    return true;
  }

  /** Containment is equality of canonical prefixes. */
  lemma CoversIsCanonicalEquality(prefix: Address, length: nat, a: Address)
    requires ValidPrefix(prefix, length)
    ensures Covers(prefix, length, a) <==> Canonical(prefix, length) == Canonical(a, length)
  {
    if a.family == prefix.family {
      CanonicalNamesTheBits(prefix, a, length);
    }
  }

  lemma CanonicalCoversTheSame(prefix: Address, length: nat, a: Address)
    ensures Covers(Canonical(prefix, length), length, a) <==> Covers(prefix, length, a)
  {
    if ValidPrefix(prefix, length) {
      forall k | 0 <= k < length ensures BitAt(Canonical(prefix, length), k) == BitAt(prefix, k) {
        CanonicalBit(prefix, length, k);
      }
    }
  }
}
