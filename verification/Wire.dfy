/** Bounded wire fields: numbers in network byte order, a reader and a writer that advance a cursor. */
module Wire {
  import opened Basics

  type Bytes = seq<byte>

  /** The number fits a field of `width` bytes. */
  predicate Fits(n: nat, width: nat) {
    if width == 0 then n == 0 else Fits(n / 0x100, width - 1)
  }

  function Encode(n: nat, width: nat): (r: Bytes)
    ensures |r| == width
  {
    if width == 0 then [] else Encode(n / 0x100, width - 1) + [(n % 0x100) as byte]
  }

  function Decode(bytes: Bytes): nat {
    if bytes == [] then 0 else Decode(bytes[..|bytes| - 1]) * 0x100 + bytes[|bytes| - 1] as nat
  }

  lemma {:induction false} DecodeEncode(n: nat, width: nat)
    requires Fits(n, width)
    ensures Decode(Encode(n, width)) == n
  {
    if width > 0 {
      DecodeEncode(n / 0x100, width - 1);
      assert Encode(n, width)[..width - 1] == Encode(n / 0x100, width - 1);
    }
  }

  /** The bytes are those of the number read from them, so no two fields of one width read the same. */
  lemma {:induction false} EncodeDecode(bytes: Bytes)
    ensures Encode(Decode(bytes), |bytes|) == bytes && Fits(Decode(bytes), |bytes|)
  {
    if bytes != [] {
      var n := |bytes| - 1;
      EncodeDecode(bytes[..n]);
      assert Decode(bytes) / 0x100 == Decode(bytes[..n]) && Decode(bytes) % 0x100 == bytes[n] as nat;
      assert bytes == bytes[..n] + [bytes[n]];
    }
  }

  lemma SmallDecoded(bytes: Bytes)
    ensures |bytes| == 1 ==> Decode(bytes) < 0x100
    ensures |bytes| == 2 ==> Decode(bytes) < 0x1_0000
    ensures |bytes| == 4 ==> Decode(bytes) < 0x1_0000_0000
  {
    if |bytes| == 2 || |bytes| == 4 {
      assert Decode(bytes[..1]) < 0x100;
      assert bytes[..2][..1] == bytes[..1];
      assert Decode(bytes[..2]) < 0x1_0000;
      if |bytes| == 4 {
        assert bytes[..3][..2] == bytes[..2];
        assert Decode(bytes[..3]) < 0x100_0000;
      } else {
        assert bytes[..2] == bytes;
      }
    }
  }

  lemma SmallFits(n: nat)
    ensures n < 0x100 ==> Fits(n, 1)
    ensures n < 0x1_0000 ==> Fits(n, 2)
    ensures n < 0x1_0000_0000 ==> Fits(n, 4)
  {
    var a, b, c := n / 0x100, n / 0x100 / 0x100, n / 0x100 / 0x100 / 0x100;
    assert Fits(a / 0x100, 0) <==> a / 0x100 == 0;
    assert Fits(b, 2) <==> Fits(b / 0x100 / 0x100, 0);
    if n < 0x1_0000_0000 {
      assert c / 0x100 == 0;
      assert Fits(c, 1);
      assert Fits(b, 2) && Fits(a, 3);
    }
  }

  // ---------- reading ----------

  /** The first bytes of the input and what is left of it. */
  function Take(s: Bytes, count: nat): Option<(Bytes, Bytes)> {
    if count > |s| then None else Some((s[..count], s[count..]))
  }

  function TakeNumber(s: Bytes, width: nat): Option<(nat, Bytes)> {
    if width > |s| then None else Some((Decode(s[..width]), s[width..]))
  }

  lemma TakeFront(front: Bytes, rest: Bytes)
    ensures Take(front + rest, |front|) == Some((front, rest))
  {
    assert (front + rest)[..|front|] == front && (front + rest)[|front|..] == rest;
  }

  lemma TakeEncoded(n: nat, width: nat, rest: Bytes)
    requires Fits(n, width)
    ensures TakeNumber(Encode(n, width) + rest, width) == Some((n, rest))
  {
    var s := Encode(n, width) + rest;
    DecodeEncode(n, width);
    assert s[..width] == Encode(n, width) && s[width..] == rest;
  }

  class WireReader {
    const bytes: Bytes
    var offset: nat

    ghost predicate Valid()
      reads this
    {
      offset <= |bytes|
    }

    ghost function Left(): Bytes
      requires Valid()
      reads this
    {
      bytes[offset..]
    }

    constructor (input: Bytes)
      ensures Valid() && bytes == input && Left() == input
    {
      bytes, offset := input, 0;
    }

    /** A read past the end fails and leaves the cursor where it was. */
    method ReadBytes(count: nat) returns (r: Option<Bytes>)
      requires Valid()
      modifies this
      ensures Valid()
      ensures match Take(old(Left()), count)
        case None => r.None? && Left() == old(Left())
        case Some((front, rest)) => r == Some(front) && Left() == rest
    {
      if count > |bytes| - offset {
        return None;
      }
      r := Some(bytes[offset..offset + count]);
      assert bytes[offset..][..count] == r.value && bytes[offset..][count..] == bytes[offset + count..];
      offset := offset + count;
    }

    method ReadNumber(width: nat) returns (r: Option<nat>)
      requires Valid()
      modifies this
      ensures Valid()
      ensures match TakeNumber(old(Left()), width)
        case None => r.None? && Left() == old(Left())
        case Some((n, rest)) => r == Some(n) && Left() == rest
    {
      var field := ReadBytes(width);
      if field.None? {
        return None;
      }
      var value := 0;
      for i := 0 to |field.value|
        invariant value == Decode(field.value[..i])
      {
        assert field.value[..i + 1][..i] == field.value[..i];
        value := value * 0x100 + field.value[i] as nat;
      }
      assert field.value[..|field.value|] == field.value;
      return Some(value);
    }
  }

  // ---------- writing ----------

  class WireWriter {
    const buffer: array<byte>
    var offset: nat

    ghost predicate Valid()
      reads this, buffer
    {
      offset <= buffer.Length
    }

    ghost function Written(): Bytes
      requires Valid()
      reads this, buffer
    {
      buffer[..offset]
    }

    constructor (destination: array<byte>)
      ensures Valid() && buffer == destination && Written() == []
    {
      buffer, offset := destination, 0;
    }

    /** A write that does not fit fails and changes nothing. */
    method WriteBytes(value: Bytes) returns (ok: bool)
      requires Valid()
      modifies this, buffer
      ensures Valid() && (ok <==> |value| <= buffer.Length - old(offset))
      ensures ok ==> Written() == old(Written()) + value && buffer[offset..] == old(buffer[..])[offset..]
      ensures !ok ==> unchanged(this, buffer)
    {
      if |value| > buffer.Length - offset {
        return false;
      }
      for i := 0 to |value|
        modifies buffer
        invariant buffer[..offset] == old(buffer[..offset])
        invariant buffer[offset..offset + i] == value[..i]
        invariant buffer[offset + i..] == old(buffer[offset + i..])
      {
        buffer[offset + i] := value[i];
        assert buffer[offset..offset + i + 1] == buffer[offset..offset + i] + [value[i]];
        assert value[..i + 1] == value[..i] + [value[i]];
      }
      offset := offset + |value|;
      return true;
    }

    method WriteNumber(n: nat, width: nat) returns (ok: bool)
      requires Valid()
      modifies this, buffer
      ensures Valid() && (ok <==> width <= buffer.Length - old(offset))
      ensures ok ==> Written() == old(Written()) + Encode(n, width) && buffer[offset..] == old(buffer[..])[offset..]
      ensures !ok ==> unchanged(this, buffer)
    {
      ok := WriteBytes(Encode(n, width));
    }
  }
}
