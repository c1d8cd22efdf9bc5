/**
 Unpadded base64url (section 5 of RFC 4648). The reference carries exactly the bits not yet emitted; the loops
 carry a wrapping 32-bit accumulator.
 */
module Base64 {
  import opened Basics

  // ---------- the alphabet ----------

  type Sextet = n: int | 0 <= n < 64

  function Symbol(d: Sextet): char {
    if d < 26 then 'A' + d as char
    else if d < 52 then 'a' + (d - 26) as char
    else if d < 62 then '0' + (d - 52) as char
    else if d == 62 then '-' else '_'
  }

  function Index(c: char): Option<Sextet> {
    if 'A' <= c <= 'Z' then Some(c as int - 'A' as int)
    else if 'a' <= c <= 'z' then Some(c as int - 'a' as int + 26)
    else if '0' <= c <= '9' then Some(c as int - '0' as int + 52)
    else if c == '-' then Some(62) else if c == '_' then Some(63) else None
  }

  lemma SymbolReads(d: Sextet)
    ensures Index(Symbol(d)) == Some(d)
  {
  }

  // ---------- the reference ----------

  /** Encodes with `k` bits pending, worth `p`: none, two or four. */
  function EncodeFrom(k: nat, p: nat, bytes: seq<byte>): string
    requires (k == 0 && p == 0) || (k == 2 && p < 4) || (k == 4 && p < 16)
    decreases |bytes|
  {
    if bytes == [] then if k == 0 then "" else if k == 2 then [Symbol(p * 16)] else [Symbol(p * 4)]
    else
      var b := bytes[0] as int;
      if k == 0 then [Symbol(b / 4)] + EncodeFrom(2, b % 4, bytes[1..])
      else if k == 2 then [Symbol(p * 16 + b / 16)] + EncodeFrom(4, b % 16, bytes[1..])
      else [Symbol(p * 4 + b / 64), Symbol(b % 64)] + EncodeFrom(0, 0, bytes[1..])
  }

  function Then(b: int, rest: Option<seq<byte>>): Option<seq<byte>>
    requires 0 <= b < 256
  {
    if rest.None? then None else Some([b as byte] + rest.value)
  }

  /** Decodes with `k` bits pending, worth `p`: none, six, four or two. What is left at the end is dropped. */
  function DecodeFrom(k: nat, p: nat, text: string): Option<seq<byte>>
    requires (k == 0 && p == 0) || (k == 6 && p < 64) || (k == 4 && p < 16) || (k == 2 && p < 4)
    decreases |text|
  {
    if text == "" then Some([])
    else
      var i := Index(text[0]);
      if i.None? then None
      else
        var d := i.value as int;
        if k == 0 then DecodeFrom(6, d, text[1..])
        else if k == 6 then Then(p * 4 + d / 16, DecodeFrom(4, d % 16, text[1..]))
        else if k == 4 then Then(p * 16 + d / 4, DecodeFrom(2, d % 4, text[1..]))
        else Then(p * 64 + d, DecodeFrom(0, 0, text[1..]))
  }

  function EncodeBytes(bytes: seq<byte>): string {
    EncodeFrom(0, 0, bytes)
  }

  function DecodeText(text: string): Option<seq<byte>> {
    DecodeFrom(0, 0, text)
  }

  // ---------- the round trip ----------

  lemma {:induction false} DecodeUndoes(bytes: seq<byte>)
    ensures DecodeFrom(0, 0, EncodeFrom(0, 0, bytes)) == Some(bytes)
    decreases |bytes|
  {
    if bytes != [] {
      var b := bytes[0] as int;
      var text := EncodeFrom(0, 0, bytes);
      SymbolReads(b / 4);
      assert text[1..] == EncodeFrom(2, b % 4, bytes[1..]);
      DecodeUndoesTwo(b / 4, b % 4, bytes[1..]);
      assert [bytes[0]] + bytes[1..] == bytes;
    }
  }

  /** With two bits pending the decoder holds the other six of the byte. */
  lemma {:induction false} DecodeUndoesTwo(q: int, p: int, bytes: seq<byte>)
    requires 0 <= q < 64 && 0 <= p < 4
    ensures DecodeFrom(6, q, EncodeFrom(2, p, bytes)) == Some([(q * 4 + p) as byte] + bytes)
    decreases |bytes|
  {
    var text := EncodeFrom(2, p, bytes);
    if bytes == [] {
      SymbolReads(p * 16);
      assert text[1..] == "";
      assert DecodeFrom(4, 0, "") == Some([]) && DecodeFrom(6, q, text) == Then(q * 4 + p, Some([]));
    } else {
      var b := bytes[0] as int;
      SymbolReads(p * 16 + b / 16);
      assert text[1..] == EncodeFrom(4, b % 16, bytes[1..]);
      DecodeUndoesFour(b / 16, b % 16, bytes[1..]);
      assert [bytes[0]] + bytes[1..] == bytes;
    }
  }

  /** With four bits pending the decoder holds the other four. */
  lemma {:induction false} DecodeUndoesFour(q: int, p: int, bytes: seq<byte>)
    requires 0 <= q < 16 && 0 <= p < 16
    ensures DecodeFrom(4, q, EncodeFrom(4, p, bytes)) == Some([(q * 16 + p) as byte] + bytes)
    decreases |bytes|
  {
    var text := EncodeFrom(4, p, bytes);
    if bytes == [] {
      SymbolReads(p * 4);
      assert text[1..] == "";
      assert DecodeFrom(2, 0, "") == Some([]);
    } else {
      var b := bytes[0] as int;
      SymbolReads(p * 4 + b / 64);
      SymbolReads(b % 64);
      assert text[1..][1..] == EncodeFrom(0, 0, bytes[1..]);
      assert text[1..][0] == Symbol(b % 64);
      DecodeUndoes(bytes[1..]);
      assert [bytes[0]] + bytes[1..] == bytes;
      assert DecodeFrom(2, b / 64, text[1..]) == Then(b / 64 * 64 + b % 64, Some(bytes[1..]));
    }
  }

  // ---------- the accumulator ----------

  const WORD := 0x1_0000_0000

  /** The low `k` bits of the accumulator. */
  function Low(val: nat, k: nat): (r: nat)
    requires k == 0 || k == 2 || k == 4 || k == 6
    ensures k == 0 ==> r == 0
    ensures k == 2 ==> r < 4
    ensures k == 4 ==> r < 16
    ensures k == 6 ==> r < 64
  {
    if k == 0 then 0 else if k == 2 then val % 4 else if k == 4 then val % 16 else val % 64
  }

  /** A right shift by an even number of bits. */
  function Shifted(val: nat, n: nat): nat
    requires n == 0 || n == 2 || n == 4 || n == 6
  {
    if n == 0 then val else if n == 2 then val / 4 else if n == 4 then val / 16 else val / 64
  }

  lemma WordRemainder(n: nat, k: nat, low: nat)
    requires n == WORD * k + low && low < WORD
    ensures n % WORD == low
  {
  }

  lemma LowBitsOfByte(val: nat, x: nat) returns (z: nat)
    requires x < 256
    ensures (val * 256 + x) % WORD == 4096 * z + (val % 16) * 256 + x
  {
    var q := val / 16;
    z := q % 0x10_0000;
    WordRemainder(val * 256 + x, q / 0x10_0000, 4096 * z + (val % 16) * 256 + x);
  }

  lemma LowBitsOfSymbol(val: nat, x: nat) returns (z: nat)
    requires x < 64
    ensures (val * 64 + x) % WORD == 4096 * z + (val % 64) * 64 + x
  {
    var q := val / 64;
    z := q % 0x10_0000;
    WordRemainder(val * 64 + x, q / 0x10_0000, 4096 * z + (val % 64) * 64 + x);
  }

  /** Shifting in `scale` and adding keeps the low twelve bits; what overflows the word is lost above them. */
  lemma LowBits(val: nat, scale: nat, x: nat) returns (z: nat)
    requires (scale == 256 || scale == 64) && x < scale
    ensures (val * scale + x) % WORD == 4096 * z + (val % (4096 / scale)) * scale + x
  {
    if scale == 256 {
      z := LowBitsOfByte(val, x);
    } else {
      z := LowBitsOfSymbol(val, x);
    }
  }

  lemma Quotient(n: nat, d: nat, q: nat, r: nat)
    requires (d == 4 || d == 16 || d == 64 || d == 256) && n == d * q + r && r < d
    ensures n / d == q && n % d == r
  {
    if d == 4 { assert n / 4 == q; }
    else if d == 16 { assert n / 16 == q; }
    else if d == 64 { assert n / 64 == q; }
    else { assert n / 256 == q; }
  }

  lemma EncodeByFour(val: nat, b: nat)
    requires b < 256
    ensures var next := (val * 256 + b) % WORD; next / 4 % 64 == b / 4 && next % 4 == b % 4
  {
    var z := LowBits(val, 256, b);
    var next, r := (val * 256 + b) % WORD, val % 16;
    Quotient(next, 4, 64 * (16 * z + r) + b / 4, b % 4);
    Quotient(64 * (16 * z + r) + b / 4, 64, 16 * z + r, b / 4);
  }

  lemma ModOfMod(val: nat)
    ensures val % 16 % 4 == val % 4 && val % 64 % 16 == val % 16 && val % 64 % 4 == val % 4
  {
    var r, w := val % 16, val % 64;
    Quotient(val, 4, 4 * (val / 16) + r / 4, r % 4);
    Quotient(val, 16, 4 * (val / 64) + w / 16, w % 16);
    Quotient(val, 4, 16 * (val / 64) + w / 4, w % 4);
  }

  lemma EncodeBySixteen(val: nat, b: nat)
    requires b < 256
    ensures var next := (val * 256 + b) % WORD; next / 16 % 64 == val % 4 * 16 + b / 16 && next % 16 == b % 16
  {
    var z := LowBits(val, 256, b);
    ModOfMod(val);
    SplitSixteen((val * 256 + b) % WORD, z, val % 16 / 4, val % 4, b / 16, b % 16);
  }

  lemma SplitSixteen(next: nat, z: nat, s: nat, t: nat, h: nat, l: nat)
    requires next == 4096 * z + (4 * s + t) * 256 + 16 * h + l && t < 4 && h < 16 && l < 16
    ensures next / 16 % 64 == t * 16 + h && next % 16 == l
  {
    Quotient(next, 16, 64 * (4 * z + s) + (t * 16 + h), l);
    Quotient(64 * (4 * z + s) + (t * 16 + h), 64, 4 * z + s, t * 16 + h);
  }

  lemma EncodeBySixtyFour(val: nat, b: nat)
    requires b < 256
    ensures var next := (val * 256 + b) % WORD; next / 64 % 64 == val % 16 * 4 + b / 64 && next % 64 == b % 64
  {
    var z := LowBits(val, 256, b);
    var next, r := (val * 256 + b) % WORD, val % 16;
    Quotient(next, 64, 64 * z + (r * 4 + b / 64), b % 64);
    Quotient(64 * z + (r * 4 + b / 64), 64, z, r * 4 + b / 64);
  }

  lemma DecodeBySixteen(val: nat, d: nat)
    requires d < 64
    ensures var next := (val * 64 + d) % WORD; next / 16 % 256 == val % 64 * 4 + d / 16 && next % 16 == d % 16
  {
    var z := LowBits(val, 64, d);
    var next, r := (val * 64 + d) % WORD, val % 64;
    Quotient(next, 16, 256 * z + (r * 4 + d / 16), d % 16);
    Quotient(256 * z + (r * 4 + d / 16), 256, z, r * 4 + d / 16);
  }

  lemma DecodeByFour(val: nat, d: nat)
    requires d < 64
    ensures var next := (val * 64 + d) % WORD; next / 4 % 256 == val % 16 * 16 + d / 4 && next % 4 == d % 4
  {
    var z := LowBits(val, 64, d);
    ModOfMod(val);
    SplitFour((val * 64 + d) % WORD, z, val % 64 / 16, val % 16, d / 4, d % 4);
  }

  lemma SplitFour(next: nat, z: nat, s: nat, t: nat, h: nat, l: nat)
    requires next == 4096 * z + (16 * s + t) * 64 + 4 * h + l && t < 16 && h < 16 && l < 4
    ensures next / 4 % 256 == t * 16 + h && next % 4 == l
  {
    Quotient(next, 4, 256 * (4 * z + s) + (t * 16 + h), l);
    Quotient(256 * (4 * z + s) + (t * 16 + h), 256, 4 * z + s, t * 16 + h);
  }

  lemma DecodeByOne(val: nat, d: nat)
    requires d < 64
    ensures var next := (val * 64 + d) % WORD; next % 256 == val % 4 * 64 + d && next % 64 == d
  {
    var z := LowBits(val, 64, d);
    ModOfMod(val);
    SplitOne((val * 64 + d) % WORD, z, val % 64 / 4, val % 4, d);
  }

  lemma SplitOne(next: nat, z: nat, s: nat, t: nat, d: nat)
    requires next == 4096 * z + (4 * s + t) * 64 + d && t < 4 && d < 64
    ensures next % 256 == t * 64 + d && next % 64 == d
  {
    Quotient(next, 256, 16 * z + s, t * 64 + d);
    Quotient(next, 64, 64 * z + 4 * s + t, d);
  }

  /** The symbols a run of the inner loop emits. */
  function Emit(val: nat, shift: int): string
    requires shift <= 6 && shift % 2 == 0
    decreases shift + 6
  {
    if shift < 0 then "" else [Symbol(Shifted(val, shift) % 64)] + Emit(val, shift - 6)
  }

  method EmitSymbols(val: nat, shift: int) returns (out: string, left: int)
    requires 0 <= shift <= 6 && shift % 2 == 0
    ensures out == Emit(val, shift) && left == (if shift == 6 then -6 else shift - 6)
  {
    out, left := "", shift;
    while left >= 0
      invariant -6 <= left <= shift && (left == shift || left == shift - 6 || (shift == 6 && left == -6))
      invariant out + Emit(val, left) == Emit(val, shift)
      decreases left + 6
    {
      out := out + [Symbol(Shifted(val, left) % 64)];
      left := left - 6;
    }
  }

  /** What the output and the pending bits will come to over the bytes still to be read. */
  function Pending(out: string, val: nat, valb: int, bytes: seq<byte>): string
    requires valb == -6 || valb == -4 || valb == -2
  {
    out + EncodeFrom(valb + 6, Low(val, valb + 6), bytes)
  }

  method PushByte(out: string, val: nat, valb: int, b: byte, ghost rest: seq<byte>) returns (more: string, next: nat, left: int)
    requires valb == -6 || valb == -4 || valb == -2
    ensures left == -6 || left == -4 || left == -2
    ensures Pending(more, next, left, rest) == Pending(out, val, valb, [b] + rest)
  {
    PendingStep(out, val, valb, b, rest);
    next := (val * 256 + b as nat) % WORD;
    var symbols;
    symbols, left := EmitSymbols(next, valb + 8);
    more := out + symbols;
  }

  lemma PendingStep(out: string, val: nat, valb: int, b: byte, rest: seq<byte>)
    requires valb == -6 || valb == -4 || valb == -2
    ensures var next := (val * 256 + b as nat) % WORD;
      var left := if valb == -2 then -6 else valb + 2;
      Pending(out + Emit(next, valb + 8), next, left, rest) == Pending(out, val, valb, [b] + rest)
  {
    var next := (val * 256 + b as nat) % WORD;
    var left := if valb == -2 then -6 else valb + 2;
    EncodeStep(val, valb + 6, [b] + rest);
    assert ([b] + rest)[1..] == rest;
    Associate(out, Emit(next, valb + 8), EncodeFrom(left + 6, Low(next, left + 6), rest));
  }

  method Base64UrlEncode(data: seq<byte>) returns (out: string)
    ensures out == EncodeBytes(data)
  {
    out := "";
    var val: nat, valb: int := 0, -6;
    assert data[0..] == data;
    for i := 0 to |data|
      invariant valb == -6 || valb == -4 || valb == -2
      invariant Pending(out, val, valb, data[i..]) == EncodeBytes(data)
    {
      assert data[i..] == [data[i]] + data[i + 1..];
      out, val, valb := PushByte(out, val, valb, data[i], data[i + 1..]);
    }
    assert data[|data|..] == [];
    EncodeLast(val, valb + 6);
    if valb > -6 {
      out := out + [Symbol(Shifted(val * 256 % WORD, valb + 8) % 64)];
    }
  }

  lemma EncodeLast(val: nat, k: nat)
    requires k == 0 || k == 2 || k == 4
    ensures EncodeFrom(k, Low(val, k), []) == if k == 0 then "" else [Symbol(Shifted(val * 256 % WORD, k + 2) % 64)]
  {
    if k == 2 {
      EncodeBySixteen(val, 0);
    } else if k == 4 {
      EncodeBySixtyFour(val, 0);
    }
  }

  /** One byte through the accumulator emits what the reference emits and leaves the bits it leaves. */
  lemma EncodeStep(val: nat, k: nat, bytes: seq<byte>)
    requires (k == 0 || k == 2 || k == 4) && bytes != []
    ensures var next := (val * 256 + bytes[0] as nat) % WORD;
      var left := if k == 4 then 0 else k + 2;
      EncodeFrom(k, Low(val, k), bytes) == Emit(next, k + 2) + EncodeFrom(left, Low(next, left), bytes[1..])
  {
    if k == 4 {
      EncodeStepFour(val, bytes);
    } else if k == 2 {
      EncodeStepTwo(val, bytes);
    } else {
      EncodeStepNone(val, bytes);
    }
  }

  lemma EmitOne(next: nat, shift: int)
    requires shift == 2 || shift == 4
    ensures Emit(next, shift) == [Symbol(Shifted(next, shift) % 64)]
  {
    assert Emit(next, shift - 6) == "";
  }

  lemma EmitTwo(next: nat)
    ensures Emit(next, 6) == [Symbol(next / 64 % 64), Symbol(next % 64)]
  {
    assert Emit(next, 0) == [Symbol(next % 64)] + Emit(next, -6);
  }

  lemma EncodeStepNone(val: nat, bytes: seq<byte>)
    requires bytes != []
    ensures var next := (val * 256 + bytes[0] as nat) % WORD;
      EncodeFrom(0, 0, bytes) == Emit(next, 2) + EncodeFrom(2, next % 4, bytes[1..])
  {
    var next := (val * 256 + bytes[0] as nat) % WORD;
    EncodeByFour(val, bytes[0] as nat);
    EmitOne(next, 2);
    assert EncodeFrom(0, 0, bytes) == [Symbol(bytes[0] as int / 4)] + EncodeFrom(2, bytes[0] as int % 4, bytes[1..]);
  }

  lemma EncodeStepTwo(val: nat, bytes: seq<byte>)
    requires bytes != []
    ensures var next := (val * 256 + bytes[0] as nat) % WORD;
      EncodeFrom(2, val % 4, bytes) == Emit(next, 4) + EncodeFrom(4, next % 16, bytes[1..])
  {
    var next := (val * 256 + bytes[0] as nat) % WORD;
    EncodeBySixteen(val, bytes[0] as nat);
    EmitOne(next, 4);
  }

  lemma EncodeStepFour(val: nat, bytes: seq<byte>)
    requires bytes != []
    ensures var next := (val * 256 + bytes[0] as nat) % WORD;
      EncodeFrom(4, val % 16, bytes) == Emit(next, 6) + EncodeFrom(0, 0, bytes[1..])
  {
    var next := (val * 256 + bytes[0] as nat) % WORD;
    EncodeBySixtyFour(val, bytes[0] as nat);
    EmitTwo(next);
  }

  function Onto(front: seq<byte>, rest: Option<seq<byte>>): Option<seq<byte>> {
    if rest.None? then None else Some(front + rest.value)
  }

  /** One symbol through the accumulator: the byte it completes, if any, and the bits it leaves. */
  lemma DecodeStep(val: nat, k: nat, text: string)
    requires (k == 0 || k == 6 || k == 4 || k == 2) && text != "" && Index(text[0]).Some?
    ensures var next := (val * 64 + Index(text[0]).value) % WORD;
      DecodeFrom(k, Low(val, k), text) ==
      if k == 0 then DecodeFrom(6, Low(next, 6), text[1..])
      else Then(Shifted(next, k - 2) % 256, DecodeFrom(k - 2, Low(next, k - 2), text[1..]))
  {
    if k == 0 {
      DecodeStepNone(val, text);
    } else if k == 6 {
      DecodeStepSix(val, text);
    } else if k == 4 {
      DecodeStepFour(val, text);
    } else {
      DecodeStepTwo(val, text);
    }
  }

  lemma DecodeStepNone(val: nat, text: string)
    requires text != "" && Index(text[0]).Some?
    ensures DecodeFrom(0, 0, text) == DecodeFrom(6, (val * 64 + Index(text[0]).value) % WORD % 64, text[1..])
  {
    DecodeByOne(val, Index(text[0]).value);
  }

  lemma DecodeStepSix(val: nat, text: string)
    requires text != "" && Index(text[0]).Some?
    ensures var next := (val * 64 + Index(text[0]).value) % WORD;
      DecodeFrom(6, val % 64, text) == Then(next / 16 % 256, DecodeFrom(4, next % 16, text[1..]))
  {
    DecodeBySixteen(val, Index(text[0]).value);
  }

  lemma DecodeStepFour(val: nat, text: string)
    requires text != "" && Index(text[0]).Some?
    ensures var next := (val * 64 + Index(text[0]).value) % WORD;
      DecodeFrom(4, val % 16, text) == Then(next / 4 % 256, DecodeFrom(2, next % 4, text[1..]))
  {
    DecodeByFour(val, Index(text[0]).value);
  }

  lemma DecodeStepTwo(val: nat, text: string)
    requires text != "" && Index(text[0]).Some?
    ensures var next := (val * 64 + Index(text[0]).value) % WORD;
      DecodeFrom(2, val % 4, text) == Then(next % 256, DecodeFrom(0, 0, text[1..]))
  {
    DecodeByOne(val, Index(text[0]).value);
  }

  lemma OntoThen(front: seq<byte>, b: int, rest: Option<seq<byte>>)
    requires 0 <= b < 256
    ensures Onto(front, Then(b, rest)) == Onto(front + [b as byte], rest)
  {
    if rest.Some? {
      assert front + ([b as byte] + rest.value) == (front + [b as byte]) + rest.value;
    }
  }

  method Base64UrlDecode(text: string) returns (r: Option<seq<byte>>)
    ensures r == DecodeText(text)
  {
    var out: seq<byte> := [];
    var val: nat, valb: int := 0, -8;
    ghost var whole := DecodeText(text);
    assert text[0..] == text;
    assert whole.Some? ==> [] + whole.value == whole.value;
    for i := 0 to |text|
      invariant valb == -8 || valb == -2 || valb == -4 || valb == -6
      invariant whole == Onto(out, DecodeFrom(valb + 8, Low(val, valb + 8), text[i..]))
    {
      var d := Index(text[i]);
      if d.None? {
        return None;
      }
      DecodeStep(val, valb + 8, text[i..]);
      assert text[i..][1..] == text[i + 1..];
      val := (val * 64 + d.value) % WORD;
      valb := valb + 6;
      if valb >= 0 {
        OntoThen(out, Shifted(val, valb) % 256, DecodeFrom(valb, Low(val, valb), text[i + 1..]));
        out := out + [(Shifted(val, valb) % 256) as byte];
        valb := valb - 8;
      }
    }
    assert out + [] == out;
    return Some(out);
  }
}
