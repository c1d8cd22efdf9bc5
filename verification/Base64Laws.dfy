/** The encoding by groups of three bytes, and what a decoder takes. */
module Base64Laws {
  import opened Basics
  import opened Base64

  /** The URL-safe alphabet: capitals, small letters and digits in their order, then a dash and an underscore. */
  lemma Alphabet(d: Sextet)
    ensures Symbol(0) == 'A' && Symbol(25) == 'Z' && Symbol(26) == 'a' && Symbol(51) == 'z'
    ensures Symbol(52) == '0' && Symbol(61) == '9' && Symbol(62) == '-' && Symbol(63) == '_'
    ensures d < 61 && d != 25 && d != 51 ==> Symbol(d + 1) as int == Symbol(d) as int + 1
  {
  }

  /** Three bytes are one 24-bit number, written as four base-64 digits, most significant first. */
  lemma ThreeBytesFourSymbols(a: byte, b: byte, c: byte, rest: seq<byte>)
    ensures var n := (a as int * 256 + b as int) * 256 + c as int;
      EncodeBytes([a, b, c] + rest) ==
      [Symbol(n / 262144), Symbol(n / 4096 % 64), Symbol(n / 64 % 64), Symbol(n % 64)] + EncodeBytes(rest)
  {
    var x, y, z := a as int, b as int, c as int;
    var all := [a, b, c] + rest;
    assert all[1..] == [b, c] + rest && all[1..][1..] == [c] + rest && all[1..][1..][1..] == rest;
    FirstDigits(x, y, z);
    LastDigits(x, y, z);
    assert EncodeBytes(all) == [Symbol(x / 4)] + EncodeFrom(2, x % 4, all[1..]);
    assert EncodeFrom(2, x % 4, all[1..]) == [Symbol(x % 4 * 16 + y / 16)] + EncodeFrom(4, y % 16, all[1..][1..]);
    assert EncodeFrom(4, y % 16, all[1..][1..]) == [Symbol(y % 16 * 4 + z / 64), Symbol(z % 64)] + EncodeFrom(0, 0, rest);
  }

  lemma Digit(n: int, q: int, r: int)
    requires n == 64 * q + r && 0 <= r < 64
    ensures n / 64 == q && n % 64 == r
  {
  }

  lemma TwoDigits(n: int, q: int, r: int)
    requires n == 4096 * q + r && 0 <= r < 4096
    ensures n / 4096 == q
  {
  }

  lemma ThreeDigits(n: int, q: int, r: int)
    requires n == 262144 * q + r && 0 <= r < 262144
    ensures n / 262144 == q
  {
  }

  lemma FirstDigits(x: int, y: int, z: int)
    requires 0 <= x < 256 && 0 <= y < 256 && 0 <= z < 256
    ensures var n := (x * 256 + y) * 256 + z; n / 262144 == x / 4 && n / 4096 % 64 == x % 4 * 16 + y / 16
  {
    var q, r, s, t := x / 4, x % 4, y / 16, y % 16;
    ThreeDigits((x * 256 + y) * 256 + z, q, 65536 * r + 256 * y + z);
    TwoDigits((x * 256 + y) * 256 + z, 64 * q + (16 * r + s), 256 * t + z);
    Digit(64 * q + (16 * r + s), q, 16 * r + s);
  }

  lemma LastDigits(x: int, y: int, z: int)
    requires 0 <= x < 256 && 0 <= y < 256 && 0 <= z < 256
    ensures var n := (x * 256 + y) * 256 + z; n / 64 % 64 == y % 16 * 4 + z / 64 && n % 64 == z % 64
  {
    var s, t, u, v := y / 16, y % 16, z / 64, z % 64;
    Digit((x * 256 + y) * 256 + z, 64 * (16 * x + s) + (4 * t + u), v);
    Digit(64 * (16 * x + s) + (4 * t + u), 16 * x + s, 4 * t + u);
  }

  /** One or two bytes at the end are filled up with zero bits to whole symbols. */
  lemma LastBytes(a: byte, b: byte)
    ensures EncodeBytes([]) == ""
    ensures EncodeBytes([a]) == [Symbol(a as int / 4), Symbol(a as int % 4 * 16)]
    ensures EncodeBytes([a, b]) == [Symbol(a as int / 4), Symbol(a as int % 4 * 16 + b as int / 16), Symbol(b as int % 16 * 4)]
  {
    assert [a][1..] == [] && [a, b][1..] == [b] && [b][1..] == [];
    assert EncodeFrom(2, a as int % 4, []) == [Symbol(a as int % 4 * 16)] && EncodeFrom(4, b as int % 16, []) == [Symbol(b as int % 16 * 4)];
    assert EncodeBytes([a, b]) == [Symbol(a as int / 4)] + EncodeFrom(2, a as int % 4, [b]);
    assert EncodeFrom(2, a as int % 4, [b]) == [Symbol(a as int % 4 * 16 + b as int / 16)] + EncodeFrom(4, b as int % 16, []);
  }

  /** A text is decoded exactly when it has no other symbols, to three bytes for every four of them. */
  lemma {:induction false} DecodedExactly(k: nat, p: nat, text: string)
    requires (k == 0 && p == 0) || (k == 6 && p < 64) || (k == 4 && p < 16) || (k == 2 && p < 4)
    ensures DecodeFrom(k, p, text).Some? <==> forall i :: 0 <= i < |text| ==> Index(text[i]).Some?
    ensures DecodeFrom(k, p, text).Some? ==> |DecodeFrom(k, p, text).value| == (k + 6 * |text|) / 8
    decreases |text|
  {
    if text != "" && Index(text[0]).Some? {
      var d := Index(text[0]).value as int;
      var left := if k == 0 then 6 else k - 2;
      var pending := if k == 0 then d else if k == 6 then d % 16 else if k == 4 then d % 4 else 0;
      DecodedExactly(left, pending, text[1..]);
      assert forall i :: 0 <= i < |text| - 1 ==> text[1..][i] == text[i + 1];
      assert (forall i :: 0 <= i < |text| ==> Index(text[i]).Some?) <==> forall i :: 1 <= i < |text| ==> Index(text[i]).Some?;
      if forall i :: 0 <= i < |text[1..]| ==> Index(text[1..][i]).Some? {
        forall i | 1 <= i < |text| ensures Index(text[i]).Some? {
          assert text[i] == text[1..][i - 1];
        }
      }
    }
  }

  /** Every letter of the alphabet reads as its place in it, and no other character reads at all. */
  lemma IndexExactly(c: char)
    ensures Index(c).Some? <==> exists d: Sextet :: Symbol(d) == c
    ensures forall d: Sextet :: Symbol(d) == c ==> Index(c) == Some(d)
  {
    forall d: Sextet | Symbol(d) == c ensures Index(c) == Some(d) {
      SymbolReads(d);
    }
    if Index(c).Some? {
      assert Symbol(Index(c).value) == c;
    }
  }
}
