/**
 The text form of addresses: dotted decimal, and hexadecimal groups with the first longest run of zero groups
 compressed (section 4.2 of RFC 5952). Octets and groups are numbers here.
 */
module IpText {
  import opened Basics

  // ---------- digits ----------

  function HexChar(d: nat): char
    requires d < 16
  {
    if d < 10 then '0' + d as char else 'a' + (d - 10) as char
  }

  /** Digits are read in either case. */
  function HexDigit(c: char): Option<nat> {
    if '0' <= c <= '9' then Some(c as nat - '0' as nat)
    else if 'a' <= c <= 'f' then Some(c as nat - 'a' as nat + 10)
    else if 'A' <= c <= 'F' then Some(c as nat - 'A' as nat + 10)
    else None
  }

  function DecimalDigit(c: char): Option<nat> {
    if '0' <= c <= '9' then Some(c as nat - '0' as nat) else None
  }

  function Digit(c: char, base: nat): Option<nat> {
    if base == 16 then HexDigit(c) else DecimalDigit(c)
  }

  /** The number a field spells, most significant digit first; None if some character is no digit. */
  function Value(field: string, base: nat): Option<nat> {
    if field == "" then Some(0)
    else
      var n := |field| - 1;
      var rest, d := Value(field[..n], base), Digit(field[n], base);
      if rest.Some? && d.Some? then Some(rest.value * base + d.value) else None
  }

  predicate IsBase(base: nat) {
    base == 10 || base == 16
  }

  /** The shortest spelling of a number, in lower case. */
  function Digits(n: nat, base: nat): (r: string)
    requires IsBase(base)
  {
    if n < base then [HexChar(n)] else Digits(n / base, base) + [HexChar(n % base)]
  }

  predicate IsField(s: string, sep: char) {
    s != "" && sep !in s
  }

  lemma HexCharReads(d: nat)
    requires d < 16
    ensures HexDigit(HexChar(d)) == Some(d) && HexChar(d) != ':' && HexChar(d) != '.'
    ensures d < 10 ==> DecimalDigit(HexChar(d)) == Some(d)
  {
  }

  lemma ValueStep(s: string, c: char, base: nat, v: nat, d: nat)
    requires Value(s, base) == Some(v) && Digit(c, base) == Some(d)
    ensures Value(s + [c], base) == Some(v * base + d)
  {
    assert (s + [c])[..|s|] == s;
  }

  lemma {:induction false} DigitsRead(n: nat, base: nat)
    requires IsBase(base)
    ensures Value(Digits(n, base), base) == Some(n) && IsField(Digits(n, base), ':') && IsField(Digits(n, base), '.')
  {
    if n < base {
      HexCharReads(n);
      ValueStep("", HexChar(n), base, 0, n);
      assert "" + [HexChar(n)] == Digits(n, base);
    } else {
      DigitsRead(n / base, base);
      HexCharReads(n % base);
      ValueStep(Digits(n / base, base), HexChar(n % base), base, n / base, n % base);
      assert n / base * base + n % base == n;
    }
  }

  lemma HexIsShort(n: nat)
    requires n < 0x1_0000
    ensures |Digits(n, 16)| <= 4
  {
    var a, b, c := n / 16, n / 16 / 16, n / 16 / 16 / 16;
    assert c < 16;
    assert |Digits(c, 16)| == 1;
    assert |Digits(b, 16)| <= 2 && |Digits(a, 16)| <= 3;
  }

  lemma DecimalIsShort(n: nat)
    requires n < 256
    ensures |Digits(n, 10)| <= 3
  {
    var a, b := n / 10, n / 10 / 10;
    assert b < 10;
    assert |Digits(b, 10)| == 1;
  }

  // ---------- fields ----------

  /** Where the separator first occurs, or the length. */
  function IndexOf(s: string, sep: char): (i: nat)
    ensures i <= |s| && (i < |s| ==> s[i] == sep) && sep !in s[..i]
  {
    if s == "" || s[0] == sep then 0
    else
      var i := IndexOf(s[1..], sep) + 1;
      assert s[..i] == [s[0]] + s[1..][..i - 1];
      i
  }

  function Join(fields: seq<string>, sep: char): string {
    if fields == [] then ""
    else if |fields| == 1 then fields[0]
    else fields[0] + [sep] + Join(fields[1..], sep)
  }

  predicate AllFields(fields: seq<string>, sep: char) {
    forall i :: 0 <= i < |fields| ==> IsField(fields[i], sep)
  }

  lemma {:induction false} IndexOfField(field: string, rest: string, sep: char)
    requires sep !in field && (rest == "" || rest[0] == sep)
    ensures IndexOf(field + rest, sep) == |field|
  {
    if field == "" {
      assert field + rest == rest;
    } else {
      IndexOfField(field[1..], rest, sep);
      assert (field + rest)[1..] == field[1..] + rest && field[0] in field;
    }
  }

  /** A joined text neither starts nor ends with the separator, and never doubles it. */
  ghost predicate Clean(s: string, sep: char) {
    && (s != "" ==> s[0] != sep && s[|s| - 1] != sep)
    && forall i, j :: 0 <= i && j == i + 1 < |s| ==> !(s[i] == sep && s[j] == sep)
  }

  lemma {:induction false} JoinNonempty(fields: seq<string>, sep: char)
    requires AllFields(fields, sep)
    ensures Clean(Join(fields, sep), sep) && (fields != [] ==> Join(fields, sep) != "")
  {
    if |fields| == 1 {
      assert forall i :: 0 <= i < |fields[0]| ==> fields[0][i] in fields[0];
    } else if |fields| > 1 {
      JoinNonempty(fields[1..], sep);
      CleanJoin(fields[0], Join(fields[1..], sep), sep);
    }
  }

  lemma CleanJoin(field: string, rest: string, sep: char)
    requires IsField(field, sep) && Clean(rest, sep) && rest != ""
    ensures Clean(field + [sep] + rest, sep)
  {
    var s := field + [sep] + rest;
    assert forall i :: 0 <= i < |field| ==> s[i] == field[i] && field[i] in field;
    assert forall i :: 0 <= i < |rest| ==> s[|field| + 1 + i] == rest[i];
    forall i, j | 0 <= i && j == i + 1 < |s| ensures !(s[i] == sep && s[j] == sep) {
      if i > |field| {
        assert s[i] == rest[i - |field| - 1] && s[j] == rest[j - |field| - 1];
      }
    }
  }

  // ---------- parsing ----------

  type Octet = n: int | 0 <= n < 0x100
  type Group = n: int | 0 <= n < 0x1_0000

  /** An address as its sixteen octets; an IPv4 address fills the first four and leaves zeros. */
  datatype Host = Host(v6: bool, octets: seq<Octet>)

  predicate ValidHost(h: Host) {
    |h.octets| == 16 && (!h.v6 ==> forall i :: 4 <= i < 16 ==> h.octets[i] == 0)
  }

  function FieldValue(field: string, base: nat, longest: nat, limit: nat): Option<nat> {
    if field == "" || |field| > longest then None
    else
      var v := Value(field, base);
      if v.Some? && v.value < limit then v else None
  }

  function Before(values: seq<nat>, rest: Option<seq<nat>>): Option<seq<nat>> {
    if rest.None? then None else Some(values + rest.value)
  }

  /** The numbers in a separated text, read field by field; at most `most` of them, and none after a final separator. */
  function Scan(s: string, sep: char, base: nat, longest: nat, limit: nat, most: nat): (r: Option<seq<nat>>)
    ensures r.Some? ==> |r.value| <= most && forall i :: 0 <= i < |r.value| ==> r.value[i] < limit
    decreases |s|
  {
    if s == "" then Some([])
    else if most == 0 then None
    else
      var i := IndexOf(s, sep);
      var v := FieldValue(s[..i], base, longest, limit);
      if v.None? then None
      else Before([v.value], Scan(if i == |s| then "" else s[i + 1..], sep, base, longest, limit, most - 1))
  }

  function ParseV4(text: string): Option<Host> {
    if text == "" || text[|text| - 1] == '.' then None
    else
      var octets := Scan(text, '.', 10, 3, 0x100, 4);
      if octets.Some? && |octets.value| == 4 then Some(Host(false, octets.value + Zeros(12))) else None
  }

  function Zeros(n: nat): (r: seq<int>)
    ensures |r| == n && forall i :: 0 <= i < n ==> r[i] == 0
  {
    seq(n, _ => 0)
  }

  /** Where two colons in a row first occur at or after `from`, or the length. */
  function FindDouble(text: string, from: nat): (i: nat)
    requires from <= |text|
    ensures from <= i <= |text|
    ensures i < |text| ==> i + 1 < |text| && text[i] == ':' && text[i + 1] == ':'
    ensures forall k, l :: from <= k < i && l == k + 1 < |text| ==> !(text[k] == ':' && text[l] == ':')
    decreases |text| - from
  {
    if from + 1 >= |text| then |text|
    else if text[from] == ':' && text[from + 1] == ':' then from
    else FindDouble(text, from + 1)
  }

  /** One side of a compressed address: at most eight groups. */
  function ParseSide(side: string): (r: Option<seq<nat>>)
    ensures r.Some? ==> |r.value| <= 8 && forall i :: 0 <= i < |r.value| ==> r.value[i] < 0x1_0000
  {
    Scan(side, ':', 16, 4, 0x1_0000, 8)
  }

  function HighOctet(g: Group): Octet {
    g / 0x100
  }

  function LowOctet(g: Group): Octet {
    g % 0x100
  }

  function OctetsOf(groups: seq<Group>): (r: seq<Octet>)
    ensures |r| == 2 * |groups|
    ensures forall i :: 0 <= i < |groups| ==> r[2 * i] == HighOctet(groups[i]) && r[2 * i + 1] == LowOctet(groups[i])
  {
    if groups == [] then []
    else
      var n := |groups| - 1;
      OctetsOf(groups[..n]) + [HighOctet(groups[n]), LowOctet(groups[n])]
  }

  function ParseV6(text: string): Option<Host>
    requires text != ""
  {
    var at := FindDouble(text, 0);
    if at == |text| then
      if text[|text| - 1] == ':' then None
      else
        var groups := ParseSide(text);
        if groups.Some? && |groups.value| == 8 then Some(Host(true, OctetsOf(groups.value))) else None
    else if text[|text| - 1] == ':' && text[|text| - 2] != ':' then None
    else if FindDouble(text, at + 2) < |text| then None
    else ParseSides(text[..at], text[at + 2..])
  }

  function Filled(left: seq<Group>, right: seq<Group>): seq<Group>
    requires |left| + |right| < 8
  {
    left + Zeros(8 - |left| - |right|) + right
  }

  function ParseSides(l: string, r: string): Option<Host> {
    var left, right := ParseSide(l), ParseSide(r);
    if left.None? || right.None? || |left.value| + |right.value| >= 8 then None
    else Some(Host(true, OctetsOf(Filled(left.value, right.value))))
  }

  function Parse(text: string): Option<Host> {
    if text == "" then None else if ':' !in text then ParseV4(text) else ParseV6(text)
  }

  // ---------- printing ----------

  function GroupOf(h: Host, i: nat): Group
    requires |h.octets| == 16 && i < 8
  {
    h.octets[2 * i] as int * 0x100 + h.octets[2 * i + 1]
  }

  function Groups(h: Host): (r: seq<Group>)
    requires |h.octets| == 16
    ensures |r| == 8 && forall i :: 0 <= i < 8 ==> r[i] == GroupOf(h, i)
  {
    seq(8, i requires 0 <= i < 8 => GroupOf(h, i))
  }

  predicate ZeroRun(groups: seq<Group>, start: nat, length: nat) {
    start + length <= |groups| && forall i :: start <= i < start + length ==> groups[i] == 0
  }

  /** The run to compress: none shorter than two, none longer, none as long before it. */
  ghost predicate BestRun(groups: seq<Group>, start: nat, length: nat) {
    && (length == 0 ==> start == |groups|)
    && (length > 0 ==> length >= 2 && ZeroRun(groups, start, length))
    && (forall s: nat, n: nat :: ZeroRun(groups, s, n) && n >= 2 ==> n <= length && (n == length ==> start <= s))
  }

  function HexFields(groups: seq<Group>): (r: seq<string>)
    ensures |r| == |groups| && forall i :: 0 <= i < |groups| ==> r[i] == Digits(groups[i], 16)
  {
    seq(|groups|, i requires 0 <= i < |groups| => Digits(groups[i], 16))
  }

  function HexText(groups: seq<Group>): string {
    Join(HexFields(groups), ':')
  }

  function V6Text(groups: seq<Group>, start: nat, length: nat): string
    requires start + length <= |groups|
  {
    if length == 0 then HexText(groups) else HexText(groups[..start]) + "::" + HexText(groups[start + length..])
  }

  function DecimalFields(octets: seq<Octet>): (r: seq<string>)
    ensures |r| == |octets| && forall i :: 0 <= i < |octets| ==> r[i] == Digits(octets[i], 10)
  {
    seq(|octets|, i requires 0 <= i < |octets| => Digits(octets[i], 10))
  }

  function V4Text(octets: seq<Octet>): string {
    Join(DecimalFields(octets), '.')
  }

  // ---------- the round trip ----------

  ghost predicate Spells(fields: seq<string>, values: seq<nat>, sep: char, base: nat, longest: nat, limit: nat) {
    && |fields| == |values|
    && forall i :: 0 <= i < |fields| ==> IsField(fields[i], sep) && FieldValue(fields[i], base, longest, limit) == Some(values[i])
  }

  lemma ScanLast(field: string, sep: char, base: nat, longest: nat, limit: nat, most: nat)
    requires IsField(field, sep) && FieldValue(field, base, longest, limit).Some? && most > 0
    ensures Scan(field, sep, base, longest, limit, most) == Some([FieldValue(field, base, longest, limit).value])
  {
    IndexOfField(field, "", sep);
    assert field + "" == field && field[..|field|] == field;
    var v := FieldValue(field, base, longest, limit).value;
    assert Before([v], Some([])) == Some([v] + []) && [v] + [] == [v];
  }

  lemma ScanMore(field: string, rest: string, sep: char, base: nat, longest: nat, limit: nat, most: nat)
    requires IsField(field, sep) && FieldValue(field, base, longest, limit).Some? && most > 0
    ensures Scan(field + [sep] + rest, sep, base, longest, limit, most) ==
            Before([FieldValue(field, base, longest, limit).value], Scan(rest, sep, base, longest, limit, most - 1))
  {
    var s := field + [sep] + rest;
    IndexOfField(field, [sep] + rest, sep);
    assert s == field + ([sep] + rest);
    assert s[..|field|] == field && s[|field| + 1..] == rest;
  }

  lemma JoinScanStep(fields: seq<string>, values: seq<nat>, sep: char, base: nat, longest: nat, limit: nat, most: nat)
    requires Spells(fields, values, sep, base, longest, limit) && |fields| > 1 && most > 0
    requires Scan(Join(fields[1..], sep), sep, base, longest, limit, most - 1) == Some(values[1..])
    ensures Scan(Join(fields, sep), sep, base, longest, limit, most) == Some(values)
  {
    ScanMore(fields[0], Join(fields[1..], sep), sep, base, longest, limit, most);
    assert Before([values[0]], Some(values[1..])) == Some([values[0]] + values[1..]);
    assert [values[0]] + values[1..] == values;
  }

  /** Joining fields and scanning the result gives their numbers back. */
  lemma {:induction false} JoinThenScan(fields: seq<string>, values: seq<nat>, sep: char, base: nat, longest: nat, limit: nat, most: nat)
    requires Spells(fields, values, sep, base, longest, limit) && |fields| <= most
    ensures Scan(Join(fields, sep), sep, base, longest, limit, most) == Some(values)
  {
    if |fields| == 1 {
      ScanLast(fields[0], sep, base, longest, limit, most);
      assert values == [values[0]];
    } else if |fields| > 1 {
      JoinThenScan(fields[1..], values[1..], sep, base, longest, limit, most - 1);
      JoinScanStep(fields, values, sep, base, longest, limit, most);
    }
  }

  lemma HexFieldsRead(groups: seq<Group>)
    ensures Spells(HexFields(groups), groups, ':', 16, 4, 0x1_0000) && AllFields(HexFields(groups), ':')
  {
    forall i | 0 <= i < |groups|
      ensures IsField(HexFields(groups)[i], ':') && FieldValue(HexFields(groups)[i], 16, 4, 0x1_0000) == Some(groups[i])
    {
      DigitsRead(groups[i], 16);
      HexIsShort(groups[i]);
    }
  }

  lemma DecimalFieldsRead(octets: seq<Octet>)
    ensures Spells(DecimalFields(octets), octets, '.', 10, 3, 0x100) && AllFields(DecimalFields(octets), '.')
    ensures forall i :: 0 <= i < |octets| ==> ':' !in DecimalFields(octets)[i]
  {
    forall i | 0 <= i < |octets|
      ensures IsField(DecimalFields(octets)[i], '.') && FieldValue(DecimalFields(octets)[i], 10, 3, 0x100) == Some(octets[i])
      ensures ':' !in DecimalFields(octets)[i]
    {
      DigitsRead(octets[i], 10);
      DecimalIsShort(octets[i]);
    }
  }

  lemma SideReads(groups: seq<Group>)
    requires |groups| <= 8
    ensures ParseSide(HexText(groups)) == Some(groups) && Clean(HexText(groups), ':')
  {
    HexFieldsRead(groups);
    JoinThenScan(HexFields(groups), groups, ':', 16, 4, 0x1_0000, 8);
    JoinNonempty(HexFields(groups), ':');
  }

  lemma {:induction false} JoinLacks(fields: seq<string>, sep: char, c: char)
    requires c != sep && forall i :: 0 <= i < |fields| ==> c !in fields[i]
    ensures c !in Join(fields, sep)
  {
    if |fields| > 1 {
      JoinLacks(fields[1..], sep, c);
    }
  }

  lemma JoinHas(fields: seq<string>, sep: char)
    requires |fields| > 1
    ensures sep in Join(fields, sep)
  {
    assert Join(fields, sep)[|fields[0]|] == sep;
  }

  lemma V4Reads(octets: seq<Octet>)
    requires |octets| == 4
    ensures Parse(V4Text(octets)) == Some(Host(false, octets + Zeros(12)))
  {
    var fields := DecimalFields(octets);
    DecimalFieldsRead(octets);
    JoinThenScan(fields, octets, '.', 10, 3, 0x100, 4);
    JoinNonempty(fields, '.');
    JoinLacks(fields, '.', ':');
  }

  lemma PlainV6Reads(groups: seq<Group>)
    requires |groups| == 8
    ensures Parse(HexText(groups)) == Some(Host(true, OctetsOf(groups)))
  {
    SideReads(groups);
    HexFieldsRead(groups);
    JoinNonempty(HexFields(groups), ':');
    JoinHas(HexFields(groups), ':');
  }

  /** Between clean sides the double colon is where the compression was put, and the only one. */
  lemma OnlyDouble(left: string, right: string)
    requires Clean(left, ':') && Clean(right, ':')
    ensures var text := left + "::" + right;
      FindDouble(text, 0) == |left| && FindDouble(text, |left| + 2) == |text|
  {
    var text := left + "::" + right;
    assert text[|left|] == ':' && text[|left| + 1] == ':';
    forall i | 0 <= i < |left| ensures !(text[i] == ':' && text[i + 1] == ':') {
      if i + 1 < |left| {
        assert text[i] == left[i] && text[i + 1] == left[i + 1];
      } else {
        assert text[i] == left[|left| - 1];
      }
    }
    forall i | |left| + 2 <= i < |text| - 1 ensures !(text[i] == ':' && text[i + 1] == ':') {
      var k := i - |left| - 2;
      assert text[i] == right[k] && text[i + 1] == right[k + 1];
    }
  }

  lemma CompressedReads(l: string, r: string)
    requires Clean(l, ':') && Clean(r, ':')
    ensures Parse(l + "::" + r) == ParseSides(l, r)
  {
    var text := l + "::" + r;
    OnlyDouble(l, r);
    assert text[|l|] == ':' && text[|l| + 1] == ':';
    assert text[..|l|] == l && text[|l| + 2..] == r;
    if r != "" {
      assert text[|text| - 1] == r[|r| - 1];
    } else {
      assert |text| == |l| + 2;
    }
  }

  lemma FilledIsWhole(groups: seq<Group>, start: nat, length: nat)
    requires |groups| == 8 && length >= 2 && ZeroRun(groups, start, length)
    ensures Filled(groups[..start], groups[start + length..]) == groups
  {
  }

  lemma CompressedV6Reads(groups: seq<Group>, start: nat, length: nat)
    requires |groups| == 8 && length >= 2 && ZeroRun(groups, start, length)
    ensures Parse(V6Text(groups, start, length)) == Some(Host(true, OctetsOf(groups)))
  {
    var left, right := groups[..start], groups[start + length..];
    SideReads(left);
    SideReads(right);
    FilledIsWhole(groups, start, length);
    CompressedReads(HexText(left), HexText(right));
  }

  lemma OctetsRebuild(h: Host)
    requires |h.octets| == 16
    ensures OctetsOf(Groups(h)) == h.octets
  {
    var groups := Groups(h);
    forall i | 0 <= i < 16 ensures OctetsOf(groups)[i] == h.octets[i] {
      var k := i / 2;
      assert groups[k] == GroupOf(h, k) && HighOctet(groups[k]) == h.octets[2 * k] && LowOctet(groups[k]) == h.octets[2 * k + 1];
    }
  }

  /** What `PrintHost` writes. */
  ghost predicate IsHostText(h: Host, text: string)
    requires |h.octets| == 16
  {
    if !h.v6 then text == V4Text(h.octets[..4])
    else exists start: nat, length: nat :: BestRun(Groups(h), start, length) && text == V6Text(Groups(h), start, length)
  }

  /** Parsing what was printed gives the address back. */
  lemma PrintedReads(h: Host, text: string)
    requires ValidHost(h) && IsHostText(h, text)
    ensures Parse(text) == Some(h)
  {
    if h.v6 {
      var start: nat, length: nat :| BestRun(Groups(h), start, length) && text == V6Text(Groups(h), start, length);
      OctetsRebuild(h);
      if length == 0 {
        PlainV6Reads(Groups(h));
      } else {
        CompressedV6Reads(Groups(h), start, length);
      }
    } else {
      V4Reads(h.octets[..4]);
      assert h.octets[..4] + Zeros(12) == h.octets;
    }
  }

  /** No two addresses print alike, and no address prints in two ways. */
  lemma PrintingIsExact(h: Host, k: Host, text: string, other: string)
    requires ValidHost(h) && ValidHost(k) && IsHostText(h, text) && IsHostText(k, other)
    ensures h == k <==> text == other
  {
    PrintedReads(h, text);
    PrintedReads(k, other);
    if h == k && h.v6 {
      var s: nat, n: nat :| BestRun(Groups(h), s, n) && text == V6Text(Groups(h), s, n);
      var s': nat, n': nat :| BestRun(Groups(h), s', n') && other == V6Text(Groups(h), s', n');
      BestRunUnique(Groups(h), s, n, s', n');
    }
  }

  lemma BestRunUnique(groups: seq<Group>, s: nat, n: nat, s': nat, n': nat)
    requires BestRun(groups, s, n) && BestRun(groups, s', n')
    ensures s == s' && n == n'
  {
    assert n > 0 ==> ZeroRun(groups, s, n);
    assert n' > 0 ==> ZeroRun(groups, s', n');
  }

  // ---------- the printing loops ----------

  /** The first longest run of at least two zero groups, by a scan from run to run. */
  method FindBestRun(groups: seq<Group>) returns (start: nat, length: nat)
    ensures BestRun(groups, start, length)
  {
    start, length := |groups|, 0;
    var i := 0;
    while i < |groups|
      invariant 0 <= i <= |groups| && (i == 0 || i == |groups| || groups[i - 1] != 0 || groups[i] != 0)
      invariant length == 0 ==> start == |groups|
      invariant length > 0 ==> length >= 2 && ZeroRun(groups, start, length) && start < i
      invariant forall s: nat, n: nat :: ZeroRun(groups, s, n) && n >= 2 && s < i ==> n <= length && (n == length ==> start <= s)
    {
      if groups[i] != 0 {
        i := i + 1;
      } else {
        var j := i;
        while j < |groups| && groups[j] == 0
          invariant i <= j <= |groups| && ZeroRun(groups, i, j - i)
        {
          j := j + 1;
        }
        RunsWithin(groups, i, j);
        if j - i > length && j - i >= 2 {
          start, length := i, j - i;
        }
        i := j;
      }
    }
  }

  /** A run that starts inside a stretch of zeros ends inside it. */
  lemma RunsWithin(groups: seq<Group>, i: nat, j: nat)
    requires i < j <= |groups| && (j < |groups| ==> groups[j] != 0)
    ensures forall s: nat, n: nat :: ZeroRun(groups, s, n) && i <= s < j ==> s + n <= j
  {
    forall s: nat, n: nat | ZeroRun(groups, s, n) && i <= s < j ensures s + n <= j {
    }
  }

  const NIBBLES := [0x1000, 0x100, 0x10, 1]

  /** Nibbles from the top, leading zeros skipped. */
  method PrintGroup(g: Group) returns (text: string)
    ensures text == Digits(g, 16)
  {
    text := "";
    var started := false;
    for k := 0 to 4
      invariant started <==> k == 4 || (k > 0 && g / NIBBLES[k - 1] != 0)
      invariant text == if started then Digits(g / NIBBLES[k - 1], 16) else ""
    {
      var above := g / NIBBLES[k];
      assert k > 0 ==> above / 16 == g / NIBBLES[k - 1];
      assert k == 0 ==> above < 16;
      var nibble := above % 16;
      if nibble != 0 || started || k == 3 {
        text := text + [HexChar(nibble)];
        started := true;
      }
    }
  }

  lemma {:induction false} JoinAppend(fields: seq<string>, last: string, sep: char)
    ensures Join(fields + [last], sep) == if fields == [] then last else Join(fields, sep) + [sep] + last
  {
    if fields == [] {
      assert fields + [last] == [last];
    } else {
      JoinAppend(fields[1..], last, sep);
      assert (fields + [last])[1..] == fields[1..] + [last];
    }
  }

  lemma HexAppend(groups: seq<Group>, g: Group)
    ensures HexText(groups + [g]) == if groups == [] then Digits(g, 16) else HexText(groups) + ":" + Digits(g, 16)
    ensures (groups == [] <==> HexText(groups) == "") && Clean(HexText(groups), ':')
  {
    assert HexFields(groups + [g]) == HexFields(groups) + [Digits(g, 16)];
    JoinAppend(HexFields(groups), Digits(g, 16), ':');
    HexFieldsRead(groups);
    JoinNonempty(HexFields(groups), ':');
  }

  /** What has been printed when the scan stands at group `i`. */
  function Printed(groups: seq<Group>, start: nat, length: nat, i: nat): string
    requires start + length <= |groups| && i <= |groups| && !(start < i < start + length)
  {
    if length == 0 || i <= start then HexText(groups[..i])
    else HexText(groups[..start]) + "::" + HexText(groups[start + length..i])
  }

  /** One more group goes after a colon unless the text is empty or already ends in one. */
  function WithGroup(text: string, g: Group): string {
    (if text != "" && text[|text| - 1] != ':' then text + ":" else text) + Digits(g, 16)
  }

  lemma SideGrows(side: seq<Group>, g: Group)
    ensures HexText(side + [g]) == WithGroup(HexText(side), g)
  {
    HexAppend(side, g);
  }

  lemma RightSideGrows(left: string, side: seq<Group>, g: Group)
    ensures left + "::" + HexText(side + [g]) == WithGroup(left + "::" + HexText(side), g)
  {
    HexAppend(side, g);
    var text := left + "::" + HexText(side);
    if side != [] {
      assert text[|text| - 1] == HexText(side)[|HexText(side)| - 1];
    } else {
      assert text == left + "::" && text[|text| - 1] == ':';
    }
  }

  lemma PrintedGrows(groups: seq<Group>, start: nat, length: nat, i: nat)
    requires start + length <= |groups| && i < |groups| && (length > 0 ==> i < start || i >= start + length)
    ensures Printed(groups, start, length, i + 1) == WithGroup(Printed(groups, start, length, i), groups[i])
  {
    if length == 0 || i < start {
      assert groups[..i + 1] == groups[..i] + [groups[i]];
      SideGrows(groups[..i], groups[i]);
    } else {
      var from := start + length;
      assert groups[from..i + 1] == groups[from..i] + [groups[i]];
      RightSideGrows(HexText(groups[..start]), groups[from..i], groups[i]);
    }
  }

  lemma PrintedSkips(groups: seq<Group>, start: nat, length: nat)
    requires start + length <= |groups| && length > 0
    ensures Printed(groups, start, length, start + length) == Printed(groups, start, length, start) + "::"
  {
    assert groups[start + length..start + length] == [];
    assert HexText([]) == "";
  }

  lemma PrintedAll(groups: seq<Group>, start: nat, length: nat)
    requires start + length <= |groups| && (length == 0 ==> start == |groups|)
    ensures Printed(groups, start, length, |groups|) == V6Text(groups, start, length)
  {
    assert groups[..|groups|] == groups;
  }

  method AppendGroup(text: string, g: Group) returns (r: string)
    ensures r == WithGroup(text, g)
  {
    r := text;
    if r != "" && r[|r| - 1] != ':' {
      r := r + ":";
    }
    var digits := PrintGroup(g);
    r := r + digits;
  }

  method PrintAround(groups: seq<Group>, start: nat, length: nat) returns (text: string)
    requires start + length <= |groups| && (length == 0 ==> start == |groups|)
    ensures text == V6Text(groups, start, length)
  {
    text := "";
    var i := 0;
    while i < |groups|
      invariant 0 <= i <= |groups| && !(start < i < start + length)
      invariant text == Printed(groups, start, length, i)
    {
      if i == start {
        PrintedSkips(groups, start, length);
        text := text + "::";
        i := i + length;
      } else {
        PrintedGrows(groups, start, length, i);
        text := AppendGroup(text, groups[i]);
        i := i + 1;
      }
    }
    PrintedAll(groups, start, length);
  }

  method PrintV6(groups: seq<Group>) returns (text: string)
    ensures exists start: nat, length: nat :: BestRun(groups, start, length) && text == V6Text(groups, start, length)
  {
    var start, length := FindBestRun(groups);
    text := PrintAround(groups, start, length);
  }

  method PrintHost(h: Host) returns (text: string)
    requires |h.octets| == 16
    ensures IsHostText(h, text)
  {
    if h.v6 {
      text := PrintV6(Groups(h));
    } else {
      text := "";
      for i := 0 to 4
        invariant text == Join(DecimalFields(h.octets[..i]), '.')
      {
        JoinAppend(DecimalFields(h.octets[..i]), Digits(h.octets[i], 10), '.');
        assert DecimalFields(h.octets[..i + 1]) == DecimalFields(h.octets[..i]) + [Digits(h.octets[i], 10)];
        if i != 0 {
          text := text + ".";
        }
        text := text + Digits(h.octets[i], 10);
      }
    }
  }

  // ---------- the parsing loops ----------

  method ReadField(field: string, base: nat, longest: nat, limit: nat) returns (r: Option<nat>)
    ensures r == FieldValue(field, base, longest, limit)
  {
    if field == "" || |field| > longest {
      return None;
    }
    var value := 0;
    for i := 0 to |field|
      invariant Value(field[..i], base) == Some(value)
    {
      assert field[..i + 1][..i] == field[..i];
      var d := Digit(field[i], base);
      if d.None? {
        ValuePrefix(field, i + 1, base);
        return None;
      }
      value := value * base + d.value;
    }
    assert field[..|field|] == field;
    if value >= limit {
      return None;
    }
    return Some(value);
  }

  lemma {:induction false} ValuePrefix(field: string, i: nat, base: nat)
    requires i <= |field| && Value(field[..i], base).None?
    ensures Value(field, base).None?
  {
    if i == |field| {
      assert field[..i] == field;
    } else {
      assert field[..|field| - 1][..i] == field[..i];
      ValuePrefix(field[..|field| - 1], i, base);
    }
  }

  lemma BeforeTwice(a: seq<nat>, b: seq<nat>, rest: Option<seq<nat>>)
    ensures Before(a, Before(b, rest)) == Before(a + b, rest)
  {
    if rest.Some? {
      assert a + (b + rest.value) == (a + b) + rest.value;
    }
  }

  /** Reads field after field; gives up at the first bad one and at one too many. */
  method ScanFields(side: string, sep: char, base: nat, longest: nat, limit: nat, most: nat) returns (r: Option<seq<nat>>)
    ensures r == Scan(side, sep, base, longest, limit, most)
  {
    ghost var whole := Scan(side, sep, base, longest, limit, most);
    var values: seq<nat> := [];
    var left := side;
    assert whole.Some? ==> [] + whole.value == whole.value;
    while left != ""
      invariant |values| <= most
      invariant whole == Before(values, Scan(left, sep, base, longest, limit, most - |values|))
      decreases |left|
    {
      if |values| == most {
        return None;
      }
      var i := IndexOf(left, sep);
      var v := ReadField(left[..i], base, longest, limit);
      if v.None? {
        return None;
      }
      var rest := if i == |left| then "" else left[i + 1..];
      BeforeTwice(values, [v.value], Scan(rest, sep, base, longest, limit, most - |values| - 1));
      left, values := rest, values + [v.value];
    }
    assert values + [] == values;
    return Some(values);
  }

  method ParseHost(text: string) returns (r: Option<Host>)
    ensures r == Parse(text)
  {
    if text == "" {
      return None;
    }
    if ':' !in text {
      if text[|text| - 1] == '.' {
        return None;
      }
      var octets := ScanFields(text, '.', 10, 3, 0x100, 4);
      if octets.None? || |octets.value| != 4 {
        return None;
      }
      return Some(Host(false, octets.value + Zeros(12)));
    }
    var at := FindDouble(text, 0);
    if text[|text| - 1] == ':' && (at == |text| || text[|text| - 2] != ':') {
      return None;
    }
    if at < |text| && FindDouble(text, at + 2) < |text| {
      return None;
    }
    if at == |text| {
      var groups := ScanFields(text, ':', 16, 4, 0x1_0000, 8);
      if groups.None? || |groups.value| != 8 {
        return None;
      }
      return Some(Host(true, OctetsOf(groups.value)));
    }
    var left := ScanFields(text[..at], ':', 16, 4, 0x1_0000, 8);
    var right := ScanFields(text[at + 2..], ':', 16, 4, 0x1_0000, 8);
    if left.None? || right.None? || |left.value| + |right.value| >= 8 {
      return None;
    }
    return Some(Host(true, OctetsOf(Filled(left.value, right.value))));
  }
}
