/** The grammar of address texts: which texts are read at all, and as what. */
module IpTextLaws {
  import opened Basics
  import opened IpText

  /** Nonempty fields between separators, each of these numbers in turn. */
  ghost predicate Lists(text: string, values: seq<nat>, sep: char, base: nat, longest: nat, limit: nat) {
    exists fields :: Spells(fields, values, sep, base, longest, limit) && text == Join(fields, sep)
  }

  /** Up to three decimal digits a number below 256, or up to four hexadecimal ones below 65536. */
  ghost predicate Dotted(text: string, octets: seq<nat>) {
    Lists(text, octets, '.', 10, 3, 0x100)
  }

  ghost predicate Coloned(text: string, groups: seq<nat>) {
    Lists(text, groups, ':', 16, 4, 0x1_0000)
  }

  /** A text and the address it names. */
  ghost predicate Names(text: string, h: Host) {
    || (!h.v6 && ValidHost(h) && Dotted(text, h.octets[..4]))
    || (h.v6 && exists groups: seq<Group> :: |groups| == 8 && Coloned(text, groups) && h.octets == OctetsOf(groups))
    || (h.v6 && exists l, r, left: seq<Group>, right: seq<Group> :: Compressed(text, l, r, left, right) && h.octets == OctetsOf(Filled(left, right)))
  }

  /** One double colon between two sides of fewer than eight groups together. */
  ghost predicate Compressed(text: string, l: string, r: string, left: seq<Group>, right: seq<Group>) {
    |left| + |right| < 8 && Coloned(l, left) && Coloned(r, right) && text == l + "::" + r
  }

  // ---------- what is scanned was spelled ----------

  /** Scanning with any reader of single fields. */
  function ScanBy(read: string -> Option<nat>, s: string, sep: char, most: nat): Option<seq<nat>>
    decreases |s|
  {
    if s == "" then Some([])
    else if most == 0 then None
    else
      var i := IndexOf(s, sep);
      if read(s[..i]).None? then None
      else Before([read(s[..i]).value], ScanBy(read, if i == |s| then "" else s[i + 1..], sep, most - 1))
  }

  function Reader(base: nat, longest: nat, limit: nat): string -> Option<nat> {
    (field: string) => FieldValue(field, base, longest, limit)
  }

  lemma {:induction false} ScanIsBy(s: string, sep: char, base: nat, longest: nat, limit: nat, most: nat)
    ensures Scan(s, sep, base, longest, limit, most) == ScanBy(Reader(base, longest, limit), s, sep, most)
    decreases |s|
  {
    if s != "" && most > 0 {
      var i := IndexOf(s, sep);
      ScanIsBy(if i == |s| then "" else s[i + 1..], sep, base, longest, limit, most - 1);
    }
  }

  ghost predicate SpellsBy(read: string -> Option<nat>, fields: seq<string>, values: seq<nat>, sep: char) {
    |fields| == |values| && forall i :: 0 <= i < |fields| ==> IsField(fields[i], sep) && read(fields[i]) == Some(values[i])
  }

  lemma JoinOneMore(field: string, fields: seq<string>, sep: char)
    requires fields != []
    ensures Join([field] + fields, sep) == field + [sep] + Join(fields, sep)
  {
    assert ([field] + fields)[1..] == fields;
  }

  /** The text cut at its separators. */
  function Fields(s: string, sep: char): seq<string>
    decreases |s|
  {
    if s == "" then []
    else
      var i := IndexOf(s, sep);
      [s[..i]] + Fields(if i == |s| then "" else s[i + 1..], sep)
  }

  lemma FieldsOfOne(s: string, sep: char)
    requires s != "" && IndexOf(s, sep) == |s|
    ensures Join(Fields(s, sep), sep) == s
  {
    assert s[..|s|] == s;
    assert Fields(s, sep) == [s] + Fields("", sep);
    assert [s] + [] == [s];
  }

  lemma FieldThenRest(s: string, i: nat, more: seq<string>, sep: char)
    requires i < |s| && s[i] == sep && more != [] && Join(more, sep) == s[i + 1..]
    ensures Join([s[..i]] + more, sep) == s
  {
    JoinOneMore(s[..i], more, sep);
    assert s == s[..i] + [sep] + s[i + 1..];
  }

  /** A text that does not end in a separator is its fields joined. */
  lemma {:induction false} FieldsJoin(s: string, sep: char)
    requires s != "" ==> s[|s| - 1] != sep
    ensures Join(Fields(s, sep), sep) == s
    decreases |s|
  {
    if s != "" {
      var i := IndexOf(s, sep);
      if i < |s| {
        var rest := s[i + 1..];
        FieldsJoin(rest, sep);
        FieldThenRest(s, i, Fields(rest, sep), sep);
      } else {
        FieldsOfOne(s, sep);
      }
    }
  }

  lemma SpellsOneMore(read: string -> Option<nat>, field: string, fields: seq<string>, values: seq<nat>, sep: char)
    requires SpellsBy(read, fields, values, sep) && read("").None? && read(field).Some? && sep !in field
    ensures SpellsBy(read, [field] + fields, [read(field).value] + values, sep)
  {
  }

  lemma {:induction false} FieldsSpell(read: string -> Option<nat>, s: string, sep: char, most: nat)
    requires ScanBy(read, s, sep, most).Some? && read("").None?
    ensures SpellsBy(read, Fields(s, sep), ScanBy(read, s, sep, most).value, sep)
    decreases |s|
  {
    if s != "" {
      var i := IndexOf(s, sep);
      var rest := if i == |s| then "" else s[i + 1..];
      FieldsSpell(read, rest, sep, most - 1);
      SpellsOneMore(read, s[..i], Fields(rest, sep), ScanBy(read, rest, sep, most - 1).value, sep);
    }
  }

  lemma ScanRead(s: string, sep: char, base: nat, longest: nat, limit: nat, most: nat)
    requires Scan(s, sep, base, longest, limit, most).Some? && (s != "" ==> s[|s| - 1] != sep)
    ensures Lists(s, Scan(s, sep, base, longest, limit, most).value, sep, base, longest, limit)
  {
    ScanIsBy(s, sep, base, longest, limit, most);
    FieldsSpell(Reader(base, longest, limit), s, sep, most);
    FieldsJoin(s, sep);
    assert Spells(Fields(s, sep), Scan(s, sep, base, longest, limit, most).value, sep, base, longest, limit);
  }

  lemma {:induction false} ListsScanned(text: string, values: seq<nat>, sep: char, base: nat, longest: nat, limit: nat, most: nat)
    requires Lists(text, values, sep, base, longest, limit) && |values| <= most
    ensures Scan(text, sep, base, longest, limit, most) == Some(values) && Clean(text, sep) && (values != [] ==> text != "")
  {
    var fields :| Spells(fields, values, sep, base, longest, limit) && text == Join(fields, sep);
    JoinThenScan(fields, values, sep, base, longest, limit, most);
    JoinNonempty(fields, sep);
  }

  // ---------- dotted texts ----------

  lemma DottedLacksColon(text: string, octets: seq<nat>)
    requires Dotted(text, octets)
    ensures ':' !in text
  {
    var fields :| Spells(fields, octets, '.', 10, 3, 0x100) && text == Join(fields, '.');
    forall i | 0 <= i < |fields| ensures ':' !in fields[i] {
      DigitsOnly(fields[i]);
    }
    JoinLacks(fields, '.', ':');
  }

  lemma {:induction false} DigitsOnly(field: string)
    requires Value(field, 10).Some?
    ensures ':' !in field
  {
    if field != "" {
      DigitsOnly(field[..|field| - 1]);
    }
  }

  lemma DottedExactly(text: string, h: Host)
    requires ':' !in text
    ensures Parse(text) == Some(h) <==> !h.v6 && ValidHost(h) && Dotted(text, h.octets[..4])
  {
    if Parse(text) == Some(h) {
      ScanRead(text, '.', 10, 3, 0x100, 4);
      var octets := Scan(text, '.', 10, 3, 0x100, 4).value;
      assert h.octets[..4] == octets;
    }
    if !h.v6 && ValidHost(h) && Dotted(text, h.octets[..4]) {
      ListsScanned(text, h.octets[..4], '.', 10, 3, 0x100, 4);
      assert h.octets == h.octets[..4] + Zeros(12);
    }
  }

  // ---------- coloned texts ----------

  lemma SideRead(side: string)
    requires ParseSide(side).Some? && (side != "" ==> side[|side| - 1] != ':')
    ensures Coloned(side, ParseSide(side).value)
  {
    ScanRead(side, ':', 16, 4, 0x1_0000, 8);
  }

  lemma PlainRead(text: string, h: Host)
    requires ':' in text && FindDouble(text, 0) == |text| && Parse(text) == Some(h)
    ensures ParseSide(text).Some? && |ParseSide(text).value| == 8
    ensures h.v6 && Coloned(text, ParseSide(text).value) && h.octets == OctetsOf(ParseSide(text).value)
  {
    SideRead(text);
  }

  lemma LoneColon()
    ensures ParseSide(":").None?
  {
    assert IndexOf(":", ':') == 0;
  }

  /** The sides of the first double colon end in no colon, or the text is refused. */
  lemma SidesEnd(text: string, at: nat, r: string)
    requires at == FindDouble(text, 0) < |text| && ParseV6(text).Some? && r == text[at + 2..]
    ensures at > 0 ==> text[at - 1] != ':'
    ensures r != "" ==> r[|r| - 1] != ':'
  {
    LoneColon();
    assert |r| == 1 && r[0] == ':' ==> r == ":";
  }

  lemma SidesOf(text: string, h: Host, at: nat)
    requires at == FindDouble(text, 0) < |text| && ParseV6(text) == Some(h)
    ensures ParseSides(text[..at], text[at + 2..]) == Some(h)
  {
  }

  lemma AroundDouble(text: string, at: nat)
    requires at + 1 < |text| && text[at] == ':' && text[at + 1] == ':'
    ensures text == text[..at] + "::" + text[at + 2..]
  {
  }

  lemma CompressedRead(text: string, h: Host, l: string, r: string)
    requires ParseSides(l, r) == Some(h) && text == l + "::" + r
    requires (l != "" ==> l[|l| - 1] != ':') && (r != "" ==> r[|r| - 1] != ':')
    ensures Names(text, h)
  {
    SideRead(l);
    SideRead(r);
    assert Compressed(text, l, r, ParseSide(l).value, ParseSide(r).value);
  }

  lemma CompressedSpelled(text: string, h: Host, l: string, r: string, left: seq<Group>, right: seq<Group>)
    requires h.v6 && Compressed(text, l, r, left, right) && h.octets == OctetsOf(Filled(left, right))
    ensures Parse(text) == Some(h) && ':' in text && FindDouble(text, 0) < |text|
  {
    ListsScanned(l, left, ':', 16, 4, 0x1_0000, 8);
    ListsScanned(r, right, ':', 16, 4, 0x1_0000, 8);
    CompressedReads(l, r);
    OnlyDouble(l, r);
    assert text[|l|] == ':';
  }

  lemma {:induction false} NoDoubleInside(text: string, from: nat)
    requires Clean(text, ':') && from <= |text|
    ensures FindDouble(text, from) == |text|
    decreases |text| - from
  {
    if from + 1 < |text| {
      NoDoubleInside(text, from + 1);
    }
  }

  lemma PlainSpelled(text: string, h: Host, groups: seq<Group>)
    requires h.v6 && |groups| == 8 && Coloned(text, groups) && h.octets == OctetsOf(groups)
    ensures Parse(text) == Some(h)
  {
    ListsScanned(text, groups, ':', 16, 4, 0x1_0000, 8);
    NoDoubleInside(text, 0);
    var fields :| Spells(fields, groups, ':', 16, 4, 0x1_0000) && text == Join(fields, ':');
    JoinHas(fields, ':');
  }

  /** Every text that names an address is read as that address, however it is spelled. */
  lemma NamedIsRead(text: string, h: Host)
    requires Names(text, h)
    ensures Parse(text) == Some(h)
  {
    if !h.v6 {
      DottedLacksColon(text, h.octets[..4]);
      DottedExactly(text, h);
    } else if groups: seq<Group> :| |groups| == 8 && Coloned(text, groups) && h.octets == OctetsOf(groups) {
      PlainSpelled(text, h, groups);
    } else {
      var l, r, left: seq<Group>, right: seq<Group> :| Compressed(text, l, r, left, right) && h.octets == OctetsOf(Filled(left, right));
      CompressedSpelled(text, h, l, r, left, right);
    }
  }

  /** And no other text is read at all. */
  lemma ReadIsNamed(text: string)
    requires Parse(text).Some?
    ensures Names(text, Parse(text).value)
  {
    var h := Parse(text).value;
    if ':' !in text {
      DottedExactly(text, h);
    } else if FindDouble(text, 0) == |text| {
      PlainRead(text, h);
    } else {
      var at := FindDouble(text, 0);
      SidesOf(text, h, at);
      AroundDouble(text, at);
      SidesEnd(text, at, text[at + 2..]);
      CompressedRead(text, h, text[..at], text[at + 2..]);
    }
  }
}
