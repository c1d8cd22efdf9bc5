/**
 The order in which an advertisement's prefix records are compared and sorted, and the canonical list it
 gives: the same records once each, ascending, whatever order they were collected in.
 */
module PrefixOrder {
  import opened IpPrefixes
  import opened PeerTable

  /** Families compare by their wire number. */
  function FamilyRank(f: Family): nat {
    match f
    case IPv4 => 8
    case IPv6 => 12
    case OtherFamily(code) => 2 * code + 1
  }

  predicate BytesLess(x: Bytes16, y: Bytes16, i: nat)
    requires i <= ADDRESS_BYTES
    decreases ADDRESS_BYTES - i
  {
    i < ADDRESS_BYTES && if x[i] == y[i] then BytesLess(x, y, i + 1) else x[i] < y[i]
  }

  predicate Less(a: AdvertisedPrefix, b: AdvertisedPrefix) {
    if a.prefix.family != b.prefix.family then FamilyRank(a.prefix.family) < FamilyRank(b.prefix.family)
    else if a.prefix.bytes != b.prefix.bytes then BytesLess(a.prefix.bytes, b.prefix.bytes, 0)
    else if a.length != b.length then a.length < b.length
    else if a.sequence != b.sequence then a.sequence < b.sequence
    else if a.lease != b.lease then a.lease < b.lease
    else a.metric < b.metric
  }

  // ---------- a strict total order ----------

  lemma {:induction false} BytesTotal(x: Bytes16, y: Bytes16, i: nat)
    requires i <= ADDRESS_BYTES && x[..i] == y[..i] && x != y
    ensures BytesLess(x, y, i) <==> !BytesLess(y, x, i)
    decreases ADDRESS_BYTES - i
  {
    if i < ADDRESS_BYTES && x[i] == y[i] {
      BytesTotal(x, y, i + 1);
    }
  }

  lemma {:induction false} BytesTransitive(x: Bytes16, y: Bytes16, z: Bytes16, i: nat)
    requires i <= ADDRESS_BYTES && BytesLess(x, y, i) && BytesLess(y, z, i)
    ensures BytesLess(x, z, i) && x != z
    decreases ADDRESS_BYTES - i
  {
    if x[i] == y[i] && y[i] == z[i] {
      BytesTransitive(x, y, z, i + 1);
    }
  }

  lemma LessTotal(a: AdvertisedPrefix, b: AdvertisedPrefix)
    ensures a == b || Less(a, b) || Less(b, a)
    ensures !(Less(a, b) && Less(b, a)) && !Less(a, a)
  {
    if a.prefix.bytes != b.prefix.bytes {
      BytesTotal(a.prefix.bytes, b.prefix.bytes, 0);
    }
  }

  lemma LessTransitive(a: AdvertisedPrefix, b: AdvertisedPrefix, c: AdvertisedPrefix)
    requires Less(a, b) && Less(b, c)
    ensures Less(a, c)
  {
    var x, y, z := a.prefix.bytes, b.prefix.bytes, c.prefix.bytes;
    if x != y && y != z && BytesLess(x, y, 0) && BytesLess(y, z, 0) {
      BytesTransitive(x, y, z, 0);
    }
  }

  // ---------- sorting ----------

  function Insert(x: AdvertisedPrefix, s: seq<AdvertisedPrefix>): seq<AdvertisedPrefix> {
    if s == [] then [x]
    else if x == s[0] then s
    else if Less(x, s[0]) then [x] + s
    else [s[0]] + Insert(x, s[1..])
  }

  /** The list as sorting and dropping repeats leave it. */
  function SortUnique(s: seq<AdvertisedPrefix>): seq<AdvertisedPrefix> {
    if s == [] then [] else Insert(s[|s| - 1], SortUnique(s[..|s| - 1]))
  }

  ghost predicate Ascending(s: seq<AdvertisedPrefix>) {
    forall i, j :: 0 <= i < j < |s| ==> Less(s[i], s[j])
  }

  lemma {:induction false} InsertAscending(x: AdvertisedPrefix, s: seq<AdvertisedPrefix>)
    requires Ascending(s)
    ensures Ascending(Insert(x, s)) && forall y :: y in Insert(x, s) <==> y == x || y in s
  {
    if s != [] && x != s[0] {
      LessTotal(x, s[0]);
      if Less(x, s[0]) {
        forall j | 0 < j < |s| ensures Less(x, s[j]) {
          LessTransitive(x, s[0], s[j]);
        }
      } else {
        InsertAscending(x, s[1..]);
        var rest := Insert(x, s[1..]);
        forall j | 0 <= j < |rest| ensures Less(s[0], rest[j]) {
          assert rest[j] in rest;
        }
      }
    }
  }

  lemma {:induction false} SortUniqueMeets(s: seq<AdvertisedPrefix>)
    ensures Ascending(SortUnique(s)) && forall x :: x in SortUnique(s) <==> x in s
  {
    if s != [] {
      var n := |s| - 1;
      SortUniqueMeets(s[..n]);
      InsertAscending(s[n], SortUnique(s[..n]));
      assert s == s[..n] + [s[n]];
    }
  }

  lemma TailMembers(s: seq<AdvertisedPrefix>)
    requires Ascending(s) && s != []
    ensures forall x :: x in s[1..] <==> x in s && x != s[0]
  {
    forall x | x in s[1..] ensures x != s[0] {
      var j :| 0 < j < |s| && s[j] == x;
      LessTotal(s[0], s[0]);
    }
  }

  /** Ascending lists with the same records are the same list. */
  lemma {:induction false} AscendingUnique(s: seq<AdvertisedPrefix>, t: seq<AdvertisedPrefix>)
    requires Ascending(s) && Ascending(t) && forall x :: x in s <==> x in t
    ensures s == t
  {
    assert (s != [] ==> s[0] in t) && (t != [] ==> t[0] in s);
    if s != [] {
      var j :| 0 <= j < |t| && t[j] == s[0];
      var i :| 0 <= i < |s| && s[i] == t[0];
      LessTotal(s[0], t[0]);
      assert s[0] == t[0];
      TailMembers(s);
      TailMembers(t);
      AscendingUnique(s[1..], t[1..]);
      assert s == [s[0]] + s[1..] && t == [t[0]] + t[1..];
    }
  }

  /** The canonical list depends only on which records there are. */
  lemma SortUniqueForgetsOrder(s: seq<AdvertisedPrefix>, t: seq<AdvertisedPrefix>)
    ensures SortUnique(s) == SortUnique(t) <==> forall x :: x in s <==> x in t
  {
    SortUniqueMeets(s);
    SortUniqueMeets(t);
    if forall x :: x in s <==> x in t {
      AscendingUnique(SortUnique(s), SortUnique(t));
    }
  }
}
