/** The receiver's record of which chunks have arrived, and the selective acknowledgements it derives. */
module ChunkTracker {
  import opened Basics
  import FileRules

  const ACK_MAX_RANGES: nat := 32

  datatype Range = Range(first: nat, count: nat)

  datatype Receipt = Accepted | Duplicate | OutOfRange

  function Count(received: seq<bool>): nat {
    if received == [] then 0 else Count(received[..|received| - 1]) + if received[|received| - 1] then 1 else 0
  }

  lemma CountUpdate(received: seq<bool>, i: nat, v: bool)
    requires i < |received|
    ensures Count(received[i := v]) == Count(received) - (if received[i] then 1 else 0) + if v then 1 else 0
  {
    var n := |received| - 1;
    if i == n {
      assert received[i := v][..n] == received[..n];
    } else {
      assert received[i := v][..n] == received[..n][i := v];
      CountUpdate(received[..n], i, v);
    }
  }

  /** A full count means every chunk is there, and only then. */
  lemma {:induction false} CountFull(received: seq<bool>)
    ensures Count(received) <= |received|
    ensures Count(received) == |received| <==> forall i :: 0 <= i < |received| ==> received[i]
  {
    if received != [] {
      var n := |received| - 1;
      CountFull(received[..n]);
      if forall i :: 0 <= i < n ==> received[..n][i] {
        assert forall i :: 0 <= i < n ==> received[i] == received[..n][i];
      } else {
        var i :| 0 <= i < n && !received[..n][i];
        assert !received[i];
      }
    }
  }

  /** The length of the leading stretch that has arrived completely. */
  ghost predicate IsPrefix(received: seq<bool>, n: nat) {
    n <= |received| && (forall i :: 0 <= i < n ==> received[i]) && (n < |received| ==> !received[n])
  }

  /** A maximal stretch of received chunks. */
  ghost predicate IsRun(received: seq<bool>, r: Range) {
    && 0 < r.count && r.first + r.count <= |received|
    && (forall i :: r.first <= i < r.first + r.count ==> received[i])
    && (r.first > 0 ==> !received[r.first - 1])
    && (r.first + r.count < |received| ==> !received[r.first + r.count])
  }

  predicate Covers(ranges: seq<Range>, i: nat) {
    exists k :: 0 <= k < |ranges| && ranges[k].first <= i < ranges[k].first + ranges[k].count
  }

  /** Distinct maximal runs, in order. */
  ghost predicate AreRuns(received: seq<bool>, ranges: seq<Range>) {
    && (forall k :: 0 <= k < |ranges| ==> IsRun(received, ranges[k]))
    && (forall j, k :: 0 <= j < k < |ranges| ==> ranges[j].first + ranges[j].count < ranges[k].first)
  }

  /** The acknowledgement for one chunk: complete runs only, the leading run first, then the chunk's own. */
  ghost predicate FocusedAck(received: seq<bool>, focus: nat, maximum: nat, ranges: seq<Range>) {
    && AreRuns(received, ranges) && |ranges| <= Min(maximum, 2)
    && (forall k :: 0 <= k < |ranges| ==> ranges[k].first == 0 || Covers([ranges[k]], focus))
    && (2 <= maximum && focus < |received| && received[focus] ==> Covers(ranges, focus))
    && (1 <= maximum && |received| > 0 && received[0] ==> Covers(ranges, 0))
  }

  /** The acknowledgement for a header: the first runs, all of them if they fit. */
  ghost predicate FullAck(received: seq<bool>, maximum: nat, ranges: seq<Range>) {
    && AreRuns(received, ranges) && |ranges| <= maximum
    && (forall i :: 0 <= i < |received| && received[i] && !Covers(ranges, i) ==>
          |ranges| == maximum && (maximum > 0 ==> ranges[maximum - 1].first < i))
  }

  /** What the acknowledgement encoder accepts: at most 32 nonempty, ordered ranges below the chunk limit. */
  predicate Encodable(ranges: seq<Range>) {
    && |ranges| <= ACK_MAX_RANGES
    && (forall k :: 0 <= k < |ranges| ==> ranges[k].count != 0 && ranges[k].first + ranges[k].count <= FileRules.MAX_CHUNKS)
    && (forall k :: 1 <= k < |ranges| ==> ranges[k - 1].first + ranges[k - 1].count <= ranges[k].first)
  }

  /** No acknowledgement is ever lost to the encoder. */
  lemma RunsAreEncodable(received: seq<bool>, ranges: seq<Range>)
    requires AreRuns(received, ranges) && |ranges| <= ACK_MAX_RANGES && |received| <= FileRules.MAX_CHUNKS
    ensures Encodable(ranges)
  {
    forall k | 0 <= k < |ranges| ensures ranges[k].count != 0 && ranges[k].first + ranges[k].count <= FileRules.MAX_CHUNKS {
      assert IsRun(received, ranges[k]);
    }
  }

  class FileChunkTracker {
    var received: seq<bool>
    var receivedCount: nat
    var contiguous: nat

    ghost predicate Valid()
      reads this
    {
      receivedCount == Count(received) && IsPrefix(received, contiguous)
    }

    constructor ()
      ensures Valid() && received == []
    {
      received, receivedCount, contiguous := [], 0, 0;
    }

    method Reset(totalChunks: nat) returns (ok: bool)
      modifies this
      ensures ok <==> 0 < totalChunks <= FileRules.MAX_CHUNKS
      ensures ok ==> Valid() && |received| == totalChunks && forall i :: 0 <= i < totalChunks ==> !received[i]
      ensures !ok ==> unchanged(this)
    {
      if totalChunks == 0 || totalChunks > FileRules.MAX_CHUNKS {
        return false;
      }
      received := seq(totalChunks, _ => false);
      receivedCount, contiguous := 0, 0;
      NoneCounted(received);
      return true;
    }

    method Record(index: nat) returns (receipt: Receipt)
      requires Valid()
      modifies this
      ensures Valid()
      ensures receipt == if index >= |old(received)| then OutOfRange
                         else if old(received)[index] then Duplicate else Accepted
      ensures received == if receipt.Accepted? then old(received)[index := true] else old(received)
    {
      if index >= |received| {
        return OutOfRange;
      }
      if received[index] {
        return Duplicate;
      }
      CountUpdate(received, index, true);
      received := received[index := true];
      receivedCount := receivedCount + 1;
      while contiguous < |received| && received[contiguous]
        modifies this`contiguous
        invariant contiguous <= |received|
        invariant forall i :: 0 <= i < contiguous ==> received[i]
      {
        contiguous := contiguous + 1;
      }
      return Accepted;
    }

    method Remove(index: nat) returns (removed: bool)
      requires Valid()
      modifies this
      ensures Valid()
      ensures removed <==> index < |old(received)| && old(received)[index]
      ensures received == if removed then old(received)[index := false] else old(received)
    {
      if index >= |received| || !received[index] {
        return false;
      }
      CountUpdate(received, index, false);
      received := received[index := false];
      receivedCount := receivedCount - 1;
      if index < contiguous {
        contiguous := 0;
        while contiguous < |received| && received[contiguous]
          modifies this`contiguous
          invariant contiguous <= |received|
          invariant forall i :: 0 <= i < contiguous ==> received[i]
        {
          contiguous := contiguous + 1;
        }
      }
      return true;
    }

    method Complete() returns (complete: bool)
      requires Valid()
      ensures complete <==> |received| > 0 && forall i :: 0 <= i < |received| ==> received[i]
    {
      CountFull(received);
      return |received| != 0 && receivedCount == |received|;
    }

    method AllRanges(maximum: nat) returns (ranges: seq<Range>)
      requires Valid()
      ensures FullAck(received, maximum, ranges)
    {
      ranges := [];
      if maximum == 0 {
        return;
      }
      if contiguous > 0 {
        ScanTakes(received, ranges, 0, contiguous);
        ranges := ranges + [Range(0, contiguous)];
      }
      var index := contiguous;
      while index < |received| && |ranges| < maximum
        invariant Scanned(received, ranges, index) && |ranges| <= maximum
      {
        var first := SkipMissing(index);
        ScanSkips(received, ranges, index, first);
        index := first;
        if index == |received| {
          break;
        }
        index := SkipReceived(first);
        ScanTakes(received, ranges, first, index);
        ranges := ranges + [Range(first, index - first)];
      }
      ScanEnds(received, ranges, index, maximum);
    }

    method SkipMissing(start: nat) returns (index: nat)
      requires start <= |received|
      ensures start <= index <= |received|
      ensures forall i :: start <= i < index ==> !received[i]
      ensures index < |received| ==> received[index]
    {
      index := start;
      while index < |received| && !received[index]
        invariant start <= index <= |received|
        invariant forall i :: start <= i < index ==> !received[i]
      {
        index := index + 1;
      }
    }

    method SkipReceived(start: nat) returns (index: nat)
      requires start <= |received|
      ensures start <= index <= |received|
      ensures forall i :: start <= i < index ==> received[i]
      ensures index < |received| ==> !received[index]
    {
      index := start;
      while index < |received| && received[index]
        invariant start <= index <= |received|
        invariant forall i :: start <= i < index ==> received[i]
      {
        index := index + 1;
      }
    }

    method RangesFor(focus: nat, maximum: nat) returns (ranges: seq<Range>)
      requires Valid()
      ensures FocusedAck(received, focus, maximum, ranges)
    {
      if maximum == 0 {
        return [];
      }
      ranges := Leading(contiguous);
      LeadingIsAck(received, contiguous, focus, maximum);
      if focus >= |received| || !received[focus] || focus < contiguous || |ranges| >= maximum {
        return;
      }
      var first := focus;
      while first > contiguous && received[first - 1]
        invariant contiguous <= first <= focus
        invariant forall i :: first <= i <= focus ==> received[i]
      {
        first := first - 1;
      }
      var end := SkipReceived(focus + 1);
      OwnRunIsAck(received, contiguous, focus, maximum, Range(first, end - first));
      ranges := ranges + [Range(first, end - first)];
    }
  }

  function Leading(contiguous: nat): seq<Range> {
    if contiguous > 0 then [Range(0, contiguous)] else []
  }

  lemma LeadingIsAck(received: seq<bool>, contiguous: nat, focus: nat, maximum: nat)
    requires IsPrefix(received, contiguous) && maximum > 0
    ensures AreRuns(received, Leading(contiguous))
    ensures focus < contiguous ==> Covers(Leading(contiguous), focus)
    ensures contiguous > 0 ==> Covers(Leading(contiguous), 0)
    ensures !(focus < |received| && received[focus] && contiguous <= focus && |Leading(contiguous)| < maximum)
            ==> FocusedAck(received, focus, maximum, Leading(contiguous))
  {
    if contiguous > 0 {
      assert Leading(contiguous)[0] == Range(0, contiguous);
    }
  }

  lemma OwnRunIsAck(received: seq<bool>, contiguous: nat, focus: nat, maximum: nat, own: Range)
    requires IsPrefix(received, contiguous) && IsRun(received, own) && own.first <= focus < own.first + own.count
    requires contiguous <= own.first && |Leading(contiguous)| < maximum
    ensures FocusedAck(received, focus, maximum, Leading(contiguous) + [own])
  {
    LeadingIsAck(received, contiguous, focus, maximum);
    assert contiguous > 0 ==> contiguous < own.first;
    RunsExtended(received, Leading(contiguous), own);
    CoversExtended(Leading(contiguous), own);
    assert [own][0] == own;
  }

  lemma RunsExtended(received: seq<bool>, ranges: seq<Range>, r: Range)
    requires AreRuns(received, ranges) && IsRun(received, r)
    requires forall k :: 0 <= k < |ranges| ==> ranges[k].first + ranges[k].count < r.first
    ensures AreRuns(received, ranges + [r])
  {
  }

  /** The ranges hold exactly the received chunks below `index`, in complete runs. */
  ghost predicate Scanned(received: seq<bool>, ranges: seq<Range>, index: nat) {
    && index <= |received|
    && AreRuns(received, ranges)
    && (forall k :: 0 <= k < |ranges| ==> ranges[k].first + ranges[k].count <= index)
    && (0 < index < |received| && received[index - 1] ==> !received[index])
    && (forall i :: 0 <= i < index && received[i] ==> Covers(ranges, i))
  }

  lemma ScanSkips(received: seq<bool>, ranges: seq<Range>, index: nat, first: nat)
    requires Scanned(received, ranges, index) && index <= first <= |received|
    requires forall i :: index <= i < first ==> !received[i]
    ensures Scanned(received, ranges, first)
  {
  }

  lemma ScanTakes(received: seq<bool>, ranges: seq<Range>, first: nat, end: nat)
    requires Scanned(received, ranges, first) && first < end <= |received|
    requires (forall i :: first <= i < end ==> received[i]) && (end < |received| ==> !received[end])
    ensures Scanned(received, ranges + [Range(first, end - first)], end)
  {
    assert first > 0 ==> !received[first - 1];
    forall k | 0 <= k < |ranges| ensures ranges[k].first + ranges[k].count < first {
      assert IsRun(received, ranges[k]);
    }
    RunsExtended(received, ranges, Range(first, end - first));
    CoversExtended(ranges, Range(first, end - first));
  }

  lemma ScanEnds(received: seq<bool>, ranges: seq<Range>, index: nat, maximum: nat)
    requires Scanned(received, ranges, index) && |ranges| <= maximum
    requires index == |received| || |ranges| == maximum
    ensures FullAck(received, maximum, ranges)
  {
    forall i | 0 <= i < |received| && received[i] && !Covers(ranges, i)
      ensures |ranges| == maximum && (maximum > 0 ==> ranges[maximum - 1].first < i)
    {
      assert i >= index;
      if maximum > 0 {
        assert IsRun(received, ranges[maximum - 1]);
      }
    }
  }

  lemma CoversExtended(ranges: seq<Range>, r: Range)
    ensures forall i: nat :: Covers(ranges, i) ==> Covers(ranges + [r], i)
    ensures forall i: nat :: r.first <= i < r.first + r.count ==> Covers(ranges + [r], i)
  {
    var more := ranges + [r];
    forall i: nat | Covers(ranges, i) ensures Covers(more, i) {
      var k :| 0 <= k < |ranges| && ranges[k].first <= i < ranges[k].first + ranges[k].count;
      assert more[k] == ranges[k];
    }
    assert more[|ranges|] == r;
  }

  lemma {:induction false} NoneCounted(received: seq<bool>)
    requires forall i :: 0 <= i < |received| ==> !received[i]
    ensures Count(received) == 0
  {
    if received != [] {
      NoneCounted(received[..|received| - 1]);
    }
  }
}
