/** The sender's window as the program keeps it: counters, a bit per chunk, and a map of chunks in flight. */
module FileSendWindows {
  import opened Basics
  import FileRules
  import opened ChunkTracker
  import opened SendWindow

  class FileSendWindow {
    const config: Config
    var totalChunks: nat
    var nextChunk: nat
    var acknowledgedCount: nat
    var headerSent: bool
    var headerReceived: bool
    var failed: bool
    var headerRetransmissions: nat
    var headerSentAt: Time
    var rto: int
    var inFlight: map<nat, InFlight>
    var acknowledged: seq<bool>

    ghost function View(): Window
      reads this
    {
      Window(totalChunks, nextChunk, acknowledgedCount, headerSent, headerReceived, failed,
             headerRetransmissions, headerSentAt, rto, inFlight, acknowledged)
    }

    ghost predicate Valid()
      reads this
    {
      Inv(config, View())
    }

    constructor (config: Config)
      ensures this.config == config && totalChunks == 0
    {
      this.config := config;
      totalChunks, nextChunk, acknowledgedCount := 0, 0, 0;
      headerSent, headerReceived, failed, headerRetransmissions, headerSentAt := false, false, false, 0, 0;
      rto := config.initialRto;
      inFlight, acknowledged := map[], [];
    }

    method Reset(total: nat, now: Time) returns (ok: bool)
      modifies this
      ensures ok <==> Startable(config, total)
      ensures ok ==> View() == Initial(config, total, now) && Valid()
      ensures !ok ==> unchanged(this)
    {
      if total == 0 || total > FileRules.MAX_CHUNKS || config.size == 0 || config.retryLimit == 0 || config.minimumRto <= 0
         || config.initialRto < config.minimumRto || config.initialRto > config.maximumRto
      {
        return false;
      }
      totalChunks, nextChunk, acknowledgedCount := total, 0, 0;
      headerSent, headerReceived, failed, headerRetransmissions, headerSentAt := false, false, false, 0, now;
      rto := config.initialRto;
      inFlight, acknowledged := map[], seq(total, _ => false);
      InitialInv(config, total, now);
      return true;
    }

    method Poll(now: Time) returns (action: Action)
      requires Valid()
      modifies this
      ensures PollStep(config, old(View()), now, View(), action)
      ensures Valid()
    {
      ghost var before := View();
      action := NOTHING;
      if failed || acknowledgedCount == totalChunks || totalChunks == 0 {
        return;
      }
      if !headerReceived {
        action := SendHeaderIfDue(now);
      } else {
        var ok, resent := ResendDue(now);
        if !ok {
          failed := true;
        } else {
          var chunks := FillWindow(now, resent);
          action := Action(false, chunks);
        }
        assert PollChunks(config, before, now, resent, View(), action);
      }
      PollKeepsInv(config, before, now, View(), action);
    }

    method SendHeaderIfDue(now: Time) returns (action: Action)
      modifies this`failed, this`headerSent, this`headerSentAt, this`headerRetransmissions
      ensures (View(), action) == PollHeader(config, old(View()), now)
    {
      if headerSent && now - headerSentAt < rto {
        return NOTHING;
      }
      if headerSent {
        if headerRetransmissions >= config.retryLimit {
          failed := true;
          return NOTHING;
        }
        headerRetransmissions := headerRetransmissions + 1;
      }
      headerSent, headerSentAt := true, now;
      return Action(true, []);
    }

    /** Walks the chunks in flight in ascending order, stopping at the first that ran out of retries. */
    method ResendDue(now: Time) returns (ok: bool, chunks: seq<nat>)
      requires Placed(acknowledged, nextChunk, inFlight)
      modifies this`inFlight
      ensures ok <==> !Exhausted(config, old(View()), now)
      ensures inFlight.Keys == old(inFlight).Keys
      ensures ok ==> inFlight == Bumped(old(inFlight), now, rto)
      ensures ok ==> Lists(chunks, DueChunks(old(inFlight), now, rto), nextChunk)
    {
      chunks := [];
      ghost var start := inFlight;
      ghost var due: set<nat> := {};
      for k := 0 to nextChunk
        invariant inFlight.Keys == start.Keys
        invariant forall j :: j in start ==> inFlight[j] == if j < k then Resent(start[j], now, rto) else start[j]
        invariant forall j :: j in start && j < k && Due(start[j], now, rto) ==> start[j].retransmissions < config.retryLimit
        invariant Lists(chunks, due, k)
        invariant forall j :: j in due <==> j in start && j < k && Due(start[j], now, rto)
      {
        if k in inFlight && Due(inFlight[k], now, rto) {
          if inFlight[k].retransmissions >= config.retryLimit {
            return false, [];
          }
          inFlight := inFlight[k := InFlight(now, inFlight[k].retransmissions + 1)];
          ListsOneMore(chunks, due, k, k + 1);
          chunks, due := chunks + [k], due + {k};
        }
      }
      assert due == DueChunks(start, now, rto);
      return true, chunks;
    }

    method FillWindow(now: Time, resent: seq<nat>) returns (chunks: seq<nat>)
      modifies this`inFlight, this`nextChunk
      ensures Filling(inFlight, nextChunk, chunks)
              == Fill(acknowledged, Filling(old(inFlight), old(nextChunk), resent), config.size, now)
    {
      chunks := resent;
      ghost var start := Filling(inFlight, nextChunk, chunks);
      while |inFlight| < config.size && nextChunk < |acknowledged|
        invariant Fill(acknowledged, Filling(inFlight, nextChunk, chunks), config.size, now)
               == Fill(acknowledged, start, config.size, now)
        decreases |acknowledged| - nextChunk
      {
        if !acknowledged[nextChunk] {
          inFlight := inFlight[nextChunk := InFlight(now, 0)];
          chunks := chunks + [nextChunk];
        }
        nextChunk := nextChunk + 1;
      }
    }

    method Acknowledge(ack: Ack, now: Time)
      requires Valid()
      modifies this
      ensures AckStep(config, old(View()), ack, now, View())
      ensures Valid()
    {
      ghost var before := View();
      if failed || totalChunks == 0 {
        return;
      }
      AcknowledgeHeader(ack.headerReceived, now);
      ghost var rto0 := rto;
      AcknowledgeRanges(ack.ranges, now);
      AckStepFromParts(config, before, ack, now, rto0, View());
      AckKeepsInv(config, before, ack, now, View());
    }

    method AcknowledgeHeader(received: bool, now: Time)
      modifies this`headerReceived, this`rto
      ensures headerReceived == (old(headerReceived) || received)
      ensures rto == if received && !old(headerReceived) && headerSent && headerRetransmissions == 0
                     then Clamp(config, now - headerSentAt) else old(rto)
    {
      if received && !headerReceived {
        if headerSent && headerRetransmissions == 0 {
          ObserveRtt(now - headerSentAt);
        }
        headerReceived := true;
      }
    }

    /** Doubles the sample and clamps it between the configured bounds. */
    method ObserveRtt(sample: int)
      modifies this`rto
      ensures rto == Clamp(config, sample)
    {
      var measured := sample * 2;
      if measured < config.minimumRto {
        measured := config.minimumRto;
      }
      if measured > config.maximumRto {
        measured := config.maximumRto;
      }
      rto := measured;
    }

    method AcknowledgeRanges(ranges: seq<Range>, now: Time)
      requires acknowledgedCount == Count(acknowledged) && Pending(acknowledged, inFlight)
      modifies this`acknowledged, this`acknowledgedCount, this`inFlight, this`rto
      ensures Settled(old(acknowledged), old(inFlight), ranges, acknowledged, inFlight)
      ensures acknowledgedCount == Count(acknowledged)
      ensures rto == RangesTimeout(config, old(inFlight), ranges, now, old(rto))
    {
      ghost var acked0, inFlight0, rto0 := acknowledged, inFlight, rto;
      SettledByNone(acked0, inFlight0);
      for k := 0 to |ranges|
        invariant acknowledgedCount == Count(acknowledged) && Pending(acknowledged, inFlight)
        invariant Settled(acked0, inFlight0, ranges[..k], acknowledged, inFlight)
        invariant rto == RangesTimeout(config, inFlight0, ranges[..k], now, rto0)
      {
        ghost var a, f := acknowledged, inFlight;
        AcknowledgeRange(ranges[k], now, inFlight0, ranges[..k]);
        SettledOneMore(acked0, inFlight0, ranges[..k], ranges[k], a, f, acknowledged, inFlight);
        assert ranges[..k + 1] == ranges[..k] + [ranges[k]];
      }
      assert ranges[..|ranges|] == ranges;
    }

    /** Counts the chunk once; a first transmission also gives a round-trip sample. */
    method AcknowledgeChunk(index: nat, now: Time)
      requires acknowledgedCount == Count(acknowledged) && index < |acknowledged| && Pending(acknowledged, inFlight)
      modifies this`acknowledged, this`acknowledgedCount, this`inFlight, this`rto
      ensures acknowledgedCount == Count(acknowledged) && Pending(acknowledged, inFlight)
      ensures ChunkSettled(config, index, now, old(acknowledged), old(inFlight), old(rto), acknowledged, inFlight, rto)
    {
      if !acknowledged[index] {
        if index in inFlight && inFlight[index].retransmissions == 0 {
          ObserveRtt(now - inFlight[index].sentAt);
        }
        CountUpdate(acknowledged, index, true);
        acknowledged := acknowledged[index := true];
        acknowledgedCount := acknowledgedCount + 1;
        inFlight := inFlight - {index};
      }
    }

    method AcknowledgeRange(range: Range, now: Time, ghost inFlight0: map<nat, InFlight>, ghost earlier: seq<Range>)
      requires acknowledgedCount == Count(acknowledged) && Pending(acknowledged, inFlight) && inFlight == Unacked(inFlight0, earlier)
      modifies this`acknowledged, this`acknowledgedCount, this`inFlight, this`rto
      ensures Settled(old(acknowledged), old(inFlight), [range], acknowledged, inFlight)
      ensures acknowledgedCount == Count(acknowledged) && Pending(acknowledged, inFlight)
      ensures rto == ChunksTimeout(config, inFlight0, earlier, range.first, range.first + range.count, now, old(rto))
    {
      ghost var acked0, begun, rto0 := acknowledged, inFlight, rto;
      var end := Min(range.first + range.count, |acknowledged|);
      var index := range.first;
      SettledByNothing(acked0, begun, range);
      while index < end
        invariant range.first <= index && (index <= end || index == range.first)
        invariant acknowledgedCount == Count(acknowledged) && Pending(acknowledged, inFlight)
        invariant Settled(acked0, begun, [Range(range.first, index - range.first)], acknowledged, inFlight)
        invariant rto == ChunksTimeout(config, inFlight0, earlier, range.first, index, now, rto0)
      {
        ghost var a, f, t := acknowledged, inFlight, rto;
        AcknowledgeChunk(index, now);
        ChunkThenNext(config, acked0, begun, range.first, index, now, a, f, t, acknowledged, inFlight, rto);
        TimeoutThenNext(config, inFlight0, earlier, range.first, index, now, rto0, a, f, t, acknowledged, inFlight, rto);
        index := index + 1;
      }
      TimeoutRest(config, inFlight0, earlier, range, index, now, rto0, acked0, begun);
      SettledRest(acked0, begun, range, index, acknowledged, inFlight);
    }
  }

  /** A chunk of this range not reached yet is in flight unless an earlier range acknowledged it. */
  lemma StillInFlight(inFlight0: map<nat, InFlight>, earlier: seq<Range>, first: nat, index: nat, inFlight: map<nat, InFlight>)
    requires first <= index && inFlight == Unacked(Unacked(inFlight0, earlier), [Range(first, index - first)])
    ensures Sampled(inFlight0, earlier, index) <==> index in inFlight && inFlight[index].retransmissions == 0
    ensures index in inFlight ==> inFlight[index] == inFlight0[index]
  {
    OneIndex(first, index, index);
  }

  lemma AckStepFromParts(c: Config, w: Window, ack: Ack, now: Time, rto0: int, r: Window)
    requires !w.failed && w.total != 0
    requires r == w.(headerReceived := w.headerReceived || ack.headerReceived, acked := r.acked, ackedCount := Count(r.acked),
                     inFlight := r.inFlight, rto := RangesTimeout(c, w.inFlight, ack.ranges, now, rto0))
    requires Settled(w.acked, w.inFlight, ack.ranges, r.acked, r.inFlight)
    requires rto0 == if ack.headerReceived && !w.headerReceived && w.headerSent && w.headerRetransmissions == 0
                     then Clamp(c, now - w.headerSentAt) else w.rto
    ensures AckStep(c, w, ack, now, r)
  {
  }

  /** Only unacknowledged chunks are in flight. */
  ghost predicate Pending(acked: seq<bool>, inFlight: map<nat, InFlight>) {
    forall k :: k in inFlight ==> k < |acked| && !acked[k]
  }

  /** The effect of acknowledging the ranges on the bits and the chunks in flight. */
  ghost predicate Settled(acked: seq<bool>, inFlight: map<nat, InFlight>, ranges: seq<Range>, acked': seq<bool>, inFlight': map<nat, InFlight>) {
    NowAcked(acked, ranges, acked') && inFlight' == Unacked(inFlight, ranges)
  }

  lemma SettledByNone(acked: seq<bool>, inFlight: map<nat, InFlight>)
    ensures Settled(acked, inFlight, [], acked, inFlight)
  {
  }

  lemma SettledByNothing(acked: seq<bool>, inFlight: map<nat, InFlight>, range: Range)
    ensures Settled(acked, inFlight, [Range(range.first, 0)], acked, inFlight)
  {
    assert forall i: nat :: !Covers([Range(range.first, 0)], i);
  }

  lemma CoversJoined(ranges: seq<Range>, r: Range, i: nat)
    ensures Covers(ranges + [r], i) <==> Covers(ranges, i) || Covers([r], i)
  {
    CoversExtended(ranges, r);
    if Covers([r], i) {
      assert [r][0].first <= i < [r][0].first + [r][0].count;
    }
    if Covers(ranges + [r], i) && !Covers(ranges, i) {
      var k :| 0 <= k <= |ranges| && (ranges + [r])[k].first <= i < (ranges + [r])[k].first + (ranges + [r])[k].count;
      assert k == |ranges|;
      assert [r][0] == r;
    }
  }

  lemma SettledOneMore(acked0: seq<bool>, inFlight0: map<nat, InFlight>, ranges: seq<Range>, r: Range,
                       acked1: seq<bool>, inFlight1: map<nat, InFlight>, acked2: seq<bool>, inFlight2: map<nat, InFlight>)
    requires Settled(acked0, inFlight0, ranges, acked1, inFlight1) && Settled(acked1, inFlight1, [r], acked2, inFlight2)
    ensures Settled(acked0, inFlight0, ranges + [r], acked2, inFlight2)
  {
    forall i: nat ensures Covers(ranges + [r], i) <==> Covers(ranges, i) || Covers([r], i) {
      CoversJoined(ranges, r, i);
    }
  }

  lemma OneIndex(first: nat, index: nat, i: nat)
    requires first <= index
    ensures Covers([Range(first, index - first)], i) <==> first <= i < index
  {
    var ranges := [Range(first, index - first)];
    assert ranges[0] == Range(first, index - first);
  }

  /** The effect of acknowledging one chunk; one acknowledged before changes nothing. */
  ghost predicate ChunkSettled(
    c: Config, index: nat, now: Time, acked: seq<bool>, inFlight: map<nat, InFlight>, rto: int,
    acked': seq<bool>, inFlight': map<nat, InFlight>, rto': int)
    requires index < |acked|
  {
    if acked[index] then acked' == acked && inFlight' == inFlight && rto' == rto
    else
      && acked' == acked[index := true] && inFlight' == inFlight - {index}
      && rto' == if index in inFlight && inFlight[index].retransmissions == 0
                 then Clamp(c, now - inFlight[index].sentAt) else rto
  }

  lemma ChunkThenNext(c: Config, acked0: seq<bool>, begun: map<nat, InFlight>, first: nat, index: nat, now: Time,
                      acked1: seq<bool>, inFlight1: map<nat, InFlight>, rto1: int, acked2: seq<bool>, inFlight2: map<nat, InFlight>, rto2: int)
    requires first <= index < |acked1| && Pending(acked1, inFlight1)
    requires Settled(acked0, begun, [Range(first, index - first)], acked1, inFlight1)
    requires ChunkSettled(c, index, now, acked1, inFlight1, rto1, acked2, inFlight2, rto2)
    ensures Settled(acked0, begun, [Range(first, index + 1 - first)], acked2, inFlight2)
  {
    SettledNextIndex(acked0, begun, first, index, acked1, inFlight1, acked2, inFlight2);
  }

  lemma TimeoutThenNext(c: Config, inFlight0: map<nat, InFlight>, earlier: seq<Range>, first: nat, index: nat, now: Time, rto0: int,
                        acked1: seq<bool>, inFlight1: map<nat, InFlight>, rto1: int, acked2: seq<bool>, inFlight2: map<nat, InFlight>, rto2: int)
    requires first <= index < |acked1| && Pending(acked1, inFlight1)
    requires inFlight1 == Unacked(Unacked(inFlight0, earlier), [Range(first, index - first)])
    requires rto1 == ChunksTimeout(c, inFlight0, earlier, first, index, now, rto0)
    requires ChunkSettled(c, index, now, acked1, inFlight1, rto1, acked2, inFlight2, rto2)
    ensures rto2 == ChunksTimeout(c, inFlight0, earlier, first, index + 1, now, rto0)
  {
    StillInFlight(inFlight0, earlier, first, index, inFlight1);
  }

  lemma TimeoutRest(c: Config, inFlight0: map<nat, InFlight>, earlier: seq<Range>, range: Range, index: nat, now: Time, rto0: int,
                    acked0: seq<bool>, begun: map<nat, InFlight>)
    requires range.first <= index <= range.first + range.count && index >= Min(range.first + range.count, |acked0|)
    requires Pending(acked0, begun) && begun == Unacked(inFlight0, earlier)
    ensures ChunksTimeout(c, inFlight0, earlier, range.first, range.first + range.count, now, rto0) ==
            ChunksTimeout(c, inFlight0, earlier, range.first, index, now, rto0)
  {
    forall k: nat | index <= k < range.first + range.count ensures !Sampled(inFlight0, earlier, k) {
      assert k in begun ==> k < |acked0|;
    }
    NoneSampled(c, inFlight0, earlier, range.first, index, range.first + range.count, now, rto0);
  }

  lemma SettledNextIndex(acked0: seq<bool>, inFlight0: map<nat, InFlight>, first: nat, index: nat,
                         acked1: seq<bool>, inFlight1: map<nat, InFlight>, acked2: seq<bool>, inFlight2: map<nat, InFlight>)
    requires first <= index < |acked1| && Pending(acked1, inFlight1)
    requires Settled(acked0, inFlight0, [Range(first, index - first)], acked1, inFlight1)
    requires acked2 == acked1[index := true] && inFlight2 == inFlight1 - {index}
    ensures Settled(acked0, inFlight0, [Range(first, index + 1 - first)], acked2, inFlight2)
  {
    var upTo, through := [Range(first, index - first)], [Range(first, index + 1 - first)];
    forall i: nat ensures Covers(upTo, i) <==> first <= i < index {
      OneIndex(first, index, i);
    }
    forall i: nat ensures Covers(through, i) <==> first <= i <= index {
      OneIndex(first, index + 1, i);
    }
  }

  /** Indices past the last chunk acknowledge nothing. */
  lemma SettledRest(acked0: seq<bool>, inFlight0: map<nat, InFlight>, range: Range, index: nat, acked: seq<bool>, inFlight: map<nat, InFlight>)
    requires range.first <= index && Pending(acked0, inFlight0)
    requires index >= Min(range.first + range.count, |acked0|) && (index <= range.first + range.count)
    requires Settled(acked0, inFlight0, [Range(range.first, index - range.first)], acked, inFlight)
    ensures Settled(acked0, inFlight0, [range], acked, inFlight)
  {
    assert range == Range(range.first, range.first + range.count - range.first);
    forall i: nat | i < |acked0|
      ensures Covers([range], i) <==> Covers([Range(range.first, index - range.first)], i)
    {
      OneIndex(range.first, index, i);
      OneIndex(range.first, range.first + range.count, i);
    }
  }
}
