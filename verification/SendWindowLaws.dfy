/** What a poll and an acknowledgement do, stated in the fields of the window: when frames are sent, sent again or given up. */
module SendWindowLaws {
  import opened Basics
  import opened ChunkTracker
  import opened SendWindow

  /** The transfer is under way. */
  predicate Live(w: Window) {
    !w.failed && w.total != 0 && w.ackedCount != w.total
  }

  /** A window that has failed, is complete or was never started does nothing. */
  lemma IdlePoll(c: Config, w: Window, now: Time, r: Window, action: Action)
    requires !Live(w) && PollStep(c, w, now, r, action)
    ensures r == w && !action.sendHeader && action.chunks == []
  {
  }

  /**
   Until the header is acknowledged a poll sends it if it was never sent, or is overdue with a retry left; it gives up
   exactly when it is overdue and out of retries; and it sends no chunk.
   */
  lemma HeaderPollExact(c: Config, w: Window, now: Time, r: Window, action: Action)
    requires Live(w) && !w.headerReceived && PollStep(c, w, now, r, action)
    ensures action.sendHeader <==> !w.headerSent || (now - w.headerSentAt >= w.rto && w.headerRetransmissions < c.retryLimit)
    ensures r.failed <==> w.headerSent && now - w.headerSentAt >= w.rto && w.headerRetransmissions >= c.retryLimit
    ensures action.chunks == []
    ensures action.sendHeader ==>
      r == w.(headerSent := true, headerSentAt := now, headerRetransmissions := w.headerRetransmissions + if w.headerSent then 1 else 0)
    ensures !action.sendHeader ==> r == w.(failed := r.failed)
  {
  }

  predicate Overdue(w: Window, k: nat, now: Time) {
    k in w.inFlight && now - w.inFlight[k].sentAt >= w.rto
  }

  /** With the header acknowledged a poll fails exactly when an overdue chunk is out of retries. */
  lemma ChunkPollFails(c: Config, w: Window, now: Time, r: Window, action: Action)
    requires Inv(c, w) && Live(w) && w.headerReceived && PollStep(c, w, now, r, action)
    ensures r.failed <==> exists k :: Overdue(w, k, now) && w.inFlight[k].retransmissions >= c.retryLimit
    ensures r.failed ==> action.chunks == []
    ensures !action.sendHeader && r.acked == w.acked && r.ackedCount == w.ackedCount && r.rto == w.rto && r.headerReceived
  {
    var resent :| PollChunks(c, w, now, resent, r, action);
    if k :| k in w.inFlight && Due(w.inFlight[k], now, w.rto) && w.inFlight[k].retransmissions >= c.retryLimit {
      assert Overdue(w, k, now);
    }
  }

  /** Otherwise every overdue chunk is sent again and counted, and every other chunk in flight is left alone. */
  lemma ChunkPollResends(c: Config, w: Window, now: Time, r: Window, action: Action, k: nat)
    requires Inv(c, w) && Live(w) && w.headerReceived && PollStep(c, w, now, r, action) && !r.failed && k in w.inFlight
    ensures k in action.chunks <==> now - w.inFlight[k].sentAt >= w.rto
    ensures k in r.inFlight
    ensures r.inFlight[k] == if now - w.inFlight[k].sentAt >= w.rto then InFlight(now, w.inFlight[k].retransmissions + 1) else w.inFlight[k]
  {
    var resent :| PollChunks(c, w, now, resent, r, action);
    ChunkPollMeets(c, w, now, resent, r, action);
    var bumped := Bumped(w.inFlight, now, w.rto);
    assert k in bumped && r.inFlight[k] == bumped[k];
  }

  /** New chunks are sent in order, none skipped that is not acknowledged, until the window is full or the file is through. */
  lemma ChunkPollFills(c: Config, w: Window, now: Time, r: Window, action: Action)
    requires Inv(c, w) && Live(w) && w.headerReceived && PollStep(c, w, now, r, action) && !r.failed
    ensures w.next <= r.next <= w.total && |r.inFlight| <= c.size && (r.next == w.total || |r.inFlight| == c.size)
    ensures forall k: nat :: k !in w.inFlight ==>
      (k in action.chunks <==> w.next <= k < r.next && !w.acked[k]) && (k in r.inFlight <==> k in action.chunks)
    ensures forall k: nat :: k !in w.inFlight && k in action.chunks ==> r.inFlight[k] == InFlight(now, 0)
    ensures forall i, j :: 0 <= i < j < |action.chunks| ==> action.chunks[i] < action.chunks[j]
  {
    var resent :| PollChunks(c, w, now, resent, r, action);
    ChunkPollMeets(c, w, now, resent, r, action);
    var bumped := Bumped(w.inFlight, now, w.rto);
    assert bumped.Keys == w.inFlight.Keys;
    forall k: nat | k !in w.inFlight ensures k !in bumped && k !in DueChunks(w.inFlight, now, w.rto) {
    }
  }

  /** Nothing gets stuck: once everything outstanding is overdue, a poll sends something or gives up. */
  lemma PollActs(c: Config, w: Window, now: Time, r: Window, action: Action)
    requires Inv(c, w) && Live(w) && PollStep(c, w, now, r, action)
    requires now - w.headerSentAt >= w.rto && forall k :: k in w.inFlight ==> now - w.inFlight[k].sentAt >= w.rto
    ensures r.failed || action.sendHeader || action.chunks != []
  {
    if w.headerReceived && !r.failed {
      ChunkPollFails(c, w, now, r, action);
      ChunkPollFills(c, w, now, r, action);
      if k :| k in w.inFlight {
        ChunkPollResends(c, w, now, r, action, k);
      } else {
        NothingInFlight(c, w);
      }
    }
  }

  /** With nothing in flight and the transfer incomplete, a chunk that is not acknowledged is still to come. */
  lemma NothingInFlight(c: Config, w: Window)
    requires Inv(c, w) && Live(w) && forall k :: k !in w.inFlight
    ensures exists k: nat :: w.next <= k < w.total && !w.acked[k]
  {
    if forall k: nat :: w.next <= k < w.total ==> w.acked[k] {
      forall k | 0 <= k < w.total ensures w.acked[k] {
      }
      CountFull(w.acked);
    }
  }

  /** An acknowledgement marks exactly what it covers, takes that out of flight, and leaves everything else in place. */
  lemma AckExact(c: Config, w: Window, ack: Ack, now: Time, r: Window)
    requires Inv(c, w) && !w.failed && AckStep(c, w, ack, now, r)
    ensures r.headerReceived <==> w.headerReceived || ack.headerReceived
    ensures |r.acked| == w.total && forall i :: 0 <= i < w.total ==> (r.acked[i] <==> w.acked[i] || InSomeRange(ack.ranges, i))
    ensures forall k: nat :: k in r.inFlight <==> k in w.inFlight && !InSomeRange(ack.ranges, k)
    ensures forall k: nat :: k in r.inFlight ==> r.inFlight[k] == w.inFlight[k]
    ensures r.ackedCount == r.total <==> forall i :: 0 <= i < w.total ==> w.acked[i] || InSomeRange(ack.ranges, i)
    ensures !r.failed && r.next == w.next && r.headerSent == w.headerSent
  {
    CountFull(r.acked);
  }

  ghost predicate InSomeRange(ranges: seq<Range>, i: nat) {
    exists j :: 0 <= j < |ranges| && ranges[j].first <= i && i - ranges[j].first < ranges[j].count
  }
}
