/** The sender's sliding window: which chunks to send, resend and give up on. Times are in milliseconds. */
module SendWindow {
  import opened Basics
  import FileRules
  import opened ChunkTracker

  datatype Config = Config(size: nat, retryLimit: nat, initialRto: int, minimumRto: int, maximumRto: int)

  datatype InFlight = InFlight(sentAt: Time, retransmissions: nat)

  datatype Window = Window(
    total: nat, next: nat, ackedCount: nat, headerSent: bool, headerReceived: bool, failed: bool,
    headerRetransmissions: nat, headerSentAt: Time, rto: int, inFlight: map<nat, InFlight>, acked: seq<bool>)

  datatype Action = Action(sendHeader: bool, chunks: seq<nat>)

  datatype Ack = Ack(headerReceived: bool, ranges: seq<Range>)

  const NOTHING := Action(false, [])

  predicate Complete(w: Window) {
    w.total != 0 && w.ackedCount == w.total
  }

  predicate Startable(c: Config, total: nat) {
    && 0 < total <= FileRules.MAX_CHUNKS && c.size != 0 && c.retryLimit != 0
    && 0 < c.minimumRto <= c.initialRto <= c.maximumRto
  }

  function Initial(c: Config, total: nat, now: Time): Window {
    Window(total, 0, 0, false, false, false, 0, now, c.initialRto, map[], seq(total, _ => false))
  }

  // ---------- polling ----------

  predicate Due(f: InFlight, now: Time, rto: int) {
    now - f.sentAt >= rto
  }

  function DueChunks(inFlight: map<nat, InFlight>, now: Time, rto: int): set<nat> {
    set k | k in inFlight && Due(inFlight[k], now, rto)
  }

  predicate Exhausted(c: Config, w: Window, now: Time) {
    exists k :: k in w.inFlight && Due(w.inFlight[k], now, w.rto) && w.inFlight[k].retransmissions >= c.retryLimit
  }

  function Resent(f: InFlight, now: Time, rto: int): InFlight {
    if Due(f, now, rto) then InFlight(now, f.retransmissions + 1) else f
  }

  /** Every overdue chunk resent once. */
  function Bumped(inFlight: map<nat, InFlight>, now: Time, rto: int): map<nat, InFlight> {
    map k | k in inFlight :: Resent(inFlight[k], now, rto)
  }

  /** A window being filled: what is in flight, the next chunk to consider, the chunks to send. */
  datatype Filling = Filling(inFlight: map<nat, InFlight>, next: nat, chunks: seq<nat>)

  /** New chunks, in order and skipping acknowledged ones, while the window has room. */
  function Fill(acked: seq<bool>, f: Filling, size: nat, now: Time): Filling
    decreases |acked| - f.next
  {
    if |f.inFlight| < size && f.next < |acked| then
      if acked[f.next] then Fill(acked, f.(next := f.next + 1), size, now)
      else Fill(acked, Filling(f.inFlight[f.next := InFlight(now, 0)], f.next + 1, f.chunks + [f.next]), size, now)
    else f
  }

  predicate Ascending(s: seq<nat>) {
    forall i, j :: 0 <= i < j < |s| ==> s[i] < s[j]
  }

  /** An ascending list of exactly these chunks, all below a bound. */
  ghost predicate Lists(chunks: seq<nat>, members: set<nat>, below: nat) {
    Ascending(chunks) && (forall k :: k in chunks <==> k in members) && forall k :: k in members ==> k < below
  }

  lemma ListsOneMore(chunks: seq<nat>, members: set<nat>, k: nat, below: nat)
    requires Lists(chunks, members, k) && k < below
    ensures Lists(chunks + [k], members + {k}, below)
  {
    assert forall i :: 0 <= i < |chunks| ==> chunks[i] in chunks;
  }

  function PollHeader(c: Config, w: Window, now: Time): (Window, Action) {
    if w.headerSent && now - w.headerSentAt < w.rto then (w, NOTHING)
    else if w.headerSent && w.headerRetransmissions >= c.retryLimit then (w.(failed := true), NOTHING)
    else
      var again := if w.headerSent then w.headerRetransmissions + 1 else w.headerRetransmissions;
      (w.(headerSent := true, headerSentAt := now, headerRetransmissions := again), Action(true, []))
  }

  /** `resent` lists the overdue chunks. */
  ghost predicate PollChunks(c: Config, w: Window, now: Time, resent: seq<nat>, r: Window, action: Action) {
    if Exhausted(c, w, now) then
      r == w.(failed := true, inFlight := r.inFlight) && r.inFlight.Keys == w.inFlight.Keys && action == NOTHING
    else
      var filled := Fill(w.acked, Filling(Bumped(w.inFlight, now, w.rto), w.next, resent), c.size, now);
      && Lists(resent, DueChunks(w.inFlight, now, w.rto), w.next)
      && r == w.(inFlight := filled.inFlight, next := filled.next)
      && action == Action(false, filled.chunks)
  }

  ghost predicate PollStep(c: Config, w: Window, now: Time, r: Window, action: Action) {
    if w.failed || Complete(w) || w.total == 0 then r == w && action == NOTHING
    else if !w.headerReceived then (r, action) == PollHeader(c, w, now)
    else exists resent :: PollChunks(c, w, now, resent, r, action)
  }

  // ---------- acknowledging ----------

  function Clamp(c: Config, rtt: int): int {
    Min(Max(2 * rtt, c.minimumRto), c.maximumRto)
  }

  /** The chunk gives a round-trip sample: it was sent once, and no earlier range acknowledged it. */
  predicate Sampled(inFlight: map<nat, InFlight>, earlier: seq<Range>, k: nat) {
    k in inFlight && inFlight[k].retransmissions == 0 && !Covers(earlier, k)
  }

  /** The timeout once the chunks from `first` up to `end` are acknowledged in order: the last sample decides. */
  function ChunksTimeout(c: Config, inFlight: map<nat, InFlight>, earlier: seq<Range>, first: nat, end: nat, now: Time, rto: int): int
    decreases end
  {
    if end <= first then rto
    else if Sampled(inFlight, earlier, end - 1) then Clamp(c, now - inFlight[end - 1].sentAt)
    else ChunksTimeout(c, inFlight, earlier, first, end - 1, now, rto)
  }

  function RangesTimeout(c: Config, inFlight: map<nat, InFlight>, ranges: seq<Range>, now: Time, rto: int): int {
    if ranges == [] then rto
    else
      var earlier, last := ranges[..|ranges| - 1], ranges[|ranges| - 1];
      ChunksTimeout(c, inFlight, earlier, last.first, last.first + last.count, now, RangesTimeout(c, inFlight, earlier, now, rto))
  }

  /** The header is timed first, then the chunks. */
  function NewTimeout(c: Config, w: Window, ack: Ack, now: Time): int {
    var timesHeader := ack.headerReceived && !w.headerReceived && w.headerSent && w.headerRetransmissions == 0;
    RangesTimeout(c, w.inFlight, ack.ranges, now, if timesHeader then Clamp(c, now - w.headerSentAt) else w.rto)
  }

  ghost predicate NoSampleBetween(inFlight: map<nat, InFlight>, earlier: seq<Range>, from: nat, end: nat) {
    forall k: nat :: from <= k < end ==> !Sampled(inFlight, earlier, k)
  }

  lemma {:induction false} NoneSampled(c: Config, inFlight: map<nat, InFlight>, earlier: seq<Range>, first: nat, from: nat, end: nat,
                                       now: Time, rto: int)
    requires first <= from <= end && NoSampleBetween(inFlight, earlier, from, end)
    ensures ChunksTimeout(c, inFlight, earlier, first, end, now, rto) == ChunksTimeout(c, inFlight, earlier, first, from, now, rto)
    decreases end
  {
    if from < end {
      NoneSampled(c, inFlight, earlier, first, from, end - 1, now, rto);
    }
  }

  /** No chunk of the ranges from index `j` on gives a sample. */
  ghost predicate NoSampleFrom(inFlight: map<nat, InFlight>, ranges: seq<Range>, j: nat) {
    forall i :: j <= i < |ranges| ==> NoSampleBetween(inFlight, ranges[..i], ranges[i].first, ranges[i].first + ranges[i].count)
  }

  /** Ranges without a sample leave the timeout alone. */
  lemma {:induction false} NoSampleKeeps(c: Config, inFlight: map<nat, InFlight>, ranges: seq<Range>, now: Time, rto: int, j: nat)
    requires j <= |ranges| && NoSampleFrom(inFlight, ranges, j)
    ensures RangesTimeout(c, inFlight, ranges, now, rto) == RangesTimeout(c, inFlight, ranges[..j], now, rto)
    decreases |ranges|
  {
    if j < |ranges| {
      var n := |ranges| - 1;
      var last := ranges[n];
      NoneSampled(c, inFlight, ranges[..n], last.first, last.first, last.first + last.count, now, RangesTimeout(c, inFlight, ranges[..n], now, rto));
      forall i | 0 <= i <= n ensures ranges[..n][..i] == ranges[..i] {
      }
      NoSampleKeeps(c, inFlight, ranges[..n], now, rto, j);
    } else {
      assert ranges[..j] == ranges;
    }
  }

  /** The last chunk, in the order of the ranges, that gives a sample sets the timeout. */
  lemma LastSampleDecides(c: Config, inFlight: map<nat, InFlight>, ranges: seq<Range>, now: Time, rto: int, j: nat, k: nat)
    requires j < |ranges| && NoSampleFrom(inFlight, ranges, j + 1)
    requires ranges[j].first <= k < ranges[j].first + ranges[j].count && Sampled(inFlight, ranges[..j], k)
    requires NoSampleBetween(inFlight, ranges[..j], k + 1, ranges[j].first + ranges[j].count)
    ensures RangesTimeout(c, inFlight, ranges, now, rto) == Min(Max(2 * (now - inFlight[k].sentAt), c.minimumRto), c.maximumRto)
  {
    NoSampleKeeps(c, inFlight, ranges, now, rto, j + 1);
    assert ranges[..j + 1][..j] == ranges[..j];
    NoneSampled(c, inFlight, ranges[..j], ranges[j].first, k + 1, ranges[j].first + ranges[j].count, now,
                RangesTimeout(c, inFlight, ranges[..j], now, rto));
  }

  function Unacked(inFlight: map<nat, InFlight>, ranges: seq<Range>): map<nat, InFlight> {
    map k | k in inFlight && !Covers(ranges, k) :: inFlight[k]
  }

  ghost predicate NowAcked(acked: seq<bool>, ranges: seq<Range>, r: seq<bool>) {
    |r| == |acked| && forall i :: 0 <= i < |acked| ==> (r[i] <==> acked[i] || Covers(ranges, i))
  }

  ghost predicate AckStep(c: Config, w: Window, ack: Ack, now: Time, r: Window) {
    if w.failed || w.total == 0 then r == w
    else
      && r == w.(headerReceived := w.headerReceived || ack.headerReceived, acked := r.acked, ackedCount := r.ackedCount,
                 inFlight := Unacked(w.inFlight, ack.ranges), rto := r.rto)
      && NowAcked(w.acked, ack.ranges, r.acked) && r.ackedCount == Count(r.acked)
      && r.rto == NewTimeout(c, w, ack, now)
  }

  // ---------- the invariant ----------

  /** Chunks below `next` are acknowledged or in flight, never both; nothing above it is in flight. */
  ghost predicate Placed(acked: seq<bool>, next: nat, inFlight: map<nat, InFlight>) {
    && next <= |acked|
    && (forall k :: k in inFlight ==> k < next && !acked[k])
    && (forall k :: 0 <= k < next ==> acked[k] || k in inFlight)
  }

  ghost predicate Paced(limit: nat, inFlight: map<nat, InFlight>) {
    forall k :: k in inFlight ==> inFlight[k].retransmissions <= limit
  }

  ghost predicate Inv(c: Config, w: Window) {
    && Startable(c, w.total) && |w.acked| == w.total && w.ackedCount == Count(w.acked)
    && |w.inFlight| <= c.size && w.headerRetransmissions <= c.retryLimit
    && Placed(w.acked, w.next, w.inFlight)
    && (w.failed || Paced(c.retryLimit, w.inFlight))
  }

  /** Room is used up in order, nothing acknowledged is put in flight, nothing is skipped. */
  ghost predicate Fills(acked: seq<bool>, before: map<nat, InFlight>, from: nat, size: nat, now: Time,
                        after: map<nat, InFlight>, next: nat)
  {
    && from <= next <= |acked|
    && (forall k :: k in before ==> k in after && after[k] == before[k])
    && (forall k :: k in after && k !in before ==> from <= k < next && !acked[k] && after[k] == InFlight(now, 0))
    && (forall k :: from <= k < next ==> acked[k] || k in after)
    && |after| <= size
    && (next == |acked| || |after| == size)
  }

  /** The chunks listed are the overdue ones and the ones newly put in flight. */
  ghost predicate ListsSent(chunks: seq<nat>, due: set<nat>, before: map<nat, InFlight>, after: map<nat, InFlight>) {
    Ascending(chunks) && forall k :: k in chunks <==> k in due || (k in after && k !in before)
  }

  ghost predicate FilledFrom(acked: seq<bool>, f: Filling, due: set<nat>, size: nat, now: Time, r: Filling) {
    Fills(acked, f.inFlight, f.next, size, now, r.inFlight, r.next) && ListsSent(r.chunks, due, f.inFlight, r.inFlight)
  }

  lemma FilledOneMore(acked: seq<bool>, f: Filling, due: set<nat>, size: nat, now: Time, r: Filling)
    requires f.next < |acked| && f.next !in f.inFlight && f.next !in due && !acked[f.next]
    requires FilledFrom(acked, Taken(f, now), due + {f.next}, size, now, r)
    ensures FilledFrom(acked, f, due, size, now, r)
  {
  }

  lemma FilledSkips(acked: seq<bool>, before: map<nat, InFlight>, from: nat, size: nat, now: Time,
                    after: map<nat, InFlight>, next: nat)
    requires from < |acked| && acked[from] && Fills(acked, before, from + 1, size, now, after, next)
    ensures Fills(acked, before, from, size, now, after, next)
  {
  }

  lemma FilledStops(acked: seq<bool>, f: Filling, due: set<nat>, size: nat, now: Time)
    requires f.next <= |acked| && |f.inFlight| <= size && (f.next == |acked| || |f.inFlight| == size)
    requires Lists(f.chunks, due, f.next)
    ensures FilledFrom(acked, f, due, size, now, f)
  {
  }

  lemma OneMore(inFlight: map<nat, InFlight>, k: nat, f: InFlight)
    requires k !in inFlight
    ensures |inFlight[k := f]| == |inFlight| + 1
  {
    assert inFlight[k := f].Keys == inFlight.Keys + {k};
    assert |inFlight[k := f]| == |inFlight[k := f].Keys| && |inFlight| == |inFlight.Keys|;
  }

  /** A filling in progress: everything in flight or listed lies below the next chunk. */
  ghost predicate Open(acked: seq<bool>, f: Filling, due: set<nat>, size: nat) {
    && f.next <= |acked| && |f.inFlight| <= size
    && (forall k :: k in f.inFlight ==> k < f.next)
    && Lists(f.chunks, due, f.next)
  }

  function Taken(f: Filling, now: Time): Filling {
    Filling(f.inFlight[f.next := InFlight(now, 0)], f.next + 1, f.chunks + [f.next])
  }

  lemma OpenTakes(acked: seq<bool>, f: Filling, due: set<nat>, size: nat, now: Time)
    requires Open(acked, f, due, size) && f.next < |acked| && |f.inFlight| < size
    ensures Open(acked, Taken(f, now), due + {f.next}, size)
  {
    OneMore(f.inFlight, f.next, InFlight(now, 0));
    ListsOneMore(f.chunks, due, f.next, f.next + 1);
  }

  lemma {:induction false} FillMeets(acked: seq<bool>, f: Filling, due: set<nat>, size: nat, now: Time)
    requires Open(acked, f, due, size)
    ensures FilledFrom(acked, f, due, size, now, Fill(acked, f, size, now))
    decreases |acked| - f.next
  {
    if |f.inFlight| < size && f.next < |acked| {
      if acked[f.next] {
        FillMeets(acked, f.(next := f.next + 1), due, size, now);
        var r := Fill(acked, f.(next := f.next + 1), size, now);
        FilledSkips(acked, f.inFlight, f.next, size, now, r.inFlight, r.next);
      } else {
        OpenTakes(acked, f, due, size, now);
        FillMeets(acked, Taken(f, now), due + {f.next}, size, now);
        FilledOneMore(acked, f, due, size, now, Fill(acked, Taken(f, now), size, now));
      }
    } else {
      FilledStops(acked, f, due, size, now);
    }
  }

  lemma BumpedMeets(c: Config, w: Window, now: Time)
    requires Inv(c, w) && !Exhausted(c, w, now) && !w.failed
    ensures var b := Bumped(w.inFlight, now, w.rto);
      && b.Keys == w.inFlight.Keys && |b| <= c.size
      && forall k :: k in b ==> k < w.next && b[k].retransmissions <= c.retryLimit
  {
    var b := Bumped(w.inFlight, now, w.rto);
    assert b.Keys == w.inFlight.Keys;
    assert |b| == |b.Keys| && |w.inFlight| == |w.inFlight.Keys|;
  }

  lemma FillKeepsPlaced(acked: seq<bool>, inFlight: map<nat, InFlight>, f: Filling, due: set<nat>,
                        size: nat, limit: nat, now: Time, r: Filling)
    requires Placed(acked, f.next, inFlight) && f.inFlight.Keys == inFlight.Keys && Paced(limit, f.inFlight)
    requires FilledFrom(acked, f, due, size, now, r)
    ensures Placed(acked, r.next, r.inFlight) && Paced(limit, r.inFlight)
  {
    assert forall k :: k in f.inFlight <==> k in inFlight;
  }

  /** What a poll with work to do leaves behind, in one place. */
  lemma ChunkPollMeets(c: Config, w: Window, now: Time, resent: seq<nat>, r: Window, action: Action)
    requires Inv(c, w) && !w.failed && !Exhausted(c, w, now) && PollChunks(c, w, now, resent, r, action)
    ensures var bumped := Bumped(w.inFlight, now, w.rto);
      && FilledFrom(w.acked, Filling(bumped, w.next, resent), DueChunks(w.inFlight, now, w.rto), c.size, now,
                    Filling(r.inFlight, r.next, action.chunks))
      && r == w.(inFlight := r.inFlight, next := r.next) && !action.sendHeader
  {
    BumpedMeets(c, w, now);
    FillMeets(w.acked, Filling(Bumped(w.inFlight, now, w.rto), w.next, resent), DueChunks(w.inFlight, now, w.rto), c.size, now);
  }

  lemma ChunkPollKeepsInv(c: Config, w: Window, now: Time, resent: seq<nat>, r: Window, action: Action)
    requires Inv(c, w) && !w.failed && PollChunks(c, w, now, resent, r, action)
    ensures Inv(c, r)
  {
    if Exhausted(c, w, now) {
      assert |r.inFlight| == |r.inFlight.Keys| && |w.inFlight| == |w.inFlight.Keys|;
      assert forall k :: k in r.inFlight <==> k in w.inFlight;
    } else {
      BumpedMeets(c, w, now);
      ChunkPollMeets(c, w, now, resent, r, action);
      FillKeepsPlaced(w.acked, w.inFlight, Filling(Bumped(w.inFlight, now, w.rto), w.next, resent),
                      DueChunks(w.inFlight, now, w.rto), c.size, c.retryLimit, now,
                      Filling(r.inFlight, r.next, action.chunks));
    }
  }

  lemma PollKeepsInv(c: Config, w: Window, now: Time, r: Window, action: Action)
    requires Inv(c, w) && PollStep(c, w, now, r, action)
    ensures Inv(c, r)
    ensures r.acked == w.acked && r.total == w.total
  {
    if !w.failed && !Complete(w) && w.headerReceived {
      var resent :| PollChunks(c, w, now, resent, r, action);
      ChunkPollKeepsInv(c, w, now, resent, r, action);
    }
  }

  lemma UnackedFewer(inFlight: map<nat, InFlight>, ranges: seq<Range>)
    ensures |Unacked(inFlight, ranges)| <= |inFlight|
  {
    var r := Unacked(inFlight, ranges);
    assert inFlight.Keys == r.Keys + (inFlight.Keys - r.Keys);
    assert |r| == |r.Keys| && |inFlight| == |inFlight.Keys|;
  }

  lemma AckKeepsPlaced(acked: seq<bool>, next: nat, inFlight: map<nat, InFlight>, ranges: seq<Range>, r: seq<bool>)
    requires Placed(acked, next, inFlight) && NowAcked(acked, ranges, r)
    ensures Placed(r, next, Unacked(inFlight, ranges))
  {
  }

  lemma AckKeepsInv(c: Config, w: Window, ack: Ack, now: Time, r: Window)
    requires Inv(c, w) && AckStep(c, w, ack, now, r)
    ensures Inv(c, r)
    ensures r.total == w.total && forall i :: 0 <= i < w.total && w.acked[i] ==> r.acked[i]
  {
    if !w.failed {
      UnackedFewer(w.inFlight, ack.ranges);
      AckKeepsPlaced(w.acked, w.next, w.inFlight, ack.ranges, r.acked);
    }
  }

  lemma InitialInv(c: Config, total: nat, now: Time)
    requires Startable(c, total)
    ensures Inv(c, Initial(c, total, now))
  {
    NoneCounted(Initial(c, total, now).acked);
  }

  /** The window never stalls: after a poll with the header received it is complete, failed, or waiting on a chunk. */
  lemma NeverStalls(c: Config, w: Window, now: Time, r: Window, action: Action)
    requires Inv(c, w) && w.headerReceived && PollStep(c, w, now, r, action)
    ensures Complete(r) || r.failed || r.inFlight != map[]
  {
    PollKeepsInv(c, w, now, r, action);
    if !w.failed && !Complete(w) && !Exhausted(c, w, now) && r.inFlight == map[] {
      var resent :| PollChunks(c, w, now, resent, r, action);
      ChunkPollMeets(c, w, now, resent, r, action);
      assert forall k :: 0 <= k < r.next ==> r.acked[k] || k in r.inFlight;
      CountFull(r.acked);
    }
  }

  /** Nothing acknowledged is ever sent again, and a poll never sends a chunk twice. */
  lemma AckedNeverResent(c: Config, w: Window, now: Time, r: Window, action: Action, k: nat)
    requires Inv(c, w) && PollStep(c, w, now, r, action) && k in action.chunks
    ensures k < w.total && !w.acked[k] && k in r.inFlight && NoRepeats(action.chunks)
  {
    var resent :| PollChunks(c, w, now, resent, r, action);
    ChunkPollMeets(c, w, now, resent, r, action);
    assert k in w.inFlight ==> k in Bumped(w.inFlight, now, w.rto);
  }
}
