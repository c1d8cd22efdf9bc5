/** Whole runs of the sender's window: how often anything is ever put on the wire. */
module SendRuns {
  import opened Basics
  import opened SendWindow

  datatype Frame = HeaderFrame | ChunkFrame(index: nat)

  /** One call on the window with what it left behind. */
  datatype Call =
    | Polled(now: Time, after: Window, action: Action)
    | Acknowledged(ack: Ack, now: Time, after: Window)

  function ChunkFrames(chunks: seq<nat>): seq<Frame> {
    if chunks == [] then [] else ChunkFrames(chunks[..|chunks| - 1]) + [ChunkFrame(chunks[|chunks| - 1])]
  }

  function Frames(action: Action): seq<Frame> {
    (if action.sendHeader then [HeaderFrame] else []) + ChunkFrames(action.chunks)
  }

  ghost predicate Follows(c: Config, w: Window, call: Call) {
    match call
    case Polled(now, after, action) => PollStep(c, w, now, after, action)
    case Acknowledged(ack, now, after) => AckStep(c, w, ack, now, after)
  }

  ghost predicate IsRun(c: Config, w: Window, calls: seq<Call>)
    decreases |calls|
  {
    calls == [] || (Follows(c, w, calls[0]) && IsRun(c, calls[0].after, calls[1..]))
  }

  /** Everything the calls put on the wire. */
  function Emitted(calls: seq<Call>): seq<Frame>
    decreases |calls|
  {
    if calls == [] then []
    else (if calls[0].Polled? then Frames(calls[0].action) else []) + Emitted(calls[1..])
  }

  function Occurs(log: seq<Frame>, f: Frame): nat {
    multiset(log)[f]
  }

  /** How often a frame may have been sent so far. */
  function Budget(c: Config, w: Window, f: Frame): nat {
    match f
    case HeaderFrame => if w.headerSent then 1 + w.headerRetransmissions else 0
    case ChunkFrame(k) =>
      if w.failed then 1 + c.retryLimit
      else if k in w.inFlight then 1 + w.inFlight[k].retransmissions
      else if k < w.next then 1 + c.retryLimit else 0
  }

  ghost predicate WithinBudget(c: Config, w: Window, log: seq<Frame>) {
    && (forall f :: Occurs(log, f) <= Budget(c, w, f))
    && (forall f :: f in log && f.ChunkFrame? ==> f.index < w.total)
  }

  lemma {:induction false} ChunkFramesOnce(chunks: seq<nat>, f: Frame)
    requires Ascending(chunks)
    ensures multiset(ChunkFrames(chunks))[f] == if f.ChunkFrame? && f.index in chunks then 1 else 0
  {
    if chunks != [] {
      var n := |chunks| - 1;
      ChunkFramesOnce(chunks[..n], f);
      assert chunks == chunks[..n] + [chunks[n]];
    }
  }

  /** One poll sends the header at most once, and each chunk at most once. */
  lemma FramesCount(action: Action, f: Frame)
    requires Ascending(action.chunks)
    ensures Occurs(Frames(action), f)
            == match f
               case HeaderFrame => if action.sendHeader then 1 else 0
               case ChunkFrame(k) => if k in action.chunks then 1 else 0
  {
    ChunkFramesOnce(action.chunks, f);
  }

  /** Resending bumps a counter for each frame sent; a new chunk opens its budget. */
  lemma ChunksSpend(c: Config, w: Window, now: Time, f: Filling, r: Window, action: Action, k: nat)
    requires Inv(c, w) && !w.failed && !Exhausted(c, w, now)
    requires f.inFlight == Bumped(w.inFlight, now, w.rto) && f.next == w.next
    requires FilledFrom(w.acked, f, DueChunks(w.inFlight, now, w.rto), c.size, now, Filling(r.inFlight, r.next, action.chunks))
    requires r == w.(inFlight := r.inFlight, next := r.next)
    ensures Budget(c, w, ChunkFrame(k)) + (if k in action.chunks then 1 else 0) <= Budget(c, r, ChunkFrame(k))
    ensures k in action.chunks ==> k < w.total
  {
    assert k in w.inFlight <==> k in f.inFlight;
  }

  lemma ChunkPollSpends(c: Config, w: Window, now: Time, r: Window, action: Action, k: nat)
    requires Inv(c, w) && !w.failed && !Complete(w) && w.headerReceived && PollStep(c, w, now, r, action)
    ensures Ascending(action.chunks) && !action.sendHeader
    ensures Budget(c, w, ChunkFrame(k)) + (if k in action.chunks then 1 else 0) <= Budget(c, r, ChunkFrame(k))
    ensures Budget(c, w, HeaderFrame) <= Budget(c, r, HeaderFrame)
    ensures k in action.chunks ==> k < w.total
  {
    var resent :| PollChunks(c, w, now, resent, r, action);
    if !Exhausted(c, w, now) {
      ChunkPollMeets(c, w, now, resent, r, action);
      ChunksSpend(c, w, now, Filling(Bumped(w.inFlight, now, w.rto), w.next, resent), r, action, k);
    }
  }

  lemma PollSpends(c: Config, w: Window, now: Time, r: Window, action: Action, f: Frame)
    requires Inv(c, w) && PollStep(c, w, now, r, action)
    ensures Ascending(action.chunks)
    ensures Budget(c, w, f) + Occurs(Frames(action), f) <= Budget(c, r, f)
    ensures f.ChunkFrame? && f.index in action.chunks ==> f.index < w.total
  {
    if !w.failed && !Complete(w) && w.headerReceived {
      ChunkPollSpends(c, w, now, r, action, if f.ChunkFrame? then f.index else 0);
    }
    FramesCount(action, f);
  }

  lemma AckSpendsNothing(c: Config, w: Window, ack: Ack, now: Time, r: Window, f: Frame)
    requires Inv(c, w) && AckStep(c, w, ack, now, r)
    ensures Budget(c, w, f) <= Budget(c, r, f)
  {
  }

  lemma PollStaysWithinBudget(c: Config, w: Window, now: Time, r: Window, action: Action, log: seq<Frame>)
    requires Inv(c, w) && PollStep(c, w, now, r, action) && WithinBudget(c, w, log)
    ensures WithinBudget(c, r, log + Frames(action))
  {
    PollKeepsInv(c, w, now, r, action);
    forall f ensures Occurs(log + Frames(action), f) <= Budget(c, r, f) {
      PollSpends(c, w, now, r, action, f);
    }
    forall f | f in log + Frames(action) && f.ChunkFrame? ensures f.index < r.total {
      PollSpends(c, w, now, r, action, f);
      if f in Frames(action) {
        FramesCount(action, f);
        assert multiset(Frames(action))[f] > 0;
      }
    }
  }

  lemma AckStaysWithinBudget(c: Config, w: Window, ack: Ack, now: Time, r: Window, log: seq<Frame>)
    requires Inv(c, w) && AckStep(c, w, ack, now, r) && WithinBudget(c, w, log)
    ensures WithinBudget(c, r, log)
  {
    forall f ensures Occurs(log, f) <= Budget(c, r, f) {
      AckSpendsNothing(c, w, ack, now, r, f);
    }
  }

  lemma {:induction false} RunStaysWithinBudget(c: Config, w: Window, calls: seq<Call>, log: seq<Frame>) returns (last: Window)
    requires Inv(c, w) && IsRun(c, w, calls) && WithinBudget(c, w, log)
    ensures Inv(c, last) && last.total == w.total && WithinBudget(c, last, log + Emitted(calls))
    decreases |calls|
  {
    if calls == [] {
      last := w;
      assert log + Emitted(calls) == log;
    } else {
      var call := calls[0];
      match call
      case Polled(now, after, action) =>
        PollKeepsInv(c, w, now, after, action);
        PollStaysWithinBudget(c, w, now, after, action, log);
        last := RunStaysWithinBudget(c, after, calls[1..], log + Frames(action));
        assert log + Emitted(calls) == log + Frames(action) + Emitted(calls[1..]);
      case Acknowledged(ack, now, after) =>
        AckKeepsInv(c, w, ack, now, after);
        AckStaysWithinBudget(c, w, ack, now, after, log);
        last := RunStaysWithinBudget(c, after, calls[1..], log);
        assert Emitted(calls) == Emitted(calls[1..]);
    }
  }

  /** A multiset over the header and `n` chunks, none more than `m` times, has at most m·(n+1) elements. */
  lemma {:induction false} Pigeonhole(frames: multiset<Frame>, n: nat, m: nat)
    requires forall f :: f in frames && f.ChunkFrame? ==> f.index < n
    requires forall f :: frames[f] <= m
    ensures |frames| <= m * (n + 1)
    decreases n
  {
    if n == 0 {
      var rest := frames[HeaderFrame := 0];
      forall f ensures rest[f] == 0 {
        assert f.HeaderFrame? || f !in frames;
      }
      assert rest == multiset{};
      assert |rest| == |frames| - frames[HeaderFrame];
    } else {
      var rest := frames[ChunkFrame(n - 1) := 0];
      assert |rest| == |frames| - frames[ChunkFrame(n - 1)];
      Pigeonhole(rest, n - 1, m);
      assert m * (n + 1) == m * n + m;
    }
  }

  lemma BudgetBounded(c: Config, w: Window, f: Frame)
    requires Inv(c, w)
    ensures Budget(c, w, f) <= 1 + c.retryLimit
  {
  }

  /** Whatever is lost and however long it takes, one transfer emits a bounded number of frames. */
  lemma EmissionBounded(c: Config, total: nat, now: Time, calls: seq<Call>)
    requires Startable(c, total) && IsRun(c, Initial(c, total, now), calls)
    ensures |Emitted(calls)| <= (1 + c.retryLimit) * (total + 1)
    ensures forall f :: Occurs(Emitted(calls), f) <= 1 + c.retryLimit
  {
    InitialInv(c, total, now);
    var last := RunStaysWithinBudget(c, Initial(c, total, now), calls, []);
    assert [] + Emitted(calls) == Emitted(calls);
    forall f ensures Occurs(Emitted(calls), f) <= 1 + c.retryLimit {
      BudgetBounded(c, last, f);
    }
    var frames := multiset(Emitted(calls));
    assert forall f :: f in frames ==> f in Emitted(calls);
    forall f ensures frames[f] <= 1 + c.retryLimit {
      assert Occurs(Emitted(calls), f) <= 1 + c.retryLimit;
    }
    Pigeonhole(frames, total, 1 + c.retryLimit);
    assert |frames| == |Emitted(calls)|;
  }
}
