/** Two hosts, one network: whoever starts, and in whatever order messages arrive, both end on one session. */
module HandshakePair {
  import opened Basics
  import opened SessionTable
  import opened Convergence

  datatype Message = Init(init: InitFrame) | Response(response: ResponseFrame)

  /** Where the receive thread stands in handling the other end's INIT. */
  datatype Busy = Idle | Admitted | Decided

  datatype Host = Host(table: Table, started: bool, busy: Busy)

  datatype Act =
    | Start(now: Time, timeout: nat)
    | Admit(now: Time)
    | Decide(now: Time, ttl: nat)
    | Commit(ephemeral: nat, now: Time, grace: int)
    | Take(frame: ResponseFrame, now: Time, grace: int)

  /** What one section leaves behind: the host, the messages it sends, the messages it is done with. */
  datatype Result<H> = Result(host: H, sends: set<Message>, done: set<Message>)

  /** Messages can be handled again and again; nothing the pair creates expires before the deadline. */
  ghost predicate Enabled(e: Ends, started: bool, busy: Busy, sent: set<Message>, act: Act) {
    && act.now < e.deadline
    && match act
       case Start(now, timeout) => !started && e.deadline <= now + timeout
       case Admit(_) => busy.Idle? && Init(e.theirs) in sent
       case Decide(now, ttl) => busy.Admitted? && e.deadline <= now + ttl
       case Commit(_, _, _) => busy.Decided?
       case Take(frame, _, _) => busy.Idle? && Response(frame) in sent && frame.id == e.mine.id
  }

  ghost function HostNext(e: Ends, h: Host, act: Act): Result<Host> {
    match act
    case Start(now, timeout) =>
      var (t, frame) := CreateInit(e.config, h.table, e.mine.id, e.other, KeyOf(e.other), e.mine.ephemeral, now, timeout);
      Result(h.(table := t, started := true), if frame.Some? then {Init(frame.value)} else {}, {})
    case Admit(now) =>
      var (t, ok) := InitAdmit(e.config, h.table, e.theirs, e.theirs.id, now);
      Result(h.(table := t, busy := if ok then Admitted else Idle), {}, if ok then {} else {Init(e.theirs)})
    case Decide(now, ttl) =>
      var (t, ok) := InitDecide(e.config, h.table, e.theirs, now, ttl);
      Result(h.(table := t, busy := if ok then Decided else Idle), {}, if ok then {} else {Init(e.theirs)})
    case Commit(ephemeral, now, grace) =>
      var (t, response) := InitCommit(e.config, h.table, e.theirs, ephemeral, now, grace);
      Result(h.(table := t, busy := Idle), if response.Some? then {Response(response.value)} else {}, {Init(e.theirs)})
    case Take(frame, now, grace) =>
      var (t, _) := HandleResponse(e.config, h.table, e.mine.id, Some(frame), now, grace);
      Result(h.(table := t), {}, {Response(frame)})
  }

  // ---------- the same host, reduced to its view ----------

  datatype Half = Half(view: View, started: bool, busy: Busy)

  function Yields(e: Ends, v: View): bool {
    e.config.node < e.other && (v.waiting || (v.active.Some? && v.active.value.local))
  }

  function HalfNext(e: Ends, h: Half, act: Act): Result<Half> {
    var v := h.view;
    match act
    case Start(_, _) => Result(h.(view := v.(waiting := true), started := true), {Init(e.mine)}, {})
    case Admit(_) =>
      Result(h.(busy := if v.noted then Idle else Admitted), {}, if v.noted then {Init(e.theirs)} else {})
    case Decide(_, _) =>
      var ok := !v.noted && !Yields(e, v);
      var waiting := if v.noted || e.config.node < e.other then v.waiting else false;
      Result(h.(view := v.(noted := true, waiting := waiting), busy := if ok then Decided else Idle),
             {}, if ok then {} else {Init(e.theirs)})
    case Commit(ephemeral, _, _) =>
      var key := SplitKey(e.theirs.ephemeral, ephemeral);
      Result(h.(view := v.(active := Some(Active(e.theirs.id, false, key))), busy := Idle),
             {Response(ResponseFrame(e.theirs.id, e.config.publicKey, e.theirs.ephemeral, ephemeral))},
             {Init(e.theirs)})
    case Take(frame, _, _) =>
      var keeps := v.active.Some? && !v.active.value.local && e.other < e.config.node;
      var active := Some(Active(e.mine.id, true, SplitKey(e.mine.ephemeral, frame.ephemeral)));
      Result(h.(view := if !v.waiting then v
                        else if keeps then v.(waiting := false)
                        else v.(waiting := false, active := active)),
             {}, {Response(frame)})
  }

  ghost predicate Matches(e: Ends, h: Host, half: Half) {
    && Framed(e, h.table)
    && half == Half(ViewOf(e, h.table), h.started, h.busy)
    && (!h.started ==> Ready(e, h.table))
    && (h.busy.Decided? ==> !Knows(h.table, e.theirs.id) && e.theirs in h.table.replays)
  }

  predicate IsAnswer(e: Ends, frame: ResponseFrame) {
    frame == ResponseFrame(e.mine.id, KeyOf(e.other), e.mine.ephemeral, frame.ephemeral)
  }

  /** The session table and its view take the same steps and send the same messages. */
  lemma HostFollowsView(e: Ends, h: Host, half: Half, sent: set<Message>, act: Act)
    requires WellPosed(e) && Matches(e, h, half) && Enabled(e, h.started, h.busy, sent, act)
    requires act.Take? ==> IsAnswer(e, act.frame) && h.started
    ensures var r, a := HostNext(e, h, act), HalfNext(e, half, act);
      Matches(e, r.host, a.host) && r.sends == a.sends && r.done == a.done
  {
    match act
    case Start(now, timeout) => StartView(e, h.table, now, timeout);
    case Admit(now) => AdmitView(e, h.table, now);
    case Decide(now, ttl) => DecideView(e, h.table, now, ttl);
    case Commit(ephemeral, now, grace) => CommitView(e, h.table, ephemeral, now, grace);
    case Take(frame, now, grace) => ResponseView(e, h.table, frame, now, grace);
  }

  // ---------- the pair ----------

  /** `lo` is the end with the lower node identity. */
  datatype Pair<H> = Pair(lo: H, hi: H, sent: set<Message>, done: set<Message>)

  datatype Event = Event(atLo: bool, act: Act)

  predicate Opposed(lo: Ends, hi: Ends) {
    && WellPosed(lo) && WellPosed(hi) && lo.config.node < hi.config.node
    && lo.other == hi.config.node && hi.other == lo.config.node
    && lo.mine == hi.theirs && hi.mine == lo.theirs
  }

  ghost predicate PairEnabled(lo: Ends, hi: Ends, p: Pair<Host>, ev: Event) {
    if ev.atLo then Enabled(lo, p.lo.started, p.lo.busy, p.sent, ev.act)
    else Enabled(hi, p.hi.started, p.hi.busy, p.sent, ev.act)
  }

  ghost function PairNext(lo: Ends, hi: Ends, p: Pair<Host>, ev: Event): Pair<Host> {
    if ev.atLo then
      var r := HostNext(lo, p.lo, ev.act);
      Pair(r.host, p.hi, p.sent + r.sends, p.done + r.done)
    else
      var r := HostNext(hi, p.hi, ev.act);
      Pair(p.lo, r.host, p.sent + r.sends, p.done + r.done)
  }

  ghost predicate Possible(lo: Ends, hi: Ends, p: Pair<Host>, events: seq<Event>)
    decreases |events|
  {
    events == [] || (PairEnabled(lo, hi, p, events[0]) && Possible(lo, hi, PairNext(lo, hi, p, events[0]), events[1..]))
  }

  ghost function PairRun(lo: Ends, hi: Ends, p: Pair<Host>, events: seq<Event>): Pair<Host>
    decreases |events|
  {
    if events == [] then p else PairRun(lo, hi, PairNext(lo, hi, p, events[0]), events[1..])
  }

  // ---------- the invariant of the pair, on views ----------

  /** The answer `e` sends to the other end's INIT. */
  function Answer(e: Ends, ephemeral: nat): Message {
    Response(ResponseFrame(e.theirs.id, e.config.publicKey, e.theirs.ephemeral, ephemeral))
  }

  /** The active session is this end's own handshake, completed with the share `ephemeral`. */
  predicate LocalWith(v: View, e: Ends, ephemeral: nat) {
    v.active == Some(Active(e.mine.id, true, SplitKey(e.mine.ephemeral, ephemeral)))
  }

  /** The active session is the other end's handshake, answered with the share `ephemeral`. */
  predicate RemoteWith(v: View, e: Ends, ephemeral: nat) {
    v.active == Some(Active(e.theirs.id, false, SplitKey(e.theirs.ephemeral, ephemeral)))
  }

  /** The responder's share in the active session's key. */
  function Share(v: View): nat {
    if v.active.Some? then v.active.value.key.responderEphemeral else 0
  }

  /** The wire carries the two INITs once started, and answers to them. */
  ghost predicate WireOk(lo: Ends, hi: Ends, p: Pair<Half>) {
    && (Init(lo.mine) in p.sent <==> p.lo.started)
    && (Init(hi.mine) in p.sent <==> p.hi.started)
    && (forall f :: Response(f) in p.sent ==>
          (f.id == lo.mine.id && IsAnswer(lo, f) && p.lo.started) || (f.id == hi.mine.id && IsAnswer(hi, f) && p.hi.started))
    && p.done <= p.sent
  }

  /** The lower end never gives its own handshake up, and answers only while it has none. */
  ghost predicate LoOk(lo: Ends, hi: Ends, p: Pair<Half>) {
    var v := p.lo.view;
    && (!p.lo.started ==> !v.waiting)
    && (p.lo.started ==> v.waiting || (LocalWith(v, lo, Share(v)) && Answer(hi, Share(v)) in p.sent))
    && (v.active.Some? && v.active.value.local ==> p.lo.started)
    && (p.lo.busy != Idle ==> p.hi.started)
    && (p.lo.busy.Decided? ==> v.noted && v.active.None?)
    && (!v.noted || p.lo.busy.Decided? ==> forall k :: Answer(lo, k) !in p.sent)
    && (!v.noted ==> v.active.None? || v.active.value.local)
    && (v.noted && !p.lo.busy.Decided? && !p.lo.started ==>
          RemoteWith(v, lo, Share(v)) && Answer(lo, Share(v)) in p.sent)
    && (forall j, k :: Answer(lo, j) in p.sent && Answer(lo, k) in p.sent ==> j == k)
    && (Init(lo.theirs) in p.done ==> v.noted && !p.lo.busy.Decided?)
    && (forall k :: Answer(hi, k) in p.done ==> !v.waiting)
  }

  /** The higher end drops its own handshake for the lower end's, for good. */
  ghost predicate HiOk(lo: Ends, hi: Ends, p: Pair<Half>) {
    var v := p.hi.view;
    && (!p.hi.started ==> !v.waiting)
    && (p.hi.busy != Idle || v.noted ==> p.lo.started)
    && (p.hi.busy.Decided? ==> v.noted)
    && (forall k :: Answer(hi, k) in p.sent ==> RemoteWith(v, hi, k))
    && (!v.noted || p.hi.busy.Decided? ==> v.active.None? || v.active.value.local)
    && (v.noted && !p.hi.busy.Decided? ==> RemoteWith(v, hi, Share(v)) && Answer(hi, Share(v)) in p.sent)
    && (p.hi.started && !v.noted ==> v.waiting || (LocalWith(v, hi, Share(v)) && Answer(lo, Share(v)) in p.sent))
    && (Init(hi.theirs) in p.done ==> v.noted && !p.hi.busy.Decided?)
    && (forall k :: Answer(lo, k) in p.done && !v.noted ==> !v.waiting)
  }

  ghost predicate PairOk(lo: Ends, hi: Ends, p: Pair<Half>) {
    WireOk(lo, hi, p) && LoOk(lo, hi, p) && HiOk(lo, hi, p)
  }

  ghost function ViewsNext(lo: Ends, hi: Ends, p: Pair<Half>, ev: Event): Pair<Half> {
    if ev.atLo then
      var r := HalfNext(lo, p.lo, ev.act);
      Pair(r.host, p.hi, p.sent + r.sends, p.done + r.done)
    else
      var r := HalfNext(hi, p.hi, ev.act);
      Pair(p.lo, r.host, p.sent + r.sends, p.done + r.done)
  }

  lemma LoStepOk(lo: Ends, hi: Ends, p: Pair<Half>, act: Act)
    requires Opposed(lo, hi) && PairOk(lo, hi, p) && Enabled(lo, p.lo.started, p.lo.busy, p.sent, act)
    ensures PairOk(lo, hi, ViewsNext(lo, hi, p, Event(true, act)))
  {
  }

  lemma HiStepOk(lo: Ends, hi: Ends, p: Pair<Half>, act: Act)
    requires Opposed(lo, hi) && PairOk(lo, hi, p) && Enabled(hi, p.hi.started, p.hi.busy, p.sent, act)
    ensures PairOk(lo, hi, ViewsNext(lo, hi, p, Event(false, act)))
  {
  }

  // ---------- from views back to tables ----------

  ghost predicate Sound(lo: Ends, hi: Ends, p: Pair<Host>, q: Pair<Half>) {
    Matches(lo, p.lo, q.lo) && Matches(hi, p.hi, q.hi) && p.sent == q.sent && p.done == q.done && PairOk(lo, hi, q)
  }

  lemma StepSound(lo: Ends, hi: Ends, p: Pair<Host>, q: Pair<Half>, ev: Event)
    requires Opposed(lo, hi) && Sound(lo, hi, p, q) && PairEnabled(lo, hi, p, ev)
    ensures Sound(lo, hi, PairNext(lo, hi, p, ev), ViewsNext(lo, hi, q, ev))
  {
    if ev.atLo {
      HostFollowsView(lo, p.lo, q.lo, p.sent, ev.act);
      LoStepOk(lo, hi, q, ev.act);
    } else {
      HostFollowsView(hi, p.hi, q.hi, p.sent, ev.act);
      HiStepOk(lo, hi, q, ev.act);
    }
  }

  lemma {:induction false} RunSound(lo: Ends, hi: Ends, p: Pair<Host>, q: Pair<Half>, events: seq<Event>) returns (last: Pair<Half>)
    requires Opposed(lo, hi) && Sound(lo, hi, p, q) && Possible(lo, hi, p, events)
    ensures Sound(lo, hi, PairRun(lo, hi, p, events), last)
    decreases |events|
  {
    if events == [] {
      last := q;
    } else {
      StepSound(lo, hi, p, q, events[0]);
      last := RunSound(lo, hi, PairNext(lo, hi, p, events[0]), ViewsNext(lo, hi, q, events[0]), events[1..]);
    }
  }

  /** A consistent table that has nothing of the other end, has room, and knows neither identity. */
  ghost predicate Untouched(e: Ends, t: Table) {
    && Inv(e.config.capacity, t) && NothingOf(t, e.other)
    && |t.sessions| < e.config.capacity.active && |t.pending| < e.config.capacity.pending
    && !Knows(t, e.mine.id) && !Knows(t, e.theirs.id) && e.theirs !in t.replays
  }

  lemma UntouchedMatches(e: Ends, t: Table)
    requires Untouched(e, t)
    ensures Matches(e, Host(t, false, Idle), Half(View(false, None, false), false, Idle))
  {
  }

  /** Every message has been handled at least once and nobody is in the middle of handling one. */
  predicate Quiet(p: Pair<Host>) {
    p.sent <= p.done && p.lo.busy.Idle? && p.hi.busy.Idle?
  }

  lemma QuietViewsAgree(lo: Ends, hi: Ends, q: Pair<Half>)
    requires Opposed(lo, hi) && PairOk(lo, hi, q) && q.sent <= q.done && q.lo.busy.Idle? && q.hi.busy.Idle?
    requires q.lo.started || q.hi.started
    ensures q.lo.view.active.Some? && q.hi.view.active.Some?
    ensures q.lo.view.active.value.id == q.hi.view.active.value.id
    ensures q.lo.view.active.value.key == q.hi.view.active.value.key
    ensures q.lo.view.active.value.local != q.hi.view.active.value.local
    ensures q.lo.view.active.value.id == if q.lo.started then lo.mine.id else hi.mine.id
  {
    if q.lo.started {
      assert Init(hi.theirs) in q.done;
      assert Answer(hi, Share(q.hi.view)) in q.done;
    } else {
      assert Init(lo.theirs) in q.done;
      assert Answer(lo, Share(q.lo.view)) in q.done;
    }
  }

  /** Whichever ends start, whenever, and however messages are delayed, reordered and duplicated: once all of
      them have been handled, both ends hold one session with one key, and it is the lower end's if it started. */
  lemma SimultaneousInitiationConverges(lo: Ends, hi: Ends, loTable: Table, hiTable: Table, events: seq<Event>)
    requires Opposed(lo, hi) && Untouched(lo, loTable) && Untouched(hi, hiTable)
    requires Possible(lo, hi, Pair(Host(loTable, false, Idle), Host(hiTable, false, Idle), {}, {}), events)
    ensures var p := PairRun(lo, hi, Pair(Host(loTable, false, Idle), Host(hiTable, false, Idle), {}, {}), events);
      Quiet(p) && (p.lo.started || p.hi.started) ==>
        && lo.other in p.lo.table.sessions && hi.other in p.hi.table.sessions
        && var a, b := p.lo.table.sessions[lo.other], p.hi.table.sessions[hi.other];
           && a.established && b.established
           && a.id == b.id && a.key == b.key && a.initiatedLocally != b.initiatedLocally
           && a.id == if p.lo.started then lo.mine.id else hi.mine.id
  {
    var quiet := Half(View(false, None, false), false, Idle);
    var start := Pair(Host(loTable, false, Idle), Host(hiTable, false, Idle), {}, {});
    UntouchedMatches(lo, loTable);
    UntouchedMatches(hi, hiTable);
    var last := RunSound(lo, hi, start, Pair(quiet, quiet, {}, {}), events);
    var p := PairRun(lo, hi, start, events);
    if Quiet(p) && (p.lo.started || p.hi.started) {
      QuietViewsAgree(lo, hi, last);
    }
  }
}
