/**
 Retry cookies under a rotating secret. MACs are symbolic: a cookie is its secret and its inputs. Draws from the
 random source are distinct, and a failed draw is an explicit outcome.
 */
module HandshakeCookie {
  import opened Basics

  type Secret = nat

  datatype Inputs = Inputs(endpoint: nat, sessionId: nat, frame: nat)

  datatype Cookie = Mac(secret: Secret, inputs: Inputs)

  datatype State = State(current: Option<Secret>, previous: Option<Secret>, rotatedAt: Time)

  /** A non-positive interval is replaced by one millisecond. */
  function Interval(configured: int): (r: int)
    ensures r >= 1
  {
    if configured <= 0 then 1 else configured
  }

  predicate Current(s: State, interval: int, now: Time) {
    s.current.Some? && now >= s.rotatedAt && now - s.rotatedAt < interval
  }

  /** The state a call works with; None when a new secret is needed and none can be drawn. */
  function Rotate(s: State, interval: int, now: Time, draw: Option<Secret>): Option<State> {
    if Current(s, interval, now) then Some(s)
    else if draw.None? then None
    else Some(State(draw, if Current(s, 2 * interval, now) then s.current else None, now))
  }

  predicate Accepts(s: State, cookie: Cookie, inputs: Inputs) {
    || (s.current.Some? && cookie == Mac(s.current.value, inputs))
    || (s.previous.Some? && cookie == Mac(s.previous.value, inputs))
  }

  class HandshakeCookieManager {
    const interval: int
    var current: Secret
    var previous: Secret
    var hasCurrent: bool
    var hasPrevious: bool
    var rotatedAt: Time

    ghost function View(): State
      reads this
    {
      State(if hasCurrent then Some(current) else None, if hasPrevious then Some(previous) else None, rotatedAt)
    }

    constructor (configured: int)
      ensures interval == Interval(configured) && View().current.None? && View().previous.None?
    {
      interval := Interval(configured);
      current, previous, hasCurrent, hasPrevious, rotatedAt := 0, 0, false, false, 0;
    }

    method RotateIfNeeded(now: Time, draw: Option<Secret>) returns (ok: bool)
      modifies this
      ensures ok <==> Rotate(old(View()), interval, now, draw).Some?
      ensures View() == if ok then Rotate(old(View()), interval, now, draw).value else old(View())
    {
      if hasCurrent && now >= rotatedAt && now - rotatedAt < interval {
        return true;
      }
      if draw.None? {
        return false;
      }
      if hasCurrent && now >= rotatedAt && now - rotatedAt < 2 * interval {
        previous, hasPrevious := current, true;
      } else {
        previous, hasPrevious := 0, false;
      }
      current, rotatedAt, hasCurrent := draw.value, now, true;
      return true;
    }

    method Issue(inputs: Inputs, now: Time, draw: Option<Secret>) returns (r: Option<Cookie>)
      modifies this
      ensures var s := Rotate(old(View()), interval, now, draw);
        && View() == (if s.Some? then s.value else old(View()))
        && r == (if s.Some? && s.value.current.Some? then Some(Mac(s.value.current.value, inputs)) else None)
    {
      var ok := RotateIfNeeded(now, draw);
      if !ok {
        return None;
      }
      return Some(Mac(current, inputs));
    }

    method Verify(cookie: Cookie, inputs: Inputs, now: Time, draw: Option<Secret>) returns (r: bool)
      modifies this
      ensures var s := Rotate(old(View()), interval, now, draw);
        && View() == (if s.Some? then s.value else old(View()))
        && (r <==> s.Some? && Accepts(s.value, cookie, inputs))
    {
      var ok := RotateIfNeeded(now, draw);
      if !ok {
        return false;
      }
      if cookie == Mac(current, inputs) {
        return true;
      }
      if !hasPrevious {
        return false;
      }
      return cookie == Mac(previous, inputs);
    }
  }

  // ---------- runs ----------

  /** Any issue or verify call: only its time and the secret drawn for it matter to the state. */
  datatype Call = Call(now: Time, draw: Secret)

  predicate Ordered(calls: seq<Call>, from: Time, to: Time)
    decreases |calls|
  {
    if calls == [] then from <= to else from <= calls[0].now && Ordered(calls[1..], calls[0].now, to)
  }

  function After(s: State, interval: int, call: Call): State {
    Rotate(s, interval, call.now, Some(call.draw)).value
  }

  function Run(s: State, interval: int, calls: seq<Call>): State
    decreases |calls|
  {
    if calls == [] then s else Run(After(s, interval, calls[0]), interval, calls[1..])
  }

  /** Where a secret that came into use at `born` stands: in use, just replaced, or gone. */
  predicate Standing(s: State, interval: int, secret: Secret, born: Time) {
    && s.current.Some?
    && ((s.current == Some(secret) && s.rotatedAt == born)
        || (s.current != Some(secret) && s.previous == Some(secret) && born + interval <= s.rotatedAt < born + 2 * interval)
        || (s.current != Some(secret) && s.previous != Some(secret) && s.rotatedAt >= born + 2 * interval))
  }

  lemma CallKeepsStanding(s: State, interval: int, call: Call, secret: Secret, born: Time)
    requires interval >= 1 && Standing(s, interval, secret, born) && s.rotatedAt <= call.now && call.draw != secret
    ensures var a := After(s, interval, call);
      Standing(a, interval, secret, born) && a.rotatedAt <= call.now < a.rotatedAt + interval
  {
  }

  lemma {:induction false} RunKeepsStanding(s: State, interval: int, calls: seq<Call>, from: Time, to: Time, secret: Secret, born: Time)
    requires interval >= 1 && Standing(s, interval, secret, born) && s.rotatedAt <= from && Ordered(calls, from, to)
    requires forall c :: c in calls ==> c.draw != secret
    ensures var e := Run(s, interval, calls); Standing(e, interval, secret, born) && e.rotatedAt <= to
    decreases |calls|
  {
    if calls != [] {
      CallKeepsStanding(s, interval, calls[0], secret, born);
      RunKeepsStanding(After(s, interval, calls[0]), interval, calls[1..], calls[0].now, to, secret, born);
    }
  }

  /** The state in which a call at time `to` decides, after an issue at `issued` and any calls between. */
  function Deciding(s: State, interval: int, issued: Call, calls: seq<Call>, last: Call): State {
    After(Run(After(s, interval, issued), interval, calls), interval, last)
  }

  function IssuedCookie(s: State, interval: int, issued: Call, inputs: Inputs): Cookie {
    Mac(After(s, interval, issued).current.value, inputs)
  }

  /** A cookie is accepted throughout one interval after it was issued, and never three intervals after. */
  lemma CookieLifetime(s: State, interval: int, issued: Call, calls: seq<Call>, last: Call, inputs: Inputs)
    requires interval >= 1 && s.rotatedAt <= issued.now && Ordered(calls, issued.now, last.now)
    requires var secret := After(s, interval, issued).current.value;
      last.draw != secret && (forall c :: c in calls ==> c.draw != secret) && After(s, interval, issued).previous != Some(secret)
    ensures var ok := Accepts(Deciding(s, interval, issued, calls, last), IssuedCookie(s, interval, issued, inputs), inputs);
      && (last.now - issued.now <= interval ==> ok)
      && (last.now - issued.now >= 3 * interval - 1 ==> !ok)
  {
    var first := After(s, interval, issued);
    var secret := first.current.value;
    RunKeepsStanding(first, interval, calls, issued.now, last.now, secret, first.rotatedAt);
    CallKeepsStanding(Run(first, interval, calls), interval, last, secret, first.rotatedAt);
  }

  /** The secret each call worked with, and when. */
  function InUse(s: State, interval: int, calls: seq<Call>): seq<(Secret, Time)>
    decreases |calls|
  {
    if calls == [] then []
    else
      var a := After(s, interval, calls[0]);
      [(if a.current.Some? then a.current.value else 0, calls[0].now)] + InUse(a, interval, calls[1..])
  }

  /** Both secrets of a state were in use by calls of the log, the older one until not long ago. */
  ghost predicate Recorded(s: State, interval: int, log: seq<(Secret, Time)>) {
    && (s.current.Some? ==> (s.current.value, s.rotatedAt) in log)
    && (s.previous.Some? ==> exists t :: (s.previous.value, t) in log && s.rotatedAt - t < 2 * interval)
  }

  lemma CallRecorded(s: State, interval: int, call: Call, log: seq<(Secret, Time)>)
    requires interval >= 1 && Recorded(s, interval, log)
    ensures var a := After(s, interval, call);
      a.current.Some? && Recorded(a, interval, log + [(a.current.value, call.now)])
  {
    var a := After(s, interval, call);
    var more := log + [(a.current.value, call.now)];
    assert (a.current.value, call.now) in more;
    if a.previous.Some? && a != s {
      assert (a.previous.value, s.rotatedAt) in more;
    } else if a.previous.Some? {
      var t :| (s.previous.value, t) in log && s.rotatedAt - t < 2 * interval;
      assert (a.previous.value, t) in more;
    }
  }

  lemma {:induction false} RunRecorded(s: State, interval: int, calls: seq<Call>, log: seq<(Secret, Time)>)
    requires interval >= 1 && Recorded(s, interval, log)
    ensures Recorded(Run(s, interval, calls), interval, log + InUse(s, interval, calls))
    decreases |calls|
  {
    if calls == [] {
      assert log + [] == log;
    } else {
      var a := After(s, interval, calls[0]);
      CallRecorded(s, interval, calls[0], log);
      var entry := (a.current.value, calls[0].now);
      RunRecorded(a, interval, calls[1..], log + [entry]);
      Associate(log, [entry], InUse(a, interval, calls[1..]));
    }
  }

  lemma {:induction false} RunAppends(s: State, interval: int, calls: seq<Call>, last: Call)
    ensures Run(s, interval, calls + [last]) == After(Run(s, interval, calls), interval, last)
    decreases |calls|
  {
    if calls == [] {
      assert calls + [last] == [last] && [last][1..] == [];
    } else {
      HeadAndTail(calls, [last]);
      RunAppends(After(s, interval, calls[0]), interval, calls[1..], last);
    }
  }

  const NEW := State(None, None, 0)

  /**
   Whatever a new manager accepts after any calls is a cookie for the same inputs under a secret that one of its
   calls, less than three intervals ago, had in use: it is what that call issued, or would have issued.
   */
  lemma CookieIsBound(interval: int, calls: seq<Call>, last: Call, cookie: Cookie, inputs: Inputs)
    requires interval >= 1 && Accepts(After(Run(NEW, interval, calls), interval, last), cookie, inputs)
    ensures exists t :: (cookie.secret, t) in InUse(NEW, interval, calls + [last]) && last.now - t < 3 * interval - 1
    ensures cookie.inputs == inputs
  {
    RunRecorded(NEW, interval, calls + [last], []);
    RunAppends(NEW, interval, calls, last);
    var s := After(Run(NEW, interval, calls), interval, last);
    var log := InUse(NEW, interval, calls + [last]);
    assert [] + log == log;
    assert Recorded(s, interval, log) && last.now - s.rotatedAt < interval;
    if s.previous.Some? && s.current != Some(cookie.secret) {
      var t :| (s.previous.value, t) in log && s.rotatedAt - t < 2 * interval;
      assert (cookie.secret, t) in log && last.now - t < 3 * interval - 1;
    } else {
      assert (cookie.secret, s.rotatedAt) in log;
    }
  }

  /** The first bound is exact: a cookie issued late in its secret's term can lapse a millisecond after an interval. */
  lemma CanLapseAfterInterval(interval: int, inputs: Inputs)
    requires interval >= 1
    ensures var s, late, last := State(Some(1), None, 0), Call(interval - 1, 2), Call(2 * interval, 3);
      && last.now - late.now == interval + 1
      && !Accepts(Deciding(s, interval, late, [], last), IssuedCookie(s, interval, late, inputs), inputs)
  {
  }

  /** So is the second: a cookie issued early can last two milliseconds short of three intervals. */
  lemma CanLastAlmostThree(interval: int, inputs: Inputs)
    requires interval >= 1
    ensures var s, early, middle, last := State(Some(1), None, 0), Call(0, 2), Call(2 * interval - 1, 3), Call(3 * interval - 2, 4);
      && last.now - early.now == 3 * interval - 2 && Ordered([middle], early.now, last.now)
      && Accepts(Deciding(s, interval, early, [middle], last), IssuedCookie(s, interval, early, inputs), inputs)
  {
    var s, middle := State(Some(1), None, 0), Call(2 * interval - 1, 3);
    assert [middle][1..] == [];
    assert Run(s, interval, [middle]) == State(Some(3), Some(1), 2 * interval - 1);
  }
}
