/**
 The candidate table of the routing engine: what may be added, what is replaced, what is removed, and how
 probe results suppress a candidate. Times are milliseconds, leases seconds.
 */
module Routes {
  import opened Basics
  import opened IpPrefixes

  const MAX_CANDIDATES_PER_PREFIX := 8
  const MAX_LEASE := 600
  const MAX_METRIC := 1_000_000
  const PROBE_HOLD_DOWN := 30_000
  const MAX_FAILURES := 0xffff_ffff

  datatype Kind = Direct | Relay | UnknownHop

  datatype Probe = Probe(sentAt: Option<Time>, validatedAt: Option<Time>, rtt: Option<int>,
                         failed: bool, failures: nat, holdUntil: Option<Time>)

  const UNPROBED := Probe(None, None, None, false, 0, None)

  datatype Route = Route(prefix: Address, length: nat, kind: Kind, nextHop: NodeId, destination: NodeId,
                         path: seq<NodeId>, origin: NodeId, advertiser: NodeId, sequence: nat,
                         lease: int, metric: nat, validatedAt: Time, probe: Probe)

  // ---------- which routes are accepted ----------

  /** A relay path runs loop-free from the next hop to the destination; a direct one is a single hop. */
  predicate PathFits(r: Route) {
    match r.kind
    case Direct => r.nextHop == r.destination && r.path == [r.destination]
    case Relay =>
      && r.nextHop != r.destination && |r.path| >= 2 && r.path[0] == r.nextHop
      && r.path[|r.path| - 1] == r.destination && NoRepeats(r.path)
    case UnknownHop => false
  }

  predicate InLimits(r: Route) {
    r.sequence > 0 && 0 < r.lease <= MAX_LEASE && r.metric <= MAX_METRIC
  }

  predicate Acceptable(r: Route) {
    ValidPrefix(r.prefix, r.length) && PathFits(r) && InLimits(r)
  }

  /** What is stored for an accepted route. */
  function Candidate(r: Route): Route {
    r.(prefix := Canonical(r.prefix, r.length),
       origin := if r.origin == ZERO_NODE then r.destination else r.origin,
       advertiser := if r.advertiser == ZERO_NODE then r.nextHop else r.advertiser)
  }

  // ---------- finding one candidate ----------

  datatype Query =
    | SameAs(candidate: Route)
    | Target(destination: NodeId, nextHop: NodeId, prefix: Address, length: nat, sequence: nat)

  predicate Matches(q: Query, r: Route) {
    match q
    case SameAs(c) =>
      && r.prefix == c.prefix && r.length == c.length && r.kind == c.kind && r.nextHop == c.nextHop
      && r.destination == c.destination
    case Target(destination, nextHop, prefix, length, sequence) =>
      && r.destination == destination && r.nextHop == nextHop && r.prefix == prefix && r.length == length
      && r.sequence == sequence
  }

  /** The first match, or the length of the table. */
  function Find(routes: seq<Route>, q: Query): (i: nat)
    ensures i <= |routes|
    ensures i < |routes| ==> Matches(q, routes[i])
    ensures forall k :: 0 <= k < i ==> !Matches(q, routes[k])
  {
    if routes == [] then 0
    else
      var i := Find(routes[..|routes| - 1], q);
      if i < |routes| - 1 || Matches(q, routes[|routes| - 1]) then i else |routes|
  }

  // ---------- adding ----------

  function Count(routes: seq<Route>, prefix: Address, length: nat): nat {
    if routes == [] then 0
    else
      var last := routes[|routes| - 1];
      Count(routes[..|routes| - 1], prefix, length) + if last.prefix == prefix && last.length == length then 1 else 0
  }

  /** A refresh with the same sequence number keeps what probing has learned. */
  function Refreshed(was: Route, c: Route): Route {
    if c.sequence == was.sequence then c.(probe := was.probe) else c
  }

  /** The table after an accepted add, or None. */
  function Add(routes: seq<Route>, maxRoutes: nat, route: Route): Option<seq<Route>> {
    if !Acceptable(route) then None
    else
      var c := Candidate(route);
      var i := Find(routes, SameAs(c));
      if i < |routes| then Some(routes[i := Refreshed(routes[i], c)])
      else if |routes| >= maxRoutes || Count(routes, c.prefix, c.length) >= MAX_CANDIDATES_PER_PREFIX then None
      else Some(routes + [c])
  }

  // ---------- removing ----------

  datatype Removal =
    | ToOrVia(peer: NodeId)
    | Older(origin: NodeId, prefix: Address, length: nat, minimum: nat)
    | Expired(now: Time)

  predicate LeaseExpired(r: Route, now: Time) {
    r.kind.Relay? && now >= r.validatedAt && now - r.validatedAt >= 1000 * r.lease
  }

  predicate Drops(x: Removal, r: Route) {
    match x
    case ToOrVia(peer) => r.destination == peer || r.nextHop == peer
    case Older(origin, prefix, length, minimum) =>
      r.kind.Relay? && r.origin == origin && r.prefix == prefix && r.length == length && r.sequence < minimum
    case Expired(now) => LeaseExpired(r, now)
  }

  function Kept(routes: seq<Route>, x: Removal): seq<Route> {
    if routes == [] then []
    else
      var last := routes[|routes| - 1];
      Kept(routes[..|routes| - 1], x) + if Drops(x, last) then [] else [last]
  }

  // ---------- probing ----------

  datatype ProbeEvent = Sent(now: Time) | Succeeded(now: Time, rtt: int) | Failed(now: Time)

  /** A success lifts suppression only once the hold-down has passed. */
  function ProbeAfter(p: Probe, e: ProbeEvent): Probe {
    match e
    case Sent(now) => p.(sentAt := Some(now))
    case Succeeded(now, rtt) =>
      var q := p.(validatedAt := Some(now), rtt := Some(rtt));
      if !p.failed || (p.holdUntil.Some? && now >= p.holdUntil.value)
      then q.(failed := false, failures := 0, holdUntil := None) else q
    case Failed(now) =>
      p.(failed := true, failures := if p.failures < MAX_FAILURES then p.failures + 1 else p.failures,
         holdUntil := Some(now + PROBE_HOLD_DOWN))
  }

  function Probed(routes: seq<Route>, destination: NodeId, nextHop: NodeId, prefix: Address, length: nat,
                  sequence: nat, e: ProbeEvent): Option<seq<Route>> {
    if !ValidPrefix(prefix, length) || (e.Succeeded? && e.rtt < 0) then None
    else
      var i := Find(routes, Target(destination, nextHop, Canonical(prefix, length), length, sequence));
      if i == |routes| then None
      else Some(routes[i := routes[i].(probe := ProbeAfter(routes[i].probe, e))])
  }

  // ---------- the table invariant ----------

  ghost predicate RouteOk(r: Route) {
    && Acceptable(r) && r.prefix == Canonical(r.prefix, r.length)
    && (r.probe.failed ==> r.probe.holdUntil.Some?)
  }

  predicate SameCandidate(a: Route, b: Route) {
    Matches(SameAs(a), b)
  }

  ghost predicate Distinct(routes: seq<Route>) {
    forall i, j :: 0 <= i < j < |routes| ==> !SameCandidate(routes[i], routes[j])
  }

  lemma OneCandidate(routes: seq<Route>, i: nat, j: nat)
    requires Distinct(routes) && i < |routes| && j < |routes|
    requires SameCandidate(routes[i], routes[j]) && SameCandidate(routes[j], routes[i])
    ensures i == j
  {
  }

  ghost predicate Bounded(routes: seq<Route>) {
    forall prefix, length :: Count(routes, prefix, length) <= MAX_CANDIDATES_PER_PREFIX
  }

  ghost predicate TableOk(routes: seq<Route>, maxRoutes: nat) {
    |routes| <= maxRoutes && (forall r :: r in routes ==> RouteOk(r)) && Distinct(routes) && Bounded(routes)
  }

  lemma {:induction false} CountUpdate(routes: seq<Route>, i: nat, r: Route, prefix: Address, length: nat)
    requires i < |routes| && r.prefix == routes[i].prefix && r.length == routes[i].length
    ensures Count(routes[i := r], prefix, length) == Count(routes, prefix, length)
  {
    var n := |routes| - 1;
    if i < n {
      CountUpdate(routes[..n], i, r, prefix, length);
      assert routes[i := r][..n] == routes[..n][i := r];
    } else {
      assert routes[i := r][..n] == routes[..n];
    }
  }

  lemma UpdateBounded(routes: seq<Route>, i: nat, r: Route)
    requires Bounded(routes) && i < |routes| && r.prefix == routes[i].prefix && r.length == routes[i].length
    ensures Bounded(routes[i := r])
  {
    var after := routes[i := r];
    forall prefix, length ensures Count(after, prefix, length) <= MAX_CANDIDATES_PER_PREFIX {
      CountUpdate(routes, i, r, prefix, length);
    }
  }

  lemma AppendBounded(routes: seq<Route>, r: Route)
    requires Bounded(routes) && Count(routes, r.prefix, r.length) < MAX_CANDIDATES_PER_PREFIX
    ensures Bounded(routes + [r])
  {
    assert (routes + [r])[..|routes|] == routes;
  }

  /** Replacing a candidate by one with the same key keeps the table in order. */
  lemma UpdateKeepsTable(routes: seq<Route>, maxRoutes: nat, i: nat, r: Route)
    requires TableOk(routes, maxRoutes) && i < |routes| && SameCandidate(routes[i], r) && RouteOk(r)
    ensures TableOk(routes[i := r], maxRoutes)
  {
    UpdateBounded(routes, i, r);
  }

  lemma CandidateOk(route: Route)
    requires Acceptable(route) && route.probe == UNPROBED
    ensures RouteOk(Candidate(route))
  {
    CanonicalIsFixed(route.prefix, route.length);
  }

  lemma AddKeepsTable(routes: seq<Route>, maxRoutes: nat, route: Route)
    requires TableOk(routes, maxRoutes) && route.probe == UNPROBED
    ensures Add(routes, maxRoutes, route).Some? ==> TableOk(Add(routes, maxRoutes, route).value, maxRoutes)
  {
    if Add(routes, maxRoutes, route).Some? {
      var c := Candidate(route);
      CandidateOk(route);
      var i := Find(routes, SameAs(c));
      if i < |routes| {
        assert RouteOk(routes[i]);
        UpdateKeepsTable(routes, maxRoutes, i, Refreshed(routes[i], c));
      } else {
        AppendBounded(routes, c);
      }
    }
  }

  lemma ProbedKeepsTable(routes: seq<Route>, maxRoutes: nat, destination: NodeId, nextHop: NodeId, prefix: Address,
                         length: nat, sequence: nat, e: ProbeEvent)
    requires TableOk(routes, maxRoutes)
    ensures var r := Probed(routes, destination, nextHop, prefix, length, sequence, e);
      r.Some? ==> TableOk(r.value, maxRoutes)
  {
    var r := Probed(routes, destination, nextHop, prefix, length, sequence, e);
    if r.Some? {
      var i := Find(routes, Target(destination, nextHop, Canonical(prefix, length), length, sequence));
      assert RouteOk(routes[i]);
      UpdateKeepsTable(routes, maxRoutes, i, routes[i].(probe := ProbeAfter(routes[i].probe, e)));
    }
  }

  lemma {:induction false} KeptExactly(routes: seq<Route>, x: Removal)
    ensures forall r :: r in Kept(routes, x) <==> r in routes && !Drops(x, r)
    ensures |Kept(routes, x)| <= |routes|
    ensures (exists r :: r in routes && Drops(x, r)) ==> |Kept(routes, x)| < |routes|
  {
    if routes != [] {
      var n := |routes| - 1;
      KeptExactly(routes[..n], x);
      assert routes == routes[..n] + [routes[n]];
    }
  }

  lemma {:induction false} NothingDropped(routes: seq<Route>, x: Removal)
    requires forall r :: r in routes ==> !Drops(x, r)
    ensures Kept(routes, x) == routes
  {
    if routes != [] {
      var n := |routes| - 1;
      NothingDropped(routes[..n], x);
      assert routes == routes[..n] + [routes[n]];
    }
  }

  lemma {:induction false} KeptDistinct(routes: seq<Route>, x: Removal)
    requires Distinct(routes)
    ensures Distinct(Kept(routes, x))
  {
    if routes != [] {
      var n := |routes| - 1;
      KeptDistinct(routes[..n], x);
      KeptExactly(routes[..n], x);
      var shorter := Kept(routes[..n], x);
      forall i | 0 <= i < |shorter| ensures !SameCandidate(shorter[i], routes[n]) {
        assert shorter[i] in routes[..n];
      }
    }
  }

  lemma {:induction false} KeptCounts(routes: seq<Route>, x: Removal, prefix: Address, length: nat)
    ensures Count(Kept(routes, x), prefix, length) <= Count(routes, prefix, length)
  {
    if routes != [] {
      var n := |routes| - 1;
      KeptCounts(routes[..n], x, prefix, length);
      var shorter := Kept(routes[..n], x);
      if !Drops(x, routes[n]) {
        assert (shorter + [routes[n]])[..|shorter|] == shorter;
      } else {
        assert shorter + [] == shorter;
      }
    }
  }

  /** Dropping a candidate of a prefix makes room under that prefix. */
  lemma {:induction false} KeptFreesRoom(routes: seq<Route>, x: Removal, r: Route)
    requires r in routes && Drops(x, r)
    ensures Count(Kept(routes, x), r.prefix, r.length) < Count(routes, r.prefix, r.length)
  {
    var n := |routes| - 1;
    var shorter := Kept(routes[..n], x);
    if r == routes[n] {
      KeptCounts(routes[..n], x, r.prefix, r.length);
      assert shorter + [] == shorter;
    } else {
      KeptFreesRoom(routes[..n], x, r);
      if !Drops(x, routes[n]) {
        assert (shorter + [routes[n]])[..|shorter|] == shorter;
      } else {
        assert shorter + [] == shorter;
      }
    }
  }

  lemma KeptKeepsTable(routes: seq<Route>, maxRoutes: nat, x: Removal)
    requires TableOk(routes, maxRoutes)
    ensures TableOk(Kept(routes, x), maxRoutes)
  {
    KeptExactly(routes, x);
    KeptDistinct(routes, x);
    forall prefix, length ensures Count(Kept(routes, x), prefix, length) <= MAX_CANDIDATES_PER_PREFIX {
      KeptCounts(routes, x, prefix, length);
    }
  }

  // ---------- contents after an add ----------

  /** The candidate as it ends up in the table. */
  function Stored(routes: seq<Route>, c: Route): Route {
    var i := Find(routes, SameAs(c));
    if i < |routes| then Refreshed(routes[i], c) else c
  }

  /** An accepted add puts in the new candidate in place of the one it refreshes, and touches no other. */
  lemma AddExactly(routes: seq<Route>, maxRoutes: nat, route: Route)
    requires Distinct(routes) && Add(routes, maxRoutes, route).Some?
    ensures var c := Candidate(route);
      forall r :: r in Add(routes, maxRoutes, route).value <==>
        r == Stored(routes, c) || (r in routes && !SameCandidate(c, r))
  {
    var c := Candidate(route);
    var i := Find(routes, SameAs(c));
    var after := Add(routes, maxRoutes, route).value;
    if i < |routes| {
      forall r | r in routes && !SameCandidate(c, r) ensures r in after {
        var j :| 0 <= j < |routes| && routes[j] == r;
        assert after[j] == r;
      }
      assert after[i] == Stored(routes, c);
      forall r | r in after ensures r == Stored(routes, c) || (r in routes && !SameCandidate(c, r)) {
        var j :| 0 <= j < |after| && after[j] == r;
        if j != i {
          assert !SameCandidate(routes[Min(i, j)], routes[Max(i, j)]);
        }
      }
    }
  }

  // ---------- lookup ----------

  predicate Usable(r: Route, a: Address) {
    !r.probe.failed && Covers(r.prefix, r.length, a)
  }

  /** Longer prefix first, then direct over relay, then the shorter relay path. */
  predicate Beats(r: Route, best: Route) {
    || r.length > best.length
    || (r.length == best.length &&
        ((r.kind.Direct? && best.kind.Relay?) || (r.kind.Relay? && best.kind.Relay? && |r.path| < |best.path|)))
  }

  /** The index of the winner of a left-to-right scan, or -1. */
  function Best(routes: seq<Route>, a: Address): (b: int)
    ensures -1 <= b < |routes|
  {
    if routes == [] then -1
    else
      var n := |routes| - 1;
      var b := Best(routes[..n], a);
      if !Usable(routes[n], a) then b
      else if b < 0 || Beats(routes[n], routes[b]) then n
      else b
  }

  function Lookup(routes: seq<Route>, a: Address): Option<Route> {
    var b := Best(routes, a);
    if b < 0 || (routes[b].kind.Relay? && !PathFits(routes[b])) then None else Some(routes[b])
  }

  /** Candidate `b` is usable, no usable candidate beats it, and it beats every usable one before it. */
  ghost predicate FirstBest(routes: seq<Route>, a: Address, b: int) {
    && 0 <= b < |routes| && Usable(routes[b], a)
    && (forall j :: 0 <= j < |routes| && Usable(routes[j], a) ==> !Beats(routes[j], routes[b]))
    && (forall j :: 0 <= j < b && Usable(routes[j], a) ==> Beats(routes[b], routes[j]))
  }

  lemma {:induction false} BestIsFirstBest(routes: seq<Route>, a: Address)
    requires forall r :: r in routes ==> !r.kind.UnknownHop?
    ensures var b := Best(routes, a);
      if b < 0 then forall r :: r in routes ==> !Usable(r, a) else FirstBest(routes, a, b)
  {
    if routes != [] {
      var n := |routes| - 1;
      BestIsFirstBest(routes[..n], a);
      assert routes == routes[..n] + [routes[n]];
      var b := Best(routes[..n], a);
      if b >= 0 && Usable(routes[n], a) {
        forall j | 0 <= j < n && Usable(routes[j], a)
          ensures Beats(routes[n], routes[b]) ==> Beats(routes[n], routes[j])
        {
          assert routes[..n][j] == routes[j] && !Beats(routes[j], routes[b]);
        }
      }
    }
  }

  /**
   In every reachable table lookup returns the first best usable candidate, and nothing exactly when there is
   none: the re-check of the winner's path never fires.
   */
  lemma LookupIsExact(routes: seq<Route>, maxRoutes: nat, a: Address)
    requires TableOk(routes, maxRoutes)
    ensures Lookup(routes, a).None? <==> forall r :: r in routes ==> !Usable(r, a)
    ensures Lookup(routes, a).Some? ==> FirstBest(routes, a, Best(routes, a)) && Lookup(routes, a).value == routes[Best(routes, a)]
  {
    forall r | r in routes ensures !r.kind.UnknownHop? {
      assert RouteOk(r);
    }
    BestIsFirstBest(routes, a);
    var b := Best(routes, a);
    if b >= 0 {
      assert routes[b] in routes && RouteOk(routes[b]);
    }
  }

  /** A candidate that may carry traffic to the address: no failed probe, and the leading bits agree. */
  ghost predicate Reaches(r: Route, a: Address) {
    !r.probe.failed && Covers(r.prefix, r.length, a)
  }

  /**
   Candidate `i` has the longest prefix of all that reach the address; of those a direct one if there is any, else
   one of the shortest relay path; and it comes before all others as good.
   */
  ghost predicate LongestMatch(routes: seq<Route>, a: Address, i: nat) {
    && i < |routes| && Reaches(routes[i], a)
    && (forall r :: r in routes && Reaches(r, a) ==> r.length <= routes[i].length)
    && (forall r :: r in routes && Reaches(r, a) && r.length == routes[i].length && r.kind.Direct? ==> routes[i].kind.Direct?)
    && (forall r :: r in routes && Reaches(r, a) && r.length == routes[i].length && routes[i].kind.Relay? ==>
          r.kind.Relay? && |routes[i].path| <= |r.path|)
    && (forall j :: 0 <= j < i && Reaches(routes[j], a) ==>
          routes[j].length < routes[i].length || routes[j].kind != routes[i].kind || |routes[j].path| != |routes[i].path|)
  }

  lemma BestIsLongestMatch(routes: seq<Route>, maxRoutes: nat, a: Address)
    requires TableOk(routes, maxRoutes) && Best(routes, a) >= 0
    ensures LongestMatch(routes, a, Best(routes, a))
  {
    LookupIsExact(routes, maxRoutes, a);
    var b := Best(routes, a);
    assert routes[b] in routes && RouteOk(routes[b]);
    forall r | r in routes && Reaches(r, a) ensures !Beats(r, routes[b]) && RouteOk(r) {
      var j :| 0 <= j < |routes| && routes[j] == r;
      assert Usable(routes[j], a);
    }
    forall j | 0 <= j < b && Reaches(routes[j], a) ensures Beats(routes[b], routes[j]) {
      assert Usable(routes[j], a);
    }
  }

  lemma LongestMatchUnique(routes: seq<Route>, maxRoutes: nat, a: Address, i: nat, j: nat)
    requires TableOk(routes, maxRoutes) && LongestMatch(routes, a, i) && LongestMatch(routes, a, j)
    ensures i == j
  {
    assert routes[i] in routes && routes[j] in routes && RouteOk(routes[i]) && RouteOk(routes[j]);
  }

  /** Lookup is longest-prefix match with its tie order: it returns exactly the candidate that fits that description. */
  lemma LookupIsLongestMatch(routes: seq<Route>, maxRoutes: nat, a: Address)
    requires TableOk(routes, maxRoutes)
    ensures Lookup(routes, a).None? <==> forall r :: r in routes ==> !Reaches(r, a)
    ensures forall i: nat :: LongestMatch(routes, a, i) ==> Lookup(routes, a) == Some(routes[i])
    ensures Lookup(routes, a).Some? ==> exists i: nat :: LongestMatch(routes, a, i) && Lookup(routes, a).value == routes[i]
  {
    LookupIsExact(routes, maxRoutes, a);
    forall r | r in routes ensures Usable(r, a) <==> Reaches(r, a) {
    }
    var b := Best(routes, a);
    if b >= 0 {
      BestIsLongestMatch(routes, maxRoutes, a);
      forall i: nat | LongestMatch(routes, a, i) ensures i == b {
        LongestMatchUnique(routes, maxRoutes, a, i, b);
      }
    }
    forall i: nat | LongestMatch(routes, a, i) ensures Lookup(routes, a) == Some(routes[i]) {
      assert routes[i] in routes && RouteOk(routes[i]);
    }
  }
}
