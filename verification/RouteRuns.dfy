/**
 Whole runs of a node's routing table. Merging a gossiped prefix takes the engine's lock three times, for the
 snapshot, the removal and the addition; direct installs, removals, expiries and probes by other threads may
 come anywhere between. Merges themselves share one receive thread.
 */
module RouteRuns {
  import opened Basics
  import opened IpPrefixes
  import opened Routes
  import RouteLaws
  import opened PeerTable

  const DEFAULT_LEASE := 90

  /** Where the receive thread stands: between merges, before the removal, or before the addition. */
  datatype Stage = Idle | Removing(route: Route) | Adding(route: Route)

  datatype State = State(routes: seq<Route>, stage: Stage)

  datatype Op =
    | InstallDirect(prefix: Address, length: nat, peer: NodeId, now: Time)
    | RemovePeer(peer: NodeId)
    | Expire(now: Time)
    | RecordProbe(destination: NodeId, nextHop: NodeId, prefix: Address, length: nat, sequence: nat, event: ProbeEvent)
    | Clear
    | Snapshot(nodeId: NodeId, path: seq<NodeId>, ap: AdvertisedPrefix, now: Time)
    | RemoveOutdated
    | AddPlanned

  function DirectRoute(prefix: Address, length: nat, peer: NodeId, now: Time): Route {
    Route(prefix, length, Direct, peer, peer, [peer], ZERO_NODE, ZERO_NODE, 1, DEFAULT_LEASE, 1, now, UNPROBED)
  }

  predicate WellPosed(op: Op) {
    op.Snapshot? ==> |op.path| >= 2
  }

  /** An operation of another thread. */
  predicate Foreign(op: Op) {
    !op.Snapshot? && !op.RemoveOutdated? && !op.AddPlanned?
  }

  /** What other threads do to the table. */
  function Change(maxRoutes: nat, routes: seq<Route>, op: Op): seq<Route>
    requires Foreign(op)
  {
    match op
    case InstallDirect(prefix, length, peer, now) => AddOrKeep(routes, maxRoutes, DirectRoute(prefix, length, peer, now))
    case RemovePeer(peer) => Kept(routes, ToOrVia(peer))
    case Expire(now) => Kept(routes, Expired(now))
    case RecordProbe(destination, nextHop, prefix, length, sequence, event) =>
      var r := Probed(routes, destination, nextHop, prefix, length, sequence, event);
      if r.Some? then r.value else routes
    case Clear => []
  }

  function Planned(p: Plan): Stage {
    match p
    case Skip(_) => Idle
    case Refresh(route) => Adding(route)
    case Replace(route) => Removing(route)
    case Install(route) => Adding(route)
  }

  /** A section of a merge happens only at its stage. */
  function Next(self: NodeId, maxRoutes: nat, s: State, op: Op): State
    requires WellPosed(op)
  {
    match op
    case Snapshot(nodeId, path, ap, now) =>
      if !s.stage.Idle? then s
      else s.(stage := Planned(Decide(s.routes, nodeId, path, PathOk(path, self, nodeId), ap, now)))
    case RemoveOutdated => if s.stage.Removing? then State(Superseded(s.routes, s.stage.route), Adding(s.stage.route)) else s
    case AddPlanned => if s.stage.Adding? then State(AddOrKeep(s.routes, maxRoutes, s.stage.route), Idle) else s
    case _ => s.(routes := Change(maxRoutes, s.routes, op))
  }

  function Run(self: NodeId, maxRoutes: nat, s: State, ops: seq<Op>): State
    requires forall op :: op in ops ==> WellPosed(op)
    decreases |ops|
  {
    if ops == [] then s else Run(self, maxRoutes, Next(self, maxRoutes, s, ops[0]), ops[1..])
  }

  /** With nothing in between, the three sections are the merge of one prefix. */
  lemma Uninterrupted(self: NodeId, maxRoutes: nat, routes: seq<Route>, nodeId: NodeId, path: seq<NodeId>, ap: AdvertisedPrefix, now: Time)
    requires |path| >= 2
    ensures var begun := Next(self, maxRoutes, State(routes, Idle), Snapshot(nodeId, path, ap, now));
      Next(self, maxRoutes, Next(self, maxRoutes, begun, RemoveOutdated), AddPlanned) ==
      State(MergePrefix(routes, maxRoutes, nodeId, path, PathOk(path, self, nodeId), ap, now).0, Idle)
  {
  }

  // ---------- the table stays in order ----------

  /** The route a merge means to add. */
  ghost predicate Learned(route: Route) {
    && route.kind.Relay? && route.origin == route.destination && route.probe == UNPROBED
    && Candidate(route).origin == route.origin
  }

  function EntryOf(route: Route): Entry {
    Entry(route.origin, Canonical(route.prefix, route.length), route.length)
  }

  /** Nothing held is newer than the planned route, and once the removal is done nothing is older. */
  ghost predicate StageOk(routes: seq<Route>, stage: Stage) {
    match stage
    case Idle => true
    case Removing(route) => Learned(route) && forall r :: r in routes && Belongs(r, EntryOf(route)) ==> r.sequence < route.sequence
    case Adding(route) => Learned(route) && forall r :: r in routes && Belongs(r, EntryOf(route)) ==> r.sequence == route.sequence
  }

  ghost predicate StateOk(maxRoutes: nat, s: State) {
    TableOk(s.routes, maxRoutes) && Fresh(s.routes) && StageOk(s.routes, s.stage)
  }

  lemma ChangeKeepsTable(maxRoutes: nat, routes: seq<Route>, op: Op)
    requires TableOk(routes, maxRoutes) && Foreign(op)
    ensures TableOk(Change(maxRoutes, routes, op), maxRoutes)
  {
    match op
    case InstallDirect(prefix, length, peer, now) => AddKeepsTable(routes, maxRoutes, DirectRoute(prefix, length, peer, now));
    case RemovePeer(peer) => KeptKeepsTable(routes, maxRoutes, ToOrVia(peer));
    case Expire(now) => KeptKeepsTable(routes, maxRoutes, Expired(now));
    case RecordProbe(destination, nextHop, prefix, length, sequence, event) =>
      ProbedKeepsTable(routes, maxRoutes, destination, nextHop, prefix, length, sequence, event);
    case Clear =>
  }

  /** A direct install with room leaves a one-hop route to the peer over this prefix and takes no other route away. */
  lemma DirectInstalled(maxRoutes: nat, routes: seq<Route>, prefix: Address, length: nat, peer: NodeId, now: Time)
    requires TableOk(routes, maxRoutes) && !prefix.family.OtherFamily? && length <= BitWidth(prefix.family)
    requires |routes| < maxRoutes && Count(routes, Canonical(prefix, length), length) < 8
    ensures var after := Change(maxRoutes, routes, InstallDirect(prefix, length, peer, now));
      && (exists r :: r in after && r.kind == Direct && r.prefix == Canonical(prefix, length) && r.length == length && r.nextHop == peer
            && r.destination == peer && r.path == [peer] && r.sequence == 1 && r.metric == 1 && r.lease == 90 && r.validatedAt == now)
      && forall r :: r in routes && !(r.kind == Direct && r.destination == peer) ==> r in after
  {
    var route := DirectRoute(prefix, length, peer, now);
    RouteLaws.AddAccepts(routes, maxRoutes, route);
    RouteLaws.AddStores(routes, maxRoutes, route);
  }

  /** Every learned candidate of `after` is one of `routes`, but for what probing has found. */
  ghost predicate LearnsNothing(routes: seq<Route>, after: seq<Route>) {
    forall r :: r in after && r.kind.Relay? ==> exists was :: was in routes && r == was.(probe := r.probe)
  }

  lemma ChangeLearnsNothing(maxRoutes: nat, routes: seq<Route>, op: Op)
    requires Distinct(routes) && Foreign(op)
    ensures LearnsNothing(routes, Change(maxRoutes, routes, op))
  {
    var after := Change(maxRoutes, routes, op);
    match op
    case InstallDirect(prefix, length, peer, now) =>
      var route := DirectRoute(prefix, length, peer, now);
      if Add(routes, maxRoutes, route).Some? {
        AddExactly(routes, maxRoutes, route);
      }
    case RemovePeer(peer) => KeptExactly(routes, ToOrVia(peer));
    case Expire(now) => KeptExactly(routes, Expired(now));
    case RecordProbe(_, _, _, _, _, _) =>
      forall r | r in after ensures exists was :: was in routes && r == was.(probe := r.probe) {
        var i :| 0 <= i < |after| && after[i] == r;
        assert routes[i] in routes && r == routes[i].(probe := r.probe);
      }
    case Clear =>
  }

  lemma LearningNothingKeepsOk(routes: seq<Route>, after: seq<Route>, stage: Stage)
    requires Fresh(routes) && StageOk(routes, stage) && LearnsNothing(routes, after)
    ensures Fresh(after) && StageOk(after, stage)
  {
    forall r, e | r in after && Belongs(r, e)
      ensures r.origin == r.destination && exists was :: was in routes && Belongs(was, e) && was.sequence == r.sequence
    {
      var was :| was in routes && r == was.(probe := r.probe);
      assert Belongs(was, e);
    }
    forall r | r in after && r.kind.Relay? ensures r.origin == r.destination {
      assert Belongs(r, Entry(r.origin, r.prefix, r.length));
    }
  }

  /** A snapshot never plans a route older than what is held. */
  lemma SnapshotOk(self: NodeId, maxRoutes: nat, routes: seq<Route>, nodeId: NodeId, path: seq<NodeId>, ap: AdvertisedPrefix, now: Time)
    requires TableOk(routes, maxRoutes) && Fresh(routes) && |path| >= 2
    ensures StageOk(routes, Planned(Decide(routes, nodeId, path, PathOk(path, self, nodeId), ap, now)))
  {
    var plan := Decide(routes, nodeId, path, PathOk(path, self, nodeId), ap, now);
    if !plan.Skip? {
      var route := RelayRoute(nodeId, path, ap, now);
      RelayRouteAcceptable(self, nodeId, path, ap, now);
      HighestIsMaximum(routes, EntryOf(route));
      if plan.Refresh? {
        RefreshFindsEqual(routes, route);
      }
    }
  }

  lemma RefreshFindsEqual(routes: seq<Route>, route: Route)
    requires Fresh(routes) && route.kind.Relay? && route.origin == route.destination == Candidate(route).origin
    requires var i := Find(routes, SameAs(Candidate(route))); i < |routes| && routes[i].sequence == route.sequence
    ensures forall r :: r in routes && Belongs(r, EntryOf(route)) ==> r.sequence == route.sequence
  {
    var held := routes[Find(routes, SameAs(Candidate(route)))];
    assert held in routes && Belongs(held, EntryOf(route));
  }

  lemma RemovalOk(maxRoutes: nat, routes: seq<Route>, route: Route)
    requires StateOk(maxRoutes, State(routes, Removing(route)))
    ensures StateOk(maxRoutes, State(Superseded(routes, route), Adding(route)))
    ensures forall r :: r in Superseded(routes, route) ==> !Belongs(r, EntryOf(route))
  {
    var e, x := EntryOf(route), Older(route.origin, Canonical(route.prefix, route.length), route.length, route.sequence);
    KeptKeepsTable(routes, maxRoutes, x);
    KeptExactly(routes, x);
    forall r | r in Superseded(routes, route) ensures r in routes && !Belongs(r, e) {
      assert r in routes ==> RouteOk(r);
    }
  }

  /** Adding puts in the planned candidate and touches nothing else. */
  lemma AdditionOk(maxRoutes: nat, routes: seq<Route>, route: Route)
    requires StateOk(maxRoutes, State(routes, Adding(route)))
    ensures StateOk(maxRoutes, State(AddOrKeep(routes, maxRoutes, route), Idle))
    ensures Add(routes, maxRoutes, route).Some? ==> InstallsOnly(routes, Candidate(route), Add(routes, maxRoutes, route).value)
  {
    AddKeepsTable(routes, maxRoutes, route);
    if Add(routes, maxRoutes, route).Some? {
      var c := Candidate(route);
      forall r | r in routes ensures !Drops(Older(c.origin, c.prefix, c.length, c.sequence), r) {
        assert Drops(Older(c.origin, c.prefix, c.length, c.sequence), r) ==> Belongs(r, EntryOf(route));
      }
      AddInstallsOnly(routes, routes, maxRoutes, route);
      HighestAtMost(routes, EntryOf(route), route.sequence);
      InstallKeepsFresh(routes, c, Add(routes, maxRoutes, route).value);
    }
  }

  lemma HighestAtMost(routes: seq<Route>, e: Entry, bound: nat)
    requires forall r :: r in routes && Belongs(r, e) ==> r.sequence <= bound
    ensures Highest(routes, e) <= bound
  {
    HighestIsMaximum(routes, e);
  }

  lemma NextKeepsOk(self: NodeId, maxRoutes: nat, s: State, op: Op)
    requires StateOk(maxRoutes, s) && WellPosed(op)
    ensures StateOk(maxRoutes, Next(self, maxRoutes, s, op))
  {
    match op
    case Snapshot(nodeId, path, ap, now) => SnapshotOk(self, maxRoutes, s.routes, nodeId, path, ap, now);
    case RemoveOutdated => if s.stage.Removing? { RemovalOk(maxRoutes, s.routes, s.stage.route); }
    case AddPlanned => if s.stage.Adding? { AdditionOk(maxRoutes, s.routes, s.stage.route); }
    case _ =>
      ChangeKeepsTable(maxRoutes, s.routes, op);
      ChangeLearnsNothing(maxRoutes, s.routes, op);
      LearningNothingKeepsOk(s.routes, Change(maxRoutes, s.routes, op), s.stage);
  }

  /**
   Every reachable table is in order, and its learned candidates carry one sequence number per entry, whatever
   other threads do between the sections of a merge.
   */
  lemma {:induction false} EveryTableFresh(self: NodeId, maxRoutes: nat, s: State, ops: seq<Op>)
    requires StateOk(maxRoutes, s) && forall op :: op in ops ==> WellPosed(op)
    ensures StateOk(maxRoutes, Run(self, maxRoutes, s, ops))
    decreases |ops|
  {
    if ops != [] {
      NextKeepsOk(self, maxRoutes, s, ops[0]);
      EveryTableFresh(self, maxRoutes, Next(self, maxRoutes, s, ops[0]), ops[1..]);
    }
  }

  // ---------- a newer advertisement ----------

  /** No section of a merge lowers an entry's number, but for the removal and its own entry. */
  lemma SectionsNeverLower(self: NodeId, maxRoutes: nat, s: State, op: Op, e: Entry)
    requires StateOk(maxRoutes, s) && WellPosed(op) && !Foreign(op)
    requires op.RemoveOutdated? && s.stage.Removing? ==> e != EntryOf(s.stage.route)
    ensures Highest(Next(self, maxRoutes, s, op).routes, e) >= Highest(s.routes, e)
  {
    var after := Next(self, maxRoutes, s, op).routes;
    if op.RemoveOutdated? && s.stage.Removing? {
      RemovalSparesOthers(s.routes, s.stage.route, e);
    } else if op.AddPlanned? && s.stage.Adding? && Add(s.routes, maxRoutes, s.stage.route).Some? {
      var route := s.stage.route;
      AdditionOk(maxRoutes, s.routes, route);
      HighestAtMost(s.routes, EntryOf(route), route.sequence);
      InstallNeverLowers(s.routes, Candidate(route), after, e);
    }
  }

  lemma RemovalSparesOthers(routes: seq<Route>, route: Route, e: Entry)
    requires e != EntryOf(route)
    ensures Highest(Superseded(routes, route), e) >= Highest(routes, e)
  {
    var after, x := Superseded(routes, route), Older(route.origin, Canonical(route.prefix, route.length), route.length, route.sequence);
    KeptExactly(routes, x);
    HighestIsMaximum(routes, e);
    HighestIsMaximum(after, e);
    if Highest(routes, e) > 0 {
      var r :| r in routes && Belongs(r, e) && r.sequence == Highest(routes, e);
      assert r in after;
    }
  }

  /** A free slot in the table and under the prefix. */
  predicate HasRoom(maxRoutes: nat, routes: seq<Route>, e: Entry) {
    |routes| < maxRoutes && Count(routes, e.prefix, e.length) < MAX_CANDIDATES_PER_PREFIX
  }

  /** There is a slot for the entry, or one that its outdated candidate is going to free. */
  ghost predicate SlotKept(maxRoutes: nat, routes: seq<Route>, e: Entry) {
    HasRoom(maxRoutes, routes, e) || exists held :: held in routes && Belongs(held, e)
  }

  lemma RemovalKeepsSlot(maxRoutes: nat, routes: seq<Route>, x: Removal, e: Entry)
    requires TableOk(routes, maxRoutes) && SlotKept(maxRoutes, routes, e)
    ensures SlotKept(maxRoutes, Kept(routes, x), e)
  {
    KeptExactly(routes, x);
    KeptCounts(routes, x, e.prefix, e.length);
    if !HasRoom(maxRoutes, routes, e) {
      var held :| held in routes && Belongs(held, e);
      if Drops(x, held) {
        KeptFreesRoom(routes, x, held);
      } else {
        assert held in Kept(routes, x);
      }
    }
  }

  lemma ChangeKeepsSlot(maxRoutes: nat, routes: seq<Route>, op: Op, e: Entry)
    requires TableOk(routes, maxRoutes) && Foreign(op) && !op.InstallDirect? && SlotKept(maxRoutes, routes, e)
    ensures SlotKept(maxRoutes, Change(maxRoutes, routes, op), e)
  {
    match op
    case RemovePeer(peer) => RemovalKeepsSlot(maxRoutes, routes, ToOrVia(peer), e);
    case Expire(now) => RemovalKeepsSlot(maxRoutes, routes, Expired(now), e);
    case RecordProbe(destination, nextHop, prefix, length, sequence, event) =>
      var i := Find(routes, Target(destination, nextHop, Canonical(prefix, length), length, sequence));
      if i < |routes| {
        ProbeKeepsSlot(maxRoutes, routes, i, ProbeAfter(routes[i].probe, event), e);
      }
    case Clear =>
  }

  lemma ProbeKeepsSlot(maxRoutes: nat, routes: seq<Route>, i: nat, probe: Probe, e: Entry)
    requires i < |routes| && SlotKept(maxRoutes, routes, e)
    ensures SlotKept(maxRoutes, routes[i := routes[i].(probe := probe)], e)
  {
    var after := routes[i := routes[i].(probe := probe)];
    CountUpdate(routes, i, after[i], e.prefix, e.length);
    if !HasRoom(maxRoutes, routes, e) {
      var held :| held in routes && Belongs(held, e);
      var j :| 0 <= j < |routes| && routes[j] == held;
      assert after[j] in after && Belongs(after[j], e);
    }
  }

  lemma {:induction false} ForeignRun(self: NodeId, maxRoutes: nat, s: State, ops: seq<Op>, e: Entry)
    requires StateOk(maxRoutes, s) && forall op :: op in ops ==> WellPosed(op) && Foreign(op)
    ensures var end := Run(self, maxRoutes, s, ops);
      && StateOk(maxRoutes, end) && end.stage == s.stage
      && ((forall r :: r in s.routes ==> !Belongs(r, e)) ==> forall r :: r in end.routes ==> !Belongs(r, e))
      && (SlotKept(maxRoutes, s.routes, e) && (forall op :: op in ops ==> !op.InstallDirect?) ==> SlotKept(maxRoutes, end.routes, e))
    decreases |ops|
  {
    if ops != [] {
      var next := Next(self, maxRoutes, s, ops[0]);
      NextKeepsOk(self, maxRoutes, s, ops[0]);
      ChangeLearnsNothing(maxRoutes, s.routes, ops[0]);
      NoneLearned(s.routes, next.routes, e);
      if SlotKept(maxRoutes, s.routes, e) && !ops[0].InstallDirect? {
        ChangeKeepsSlot(maxRoutes, s.routes, ops[0], e);
      }
      ForeignRun(self, maxRoutes, next, ops[1..], e);
    }
  }

  lemma NoneLearned(routes: seq<Route>, after: seq<Route>, e: Entry)
    requires LearnsNothing(routes, after)
    ensures (forall r :: r in routes ==> !Belongs(r, e)) ==> forall r :: r in after ==> !Belongs(r, e)
  {
    forall r | r in after && Belongs(r, e) ensures exists was :: was in routes && Belongs(was, e) {
      var was :| was in routes && r == was.(probe := r.probe);
      assert Belongs(was, e);
    }
  }

  /** The state in which the addition runs: other threads' operations came before and after the removal. */
  function BeforeAddition(self: NodeId, maxRoutes: nat, routes: seq<Route>, start: Op, first: seq<Op>, second: seq<Op>): State
    requires WellPosed(start) && (forall op :: op in first ==> WellPosed(op)) && (forall op :: op in second ==> WellPosed(op))
  {
    var planned := Run(self, maxRoutes, Next(self, maxRoutes, State(routes, Idle), start), first);
    Run(self, maxRoutes, Next(self, maxRoutes, planned, RemoveOutdated), second)
  }

  ghost predicate AllForeign(ops: seq<Op>) {
    forall op :: op in ops ==> WellPosed(op) && Foreign(op)
  }

  ghost predicate InstallsNone(ops: seq<Op>) {
    forall op :: op in ops ==> !op.InstallDirect?
  }

  /** Up to the addition the entry is empty, and it has a slot unless a direct install took one. */
  lemma BeforeAdditionOk(self: NodeId, maxRoutes: nat, routes: seq<Route>, start: Op, first: seq<Op>, second: seq<Op>, route: Route)
    requires TableOk(routes, maxRoutes) && Fresh(routes) && WellPosed(start) && AllForeign(first) && AllForeign(second)
    requires Next(self, maxRoutes, State(routes, Idle), start) == State(routes, Removing(route))
    requires SlotKept(maxRoutes, routes, EntryOf(route))
    ensures var s := BeforeAddition(self, maxRoutes, routes, start, first, second);
      && StateOk(maxRoutes, s) && s.stage == Adding(route) && (forall r :: r in s.routes ==> !Belongs(r, EntryOf(route)))
      && (InstallsNone(first) && InstallsNone(second) ==> HasRoom(maxRoutes, s.routes, EntryOf(route)))
  {
    var e := EntryOf(route);
    var begun := State(routes, Removing(route));
    NextKeepsOk(self, maxRoutes, State(routes, Idle), start);
    ForeignRun(self, maxRoutes, begun, first, e);
    var planned := Run(self, maxRoutes, begun, first);
    RemovalOk(maxRoutes, planned.routes, route);
    if InstallsNone(first) {
      SupersedingKeepsSlot(maxRoutes, planned.routes, route);
    }
    ForeignRun(self, maxRoutes, Next(self, maxRoutes, planned, RemoveOutdated), second, e);
  }

  lemma SupersedingKeepsSlot(maxRoutes: nat, routes: seq<Route>, route: Route)
    requires TableOk(routes, maxRoutes) && SlotKept(maxRoutes, routes, EntryOf(route))
    ensures SlotKept(maxRoutes, Superseded(routes, route), EntryOf(route))
  {
    RemovalKeepsSlot(maxRoutes, routes, Older(route.origin, Canonical(route.prefix, route.length), route.length, route.sequence),
                     EntryOf(route));
  }

  /**
   A strictly newer advertisement for a held entry supersedes all that was held, whatever other threads do meanwhile.
   It is itself installed if and only if the table has room when the addition runs, which it has unless a direct
   install came after the snapshot. Otherwise the entry is empty.
   */
  lemma NewerNeverLost(self: NodeId, maxRoutes: nat, routes: seq<Route>, nodeId: NodeId, path: seq<NodeId>,
                       ap: AdvertisedPrefix, now: Time, first: seq<Op>, second: seq<Op>)
    requires TableOk(routes, maxRoutes) && Fresh(routes) && |path| >= 2 && PathOk(path, self, nodeId) && PrefixOk(ap)
    requires 0 < Highest(routes, EntryOf(RelayRoute(nodeId, path, ap, now))) < ap.sequence && AllForeign(first) && AllForeign(second)
    ensures var e := EntryOf(RelayRoute(nodeId, path, ap, now));
      var s := BeforeAddition(self, maxRoutes, routes, Snapshot(nodeId, path, ap, now), first, second);
      var after := Next(self, maxRoutes, s, AddPlanned).routes;
      && Highest(after, e) == (if HasRoom(maxRoutes, s.routes, e) then ap.sequence else 0)
      && (forall r :: r in after && Belongs(r, e) ==> r.sequence == ap.sequence && r.nextHop == path[0])
      && (InstallsNone(first) && InstallsNone(second) ==> HasRoom(maxRoutes, s.routes, e))
  {
    var route := RelayRoute(nodeId, path, ap, now);
    var e := EntryOf(route);
    NewerReplaces(self, maxRoutes, routes, nodeId, path, ap, now);
    BeforeAdditionOk(self, maxRoutes, routes, Snapshot(nodeId, path, ap, now), first, second, route);
    var s := BeforeAddition(self, maxRoutes, routes, Snapshot(nodeId, path, ap, now), first, second);
    AdditionExactly(maxRoutes, s.routes, route);
  }

  /** The snapshot of a table with an older number plans a replacement. */
  lemma NewerReplaces(self: NodeId, maxRoutes: nat, routes: seq<Route>, nodeId: NodeId, path: seq<NodeId>, ap: AdvertisedPrefix, now: Time)
    requires TableOk(routes, maxRoutes) && Fresh(routes) && |path| >= 2 && PathOk(path, self, nodeId) && PrefixOk(ap)
    requires 0 < Highest(routes, EntryOf(RelayRoute(nodeId, path, ap, now))) < ap.sequence
    ensures var route := RelayRoute(nodeId, path, ap, now);
      && Next(self, maxRoutes, State(routes, Idle), Snapshot(nodeId, path, ap, now)) == State(routes, Removing(route))
      && SlotKept(maxRoutes, routes, EntryOf(route)) && Acceptable(route)
  {
    var route := RelayRoute(nodeId, path, ap, now);
    var e := EntryOf(route);
    RelayRouteAcceptable(self, nodeId, path, ap, now);
    HighestIsMaximum(routes, e);
    var held :| held in routes && Belongs(held, e) && held.sequence == Highest(routes, e);
    assert RouteOk(held);
    var i := Find(routes, SameAs(Candidate(route)));
    if i < |routes| {
      assert routes[i] in routes && Belongs(routes[i], e);
    }
  }

  lemma AdditionExactly(maxRoutes: nat, routes: seq<Route>, route: Route)
    requires StateOk(maxRoutes, State(routes, Adding(route))) && Acceptable(route)
    requires forall r :: r in routes ==> !Belongs(r, EntryOf(route))
    ensures var e := EntryOf(route); var after := AddOrKeep(routes, maxRoutes, route);
      && Highest(after, e) == (if HasRoom(maxRoutes, routes, e) then route.sequence else 0)
      && forall r :: r in after && Belongs(r, e) ==> r.sequence == route.sequence && r.nextHop == route.nextHop
  {
    var e, c := EntryOf(route), Candidate(route);
    var i := Find(routes, SameAs(c));
    if i < |routes| {
      assert routes[i] in routes && Belongs(routes[i], e);
    }
    AdditionOk(maxRoutes, routes, route);
    HighestAtMost(routes, e, 0);
    if HasRoom(maxRoutes, routes, e) {
      InstallNeverLowers(routes, c, AddOrKeep(routes, maxRoutes, route), e);
    }
  }

  /** The failing schedule: with one slot, a direct install between removal and addition leaves the entry empty. */
  lemma SlotTaken(self: NodeId, held: Route, nodeId: NodeId, path: seq<NodeId>, ap: AdvertisedPrefix, now: Time,
                  prefix: Address, length: nat, peer: NodeId)
    requires TableOk([held], 1) && Fresh([held]) && |path| >= 2 && PathOk(path, self, nodeId) && PrefixOk(ap)
    requires Belongs(held, EntryOf(RelayRoute(nodeId, path, ap, now))) && held.sequence < ap.sequence && ValidPrefix(prefix, length)
    ensures var s := BeforeAddition(self, 1, [held], Snapshot(nodeId, path, ap, now), [], [InstallDirect(prefix, length, peer, now)]);
      var after := Next(self, 1, s, AddPlanned).routes;
      after == [Candidate(DirectRoute(prefix, length, peer, now))] && Highest(after, EntryOf(RelayRoute(nodeId, path, ap, now))) == 0
  {
    var route := RelayRoute(nodeId, path, ap, now);
    LoneHighest(held, EntryOf(route));
    NewerReplaces(self, 1, [held], nodeId, path, ap, now);
    LoneSuperseded(held, route);
    LoneInstalled(self, route, prefix, length, peer, now);
    NewerNeverLost(self, 1, [held], nodeId, path, ap, now, [], [InstallDirect(prefix, length, peer, now)]);
  }

  lemma LoneHighest(held: Route, e: Entry)
    requires RouteOk(held) && Belongs(held, e)
    ensures Highest([held], e) == held.sequence > 0
  {
    assert [held][..0] == [];
  }

  lemma LoneSuperseded(held: Route, route: Route)
    requires RouteOk(held) && Belongs(held, EntryOf(route)) && held.sequence < route.sequence
    requires ValidPrefix(route.prefix, route.length)
    ensures Superseded([held], route) == []
  {
    var x := Older(route.origin, Canonical(route.prefix, route.length), route.length, route.sequence);
    assert held in [held] && Drops(x, held);
    KeptExactly([held], x);
  }

  /** The direct route takes the only slot. */
  lemma LoneInstalled(self: NodeId, route: Route, prefix: Address, length: nat, peer: NodeId, now: Time)
    requires ValidPrefix(prefix, length) && Learned(route)
    ensures var taken := Run(self, 1, State([], Adding(route)), [InstallDirect(prefix, length, peer, now)]);
      && taken == State([Candidate(DirectRoute(prefix, length, peer, now))], Adding(route))
      && Next(self, 1, taken, AddPlanned).routes == taken.routes && !HasRoom(1, taken.routes, EntryOf(route))
  {
    var direct := DirectRoute(prefix, length, peer, now);
    assert [InstallDirect(prefix, length, peer, now)][1..] == [];
    var none: seq<Route> := [];
    assert none + [Candidate(direct)] == [Candidate(direct)];
    assert Add(none, 1, direct) == Some([Candidate(direct)]);
  }

  // ---------- probe hold-down ----------

  /** The candidate is in the table, suppressed at least until `until`. */
  ghost predicate Suppressed(routes: seq<Route>, t: Query, until: Time) {
    exists r :: r in routes && Matches(t, r) && r.probe.failed && r.probe.holdUntil.Some? && r.probe.holdUntil.value >= until
  }

  ghost predicate Present(routes: seq<Route>, t: Query) {
    exists r :: r in routes && Matches(t, r)
  }

  lemma TargetUnique(routes: seq<Route>, maxRoutes: nat, t: Query, r: Route, q: Route)
    requires TableOk(routes, maxRoutes) && t.Target? && r in routes && q in routes && Matches(t, r) && Matches(t, q)
    ensures r == q
  {
    assert RouteOk(r) && RouteOk(q) && SameCandidate(r, q) && SameCandidate(q, r);
    var i: nat :| i < |routes| && routes[i] == r;
    var j: nat :| j < |routes| && routes[j] == q;
    OneCandidate(routes, i, j);
  }

  /** Adding a route at the suppressed candidate's own sequence number does not lift the suppression. */
  lemma AddKeepsSuppressed(routes: seq<Route>, maxRoutes: nat, route: Route, t: Query, until: Time)
    requires TableOk(routes, maxRoutes) && t.Target? && Suppressed(routes, t, until)
    requires Add(routes, maxRoutes, route).Some? && Present(Add(routes, maxRoutes, route).value, t)
    ensures Suppressed(Add(routes, maxRoutes, route).value, t, until)
  {
    var was :| was in routes && Matches(t, was) && was.probe.failed && was.probe.holdUntil.Some? && was.probe.holdUntil.value >= until;
    var after := Add(routes, maxRoutes, route).value;
    var c := Candidate(route);
    AddExactly(routes, maxRoutes, route);
    var r :| r in after && Matches(t, r);
    if r in routes {
      TargetUnique(routes, maxRoutes, t, r, was);
    } else {
      assert r == Stored(routes, c) && was.sequence == route.sequence && RouteOk(was);
      StoredKeepsProbe(routes, c, was);
    }
  }

  lemma StoredKeepsProbe(base: seq<Route>, c: Route, was: Route)
    requires Distinct(base) && was in base && SameCandidate(c, was) && was.sequence == c.sequence
    ensures Stored(base, c).probe == was.probe
  {
    var j :| 0 <= j < |base| && base[j] == was;
    assert Find(base, SameAs(c)) == j;
  }

  /** Adding a route for a held candidate keeps its suppression if and only if it carries the same sequence number. */
  lemma SameNumberKeepsProbe(routes: seq<Route>, maxRoutes: nat, route: Route, was: Route)
    requires TableOk(routes, maxRoutes) && was in routes && SameCandidate(Candidate(route), was) && route.probe == UNPROBED
    requires Acceptable(route)
    ensures var after := Add(routes, maxRoutes, route);
      after.Some? && forall r :: r in after.value && SameCandidate(was, r) ==>
        (r.probe.failed <==> was.probe.failed && route.sequence == was.sequence)
  {
    var c := Candidate(route);
    var j :| 0 <= j < |routes| && routes[j] == was;
    assert Find(routes, SameAs(c)) == j;
    AddKeepsTable(routes, maxRoutes, route);
    var after := Add(routes, maxRoutes, route).value;
    forall r | r in after && SameCandidate(was, r) ensures r == after[j] {
      var k :| 0 <= k < |after| && after[k] == r;
    }
  }

  /** The clock readings an operation carries lie in the half-open hold-down interval ending at `until`. */
  predicate During(op: Op, until: Time) {
    op.RecordProbe? ==> until - PROBE_HOLD_DOWN <= op.event.now < until
  }

  lemma ProbedKeepsSuppressed(routes: seq<Route>, maxRoutes: nat, op: Op, t: Query, until: Time)
    requires TableOk(routes, maxRoutes) && t.Target? && Suppressed(routes, t, until)
    requires op.RecordProbe? && During(op, until)
    ensures Suppressed(Change(maxRoutes, routes, op), t, until)
  {
    var was :| was in routes && Matches(t, was) && was.probe.failed && was.probe.holdUntil.Some? && was.probe.holdUntil.value >= until;
    var q := Target(op.destination, op.nextHop, Canonical(op.prefix, op.length), op.length, op.sequence);
    var i := Find(routes, q);
    var after := Change(maxRoutes, routes, op);
    var k :| 0 <= k < |routes| && routes[k] == was;
    assert after[k] in after;
    if after != routes && i == k {
      assert after[k].probe == ProbeAfter(was.probe, op.event);
    }
  }

  lemma RemovalKeepsSuppressed(routes: seq<Route>, maxRoutes: nat, x: Removal, t: Query, until: Time)
    requires TableOk(routes, maxRoutes) && t.Target? && Suppressed(routes, t, until) && Present(Kept(routes, x), t)
    ensures Suppressed(Kept(routes, x), t, until)
  {
    var was :| was in routes && Matches(t, was) && was.probe.failed && was.probe.holdUntil.Some? && was.probe.holdUntil.value >= until;
    KeptExactly(routes, x);
    var r :| r in Kept(routes, x) && Matches(t, r);
    TargetUnique(routes, maxRoutes, t, r, was);
  }

  lemma OutdatingKeepsSuppressed(routes: seq<Route>, maxRoutes: nat, route: Route, t: Query, until: Time)
    requires TableOk(routes, maxRoutes) && t.Target? && Suppressed(routes, t, until) && Present(Superseded(routes, route), t)
    ensures Suppressed(Superseded(routes, route), t, until)
  {
    if ValidPrefix(route.prefix, route.length) {
      RemovalKeepsSuppressed(routes, maxRoutes, Older(route.origin, Canonical(route.prefix, route.length), route.length, route.sequence), t, until);
    }
  }

  lemma NextKeepsSuppressed(self: NodeId, maxRoutes: nat, s: State, op: Op, t: Query, until: Time)
    requires TableOk(s.routes, maxRoutes) && WellPosed(op) && t.Target? && Suppressed(s.routes, t, until)
    requires During(op, until) && Present(Next(self, maxRoutes, s, op).routes, t)
    ensures Suppressed(Next(self, maxRoutes, s, op).routes, t, until)
  {
    match op
    case InstallDirect(prefix, length, peer, now) =>
      var route := DirectRoute(prefix, length, peer, now);
      if Add(s.routes, maxRoutes, route).Some? {
        AddKeepsSuppressed(s.routes, maxRoutes, route, t, until);
      }
    case RemovePeer(peer) => RemovalKeepsSuppressed(s.routes, maxRoutes, ToOrVia(peer), t, until);
    case Expire(now) => RemovalKeepsSuppressed(s.routes, maxRoutes, Expired(now), t, until);
    case RecordProbe(_, _, _, _, _, _) => ProbedKeepsSuppressed(s.routes, maxRoutes, op, t, until);
    case Clear =>
    case Snapshot(_, _, _, _) =>
    case RemoveOutdated => if s.stage.Removing? { OutdatingKeepsSuppressed(s.routes, maxRoutes, s.stage.route, t, until); }
    case AddPlanned =>
      if s.stage.Adding? && Add(s.routes, maxRoutes, s.stage.route).Some? {
        AddKeepsSuppressed(s.routes, maxRoutes, s.stage.route, t, until);
      }
  }

  /** The candidate never leaves the table along the run. */
  ghost predicate PresentThroughout(self: NodeId, maxRoutes: nat, s: State, ops: seq<Op>, t: Query)
    requires forall op :: op in ops ==> WellPosed(op)
    decreases |ops|
  {
    ops == [] ||
    var next := Next(self, maxRoutes, s, ops[0]);
    Present(next.routes, t) && PresentThroughout(self, maxRoutes, next, ops[1..], t)
  }

  /**
   A candidate whose probe failed 30 seconds before `until` is not used again before `until`, however often it is
   refreshed at its sequence number and however its probes fare meanwhile.
   */
  lemma {:induction false} HoldDownLasts(self: NodeId, maxRoutes: nat, s: State, ops: seq<Op>, t: Query, until: Time)
    requires StateOk(maxRoutes, s) && t.Target? && Suppressed(s.routes, t, until)
    requires forall op :: op in ops ==> WellPosed(op) && During(op, until)
    requires PresentThroughout(self, maxRoutes, s, ops, t)
    ensures var end := Run(self, maxRoutes, s, ops).routes;
      Suppressed(end, t, until) && forall a, r :: Lookup(end, a) == Some(r) ==> !Matches(t, r)
    decreases |ops|
  {
    if ops != [] {
      NextKeepsOk(self, maxRoutes, s, ops[0]);
      NextKeepsSuppressed(self, maxRoutes, s, ops[0], t, until);
      HoldDownLasts(self, maxRoutes, Next(self, maxRoutes, s, ops[0]), ops[1..], t, until);
    } else {
      SuppressedUnused(s.routes, maxRoutes, t, until);
    }
  }

  lemma SuppressedUnused(routes: seq<Route>, maxRoutes: nat, t: Query, until: Time)
    requires TableOk(routes, maxRoutes) && t.Target? && Suppressed(routes, t, until)
    ensures forall a, r :: Lookup(routes, a) == Some(r) ==> !Matches(t, r)
  {
    forall a, r | Lookup(routes, a) == Some(r) ensures !Matches(t, r) {
      LookupIsExact(routes, maxRoutes, a);
      var was :| was in routes && Matches(t, was) && was.probe.failed;
      if Matches(t, r) {
        TargetUnique(routes, maxRoutes, t, r, was);
      }
    }
  }

  /** After a success the candidate is suppressed exactly when it was, and its hold-down has not passed. */
  lemma SuccessAfterHoldDownLifts(routes: seq<Route>, maxRoutes: nat, r: Route, now: Time, rtt: nat)
    requires TableOk(routes, maxRoutes) && r in routes
    ensures var after := Probed(routes, r.destination, r.nextHop, r.prefix, r.length, r.sequence, Succeeded(now, rtt));
      && after.Some?
      && var t := Target(r.destination, r.nextHop, r.prefix, r.length, r.sequence);
         forall q :: q in after.value && Matches(t, q) ==>
           (q.probe.failed <==> r.probe.failed && now < r.probe.holdUntil.value)
  {
    assert RouteOk(r);
    var t := Target(r.destination, r.nextHop, r.prefix, r.length, r.sequence);
    var i := Find(routes, t);
    assert i < |routes| && routes[i] in routes;
    TargetUnique(routes, maxRoutes, t, r, routes[i]);
    ProbedKeepsTable(routes, maxRoutes, r.destination, r.nextHop, r.prefix, r.length, r.sequence, Succeeded(now, rtt));
    var after := Probed(routes, r.destination, r.nextHop, r.prefix, r.length, r.sequence, Succeeded(now, rtt)).value;
    forall q | q in after && Matches(t, q) ensures q == after[i] {
      TargetUnique(after, maxRoutes, t, q, after[i]);
    }
  }
}
