/** What merging one advertised prefix comes to, in the fields of the record and of the routes already held. */
module MergeLaws {
  import opened Basics
  import opened IpPrefixes
  import opened Routes
  import opened RouteLaws
  import opened PeerTable

  function EntryOf(nodeId: NodeId, ap: AdvertisedPrefix): Entry {
    Entry(nodeId, Canonical(ap.prefix, ap.length), ap.length)
  }

  /** The record as the node keeps it: one hop farther, leased from now on. */
  ghost predicate LearnedAs(r: Route, nodeId: NodeId, path: seq<NodeId>, ap: AdvertisedPrefix, now: Time)
    requires path != []
  {
    && r.kind == Relay && r.prefix == Canonical(ap.prefix, ap.length) && r.length == ap.length && r.nextHop == path[0]
    && r.destination == nodeId && r.path == path && r.origin == nodeId && r.advertiser == path[0]
    && r.sequence == ap.sequence && r.lease == ap.lease && r.metric == ap.metric + 1 && r.validatedAt == now
  }

  predicate Good(ap: AdvertisedPrefix) {
    ap.length <= BitWidth(ap.prefix.family) && ap.sequence >= 1 && 1 <= ap.lease <= 600 && ap.metric < 1_000_000
  }

  /** A route to the advertised prefix over the same first hop. */
  predicate SameHop(r: Route, nodeId: NodeId, hop: NodeId, ap: AdvertisedPrefix) {
    && r.kind == Relay && r.prefix == Canonical(ap.prefix, ap.length) && r.length == ap.length
    && r.nextHop == hop && r.destination == nodeId
  }

  ghost predicate Newer(routes: seq<Route>, nodeId: NodeId, ap: AdvertisedPrefix) {
    exists r :: r in routes && Belongs(r, EntryOf(nodeId, ap)) && r.sequence > ap.sequence
  }

  ghost predicate OlderHeld(routes: seq<Route>, nodeId: NodeId, ap: AdvertisedPrefix) {
    exists r :: r in routes && Belongs(r, EntryOf(nodeId, ap)) && r.sequence < ap.sequence
  }

  /** The same hop already carries this sequence number, with or without the same path and metric. */
  ghost predicate HeldAs(routes: seq<Route>, nodeId: NodeId, path: seq<NodeId>, ap: AdvertisedPrefix, alike: bool)
    requires path != []
  {
    exists r :: r in routes && SameHop(r, nodeId, path[0], ap) && r.sequence == ap.sequence
      && (alike <==> r.path == path && r.metric == ap.metric + 1)
  }

  predicate Room(routes: seq<Route>, maxRoutes: nat, ap: AdvertisedPrefix) {
    |routes| < maxRoutes && Count(routes, Canonical(ap.prefix, ap.length), ap.length) < 8
  }

  lemma NewerIsHighest(routes: seq<Route>, nodeId: NodeId, ap: AdvertisedPrefix)
    ensures Newer(routes, nodeId, ap) <==> ap.sequence < Highest(routes, EntryOf(nodeId, ap))
  {
    HighestIsMaximum(routes, EntryOf(nodeId, ap));
  }

  /** Of the routes over one first hop there is at most one, and it is the one a lookup finds. */
  lemma SameHopFound(routes: seq<Route>, self: NodeId, nodeId: NodeId, path: seq<NodeId>, ap: AdvertisedPrefix, now: Time, r: Route)
    requires Distinct(routes) && |path| >= 2 && PathOk(path, self, nodeId) && r in routes && SameHop(r, nodeId, path[0], ap)
    ensures var i := Find(routes, SameAs(Candidate(RelayRoute(nodeId, path, ap, now)))); i < |routes| && routes[i] == r
  {
    var c := Candidate(RelayRoute(nodeId, path, ap, now));
    var i := Find(routes, SameAs(c));
    var j: nat :| j < |routes| && routes[j] == r;
    assert Matches(SameAs(c), routes[j]);
    OneCandidate(routes, i, j);
  }

  lemma FoundIsSameHop(routes: seq<Route>, self: NodeId, nodeId: NodeId, path: seq<NodeId>, ap: AdvertisedPrefix, now: Time)
    requires |path| >= 2 && PathOk(path, self, nodeId)
    ensures var i := Find(routes, SameAs(Candidate(RelayRoute(nodeId, path, ap, now))));
      i < |routes| ==> routes[i] in routes && SameHop(routes[i], nodeId, path[0], ap)
  {
  }

  lemma SameHopBelongs(routes: seq<Route>, nodeId: NodeId, hop: NodeId, ap: AdvertisedPrefix, r: Route)
    requires Fresh(routes) && r in routes && SameHop(r, nodeId, hop, ap)
    ensures Belongs(r, EntryOf(nodeId, ap))
    ensures forall q :: q in routes && Belongs(q, EntryOf(nodeId, ap)) ==> q.sequence == r.sequence
  {
  }

  lemma PlanExactly(routes: seq<Route>, maxRoutes: nat, self: NodeId, nodeId: NodeId, path: seq<NodeId>, ap: AdvertisedPrefix, now: Time)
    requires TableOk(routes, maxRoutes) && Fresh(routes) && |path| >= 2 && PathOk(path, self, nodeId)
    ensures var plan := Decide(routes, nodeId, path, true, ap, now);
      && (plan == Skip(BadPrefix) <==> !Good(ap))
      && (plan == Skip(Stale) <==> Good(ap) && Newer(routes, nodeId, ap))
      && (plan == Skip(Conflicting) <==> Good(ap) && HeldAs(routes, nodeId, path, ap, false))
      && (plan.Refresh? <==> Good(ap) && HeldAs(routes, nodeId, path, ap, true))
      && (plan.Skip? ==> plan.outcome in {BadPrefix, Stale, Conflicting})
      && (plan.Replace? ==> ap.sequence > Highest(routes, EntryOf(nodeId, ap)))
      && (plan.Install? ==> ap.sequence == Highest(routes, EntryOf(nodeId, ap)))
  {
    NewerIsHighest(routes, nodeId, ap);
    FoundIsSameHop(routes, self, nodeId, path, ap, now);
    forall r | r in routes && SameHop(r, nodeId, path[0], ap)
      ensures var i := Find(routes, SameAs(Candidate(RelayRoute(nodeId, path, ap, now)))); i < |routes| && routes[i] == r
      ensures r.sequence == ap.sequence ==> !Newer(routes, nodeId, ap)
    {
      SameHopFound(routes, self, nodeId, path, ap, now, r);
      SameHopBelongs(routes, nodeId, path[0], ap, r);
    }
  }

  /** Nothing to replace or refresh: the new route gets in only if its family is known and there is room. */
  lemma NewcomerNeedsRoom(routes: seq<Route>, maxRoutes: nat, self: NodeId, nodeId: NodeId, path: seq<NodeId>, ap: AdvertisedPrefix, now: Time)
    requires |path| >= 2 && PathOk(path, self, nodeId) && Good(ap)
    requires forall r :: r in routes ==> !SameHop(r, nodeId, path[0], ap)
    ensures Add(routes, maxRoutes, RelayRoute(nodeId, path, ap, now)).Some? <==> !ap.prefix.family.OtherFamily? && Room(routes, maxRoutes, ap)
  {
    var route := RelayRoute(nodeId, path, ap, now);
    RelayRouteAcceptable(self, nodeId, path, ap, now);
    AddAccepts(routes, maxRoutes, route);
  }

  lemma InstallFits(routes: seq<Route>, maxRoutes: nat, self: NodeId, nodeId: NodeId, path: seq<NodeId>, ap: AdvertisedPrefix, now: Time)
    requires TableOk(routes, maxRoutes) && Fresh(routes) && |path| >= 2 && PathOk(path, self, nodeId) && Good(ap)
    requires ap.sequence == Highest(routes, EntryOf(nodeId, ap))
    requires !HeldAs(routes, nodeId, path, ap, true) && !HeldAs(routes, nodeId, path, ap, false)
    ensures !OlderHeld(routes, nodeId, ap)
    ensures Add(routes, maxRoutes, RelayRoute(nodeId, path, ap, now)).Some? <==> !ap.prefix.family.OtherFamily? && Room(routes, maxRoutes, ap)
  {
    HighestIsMaximum(routes, EntryOf(nodeId, ap));
    forall r | r in routes ensures !SameHop(r, nodeId, path[0], ap) {
      if SameHop(r, nodeId, path[0], ap) {
        SameHopBelongs(routes, nodeId, path[0], ap, r);
      }
    }
    NewcomerNeedsRoom(routes, maxRoutes, self, nodeId, path, ap, now);
  }

  lemma ReplaceFits(routes: seq<Route>, maxRoutes: nat, self: NodeId, nodeId: NodeId, path: seq<NodeId>, ap: AdvertisedPrefix, now: Time)
    requires TableOk(routes, maxRoutes) && Fresh(routes) && |path| >= 2 && PathOk(path, self, nodeId) && Good(ap)
    requires ap.sequence > Highest(routes, EntryOf(nodeId, ap))
    ensures var route := RelayRoute(nodeId, path, ap, now);
      Add(Superseded(routes, route), maxRoutes, route).Some? <==>
        !ap.prefix.family.OtherFamily? && (OlderHeld(routes, nodeId, ap) || Room(routes, maxRoutes, ap))
  {
    var route := RelayRoute(nodeId, path, ap, now);
    RelayRouteAcceptable(self, nodeId, path, ap, now);
    if !ap.prefix.family.OtherFamily? {
      var e := EntryOf(nodeId, ap);
      var x := Older(nodeId, e.prefix, ap.length, ap.sequence);
      HighestIsMaximum(routes, e);
      if held :| held in routes && Belongs(held, e) && held.sequence < ap.sequence {
        assert Drops(x, held);
        SupersededMakeRoom(routes, maxRoutes, route, held);
      } else {
        NothingDropped(routes, x);
        forall r | r in routes ensures !SameHop(r, nodeId, path[0], ap) {
          if SameHop(r, nodeId, path[0], ap) {
            SameHopBelongs(routes, nodeId, path[0], ap, r);
          }
        }
        NewcomerNeedsRoom(routes, maxRoutes, self, nodeId, path, ap, now);
      }
    }
  }

  /**
   The outcome of merging one record along a good path: refused if malformed, stale if a newer number is held, conflicting
   or refreshed if the same hop already carries this number, and otherwise installed exactly when an older candidate makes
   way or there is room for one more.
   */
  lemma OutcomeExactly(routes: seq<Route>, maxRoutes: nat, self: NodeId, nodeId: NodeId, path: seq<NodeId>, ap: AdvertisedPrefix, now: Time)
    requires TableOk(routes, maxRoutes) && Fresh(routes) && |path| >= 2 && PathOk(path, self, nodeId)
    ensures var outcome := MergePrefix(routes, maxRoutes, nodeId, path, true, ap, now).1;
      && (outcome.BadPrefix? <==> !Good(ap))
      && (outcome.Stale? <==> Good(ap) && Newer(routes, nodeId, ap))
      && (outcome.Conflicting? <==> Good(ap) && HeldAs(routes, nodeId, path, ap, false))
      && (outcome.LeaseRefreshed? <==> Good(ap) && HeldAs(routes, nodeId, path, ap, true))
      && !outcome.NoPath?
      && (outcome.Installed? <==>
            && Good(ap) && !Newer(routes, nodeId, ap)
            && !HeldAs(routes, nodeId, path, ap, true) && !HeldAs(routes, nodeId, path, ap, false)
            && !ap.prefix.family.OtherFamily? && (OlderHeld(routes, nodeId, ap) || Room(routes, maxRoutes, ap)))
  {
    PlanExactly(routes, maxRoutes, self, nodeId, path, ap, now);
    match Decide(routes, nodeId, path, true, ap, now)
    case Skip(_) =>
    case Refresh(_) =>
    case Replace(_) => ReplaceFits(routes, maxRoutes, self, nodeId, path, ap, now);
    case Install(_) => InstallFits(routes, maxRoutes, self, nodeId, path, ap, now);
  }

  /** Along a bad path nothing is learned. */
  lemma NoPathTeachesNothing(routes: seq<Route>, maxRoutes: nat, nodeId: NodeId, path: seq<NodeId>, ap: AdvertisedPrefix, now: Time)
    requires path != []
    ensures MergePrefix(routes, maxRoutes, nodeId, path, false, ap, now) == (routes, if Good(ap) then NoPath else BadPrefix)
  {
  }

  lemma AddedAsLearned(base: seq<Route>, maxRoutes: nat, nodeId: NodeId, path: seq<NodeId>, ap: AdvertisedPrefix, now: Time)
    requires Distinct(base) && path != [] && Add(base, maxRoutes, RelayRoute(nodeId, path, ap, now)).Some?
    ensures exists r :: r in Add(base, maxRoutes, RelayRoute(nodeId, path, ap, now)).value && LearnedAs(r, nodeId, path, ap, now)
  {
    var route := RelayRoute(nodeId, path, ap, now);
    AddStores(base, maxRoutes, route);
    var r :| r in Add(base, maxRoutes, route).value && StoredAs(route, r);
    assert LearnedAs(r, nodeId, path, ap, now);
  }

  /** What is installed or refreshed is the record itself. */
  lemma InstalledAsAdvertised(routes: seq<Route>, maxRoutes: nat, self: NodeId, nodeId: NodeId, path: seq<NodeId>, ap: AdvertisedPrefix, now: Time)
    requires TableOk(routes, maxRoutes) && Fresh(routes) && |path| >= 2 && PathOk(path, self, nodeId)
    requires var outcome := MergePrefix(routes, maxRoutes, nodeId, path, true, ap, now).1; outcome.Installed? || outcome.LeaseRefreshed?
    ensures exists r :: r in MergePrefix(routes, maxRoutes, nodeId, path, true, ap, now).0 && LearnedAs(r, nodeId, path, ap, now)
  {
    PlanExactly(routes, maxRoutes, self, nodeId, path, ap, now);
    match Decide(routes, nodeId, path, true, ap, now)
    case Refresh(_) =>
      RefreshInstallsOnly(routes, maxRoutes, self, nodeId, path, ap, now);
      AddedAsLearned(routes, maxRoutes, nodeId, path, ap, now);
    case Replace(route) =>
      KeptDistinct(routes, Older(nodeId, Canonical(ap.prefix, ap.length), ap.length, ap.sequence));
      AddedAsLearned(Superseded(routes, route), maxRoutes, nodeId, path, ap, now);
    case Install(_) => AddedAsLearned(routes, maxRoutes, nodeId, path, ap, now);
  }

  lemma LearnedIsHighest(after: seq<Route>, nodeId: NodeId, path: seq<NodeId>, ap: AdvertisedPrefix, now: Time)
    requires path != [] && exists r :: r in after && LearnedAs(r, nodeId, path, ap, now)
    ensures Highest(after, EntryOf(nodeId, ap)) >= ap.sequence
  {
    HighestIsMaximum(after, EntryOf(nodeId, ap));
    var r :| r in after && LearnedAs(r, nodeId, path, ap, now);
    assert Belongs(r, EntryOf(nodeId, ap));
  }

  lemma HeldIsHighest(routes: seq<Route>, nodeId: NodeId, path: seq<NodeId>, ap: AdvertisedPrefix)
    requires Fresh(routes) && path != [] && HeldAs(routes, nodeId, path, ap, false)
    ensures Highest(routes, EntryOf(nodeId, ap)) >= ap.sequence
  {
    HighestIsMaximum(routes, EntryOf(nodeId, ap));
    var r :| r in routes && SameHop(r, nodeId, path[0], ap) && r.sequence == ap.sequence;
    SameHopBelongs(routes, nodeId, path[0], ap, r);
  }

  /** With room for one more, merging a good record along a good path leaves the node at its number or beyond. */
  lemma PrefixIsLearned(routes: seq<Route>, maxRoutes: nat, self: NodeId, nodeId: NodeId, path: seq<NodeId>, ap: AdvertisedPrefix, now: Time)
    requires TableOk(routes, maxRoutes) && Fresh(routes) && |path| >= 2 && PathOk(path, self, nodeId)
    requires Good(ap) && !ap.prefix.family.OtherFamily? && Room(routes, maxRoutes, ap)
    ensures Highest(MergePrefix(routes, maxRoutes, nodeId, path, true, ap, now).0, EntryOf(nodeId, ap)) >= ap.sequence
  {
    var (after, outcome) := MergePrefix(routes, maxRoutes, nodeId, path, true, ap, now);
    OutcomeExactly(routes, maxRoutes, self, nodeId, path, ap, now);
    if outcome.Installed? || outcome.LeaseRefreshed? {
      InstalledAsAdvertised(routes, maxRoutes, self, nodeId, path, ap, now);
      LearnedIsHighest(after, nodeId, path, ap, now);
    } else if outcome.Conflicting? {
      HeldIsHighest(routes, nodeId, path, ap);
    } else {
      NewerIsHighest(routes, nodeId, ap);
    }
  }
}
