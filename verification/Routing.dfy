/**
 One direction of the gateway's connectivity plan, against longest-match forwarding
 (section 5.1 of RFC 4632).
 */
module Routing {
  import opened Wrappers
  import opened Cidr
  import opened LongestMatch

  datatype RouteEntry = RouteEntry(destination: string, nextHopId: Option<string>)

  datatype RoutePlan = RoutePlan(
    routeTableId: string,
    destination: string,
    nextHopId: string,
    found: bool,
    changed: bool)

  datatype Refusal =
    | CompetingPath(routeTableId: string, via: RouteEntry, alsoPeering: bool)
    | AmbiguousPeerings(count: nat)
    | PeeringUnusable(peeringId: string)
    | NoPeering
    | UnknownVpcCidr
    | OverlappingVpcs
    | PeeringNotActivated
    | DidNotConverge
    | CallFailed

  predicate RouteUsesPeering(route: RouteEntry, peeringId: Option<string>) {
    peeringId.Some? && route.nextHopId == peeringId
  }

  predicate Covers(route: RouteEntry, host: string) {
    ParseCidr(route.destination).Some? && CidrContains(route.destination, host)
  }

  function Prefix(route: RouteEntry): nat {
    var range := ParseCidr(route.destination);
    if range.Some? then range.value.prefix else 0
  }

  function NewHostRoute(routeTableId: string, host: string, peeringId: Option<string>): RoutePlan {
    var nextHop := if peeringId.Some? then peeringId.value else "pending-peering";
    RoutePlan(routeTableId, HostRoute(host), nextHop, false, true)
  }

  /** The most specific covering routes. */
  function Candidates(routes: seq<RouteEntry>, host: string): seq<RouteEntry> {
    MostSpecific(routes, r => Covers(r, host), Prefix)
  }

  function ViaPeering(candidates: seq<RouteEntry>, peeringId: Option<string>): (via: seq<RouteEntry>)
    ensures forall r {:trigger r in via} :: r in via <==> r in candidates && RouteUsesPeering(r, peeringId)
    ensures via == [] <==> forall r | r in candidates :: !RouteUsesPeering(r, peeringId)
  {
    var via := Filter(candidates, r => RouteUsesPeering(r, peeringId));
    assert forall r | r in candidates && RouteUsesPeering(r, peeringId) :: r in via;
    assert via != [] ==> via[0] in via;
    via
  }

  function Foreign(candidates: seq<RouteEntry>, peeringId: Option<string>): (foreign: seq<RouteEntry>)
    ensures forall r {:trigger r in foreign} :: r in foreign <==> r in candidates && !RouteUsesPeering(r, peeringId)
    ensures foreign == [] <==> forall r | r in candidates :: RouteUsesPeering(r, peeringId)
  {
    var foreign := Filter(candidates, r => !RouteUsesPeering(r, peeringId));
    assert forall r | r in candidates && !RouteUsesPeering(r, peeringId) :: r in foreign;
    assert foreign != [] ==> foreign[0] in foreign;
    foreign
  }

  function PlanRoute(routes: seq<RouteEntry>, routeTableId: string, host: string, peeringId: Option<string>)
    : (plan: Result<RoutePlan, Refusal>)
  {
    var mostSpecific := Candidates(routes, host);
    if mostSpecific == [] then
      Ok(NewHostRoute(routeTableId, host, peeringId))
    else
      var viaPeering, foreign := ViaPeering(mostSpecific, peeringId), Foreign(mostSpecific, peeringId);
      if viaPeering == [] && forall r | r in foreign :: Prefix(r) == 0 then
        Ok(NewHostRoute(routeTableId, host, peeringId))
      else if foreign != [] then
        Err(CompetingPath(routeTableId, foreign[0], viaPeering != []))
      else
        assert mostSpecific[0] in viaPeering;
        Ok(RoutePlan(routeTableId, viaPeering[0].destination, peeringId.value, true, false))
  }

  // ---- Forwarding, defined without the planner ----

  predicate Matches(r: RouteEntry, address: nat) {
    ParseCidr(r.destination).Some? && InRange(ParseCidr(r.destination).value, address)
  }

  /** `r` is a longest match for `address` in `table`. */
  ghost predicate BestMatch(table: seq<RouteEntry>, r: RouteEntry, address: nat) {
    Best(table, r => Matches(r, address), Prefix, r)
  }

  /** Where longest-match forwarding may send `address`. */
  ghost function NextHops(table: seq<RouteEntry>, address: nat): set<Option<string>> {
    set r | r in table && BestMatch(table, r, address) :: r.nextHopId
  }

  /** The planner's most specific covering routes are exactly the longest matches. */
  lemma MostSpecificAreBestMatches(routes: seq<RouteEntry>, host: string)
    requires Ipv4(host).Some?
    ensures var mostSpecific := Candidates(routes, host);
            && (forall r :: r in mostSpecific <==> BestMatch(routes, r, Ipv4(host).value))
            && (mostSpecific == [] <==> forall r | r in routes :: !Matches(r, Ipv4(host).value))
  {
    var covers, matches := (r: RouteEntry) => Covers(r, host), (r: RouteEntry) => Matches(r, Ipv4(host).value);
    assert forall r :: covers(r) <==> matches(r);
  }

  /** A table after the planned route is added with the peering's real id; an existing route adds nothing. */
  function TableAfter(routes: seq<RouteEntry>, plan: RoutePlan, peeringId: string): seq<RouteEntry> {
    if plan.changed then routes + [RouteEntry(plan.destination, Some(peeringId))] else routes
  }

  /**
   An accepted plan sends the host, and only the host, through the peering: after it is applied every
   longest match for the host is the peering, and every other address is forwarded as before.
   */
  lemma AcceptedPlanRedirectsOnlyTheHost(
    routes: seq<RouteEntry>, routeTableId: string, host: string, peeringId: Option<string>, realId: string)
    requires Ipv4(host).Some?
    requires peeringId.Some? ==> realId == peeringId.value
    requires PlanRoute(routes, routeTableId, host, peeringId).Ok?
    ensures var plan := PlanRoute(routes, routeTableId, host, peeringId).value;
            var after := TableAfter(routes, plan, realId);
            && NextHops(after, Ipv4(host).value) == {Some(realId)}
            && forall a: nat | a != Ipv4(host).value :: NextHops(after, a) == NextHops(routes, a)
  {
    var plan := PlanRoute(routes, routeTableId, host, peeringId).value;
    if plan.changed {
      PlannedOnlyOverDefaults(routes, routeTableId, host, peeringId);
      AddedHostRouteWins(routes, host, realId);
    } else {
      KeptRouteIsTheOnlyNextHop(routes, routeTableId, host, peeringId);
    }
  }

  /** A route is planned only where nothing, or nothing but default routes, matches the host. */
  lemma PlannedOnlyOverDefaults(
    routes: seq<RouteEntry>, routeTableId: string, host: string, peeringId: Option<string>)
    requires Ipv4(host).Some?
    requires PlanRoute(routes, routeTableId, host, peeringId).Ok?
    requires PlanRoute(routes, routeTableId, host, peeringId).value.changed
    ensures PlanRoute(routes, routeTableId, host, peeringId) == Ok(NewHostRoute(routeTableId, host, peeringId))
    ensures forall r | r in routes && Matches(r, Ipv4(host).value) :: Prefix(r) == 0
  {
    MostSpecificAreBestMatches(routes, host);
    var mostSpecific := Candidates(routes, host);
    if mostSpecific != [] {
      var best := mostSpecific[0];
      assert best in mostSpecific;
      assert Prefix(best) == 0;
    }
  }

  lemma KeptRouteIsTheOnlyNextHop(
    routes: seq<RouteEntry>, routeTableId: string, host: string, peeringId: Option<string>)
    requires Ipv4(host).Some?
    requires PlanRoute(routes, routeTableId, host, peeringId).Ok?
    requires !PlanRoute(routes, routeTableId, host, peeringId).value.changed
    ensures peeringId.Some? && NextHops(routes, Ipv4(host).value) == {peeringId}
    ensures var plan := PlanRoute(routes, routeTableId, host, peeringId).value;
            && plan == RoutePlan(routeTableId, plan.destination, peeringId.value, true, false)
            && BestMatch(routes, RouteEntry(plan.destination, peeringId), Ipv4(host).value)
  {
    MostSpecificAreBestMatches(routes, host);
    var mostSpecific := Candidates(routes, host);
    var via := ViaPeering(mostSpecific, peeringId)[0];
    assert via in ViaPeering(mostSpecific, peeringId);
    assert via == RouteEntry(via.destination, peeringId);
    assert Foreign(mostSpecific, peeringId) == [];
    assert mostSpecific[0] in mostSpecific;
    OnlyNextHop(routes, Ipv4(host).value, mostSpecific[0]);
  }

  /** When every longest match leaves where `best` does, that is the only next hop. */
  lemma OnlyNextHop(table: seq<RouteEntry>, address: nat, best: RouteEntry)
    requires BestMatch(table, best, address)
    requires forall r | BestMatch(table, r, address) :: r.nextHopId == best.nextHopId
    ensures NextHops(table, address) == {best.nextHopId}
  {
    assert best.nextHopId in NextHops(table, address);
  }

  /** Once an accepted plan is applied, planning the same direction again finds the route in place. */
  lemma PlanningAgainFindsTheRoute(
    routes: seq<RouteEntry>, routeTableId: string, host: string, peeringId: Option<string>, realId: string)
    requires Ipv4(host).Some?
    requires peeringId.Some? ==> realId == peeringId.value
    requires PlanRoute(routes, routeTableId, host, peeringId).Ok?
    ensures var after := TableAfter(routes, PlanRoute(routes, routeTableId, host, peeringId).value, realId);
            var again := PlanRoute(after, routeTableId, host, Some(realId));
            again.Ok? && !again.value.changed
  {
    var plan := PlanRoute(routes, routeTableId, host, peeringId).value;
    if plan.changed {
      PlannedOnlyOverDefaults(routes, routeTableId, host, peeringId);
      AddedRouteIsTheCandidate(routes, host, realId);
      OwnedCandidatesNeedNothing(routes + [RouteEntry(HostRoute(host), Some(realId))], routeTableId, host, realId);
    }
  }

  lemma OwnedCandidatesNeedNothing(routes: seq<RouteEntry>, routeTableId: string, host: string, realId: string)
    requires Candidates(routes, host) != []
    requires forall r | r in Candidates(routes, host) :: RouteUsesPeering(r, Some(realId))
    ensures var plan := PlanRoute(routes, routeTableId, host, Some(realId));
            plan.Ok? && !plan.value.changed
  {
    var candidates := Candidates(routes, host);
    assert candidates[0] in candidates;
    assert Foreign(candidates, Some(realId)) == [];
  }

  lemma AddedRouteIsTheCandidate(routes: seq<RouteEntry>, host: string, realId: string)
    requires Ipv4(host).Some?
    requires forall r | r in routes && Matches(r, Ipv4(host).value) :: Prefix(r) == 0
    ensures var added := RouteEntry(HostRoute(host), Some(realId));
            forall r :: r in Candidates(routes + [added], host) <==> r == added
    ensures Candidates(routes + [RouteEntry(HostRoute(host), Some(realId))], host) != []
  {
    var added := RouteEntry(HostRoute(host), Some(realId));
    HostRouteIsOneAddress(host);
    AppendLonger(routes, added, r => Matches(r, Ipv4(host).value), Prefix);
    MostSpecificAreBestMatches(routes + [added], host);
    assert added in Candidates(routes + [added], host);
  }

  /** The destination of a planned route is not in the table yet. */
  lemma PlannedRouteIsMissing(
    routes: seq<RouteEntry>, routeTableId: string, host: string, peeringId: Option<string>)
    requires Ipv4(host).Some?
    requires PlanRoute(routes, routeTableId, host, peeringId).Ok?
    requires PlanRoute(routes, routeTableId, host, peeringId).value.changed
    ensures forall r | r in routes ::
              r.destination != PlanRoute(routes, routeTableId, host, peeringId).value.destination
  {
    PlannedOnlyOverDefaults(routes, routeTableId, host, peeringId);
    HostRouteIsOneAddress(host);
    assert forall r | r in routes && r.destination == HostRoute(host) :: Matches(r, Ipv4(host).value);
  }

  /** A host route added over default routes takes the host, and nothing else. */
  lemma AddedHostRouteWins(routes: seq<RouteEntry>, host: string, realId: string)
    requires Ipv4(host).Some?
    requires forall r | r in routes && Matches(r, Ipv4(host).value) :: Prefix(r) == 0
    ensures var after := routes + [RouteEntry(HostRoute(host), Some(realId))];
            && NextHops(after, Ipv4(host).value) == {Some(realId)}
            && forall a: nat | a != Ipv4(host).value :: NextHops(after, a) == NextHops(routes, a)
  {
    var h := Ipv4(host).value;
    var added := RouteEntry(HostRoute(host), Some(realId));
    var after := routes + [added];
    HostRouteIsOneAddress(host);
    AppendLonger(routes, added, r => Matches(r, h), Prefix);
    OnlyNextHop(after, h, added);
    forall a: nat | a != h
      ensures NextHops(after, a) == NextHops(routes, a)
    {
      AppendUnmatched(routes, added, r => Matches(r, a), Prefix);
      assert forall r :: BestMatch(after, r, a) <==> BestMatch(routes, r, a);
    }
  }

  /** All candidates share one prefix. */
  lemma SamePrefix(routes: seq<RouteEntry>, host: string, r: RouteEntry)
    requires r in Candidates(routes, host)
    ensures forall other | other in Candidates(routes, host) :: Prefix(other) == Prefix(r)
  {
  }

  /**
   The planner refuses exactly when a longest match for the host leaves through another next hop, and
   either it is more specific than a default route or the peering ties with it.
   */
  lemma RefusesExactlyCompetingPaths(
    routes: seq<RouteEntry>, routeTableId: string, host: string, peeringId: Option<string>)
    requires Ipv4(host).Some?
    ensures var h := Ipv4(host).value;
            PlanRoute(routes, routeTableId, host, peeringId).Err? <==>
            exists r :: && BestMatch(routes, r, h)
                        && !RouteUsesPeering(r, peeringId)
                        && (Prefix(r) > 0 || exists p :: BestMatch(routes, p, h) && RouteUsesPeering(p, peeringId))
  {
    MostSpecificAreBestMatches(routes, host);
    var candidates := Candidates(routes, host);
    var viaPeering, foreign := ViaPeering(candidates, peeringId), Foreign(candidates, peeringId);
    if PlanRoute(routes, routeTableId, host, peeringId).Err? {
      var r := foreign[0];
      assert r in foreign;
      if Prefix(r) == 0 {
        SamePrefix(routes, host, r);
        assert viaPeering != [];
        assert BestMatch(routes, viaPeering[0], Ipv4(host).value) by { assert viaPeering[0] in viaPeering; }
      }
    }
  }

  /** The refusal names a longest match through another next hop, and says whether the peering ties with it. */
  lemma RefusalNamesThePath(routes: seq<RouteEntry>, routeTableId: string, host: string, peeringId: Option<string>)
    requires Ipv4(host).Some? && PlanRoute(routes, routeTableId, host, peeringId).Err?
    ensures var h, e := Ipv4(host).value, PlanRoute(routes, routeTableId, host, peeringId).error;
            && e.CompetingPath? && e.routeTableId == routeTableId
            && BestMatch(routes, e.via, h) && !RouteUsesPeering(e.via, peeringId)
            && (e.alsoPeering <==> exists p :: BestMatch(routes, p, h) && RouteUsesPeering(p, peeringId))
  {
    MostSpecificAreBestMatches(routes, host);
    var candidates := Candidates(routes, host);
    var viaPeering, foreign := ViaPeering(candidates, peeringId), Foreign(candidates, peeringId);
    assert foreign[0] in foreign;
    if viaPeering != [] {
      assert viaPeering[0] in viaPeering;
    }
  }

  /**
   An address the parser cannot read, such as one with white space around it, is covered by nothing:
   the planner neither refuses nor ever finds the route in place, whatever the table holds.
   */
  lemma UnreadableHostIsAlwaysPlannedAgain(
    routes: seq<RouteEntry>, routeTableId: string, host: string, peeringId: Option<string>)
    requires Ipv4(host).None?
    ensures PlanRoute(routes, routeTableId, host, peeringId) == Ok(NewHostRoute(routeTableId, host, peeringId))
  {
    var covers := (r: RouteEntry) => Covers(r, host);
    assert forall r | r in routes :: !covers(r);
  }

  /** A host reported with a space before it is such a one: its own route, once there, is still not found. */
  lemma SpacedHostIsNeverFound(routes: seq<RouteEntry>, routeTableId: string, peeringId: string)
    ensures var host := " 10.0.0.1";
            var after := routes + [RouteEntry(HostRoute(host), Some(peeringId))];
            && HostRoute(host) == HostRoute("10.0.0.1")
            && PlanRoute(after, routeTableId, host, Some(peeringId)) ==
                 Ok(NewHostRoute(routeTableId, host, Some(peeringId)))
  {
    TenIsReadable();
    SpacedAddressIsUnreadable("10.0.0.1");
    assert " " + "10.0.0.1" == " 10.0.0.1";
    UnreadableHostIsAlwaysPlannedAgain(
      routes + [RouteEntry(HostRoute(" 10.0.0.1"), Some(peeringId))], routeTableId, " 10.0.0.1", Some(peeringId));
  }
}
