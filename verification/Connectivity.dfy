/**
 Cross-VPC connectivity: choosing a peering, planning both routes, and applying the plan with calls
 any of which may fail or may take effect and still report failure.
 */
module Connectivity {
  import opened Wrappers
  import opened Cidr
  import opened LongestMatch
  import opened Routing

  datatype PeeringStatus =
    | Activated | Creating | Accepting | Updating
    | Rejected | Expired | Deleted | Deleting
    | OtherStatus(text: string)

  datatype Peering = Peering(peeringId: string, status: PeeringStatus, requesterVpcId: string, acceptingVpcId: string)

  datatype Side = Side(vpcId: string, routeTableId: string, privateIp: string, vpcCidr: Option<string>)

  datatype PeeringAction = NoAction | Reuse(peeringId: string) | Accept(peeringId: string) | Create(name: string)

  datatype ConnectivityPlan = ConnectivityPlan(
    changed: bool,
    sameVpc: bool,
    gatewayVpcId: string,
    rdsVpcId: string,
    peering: PeeringAction,
    routes: seq<RoutePlan>)

  datatype ConnectivityInput = ConnectivityInput(
    gateway: Side,
    rds: Side,
    peerings: seq<Peering>,
    gatewayRoutes: seq<RouteEntry>,
    rdsRoutes: seq<RouteEntry>,
    createPeering: bool,
    peeringName: string)

  predicate TerminalFailure(status: PeeringStatus) {
    status.Rejected? || status.Expired? || status.Deleted? || status.Deleting?
  }

  predicate PairMatches(p: Peering, a: string, b: string) {
    || (p.requesterVpcId == a && p.acceptingVpcId == b)
    || (p.requesterVpcId == b && p.acceptingVpcId == a)
  }

  predicate IsLive(p: Peering, a: string, b: string) {
    PairMatches(p, a, b) && !TerminalFailure(p.status)
  }

  function LivePeerings(peerings: seq<Peering>, a: string, b: string): (live: seq<Peering>)
    ensures forall p {:trigger p in live} :: p in live <==> p in peerings && IsLive(p, a, b)
  {
    Filter(peerings, p => IsLive(p, a, b))
  }

  function PlanPeering(input: ConnectivityInput): Result<PeeringAction, Refusal> {
    var matches := LivePeerings(input.peerings, input.gateway.vpcId, input.rds.vpcId);
    if |matches| > 1 then
      Err(AmbiguousPeerings(|matches|))
    else if |matches| == 1 then
      var peering := matches[0];
      if peering.status.Activated? then
        Ok(Reuse(peering.peeringId))
      else if peering.status.Creating? || peering.status.Accepting? || peering.status.Updating? then
        Ok(Accept(peering.peeringId))
      else
        Err(PeeringUnusable(peering.peeringId))
    else if !input.createPeering then
      Err(NoPeering)
    else
      Ok(Create(input.peeringName))
  }

  /** The peering a plan already knows by id. */
  function KnownPeering(action: PeeringAction): Option<string> {
    match action
    case Reuse(id) => Some(id)
    case Accept(id) => Some(id)
    case _ => None
  }

  function PlanConnectivity(input: ConnectivityInput): Result<ConnectivityPlan, Refusal> {
    var gateway, rds := input.gateway, input.rds;
    if gateway.vpcId == rds.vpcId then
      Ok(ConnectivityPlan(false, true, gateway.vpcId, rds.vpcId, NoAction, []))
    else if gateway.vpcCidr.None? || rds.vpcCidr.None? then
      Err(UnknownVpcCidr)
    else if CidrOverlaps(gateway.vpcCidr.value, rds.vpcCidr.value) then
      Err(OverlappingVpcs)
    else
      var peering :- PlanPeering(input);
      PlanBothRoutes(input, peering)
  }

  /** A route each way, and the plan they make with the peering. */
  function PlanBothRoutes(input: ConnectivityInput, peering: PeeringAction): Result<ConnectivityPlan, Refusal> {
    var known := KnownPeering(peering);
    var gatewayRoute :- PlanRoute(input.gatewayRoutes, input.gateway.routeTableId, input.rds.privateIp, known);
    var rdsRoute :- PlanRoute(input.rdsRoutes, input.rds.routeTableId, input.gateway.privateIp, known);
    Ok(CrossVpcPlan(input, peering, gatewayRoute, rdsRoute))
  }

  function CrossVpcPlan(input: ConnectivityInput, peering: PeeringAction, gatewayRoute: RoutePlan, rdsRoute: RoutePlan)
    : ConnectivityPlan
  {
    var changed := peering.Create? || peering.Accept? || gatewayRoute.changed || rdsRoute.changed;
    ConnectivityPlan(changed, false, input.gateway.vpcId, input.rds.vpcId, peering, [gatewayRoute, rdsRoute])
  }

  // ---- How the cloud may change between calls ----

  /** Peerings keep their identity; only the status moves, and never out of a terminal one. */
  predicate Evolved(before: seq<Peering>, after: seq<Peering>) {
    && |after| == |before|
    && forall i | 0 <= i < |before| ::
         && after[i] == before[i].(status := after[i].status)
         && (TerminalFailure(before[i].status) ==> TerminalFailure(after[i].status))
  }

  ghost predicate AllLiveHaveId(peerings: seq<Peering>, a: string, b: string, id: string) {
    forall p | p in LivePeerings(peerings, a, b) :: p.peeringId == id
  }

  /** Evolution brings no peering back to life, so the live ones can only get fewer. */
  lemma {:induction false} EvolutionKeepsLiveBound(before: seq<Peering>, after: seq<Peering>, a: string, b: string)
    requires Evolved(before, after)
    ensures |LivePeerings(after, a, b)| <= |LivePeerings(before, a, b)|
  {
    if before != [] {
      EvolutionKeepsLiveBound(before[1..], after[1..], a, b);
      assert IsLive(after[0], a, b) ==> IsLive(before[0], a, b);
    }
  }

  lemma EvolutionKeepsLiveId(before: seq<Peering>, after: seq<Peering>, a: string, b: string, id: string)
    requires Evolved(before, after) && AllLiveHaveId(before, a, b, id)
    ensures AllLiveHaveId(after, a, b, id)
  {
    forall p | p in LivePeerings(after, a, b)
      ensures p.peeringId == id
    {
      var i :| 0 <= i < |after| && after[i] == p;
      assert before[i] in LivePeerings(before, a, b);
    }
  }

  lemma {:induction false} CreationAddsAtMostOne(peerings: seq<Peering>, created: Peering, a: string, b: string)
    ensures |LivePeerings(peerings + [created], a, b)| <= |LivePeerings(peerings, a, b)| + 1
  {
    if peerings != [] {
      CreationAddsAtMostOne(peerings[1..], created, a, b);
      assert (peerings + [created])[1..] == peerings[1..] + [created];
    }
  }

  /** A peering id no listed peering has. */
  function FreshId(peerings: seq<Peering>): (id: string)
    ensures forall p | p in peerings :: |p.peeringId| < |id|
  {
    if peerings == [] then "p"
    else
      var rest, first := FreshId(peerings[1..]), peerings[0].peeringId;
      if |first| < |rest| then rest else first + "p"
  }

  // ---- The cloud the plan is applied to ----

  type Pair = (string, string)

  ghost predicate Distinct(added: seq<Pair>) {
    forall i, j | 0 <= i < j < |added| :: added[i] != added[j]
  }

  function TableOf(tables: map<string, seq<RouteEntry>>, tableId: string): seq<RouteEntry> {
    if tableId in tables then tables[tableId] else []
  }

  predicate HasRoute(tables: map<string, seq<RouteEntry>>, tableId: string, destination: string) {
    exists r | r in TableOf(tables, tableId) :: r.destination == destination
  }

  function WithRoute(tables: map<string, seq<RouteEntry>>, tableId: string, route: RouteEntry)
    : map<string, seq<RouteEntry>>
  {
    tables[tableId := TableOf(tables, tableId) + [route]]
  }

  /** At most one live peering joins the VPCs, and no (table, destination) was added twice. */
  ghost predicate SafeState(
    peerings: seq<Peering>, tables: map<string, seq<RouteEntry>>, added: seq<Pair>, a: string, b: string)
  {
    && |LivePeerings(peerings, a, b)| <= 1
    && Distinct(added)
    && forall pair | pair in added :: HasRoute(tables, pair.0, pair.1)
  }

  lemma AddingAMissingRouteIsSafe(
    peerings: seq<Peering>, tables: map<string, seq<RouteEntry>>, added: seq<Pair>, a: string, b: string,
    tableId: string, route: RouteEntry)
    requires SafeState(peerings, tables, added, a, b)
    requires !HasRoute(tables, tableId, route.destination)
    ensures SafeState(peerings, WithRoute(tables, tableId, route), added + [(tableId, route.destination)], a, b)
  {
    var after := WithRoute(tables, tableId, route);
    assert route in TableOf(after, tableId);
    forall pair | pair in added
      ensures HasRoute(after, pair.0, pair.1) && pair != (tableId, route.destination)
    {
      var r :| r in TableOf(tables, pair.0) && r.destination == pair.1;
      assert r in TableOf(after, pair.0);
    }
  }

  /** The peerings drifted, and then none or one was added; an answer with an id means it was. */
  ghost predicate CreateOutcome(
    before: seq<Peering>, after: seq<Peering>, requester: string, accepting: string, answer: Result<string, Refusal>)
  {
    var n := |before|;
    || (Evolved(before, after) && answer == Err(CallFailed))
    || (&& |after| == n + 1
        && Evolved(before, after[..n])
        && after[n] == Peering(FreshId(after[..n]), after[n].status, requester, accepting)
        && answer in {Ok(after[n].peeringId), Err(CallFailed)})
  }

  /** A call that asks for a change, as it was sent. */
  datatype Request =
    | AskPeering(name: string, requester: string, accepting: string, acceptingOwner: string)
    | AskAcceptance(peeringId: string)
    | AskRoute(tableId: string, route: RouteEntry)

  class Cloud {
    /** Who owns a VPC. */
    const owner: string -> string
    var peerings: seq<Peering>
    var tables: map<string, seq<RouteEntry>>
    /** Every (table, destination) for which a `CreateRouteEntry` took effect. */
    ghost var added: seq<Pair>
    /** Every change asked for so far, how often the peerings were listed, and whether the last call failed. */
    ghost var sent: seq<Request>
    ghost var listings: nat
    ghost var failed: bool

    constructor (owner: string -> string, peerings: seq<Peering>, tables: map<string, seq<RouteEntry>>)
      ensures this.owner == owner && this.peerings == peerings && this.tables == tables
      ensures added == [] && sent == [] && listings == 0 && !failed
    {
      this.owner, this.peerings, this.tables := owner, peerings, tables;
      added, sent, listings, failed := [], [], 0, false;
    }

    ghost function Now(): Snapshot
      reads this
    {
      Snapshot(peerings, tables, sent)
    }

    ghost predicate Safe(a: string, b: string)
      reads this
    {
      SafeState(peerings, tables, added, a, b)
    }

    /** Time passes: peerings move between statuses on their own. */
    method Drift()
      modifies this`peerings
      ensures Evolved(old(peerings), peerings)
    {
      var next: seq<Peering> := *;
      if Evolved(peerings, next) {
        peerings := next;
      }
    }

    method ListPeerings() returns (answer: Result<seq<Peering>, Refusal>)
      modifies this`peerings, this`listings, this`failed
      ensures Evolved(old(peerings), peerings) && listings == old(listings) + 1
      ensures answer == if failed then Err(CallFailed) else Ok(peerings)
    {
      Drift();
      var fails := *;
      listings, failed := listings + 1, fails;
      answer := if fails then Err(CallFailed) else Ok(peerings);
    }

    method Routes(tableId: string) returns (answer: Result<seq<RouteEntry>, Refusal>)
      modifies this`peerings, this`failed
      ensures Evolved(old(peerings), peerings)
      ensures answer == if failed then Err(CallFailed) else Ok(TableOf(tables, tableId))
    {
      Drift();
      var fails := *;
      failed := fails;
      answer := if fails then Err(CallFailed) else Ok(TableOf(tables, tableId));
    }

    /** Reads who owns a VPC, for the peering request. */
    method VpcOwner(vpcId: string) returns (answer: Result<string, Refusal>)
      modifies this`peerings, this`failed
      ensures Evolved(old(peerings), peerings)
      ensures answer == if failed then Err(CallFailed) else Ok(owner(vpcId))
    {
      Drift();
      var fails := *;
      failed := fails;
      answer := if fails then Err(CallFailed) else Ok(owner(vpcId));
    }

    /** Creates one peering with some status, or fails; a failing call may still have created it. */
    method CreatePeering(name: string, gatewayVpcId: string, rdsVpcId: string, acceptingOwner: string)
      returns (answer: Result<string, Refusal>)
      modifies this`peerings, this`sent, this`failed
      ensures CreateOutcome(old(peerings), peerings, gatewayVpcId, rdsVpcId, answer)
      ensures sent == old(sent) + [AskPeering(name, gatewayVpcId, rdsVpcId, acceptingOwner)]
      ensures answer.Err? <==> failed
    {
      sent := sent + [AskPeering(name, gatewayVpcId, rdsVpcId, acceptingOwner)];
      Drift();
      ghost var drifted := peerings;
      var status: PeeringStatus := *;
      var created := Peering(FreshId(peerings), status, gatewayVpcId, rdsVpcId);
      var takesEffect, reportsFailure := *, *;
      if takesEffect {
        peerings := peerings + [created];
        assert peerings[..|drifted|] == drifted;
      }
      failed := !takesEffect || reportsFailure;
      answer := if takesEffect && !reportsFailure then Ok(created.peeringId) else Err(CallFailed);
    }

    method AcceptPeering(peeringId: string) returns (answer: Result<(), Refusal>)
      modifies this`peerings, this`sent, this`failed
      ensures Evolved(old(peerings), peerings) && sent == old(sent) + [AskAcceptance(peeringId)]
      ensures answer == if failed then Err(CallFailed) else Ok(())
    {
      sent := sent + [AskAcceptance(peeringId)];
      Drift();
      var fails := *;
      failed := fails;
      answer := if fails then Err(CallFailed) else Ok(());
    }

    /** Adds one entry, or fails; a failing call may still have added it. */
    method CreateRoute(tableId: string, route: RouteEntry) returns (answer: Result<(), Refusal>)
      modifies this
      ensures Evolved(old(peerings), peerings) && listings == old(listings)
      ensures sent == old(sent) + [AskRoute(tableId, route)]
      ensures answer == if failed then Err(CallFailed) else Ok(())
      ensures || (tables == old(tables) && added == old(added) && answer == Err(CallFailed))
              || (tables == WithRoute(old(tables), tableId, route)
                  && added == old(added) + [(tableId, route.destination)])
    {
      sent := sent + [AskRoute(tableId, route)];
      Drift();
      var takesEffect, reportsFailure := *, *;
      if takesEffect {
        tables := WithRoute(tables, tableId, route);
        added := added + [(tableId, route.destination)];
      }
      failed := !takesEffect || reportsFailure;
      answer := if takesEffect && !reportsFailure then Ok(()) else Err(CallFailed);
    }
  }

  // ---- Applying a plan ----

  const PEERING_ATTEMPTS: nat := 60
  const ROUTE_ATTEMPTS: nat := 30

  predicate PeeringActivated(peerings: seq<Peering>, id: string, checkPair: bool, a: string, b: string) {
    exists p | p in peerings ::
      p.peeringId == id && p.status.Activated? && (checkPair ==> PairMatches(p, a, b))
  }

  /** `waitFor` on the peering list. */
  method AwaitPeering(cloud: Cloud, id: string, checkPair: bool, a: string, b: string)
    returns (answer: Result<(), Refusal>)
    modifies cloud`peerings, cloud`listings, cloud`failed
    ensures Evolved(old(cloud.peerings), cloud.peerings)
    ensures answer == if cloud.failed then Err(CallFailed)
                      else if PeeringActivated(cloud.peerings, id, checkPair, a, b) then Ok(()) else Err(DidNotConverge)
    ensures answer == Err(DidNotConverge) ==> cloud.listings == old(cloud.listings) + 60
  {
    var latest :- cloud.ListPeerings();
    var attempt := 1;
    while attempt < PEERING_ATTEMPTS && !PeeringActivated(latest, id, checkPair, a, b)
      invariant Evolved(old(cloud.peerings), cloud.peerings)
      invariant latest == cloud.peerings && !cloud.failed
      invariant 1 <= attempt <= PEERING_ATTEMPTS && cloud.listings == old(cloud.listings) + attempt
    {
      latest :- cloud.ListPeerings();
      attempt := attempt + 1;
    }
    return if PeeringActivated(latest, id, checkPair, a, b) then Ok(()) else Err(DidNotConverge);
  }

  /** `waitFor` on one route table. */
  method AwaitRoute(cloud: Cloud, tableId: string, destination: string, id: string)
    returns (answer: Result<(), Refusal>)
    modifies cloud`peerings, cloud`failed
    ensures Evolved(old(cloud.peerings), cloud.peerings)
    ensures answer == if cloud.failed then Err(CallFailed)
                      else if RouteEntry(destination, Some(id)) in TableOf(cloud.tables, tableId) then Ok(())
                      else Err(DidNotConverge)
  {
    var latest :- cloud.Routes(tableId);
    var attempt := 1;
    while attempt < ROUTE_ATTEMPTS && RouteEntry(destination, Some(id)) !in latest
      invariant Evolved(old(cloud.peerings), cloud.peerings)
      invariant latest == TableOf(cloud.tables, tableId) && !cloud.failed
    {
      latest :- cloud.Routes(tableId);
      attempt := attempt + 1;
    }
    return if RouteEntry(destination, Some(id)) in latest then Ok(()) else Err(DidNotConverge);
  }

  /** The first activated peering between the two VPCs, if any. */
  function FindActivated(peerings: seq<Peering>, a: string, b: string): (found: Option<Peering>)
    ensures found.None? ==> forall p | p in peerings :: !(p.status.Activated? && PairMatches(p, a, b))
    ensures found.Some? ==>
              found.value in peerings && found.value.status.Activated? && PairMatches(found.value, a, b)
  {
    if peerings == [] then None
    else if peerings[0].status.Activated? && PairMatches(peerings[0], a, b) then Some(peerings[0])
    else FindActivated(peerings[1..], a, b)
  }

  /** What the plan relies on about the peerings when it is applied. */
  ghost predicate PeeringFits(peerings: seq<Peering>, plan: ConnectivityPlan) {
    var a, b := plan.gatewayVpcId, plan.rdsVpcId;
    && |LivePeerings(peerings, a, b)| <= (if plan.peering.Create? then 0 else 1)
    && (KnownPeering(plan.peering).Some? ==> AllLiveHaveId(peerings, a, b, KnownPeering(plan.peering).value))
  }

  lemma PeeringStillFits(before: seq<Peering>, after: seq<Peering>, plan: ConnectivityPlan)
    requires PeeringFits(before, plan) && Evolved(before, after)
    ensures PeeringFits(after, plan)
  {
    EvolutionKeepsLiveBound(before, after, plan.gatewayVpcId, plan.rdsVpcId);
    if KnownPeering(plan.peering).Some? {
      EvolutionKeepsLiveId(before, after, plan.gatewayVpcId, plan.rdsVpcId, KnownPeering(plan.peering).value);
    }
  }

  lemma CreationKeepsOneLive(
    before: seq<Peering>, after: seq<Peering>, a: string, b: string, answer: Result<string, Refusal>)
    requires LivePeerings(before, a, b) == []
    requires CreateOutcome(before, after, a, b, answer)
    ensures |LivePeerings(after, a, b)| <= 1
  {
    if |after| == |before| {
      EvolutionKeepsLiveBound(before, after, a, b);
    } else {
      var n := |before|;
      EvolutionKeepsLiveBound(before, after[..n], a, b);
      CreationAddsAtMostOne(after[..n], after[n], a, b);
      assert after == after[..n] + [after[n]];
    }
  }

  /** Among at most one live peering, an activated one is the only one. */
  lemma OnlyLive(peerings: seq<Peering>, a: string, b: string, p: Peering)
    requires |LivePeerings(peerings, a, b)| <= 1
    requires p in peerings && IsLive(p, a, b)
    ensures AllLiveHaveId(peerings, a, b, p.peeringId)
  {
    assert p in LivePeerings(peerings, a, b);
    assert LivePeerings(peerings, a, b) == [p];
  }

  /** What a plan asks for about the peering: its creation, its acceptance, or nothing. */
  function PeeringRequests(plan: ConnectivityPlan, owner: string -> string): seq<Request> {
    match plan.peering
    case Create(name) => [AskPeering(name, plan.gatewayVpcId, plan.rdsVpcId, owner(plan.rdsVpcId))]
    case Accept(id) => [AskAcceptance(id)]
    case _ => []
  }

  /** What it asks for about the routes: every changed one, in order, through the peering. */
  function RouteRequests(routes: seq<RoutePlan>, id: string): seq<Request> {
    if routes == [] then []
    else
      var before, last := RouteRequests(routes[..|routes| - 1], id), routes[|routes| - 1];
      if last.changed then before + [AskRoute(last.routeTableId, RouteEntry(last.destination, Some(id)))] else before
  }

  /** `wanted` was sent after `before`, in order, up to some point. */
  predicate SentUpTo(before: seq<Request>, after: seq<Request>, wanted: seq<Request>) {
    before <= after <= before + wanted
  }

  /** The peerings were listed as often as the wait allows. */
  predicate WaitRanOut(error: Refusal, listings: int) {
    error.DidNotConverge? && listings == 60
  }

  lemma EvolvedTwice(first: seq<Peering>, second: seq<Peering>, third: seq<Peering>)
    requires Evolved(first, second) && Evolved(second, third)
    ensures Evolved(first, third)
  {
    forall i | 0 <= i < |first|
      ensures third[i] == first[i].(status := third[i].status)
      ensures TerminalFailure(first[i].status) ==> TerminalFailure(third[i].status)
    {
      assert second[i] == first[i].(status := second[i].status);
    }
  }

  /** Creates or accepts the planned peering and waits for it; a reused one needs nothing. */
  method PreparePeering(cloud: Cloud, plan: ConnectivityPlan) returns (answer: Result<(), Refusal>)
    requires PeeringFits(cloud.peerings, plan)
    modifies cloud`peerings, cloud`sent, cloud`listings, cloud`failed
    ensures |LivePeerings(cloud.peerings, plan.gatewayVpcId, plan.rdsVpcId)| <= 1
    ensures !plan.peering.Create? ==> PeeringFits(cloud.peerings, plan) && Evolved(old(cloud.peerings), cloud.peerings)
    ensures answer.Ok? && plan.peering.Accept? ==>
              PeeringActivated(cloud.peerings, plan.peering.peeringId, false, plan.gatewayVpcId, plan.rdsVpcId)
    ensures SentUpTo(old(cloud.sent), cloud.sent, PeeringRequests(plan, cloud.owner))
    ensures answer.Ok? ==> cloud.sent == old(cloud.sent) + PeeringRequests(plan, cloud.owner)
    ensures plan.peering.Reuse? ==> answer.Ok?
    ensures answer.Err? ==> cloud.failed || WaitRanOut(answer.error, cloud.listings - old(cloud.listings))
  {
    var a, b := plan.gatewayVpcId, plan.rdsVpcId;
    ghost var start := cloud.peerings;
    var waited := Ok(());
    if plan.peering.Create? {
      var owner := cloud.VpcOwner(b);
      EvolutionKeepsLiveBound(start, cloud.peerings, a, b);
      var acceptingOwner :- owner;
      ghost var read := cloud.peerings;
      var created := cloud.CreatePeering(plan.peering.name, a, b, acceptingOwner);
      CreationKeepsOneLive(read, cloud.peerings, a, b, created);
      var id :- created;
      ghost var withCreated := cloud.peerings;
      waited := AwaitPeering(cloud, id, true, a, b);
      EvolutionKeepsLiveBound(withCreated, cloud.peerings, a, b);
    } else if plan.peering.Accept? {
      var accepted := cloud.AcceptPeering(plan.peering.peeringId);
      PeeringStillFits(start, cloud.peerings, plan);
      var _ :- accepted;
      waited := AwaitPeering(cloud, plan.peering.peeringId, false, a, b);
      PeeringStillFits(start, cloud.peerings, plan);
    }
    return waited;
  }

  predicate NoneActivated(peerings: seq<Peering>, a: string, b: string) {
    forall p | p in peerings :: !(p.status.Activated? && PairMatches(p, a, b))
  }

  /** Brings the planned peering up and settles the id the routes will use. */
  method EstablishPeering(cloud: Cloud, plan: ConnectivityPlan) returns (answer: Result<string, Refusal>)
    requires !plan.peering.NoAction?
    requires PeeringFits(cloud.peerings, plan)
    modifies cloud`peerings, cloud`sent, cloud`listings, cloud`failed
    ensures |LivePeerings(cloud.peerings, plan.gatewayVpcId, plan.rdsVpcId)| <= 1
    ensures !plan.peering.Create? ==> Evolved(old(cloud.peerings), cloud.peerings)
    ensures SentUpTo(old(cloud.sent), cloud.sent, PeeringRequests(plan, cloud.owner))
    ensures answer.Ok? ==> cloud.sent == old(cloud.sent) + PeeringRequests(plan, cloud.owner)
    ensures answer.Err? ==>
              || cloud.failed || WaitRanOut(answer.error, cloud.listings - old(cloud.listings))
              || (answer.error.PeeringNotActivated? && plan.peering.Create?
                  && NoneActivated(cloud.peerings, plan.gatewayVpcId, plan.rdsVpcId))
    ensures answer.Ok? ==> AllLiveHaveId(cloud.peerings, plan.gatewayVpcId, plan.rdsVpcId, answer.value)
    ensures answer.Ok? && KnownPeering(plan.peering).Some? ==> Some(answer.value) == KnownPeering(plan.peering)
    ensures answer.Ok? && plan.peering.Create? ==>
              PeeringActivated(cloud.peerings, answer.value, true, plan.gatewayVpcId, plan.rdsVpcId)
  {
    var a, b := plan.gatewayVpcId, plan.rdsVpcId;
    var _ :- PreparePeering(cloud, plan);
    ghost var prepared := cloud.peerings;
    var listed := cloud.ListPeerings();
    EvolutionKeepsLiveBound(prepared, cloud.peerings, a, b);
    var peerings :- listed;
    var activated := FindActivated(peerings, a, b);
    if plan.peering.Create? {
      if activated.None? {
        return Err(PeeringNotActivated);
      }
      OnlyLive(cloud.peerings, a, b, activated.value);
      return Ok(activated.value.peeringId);
    }
    PeeringStillFits(prepared, cloud.peerings, plan);
    return Ok(plan.peering.peeringId);
  }

  /** The tables once every changed route is added. */
  function TablesAfter(tables: map<string, seq<RouteEntry>>, routes: seq<RoutePlan>, id: string)
    : map<string, seq<RouteEntry>>
  {
    if routes == [] then tables
    else
      var before, last := TablesAfter(tables, routes[..|routes| - 1], id), routes[|routes| - 1];
      if last.changed then WithRoute(before, last.routeTableId, RouteEntry(last.destination, Some(id))) else before
  }

  ghost predicate RoutesMissing(tables: map<string, seq<RouteEntry>>, routes: seq<RoutePlan>) {
    forall r | r in routes && r.changed :: !HasRoute(tables, r.routeTableId, r.destination)
  }

  ghost predicate DistinctTables(routes: seq<RoutePlan>) {
    forall i, j | 0 <= i < j < |routes| :: routes[i].routeTableId != routes[j].routeTableId
  }

  lemma OtherRoutesStayMissing(
    tables: map<string, seq<RouteEntry>>, routes: seq<RoutePlan>, i: nat, route: RouteEntry)
    requires i < |routes| && DistinctTables(routes)
    requires RoutesMissing(tables, routes[i..])
    ensures RoutesMissing(WithRoute(tables, routes[i].routeTableId, route), routes[i + 1..])
  {
    var after := WithRoute(tables, routes[i].routeTableId, route);
    forall other | other in routes[i + 1..] && other.changed
      ensures !HasRoute(after, other.routeTableId, other.destination)
    {
      var j :| i + 1 <= j < |routes| && routes[j] == other;
      assert other in routes[i..];
      assert TableOf(after, other.routeTableId) == TableOf(tables, other.routeTableId);
    }
  }

  lemma OneMoreRoute(tables: map<string, seq<RouteEntry>>, routes: seq<RoutePlan>, i: nat, id: string)
    requires i < |routes|
    ensures var before := TablesAfter(tables, routes[..i], id);
            TablesAfter(tables, routes[..i + 1], id) ==
            if routes[i].changed then
              WithRoute(before, routes[i].routeTableId, RouteEntry(routes[i].destination, Some(id)))
            else before
  {
    assert routes[..i + 1][..i] == routes[..i];
  }

  /** Adds one missing route; the call may fail, and may take effect and still fail. */
  method AddRoute(cloud: Cloud, ghost routes: seq<RoutePlan>, ghost i: nat, route: RoutePlan, peeringId: string,
                  ghost a: string, ghost b: string)
    returns (answer: Result<(), Refusal>)
    requires cloud.Safe(a, b) && AllLiveHaveId(cloud.peerings, a, b, peeringId)
    requires i < |routes| && routes[i] == route && route.changed
    requires DistinctTables(routes) && RoutesMissing(cloud.tables, routes[i..])
    modifies cloud
    ensures cloud.Safe(a, b) && AllLiveHaveId(cloud.peerings, a, b, peeringId)
    ensures answer.Ok? ==>
              && cloud.tables == WithRoute(old(cloud.tables), route.routeTableId,
                   RouteEntry(route.destination, Some(peeringId)))
              && RoutesMissing(cloud.tables, routes[i + 1..])
    ensures Evolved(old(cloud.peerings), cloud.peerings) && (answer.Err? ==> cloud.failed)
    ensures cloud.sent ==
            old(cloud.sent) + [AskRoute(route.routeTableId, RouteEntry(route.destination, Some(peeringId)))]
  {
    var entry := RouteEntry(route.destination, Some(peeringId));
    assert routes[i] in routes[i..];
    OtherRoutesStayMissing(cloud.tables, routes, i, entry);
    ghost var peerings := cloud.peerings;
    AddingAMissingRouteIsSafe(peerings, cloud.tables, cloud.added, a, b, route.routeTableId, entry);
    answer := cloud.CreateRoute(route.routeTableId, entry);
    EvolutionKeepsLiveBound(peerings, cloud.peerings, a, b);
    EvolutionKeepsLiveId(peerings, cloud.peerings, a, b, peeringId);
  }

  lemma OneMoreRequest(routes: seq<RoutePlan>, i: nat, id: string)
    requires i < |routes|
    ensures RouteRequests(routes[..i + 1], id) ==
            RouteRequests(routes[..i], id) +
            if routes[i].changed then [AskRoute(routes[i].routeTableId, RouteEntry(routes[i].destination, Some(id)))]
            else []
    ensures RouteRequests(routes[..i + 1], id) <= RouteRequests(routes, id)
    decreases |routes| - i
  {
    assert routes[..i + 1][..i] == routes[..i];
    if i + 1 == |routes| {
      assert routes[..i + 1] == routes;
    } else {
      OneMoreRequest(routes, i + 1, id);
    }
  }

  /** The cloud as a run changes it. */
  datatype Snapshot = Snapshot(peerings: seq<Peering>, tables: map<string, seq<RouteEntry>>, sent: seq<Request>)

  /** From `before` to `now` the first `i` routes were dealt with: asked for and added where they were missing. */
  ghost predicate Reached(before: Snapshot, now: Snapshot, routes: seq<RoutePlan>, i: nat, id: string)
    requires i <= |routes|
  {
    && Evolved(before.peerings, now.peerings)
    && now.tables == TablesAfter(before.tables, routes[..i], id)
    && now.sent == before.sent + RouteRequests(routes[..i], id)
    && RoutesMissing(now.tables, routes[i..])
  }

  lemma KeptRoute(before: Snapshot, now: Snapshot, routes: seq<RoutePlan>, i: nat, id: string)
    requires i < |routes| && !routes[i].changed && Reached(before, now, routes, i, id)
    ensures Reached(before, now, routes, i + 1, id)
  {
    OneMoreRequest(routes, i, id);
    OneMoreRoute(before.tables, routes, i, id);
    assert routes[i..] == [routes[i]] + routes[i + 1..];
  }

  lemma AskedRoute(before: Snapshot, now: Snapshot, next: Snapshot, routes: seq<RoutePlan>, i: nat, id: string)
    requires i < |routes| && routes[i].changed && Reached(before, now, routes, i, id)
    requires Evolved(now.peerings, next.peerings)
    requires next.sent == now.sent + [AskRoute(routes[i].routeTableId, RouteEntry(routes[i].destination, Some(id)))]
    ensures Evolved(before.peerings, next.peerings)
    ensures SentUpTo(before.sent, next.sent, RouteRequests(routes, id))
    ensures && next.tables == WithRoute(now.tables, routes[i].routeTableId, RouteEntry(routes[i].destination, Some(id)))
            && RoutesMissing(next.tables, routes[i + 1..]) ==>
              Reached(before, next, routes, i + 1, id)
  {
    EvolvedTwice(before.peerings, now.peerings, next.peerings);
    OneMoreRequest(routes, i, id);
    OneMoreRoute(before.tables, routes, i, id);
    assert next.sent == before.sent + RouteRequests(routes[..i + 1], id);
  }

  /** The loop that adds every missing route. */
  method AddRoutes(cloud: Cloud, routes: seq<RoutePlan>, peeringId: string, ghost a: string, ghost b: string)
    returns (answer: Result<bool, Refusal>)
    requires cloud.Safe(a, b) && AllLiveHaveId(cloud.peerings, a, b, peeringId)
    requires DistinctTables(routes) && RoutesMissing(cloud.tables, routes)
    modifies cloud
    ensures cloud.Safe(a, b) && AllLiveHaveId(cloud.peerings, a, b, peeringId)
    ensures answer.Ok? ==> cloud.tables == TablesAfter(old(cloud.tables), routes, peeringId)
    ensures answer.Ok? ==> (answer.value <==> exists r | r in routes :: r.changed)
    ensures Evolved(old(cloud.peerings), cloud.peerings) && (answer.Err? ==> cloud.failed)
    ensures SentUpTo(old(cloud.sent), cloud.sent, RouteRequests(routes, peeringId))
    ensures answer.Ok? ==> cloud.sent == old(cloud.sent) + RouteRequests(routes, peeringId)
  {
    ghost var before := cloud.Now();
    var changed := false;
    assert routes[0..] == routes;
    for i := 0 to |routes|
      invariant cloud.Safe(a, b) && AllLiveHaveId(cloud.peerings, a, b, peeringId)
      invariant Reached(before, cloud.Now(), routes, i, peeringId)
      invariant changed <==> exists r | r in routes[..i] :: r.changed
    {
      ghost var now := cloud.Now();
      assert routes[..i + 1] == routes[..i] + [routes[i]];
      if !routes[i].changed {
        KeptRoute(before, now, routes, i, peeringId);
        continue;
      }
      var added := AddRoute(cloud, routes, i, routes[i], peeringId, a, b);
      AskedRoute(before, now, cloud.Now(), routes, i, peeringId);
      var _ :- added;
      changed := true;
    }
    assert routes[..|routes|] == routes;
    return Ok(changed);
  }

  /** Every route that was to be added is in its table, through the peering. */
  ghost predicate AllListed(tables: map<string, seq<RouteEntry>>, routes: seq<RoutePlan>, peeringId: string) {
    forall r | r in routes && r.changed ::
      RouteEntry(r.destination, Some(peeringId)) in TableOf(tables, r.routeTableId)
  }

  /** The loop that waits until every added route is listed. */
  method AwaitRoutes(cloud: Cloud, routes: seq<RoutePlan>, peeringId: string, ghost a: string, ghost b: string)
    returns (answer: Result<(), Refusal>)
    requires cloud.Safe(a, b) && AllLiveHaveId(cloud.peerings, a, b, peeringId)
    modifies cloud`peerings, cloud`failed
    ensures cloud.Safe(a, b) && AllLiveHaveId(cloud.peerings, a, b, peeringId)
    ensures Evolved(old(cloud.peerings), cloud.peerings)
    ensures answer.Err? ==> cloud.failed || !AllListed(cloud.tables, routes, peeringId)
    ensures answer.Ok? ==> AllListed(cloud.tables, routes, peeringId)
  {
    for i := 0 to |routes|
      invariant cloud.Safe(a, b) && AllLiveHaveId(cloud.peerings, a, b, peeringId)
      invariant AllListed(cloud.tables, routes[..i], peeringId)
      invariant Evolved(old(cloud.peerings), cloud.peerings)
    {
      assert routes[..i + 1] == routes[..i] + [routes[i]];
      if routes[i].changed {
        ghost var peerings := cloud.peerings;
        var waited := AwaitRoute(cloud, routes[i].routeTableId, routes[i].destination, peeringId);
        EvolutionKeepsLiveBound(peerings, cloud.peerings, a, b);
        EvolutionKeepsLiveId(peerings, cloud.peerings, a, b, peeringId);
        EvolvedTwice(old(cloud.peerings), peerings, cloud.peerings);
        var _ :- waited;
      }
    }
    assert routes[..|routes|] == routes;
    return Ok(());
  }

  /** Routes in tables of their own are all listed once they are added. */
  lemma {:induction false} AddedAreListed(tables: map<string, seq<RouteEntry>>, routes: seq<RoutePlan>, id: string)
    requires DistinctTables(routes)
    ensures AllListed(TablesAfter(tables, routes, id), routes, id)
    decreases |routes|
  {
    if routes != [] {
      var before, last := routes[..|routes| - 1], routes[|routes| - 1];
      AddedAreListed(tables, before, id);
      assert routes == before + [last];
      forall r | r in routes && r.changed
        ensures RouteEntry(r.destination, Some(id)) in TableOf(TablesAfter(tables, routes, id), r.routeTableId)
      {
        if r in before {
          assert RouteEntry(r.destination, Some(id)) in TableOf(TablesAfter(tables, before, id), r.routeTableId);
        }
      }
    }
  }

  /** Everything a plan asks for, in order. */
  function Requests(plan: ConnectivityPlan, owner: string -> string, id: string): seq<Request> {
    PeeringRequests(plan, owner) + RouteRequests(plan.routes, id)
  }

  /** Something is asked for exactly when the peering or a route needs it. */
  lemma AsksIff(plan: ConnectivityPlan, owner: string -> string, id: string)
    ensures Requests(plan, owner, id) != [] <==>
            plan.peering.Create? || plan.peering.Accept? || exists r | r in plan.routes :: r.changed
  {
    RouteAsksIff(plan.routes, id);
  }

  lemma {:induction false} RouteAsksIff(routes: seq<RoutePlan>, id: string)
    ensures RouteRequests(routes, id) != [] <==> exists r | r in routes :: r.changed
    decreases |routes|
  {
    if routes != [] {
      RouteAsksIff(routes[..|routes| - 1], id);
      assert routes == routes[..|routes| - 1] + [routes[|routes| - 1]];
    }
  }

  /** Only a plan that creates asks for a peering. */
  lemma {:induction false} RoutesAskNoPeering(routes: seq<RoutePlan>, id: string)
    ensures forall i | 0 <= i < |RouteRequests(routes, id)| :: RouteRequests(routes, id)[i].AskRoute?
    decreases |routes|
  {
    if routes != [] {
      RoutesAskNoPeering(routes[..|routes| - 1], id);
    }
  }

  lemma SentFirst(
    before: seq<Request>, after: seq<Request>, plan: ConnectivityPlan, owner: string -> string, id: string)
    requires SentUpTo(before, after, PeeringRequests(plan, owner))
    ensures SentUpTo(before, after, Requests(plan, owner, id))
  {
    assert before + Requests(plan, owner, id) == before + PeeringRequests(plan, owner) + RouteRequests(plan.routes, id);
  }

  lemma SentBoth(
    before: seq<Request>, after: seq<Request>, plan: ConnectivityPlan, owner: string -> string, id: string)
    requires SentUpTo(before + PeeringRequests(plan, owner), after, RouteRequests(plan.routes, id))
    ensures SentUpTo(before, after, Requests(plan, owner, id))
    ensures before + PeeringRequests(plan, owner) + RouteRequests(plan.routes, id) == before + Requests(plan, owner, id)
  {
  }

  /** What a plan relies on when it is applied: it was made from the state it is applied to. */
  ghost predicate PlanFits(peerings: seq<Peering>, tables: map<string, seq<RouteEntry>>, plan: ConnectivityPlan) {
    !plan.sameVpc && !plan.peering.NoAction? ==>
      PeeringFits(peerings, plan) && RoutesMissing(tables, plan.routes) && DistinctTables(plan.routes)
  }

  /** Adds the missing routes and waits until all are listed; only a failing call stops it. */
  method ApplyRoutes(cloud: Cloud, routes: seq<RoutePlan>, peeringId: string, ghost a: string, ghost b: string)
    returns (answer: Result<bool, Refusal>)
    requires cloud.Safe(a, b) && AllLiveHaveId(cloud.peerings, a, b, peeringId)
    requires DistinctTables(routes) && RoutesMissing(cloud.tables, routes)
    modifies cloud
    ensures cloud.Safe(a, b) && AllLiveHaveId(cloud.peerings, a, b, peeringId)
    ensures answer.Ok? ==> cloud.tables == TablesAfter(old(cloud.tables), routes, peeringId)
    ensures answer.Ok? ==> (answer.value <==> exists r | r in routes :: r.changed)
    ensures Evolved(old(cloud.peerings), cloud.peerings) && (answer.Err? ==> cloud.failed)
    ensures SentUpTo(old(cloud.sent), cloud.sent, RouteRequests(routes, peeringId))
    ensures answer.Ok? ==> cloud.sent == old(cloud.sent) + RouteRequests(routes, peeringId)
  {
    ghost var start, tables := cloud.peerings, cloud.tables;
    answer := AddRoutes(cloud, routes, peeringId, a, b);
    ghost var extended := cloud.peerings;
    if answer.Ok? {
      AddedAreListed(tables, routes, peeringId);
      var waited := AwaitRoutes(cloud, routes, peeringId, a, b);
      EvolvedTwice(start, extended, cloud.peerings);
      if waited.Err? {
        return Err(waited.error);
      }
    }
  }

  /**
   Applies a plan made from the present state. It may stop after any call; the cloud is safe wherever it
   stops, and has been sent what the plan asks for, in order, up to there. A completed run has sent all of it
   and added exactly the missing routes through the one live peering. It stops for nothing but a failed call,
   a peering not activated at the last of its reads, or a created one that none of the listed replaces.
   */
  method ApplyConnectivity(cloud: Cloud, plan: ConnectivityPlan)
    returns (answer: Result<bool, Refusal>, ghost id: string)
    requires cloud.Safe(plan.gatewayVpcId, plan.rdsVpcId) && PlanFits(cloud.peerings, cloud.tables, plan)
    modifies cloud
    ensures cloud.Safe(plan.gatewayVpcId, plan.rdsVpcId)
    ensures plan.sameVpc || plan.peering.NoAction? ==>
              && answer == Ok(false) && cloud.tables == old(cloud.tables) && cloud.peerings == old(cloud.peerings)
              && cloud.sent == old(cloud.sent)
    ensures !plan.sameVpc && !plan.peering.NoAction? ==>
              && SentUpTo(old(cloud.sent), cloud.sent, Requests(plan, cloud.owner, id))
              && (answer.Ok? ==> cloud.sent == old(cloud.sent) + Requests(plan, cloud.owner, id))
    ensures !plan.peering.Create? ==> Evolved(old(cloud.peerings), cloud.peerings)
    ensures answer.Err? ==>
              || cloud.failed || WaitRanOut(answer.error, cloud.listings - old(cloud.listings))
              || (answer.error.PeeringNotActivated? && plan.peering.Create?
                  && NoneActivated(cloud.peerings, plan.gatewayVpcId, plan.rdsVpcId))
    ensures answer.Ok? && !plan.sameVpc && !plan.peering.NoAction? ==>
              && cloud.tables == TablesAfter(old(cloud.tables), plan.routes, id)
              && AllLiveHaveId(cloud.peerings, plan.gatewayVpcId, plan.rdsVpcId, id)
              && (KnownPeering(plan.peering).Some? ==> KnownPeering(plan.peering) == Some(id))
              && (answer.value <==> plan.peering.Create? || plan.peering.Accept?
                                    || exists r | r in plan.routes :: r.changed)
  {
    id := "";
    if plan.sameVpc || plan.peering.NoAction? {
      return Ok(false), id;
    }
    var a, b := plan.gatewayVpcId, plan.rdsVpcId;
    ghost var start, sent := cloud.peerings, cloud.sent;
    var established := EstablishPeering(cloud, plan);
    ghost var settled := cloud.peerings;
    if established.Err? {
      SentFirst(sent, cloud.sent, plan, cloud.owner, id);
      return Err(established.error), id;
    }
    id := established.value;
    var peeringId := established.value;
    var changed := plan.peering.Create? || plan.peering.Accept?;
    var added := ApplyRoutes(cloud, plan.routes, peeringId, a, b);
    SentBoth(sent, cloud.sent, plan, cloud.owner, id);
    if !plan.peering.Create? {
      EvolvedTwice(start, settled, cloud.peerings);
    }
    if added.Err? {
      return Err(added.error), id;
    }
    return Ok(changed || added.value), id;
  }

  /** The parts an accepted cross-VPC plan is made of. */
  ghost predicate MadeOf(input: ConnectivityInput, plan: ConnectivityPlan) {
    && |plan.routes| == 2
    && plan == CrossVpcPlan(input, plan.peering, plan.routes[0], plan.routes[1])
    && PlanPeering(input) == Ok(plan.peering)
    && var known := KnownPeering(plan.peering);
       && PlanRoute(input.gatewayRoutes, input.gateway.routeTableId, input.rds.privateIp, known) == Ok(plan.routes[0])
       && PlanRoute(input.rdsRoutes, input.rds.routeTableId, input.gateway.privateIp, known) == Ok(plan.routes[1])
  }

  lemma BothRoutesShape(input: ConnectivityInput, peering: PeeringAction)
    requires PlanPeering(input) == Ok(peering) && PlanBothRoutes(input, peering).Ok?
    ensures MadeOf(input, PlanBothRoutes(input, peering).value)
  {
  }

  lemma PlanShape(input: ConnectivityInput)
    requires PlanConnectivity(input).Ok? && !PlanConnectivity(input).value.sameVpc
    ensures MadeOf(input, PlanConnectivity(input).value)
    ensures ReadableVpcs(input)
  {
    BothRoutesShape(input, PlanPeering(input).value);
  }

  /** The two VPCs differ and their blocks are known and apart. */
  predicate ReadableVpcs(input: ConnectivityInput) {
    && input.gateway.vpcId != input.rds.vpcId
    && input.gateway.vpcCidr.Some? && input.rds.vpcCidr.Some?
    && !CidrOverlaps(input.gateway.vpcCidr.value, input.rds.vpcCidr.value)
  }

  /** An accepted peering action fits the peerings it was read from. */
  lemma PlannedPeeringFits(input: ConnectivityInput, plan: ConnectivityPlan)
    requires PlanPeering(input) == Ok(plan.peering)
    requires plan.gatewayVpcId == input.gateway.vpcId && plan.rdsVpcId == input.rds.vpcId
    ensures PeeringFits(input.peerings, plan) && !plan.peering.NoAction?
  {
    var live := LivePeerings(input.peerings, input.gateway.vpcId, input.rds.vpcId);
    assert forall p | p in live :: exists i :: 0 <= i < |live| && live[i] == p;
  }

  /** A planned route belongs to the table it was planned for and, when it is to be added, is not there yet. */
  lemma PlannedRouteFits(
    tables: map<string, seq<RouteEntry>>, tableId: string, host: string, known: Option<string>, route: RoutePlan)
    requires Ipv4(host).Some?
    requires PlanRoute(TableOf(tables, tableId), tableId, host, known) == Ok(route)
    ensures route.routeTableId == tableId
    ensures route.changed ==> !HasRoute(tables, tableId, route.destination)
  {
    if route.changed {
      PlannedRouteIsMissing(TableOf(tables, tableId), tableId, host, known);
    }
  }

  predicate RouteFits(tables: map<string, seq<RouteEntry>>, tableId: string, route: RoutePlan) {
    route.routeTableId == tableId && (route.changed ==> !HasRoute(tables, tableId, route.destination))
  }

  lemma PartsFit(
    peerings: seq<Peering>, tables: map<string, seq<RouteEntry>>, gatewayTable: string, rdsTable: string,
    plan: ConnectivityPlan)
    requires PeeringFits(peerings, plan) && gatewayTable != rdsTable
    requires |plan.routes| == 2
    requires RouteFits(tables, gatewayTable, plan.routes[0]) && RouteFits(tables, rdsTable, plan.routes[1])
    ensures PlanFits(peerings, tables, plan)
  {
  }

  lemma GatewayRouteFits(input: ConnectivityInput, tables: map<string, seq<RouteEntry>>, plan: ConnectivityPlan)
    requires UsableSides(input.gateway, input.rds) && ReadFrom(input, tables) && MadeOf(input, plan)
    ensures RouteFits(tables, input.gateway.routeTableId, plan.routes[0])
  {
    var known := KnownPeering(plan.peering);
    PlannedRouteFits(tables, input.gateway.routeTableId, input.rds.privateIp, known, plan.routes[0]);
  }

  lemma RdsRouteFits(input: ConnectivityInput, tables: map<string, seq<RouteEntry>>, plan: ConnectivityPlan)
    requires UsableSides(input.gateway, input.rds) && ReadFrom(input, tables) && MadeOf(input, plan)
    ensures RouteFits(tables, input.rds.routeTableId, plan.routes[1])
  {
    var known := KnownPeering(plan.peering);
    PlannedRouteFits(tables, input.rds.routeTableId, input.gateway.privateIp, known, plan.routes[1]);
  }

  lemma MadePeeringFits(input: ConnectivityInput, plan: ConnectivityPlan)
    requires MadeOf(input, plan)
    ensures PeeringFits(input.peerings, plan) && !plan.peering.NoAction?
  {
    PlannedPeeringFits(input, plan);
  }

  /** An accepted plan fits the state it was read from. */
  lemma FreshPlanFits(input: ConnectivityInput, tables: map<string, seq<RouteEntry>>, plan: ConnectivityPlan)
    requires UsableSides(input.gateway, input.rds) && input.gateway.vpcId != input.rds.vpcId
    requires ReadFrom(input, tables)
    requires MadeOf(input, plan)
    ensures PlanFits(input.peerings, tables, plan) && !plan.peering.NoAction?
  {
    MadePeeringFits(input, plan);
    GatewayRouteFits(input, tables, plan);
    RdsRouteFits(input, tables, plan);
    PartsFit(input.peerings, tables, input.gateway.routeTableId, input.rds.routeTableId, plan);
  }

  /** Planning where the peering is reused and both directions are in place changes nothing. */
  lemma NothingLeftToPlan(input: ConnectivityInput, id: string, gatewayRoute: RoutePlan, rdsRoute: RoutePlan)
    requires ReadableVpcs(input)
    requires PlanPeering(input) == Ok(Reuse(id))
    requires PlanRoute(input.gatewayRoutes, input.gateway.routeTableId, input.rds.privateIp, Some(id)) ==
             Ok(gatewayRoute)
    requires PlanRoute(input.rdsRoutes, input.rds.routeTableId, input.gateway.privateIp, Some(id)) == Ok(rdsRoute)
    ensures PlanConnectivity(input) == Ok(CrossVpcPlan(input, Reuse(id), gatewayRoute, rdsRoute))
  {
    RoutesPlanned(input, id, gatewayRoute, rdsRoute);
  }

  lemma RoutesPlanned(input: ConnectivityInput, id: string, gatewayRoute: RoutePlan, rdsRoute: RoutePlan)
    requires PlanRoute(input.gatewayRoutes, input.gateway.routeTableId, input.rds.privateIp, Some(id)) ==
             Ok(gatewayRoute)
    requires PlanRoute(input.rdsRoutes, input.rds.routeTableId, input.gateway.privateIp, Some(id)) == Ok(rdsRoute)
    ensures PlanBothRoutes(input, Reuse(id)) == Ok(CrossVpcPlan(input, Reuse(id), gatewayRoute, rdsRoute))
  {
  }

  /** The one live peering, once activated, is reused. */
  lemma ActivatedIsReused(input: ConnectivityInput, id: string)
    requires |LivePeerings(input.peerings, input.gateway.vpcId, input.rds.vpcId)| <= 1
    requires LiveIsActivated(input.peerings, input.gateway.vpcId, input.rds.vpcId)
    requires AllLiveHaveId(input.peerings, input.gateway.vpcId, input.rds.vpcId, id)
    ensures PlanPeering(input) == Ok(Reuse(id))
  {
    var live := LivePeerings(input.peerings, input.gateway.vpcId, input.rds.vpcId);
    var p :| p in live && p.status.Activated?;
    assert live == [p];
  }

  // ---- Runs ----

  /** The planner's input when it reads `peerings` and `tables`. */
  function InputFrom(
    gateway: Side, rds: Side, peerings: seq<Peering>, tables: map<string, seq<RouteEntry>>, createPeering: bool,
    peeringName: string): ConnectivityInput
  {
    ConnectivityInput(gateway, rds, peerings, TableOf(tables, gateway.routeTableId), TableOf(tables, rds.routeTableId),
                      createPeering, peeringName)
  }

  ghost predicate UsableSides(gateway: Side, rds: Side) {
    && Ipv4(gateway.privateIp).Some?
    && Ipv4(rds.privateIp).Some?
    && (gateway.vpcId != rds.vpcId ==> gateway.routeTableId != rds.routeTableId)
  }

  ghost predicate ReadFrom(input: ConnectivityInput, tables: map<string, seq<RouteEntry>>) {
    && input.gatewayRoutes == TableOf(tables, input.gateway.routeTableId)
    && input.rdsRoutes == TableOf(tables, input.rds.routeTableId)
  }

  /** The tables after both routes of a plan, one table at a time. */
  lemma TwoTablesAfter(tables: map<string, seq<RouteEntry>>, first: RoutePlan, second: RoutePlan, id: string)
    requires first.routeTableId != second.routeTableId
    ensures var after := TablesAfter(tables, [first, second], id);
            && (forall t: string | t != first.routeTableId && t != second.routeTableId ::
                  TableOf(after, t) == TableOf(tables, t))
            && TableOf(after, first.routeTableId) == TableAfter(TableOf(tables, first.routeTableId), first, id)
            && TableOf(after, second.routeTableId) == TableAfter(TableOf(tables, second.routeTableId), second, id)
  {
    OneMoreRoute(tables, [first, second], 0, id);
    OneMoreRoute(tables, [first, second], 1, id);
    assert [first, second][..2] == [first, second];
  }

  /** The one live peering, if there is one, is activated. */
  ghost predicate LiveIsActivated(peerings: seq<Peering>, a: string, b: string) {
    exists p | p in LivePeerings(peerings, a, b) :: p.status.Activated?
  }

  /** Planning from `peerings` and `tables` changes nothing, whatever the flags. */
  ghost predicate Settled(
    gateway: Side, rds: Side, peerings: seq<Peering>, tables: map<string, seq<RouteEntry>>)
  {
    forall create, name ::
      var again := PlanConnectivity(InputFrom(gateway, rds, peerings, tables, create, name));
      again.Ok? && !again.value.changed
  }

  /** Planning one direction from `tables` finds its route through `id` in place. */
  ghost predicate RouteInPlace(tables: map<string, seq<RouteEntry>>, tableId: string, host: string, id: string) {
    var plan := PlanRoute(TableOf(tables, tableId), tableId, host, Some(id));
    plan.Ok? && !plan.value.changed
  }

  lemma RoutesInPlaceSettle(
    input: ConnectivityInput, peerings: seq<Peering>, after: map<string, seq<RouteEntry>>, id: string)
    requires ReadableVpcs(input)
    requires |LivePeerings(peerings, input.gateway.vpcId, input.rds.vpcId)| <= 1
    requires LiveIsActivated(peerings, input.gateway.vpcId, input.rds.vpcId)
    requires AllLiveHaveId(peerings, input.gateway.vpcId, input.rds.vpcId, id)
    requires RouteInPlace(after, input.gateway.routeTableId, input.rds.privateIp, id)
    requires RouteInPlace(after, input.rds.routeTableId, input.gateway.privateIp, id)
    ensures Settled(input.gateway, input.rds, peerings, after)
  {
    var gatewayTable, rdsTable := input.gateway.routeTableId, input.rds.routeTableId;
    var again0 := PlanRoute(TableOf(after, gatewayTable), gatewayTable, input.rds.privateIp, Some(id)).value;
    var again1 := PlanRoute(TableOf(after, rdsTable), rdsTable, input.gateway.privateIp, Some(id)).value;
    forall create, name
      ensures var again := PlanConnectivity(InputFrom(input.gateway, input.rds, peerings, after, create, name));
              again.Ok? && !again.value.changed
    {
      var next := InputFrom(input.gateway, input.rds, peerings, after, create, name);
      ActivatedIsReused(next, id);
      NothingLeftToPlan(next, id, again0, again1);
    }
  }

  lemma CompletedRunIsSettled(
    input: ConnectivityInput, tables: map<string, seq<RouteEntry>>, plan: ConnectivityPlan, peerings: seq<Peering>,
    id: string)
    requires UsableSides(input.gateway, input.rds) && ReadableVpcs(input)
    requires ReadFrom(input, tables)
    requires MadeOf(input, plan)
    requires CompletedWith(plan, input.gateway, input.rds, peerings, id)
    ensures Settled(input.gateway, input.rds, peerings, TablesAfter(tables, plan.routes, id))
  {
    var known := KnownPeering(plan.peering);
    var gatewayTable, rdsTable := input.gateway.routeTableId, input.rds.routeTableId;
    var after := TablesAfter(tables, plan.routes, id);
    assert plan.routes == [plan.routes[0], plan.routes[1]];
    PlannedRouteFits(tables, gatewayTable, input.rds.privateIp, known, plan.routes[0]);
    PlannedRouteFits(tables, rdsTable, input.gateway.privateIp, known, plan.routes[1]);
    TwoTablesAfter(tables, plan.routes[0], plan.routes[1], id);
    PlanningAgainFindsTheRoute(input.gatewayRoutes, gatewayTable, input.rds.privateIp, known, id);
    PlanningAgainFindsTheRoute(input.rdsRoutes, rdsTable, input.gateway.privateIp, known, id);
    RoutesInPlaceSettle(input, peerings, after, id);
  }

  /** The host, and only the host, now leaves through the peering. */
  ghost predicate Redirected(before: seq<RouteEntry>, after: seq<RouteEntry>, host: string, id: string)
    requires Ipv4(host).Some?
  {
    && NextHops(after, Ipv4(host).value) == {Some(id)}
    && forall a: nat | a != Ipv4(host).value :: NextHops(after, a) == NextHops(before, a)
  }

  /** Each side reaches the other's host through the peering, and nothing else is forwarded otherwise. */
  ghost predicate Connected(
    gateway: Side, rds: Side, before: map<string, seq<RouteEntry>>, after: map<string, seq<RouteEntry>>, id: string)
    requires UsableSides(gateway, rds)
  {
    var a, b := gateway.routeTableId, rds.routeTableId;
    && Redirected(TableOf(before, a), TableOf(after, a), rds.privateIp, id)
    && Redirected(TableOf(before, b), TableOf(after, b), gateway.privateIp, id)
    && forall t: string | t != a && t != b :: TableOf(after, t) == TableOf(before, t)
  }

  lemma CompletedRunConnects(
    input: ConnectivityInput, tables: map<string, seq<RouteEntry>>, plan: ConnectivityPlan, id: string)
    requires UsableSides(input.gateway, input.rds) && input.gateway.vpcId != input.rds.vpcId
    requires ReadFrom(input, tables) && MadeOf(input, plan)
    requires KnownPeering(plan.peering).Some? ==> KnownPeering(plan.peering).value == id
    ensures Connected(input.gateway, input.rds, tables, TablesAfter(tables, plan.routes, id), id)
  {
    var known := KnownPeering(plan.peering);
    var gatewayTable, rdsTable := input.gateway.routeTableId, input.rds.routeTableId;
    assert plan.routes == [plan.routes[0], plan.routes[1]];
    PlannedRouteFits(tables, gatewayTable, input.rds.privateIp, known, plan.routes[0]);
    PlannedRouteFits(tables, rdsTable, input.gateway.privateIp, known, plan.routes[1]);
    TwoTablesAfter(tables, plan.routes[0], plan.routes[1], id);
    AcceptedPlanRedirectsOnlyTheHost(input.gatewayRoutes, gatewayTable, input.rds.privateIp, known, id);
    AcceptedPlanRedirectsOnlyTheHost(input.rdsRoutes, rdsTable, input.gateway.privateIp, known, id);
  }

  /** Completing `plan` on `tables` connects the two sides, through whichever peering it used. */
  ghost predicate CompletionConnects(
    plan: ConnectivityPlan, gateway: Side, rds: Side, tables: map<string, seq<RouteEntry>>)
    requires UsableSides(gateway, rds)
  {
    forall id | KnownPeering(plan.peering) in {None, Some(id)} ::
      Connected(gateway, rds, tables, TablesAfter(tables, plan.routes, id), id)
  }

  /** Completing `plan` on `tables` leaves nothing to plan, for whichever peering id it used. */
  ghost predicate CompletionSettles(
    plan: ConnectivityPlan, gateway: Side, rds: Side, tables: map<string, seq<RouteEntry>>)
  {
    forall peerings, id | CompletedWith(plan, gateway, rds, peerings, id) ::
      Settled(gateway, rds, peerings, TablesAfter(tables, plan.routes, id))
  }

  /** `id` names the one live peering, it is activated, and it is the one the plan knew, if it knew one. */
  ghost predicate CompletedWith(plan: ConnectivityPlan, gateway: Side, rds: Side, peerings: seq<Peering>, id: string) {
    && |LivePeerings(peerings, gateway.vpcId, rds.vpcId)| <= 1
    && LiveIsActivated(peerings, gateway.vpcId, rds.vpcId)
    && AllLiveHaveId(peerings, gateway.vpcId, rds.vpcId, id)
    && (KnownPeering(plan.peering).Some? ==> KnownPeering(plan.peering).value == id)
  }

  /** A plan says it changes something exactly when applying it asks for something. */
  lemma ChangedIffAsks(input: ConnectivityInput, owner: string -> string, id: string)
    requires PlanConnectivity(input).Ok?
    ensures var plan := PlanConnectivity(input).value;
            plan.changed <==> Requests(plan, owner, id) != []
  {
    var plan := PlanConnectivity(input).value;
    AsksIff(plan, owner, id);
    if !plan.sameVpc {
      PlanShape(input);
      assert plan.routes[0] in plan.routes && plan.routes[1] in plan.routes;
    }
  }

  method MakePlan(input: ConnectivityInput, ghost tables: map<string, seq<RouteEntry>>)
    returns (answer: Result<ConnectivityPlan, Refusal>)
    requires UsableSides(input.gateway, input.rds)
    requires ReadFrom(input, tables)
    ensures answer == PlanConnectivity(input)
    ensures answer.Ok? ==>
              var plan := answer.value;
              && plan.gatewayVpcId == input.gateway.vpcId && plan.rdsVpcId == input.rds.vpcId
              && (plan.sameVpc <==> plan.peering.NoAction?)
              && (plan.sameVpc <==> input.gateway.vpcId == input.rds.vpcId)
              && PlanFits(input.peerings, tables, plan)
              && (!plan.sameVpc ==>
                    && CompletionSettles(plan, input.gateway, input.rds, tables)
                    && CompletionConnects(plan, input.gateway, input.rds, tables))
  {
    answer := PlanConnectivity(input);
    if answer.Ok? && !answer.value.sameVpc {
      var plan := answer.value;
      PlanShape(input);
      FreshPlanFits(input, tables, plan);
      forall peerings, id | CompletedWith(plan, input.gateway, input.rds, peerings, id)
        ensures Settled(input.gateway, input.rds, peerings, TablesAfter(tables, plan.routes, id))
      {
        CompletedRunIsSettled(input, tables, plan, peerings, id);
      }
      forall id | KnownPeering(plan.peering) in {None, Some(id)}
        ensures Connected(input.gateway, input.rds, tables, TablesAfter(tables, plan.routes, id), id)
      {
        CompletedRunConnects(input, tables, plan, id);
      }
    }
  }

  /** The peerings and both tables, as the planner gets them. */
  method ReadAll(cloud: Cloud, gateway: Side, rds: Side, createPeering: bool, peeringName: string)
    returns (answer: Result<ConnectivityInput, Refusal>)
    requires cloud.Safe(gateway.vpcId, rds.vpcId)
    modifies cloud`peerings, cloud`listings, cloud`failed
    ensures cloud.Safe(gateway.vpcId, rds.vpcId) && Evolved(old(cloud.peerings), cloud.peerings)
    ensures answer.Err? ==> cloud.failed && answer == Err(CallFailed)
    ensures answer.Ok? ==>
              var input := answer.value;
              && input == InputFrom(gateway, rds, input.peerings, cloud.tables, createPeering, peeringName)
              && Evolved(old(cloud.peerings), input.peerings) && Evolved(input.peerings, cloud.peerings)
              && cloud.listings == old(cloud.listings) + 1
  {
    var a, b := gateway.vpcId, rds.vpcId;
    ghost var start := cloud.peerings;
    var listed := cloud.ListPeerings();
    EvolutionKeepsLiveBound(start, cloud.peerings, a, b);
    var peerings :- listed;
    var gatewayRead := cloud.Routes(gateway.routeTableId);
    EvolutionKeepsLiveBound(peerings, cloud.peerings, a, b);
    EvolvedTwice(start, peerings, cloud.peerings);
    ghost var between := cloud.peerings;
    var gatewayRoutes :- gatewayRead;
    var rdsRead := cloud.Routes(rds.routeTableId);
    EvolutionKeepsLiveBound(between, cloud.peerings, a, b);
    EvolvedTwice(peerings, between, cloud.peerings);
    EvolvedTwice(start, peerings, cloud.peerings);
    var rdsRoutes :- rdsRead;
    return Ok(ConnectivityInput(gateway, rds, peerings, gatewayRoutes, rdsRoutes, createPeering, peeringName));
  }

  /** What a run of `planned` may have asked for. */
  function Wanted(planned: Result<ConnectivityPlan, Refusal>, owner: string -> string, id: string): seq<Request> {
    if planned.Ok? then Requests(planned.value, owner, id) else []
  }

  lemma WantedPeering(
    before: seq<Request>, after: seq<Request>, plan: ConnectivityPlan, owner: string -> string, id: string)
    requires SentUpTo(before, after, Requests(plan, owner, id)) && !plan.peering.Create?
    ensures forall i | |before| <= i < |after| :: !after[i].AskPeering?
  {
    RoutesAskNoPeering(plan.routes, id);
    forall i | |before| <= i < |after|
      ensures !after[i].AskPeering?
    {
      assert after[i] == (before + Requests(plan, owner, id))[i];
    }
  }

  /**
   One run: read the peerings and both tables, plan, apply. Wherever it stops the cloud is safe, and has been
   sent what the plan of what was read asks for, up to there; a peering only with leave to create one. It
   stops for nothing but a failed call, a refusal of the planner, or a peering that does not get activated.
   A run that completes has connected the two sides; planning again changes nothing as long as the peering is
   then still activated.
   */
  method Onboard(cloud: Cloud, gateway: Side, rds: Side, createPeering: bool, peeringName: string)
    returns (answer: Result<bool, Refusal>, ghost planned: Result<ConnectivityPlan, Refusal>, ghost id: string)
    requires UsableSides(gateway, rds)
    requires cloud.Safe(gateway.vpcId, rds.vpcId)
    modifies cloud
    ensures cloud.Safe(gateway.vpcId, rds.vpcId)
    ensures || (cloud.failed && answer == Err(CallFailed) && cloud.sent == old(cloud.sent))
            || exists read | Evolved(old(cloud.peerings), read) ::
                 planned == PlanConnectivity(
                   InputFrom(gateway, rds, read, old(cloud.tables), createPeering, peeringName))
    ensures SentUpTo(old(cloud.sent), cloud.sent, Wanted(planned, cloud.owner, id))
    ensures answer.Ok? ==>
              && planned.Ok? && cloud.sent == old(cloud.sent) + Wanted(planned, cloud.owner, id)
              && (answer.value <==> cloud.sent != old(cloud.sent))
    ensures answer.Err? ==>
              || cloud.failed || planned == Err(answer.error)
              || WaitRanOut(answer.error, cloud.listings - old(cloud.listings) - 1)
              || (answer.error.PeeringNotActivated? && NoneActivated(cloud.peerings, gateway.vpcId, rds.vpcId))
    ensures !createPeering ==>
              && Evolved(old(cloud.peerings), cloud.peerings)
              && forall i | |old(cloud.sent)| <= i < |cloud.sent| :: !cloud.sent[i].AskPeering?
    ensures answer.Ok? && gateway.vpcId != rds.vpcId ==>
              && Connected(gateway, rds, old(cloud.tables), cloud.tables, id)
              && AllLiveHaveId(cloud.peerings, gateway.vpcId, rds.vpcId, id)
    ensures answer.Ok? && (gateway.vpcId == rds.vpcId || LiveIsActivated(cloud.peerings, gateway.vpcId, rds.vpcId)) ==>
              Settled(gateway, rds, cloud.peerings, cloud.tables)
  {
    var a, b := gateway.vpcId, rds.vpcId;
    ghost var start := cloud.peerings;
    planned, id := Err(CallFailed), "";
    var read := ReadAll(cloud, gateway, rds, createPeering, peeringName);
    if read.Err? {
      return Err(read.error), planned, id;
    }
    var input := read.value;
    ghost var present, tables, sent := cloud.peerings, cloud.tables, cloud.sent;
    var made := MakePlan(input, tables);
    planned := made;
    if made.Err? {
      return Err(made.error), planned, id;
    }
    var plan := made.value;
    if !plan.sameVpc {
      PeeringStillFits(input.peerings, present, plan);
    }
    answer, id := ApplyConnectivity(cloud, plan);
    if !plan.peering.Create? {
      EvolvedTwice(start, present, cloud.peerings);
      WantedPeering(sent, cloud.sent, plan, cloud.owner, id);
    }
    AsksIff(plan, cloud.owner, id);
    if answer.Ok? && !plan.sameVpc && LiveIsActivated(cloud.peerings, a, b) {
      assert CompletedWith(plan, gateway, rds, cloud.peerings, id);
    }
  }

  /** Any number of runs, each stopped anywhere: never a second live peering, never a route added twice. */
  method RerunAnyNumberOfTimes(cloud: Cloud, gateway: Side, rds: Side, createPeering: bool, name: string, runs: nat)
    requires UsableSides(gateway, rds)
    requires |LivePeerings(cloud.peerings, gateway.vpcId, rds.vpcId)| <= 1
    requires cloud.added == []
    modifies cloud
    ensures |LivePeerings(cloud.peerings, gateway.vpcId, rds.vpcId)| <= 1
    ensures Distinct(cloud.added)
  {
    for run := 0 to runs
      invariant cloud.Safe(gateway.vpcId, rds.vpcId)
    {
      var _, _, _ := Onboard(cloud, gateway, rds, createPeering, name);
    }
  }
}
