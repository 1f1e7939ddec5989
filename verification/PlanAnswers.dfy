/** Every answer of the connectivity planner, from the peerings as they are listed and the routes as they match. */
module PlanAnswers {
  import opened Wrappers
  import opened Cidr
  import opened Routing
  import opened Connectivity

  /** Between the two VPCs, whichever asked for it, and not over. */
  predicate Joins(p: Peering, a: string, b: string) {
    {p.requesterVpcId, p.acceptingVpcId} == {a, b} && p.status !in {Rejected, Expired, Deleted, Deleting}
  }

  predicate JoinsAt(input: ConnectivityInput, i: int) {
    0 <= i < |input.peerings| && Joins(input.peerings[i], input.gateway.vpcId, input.rds.vpcId)
  }

  ghost predicate NoneJoins(input: ConnectivityInput) {
    forall i :: !JoinsAt(input, i)
  }

  ghost predicate OnlyJoins(input: ConnectivityInput, i: int) {
    JoinsAt(input, i) && forall j | j != i :: !JoinsAt(input, j)
  }

  ghost predicate TwoJoin(input: ConnectivityInput) {
    exists i, j :: i < j && JoinsAt(input, i) && JoinsAt(input, j)
  }

  lemma JoinsIsLive(p: Peering, a: string, b: string)
    ensures Joins(p, a, b) <==> IsLive(p, a, b)
  {
    var ends := {p.requesterVpcId, p.acceptingVpcId};
    if ends == {a, b} {
      assert p.requesterVpcId in {a, b} && p.acceptingVpcId in {a, b} && a in ends && b in ends;
    }
  }

  /** The live peerings are counted as listed: none, the only one, or several. */
  lemma {:induction false} LiveAreListed(peerings: seq<Peering>, a: string, b: string)
    ensures var live := LivePeerings(peerings, a, b);
            && (|live| == 0 <==> forall i | 0 <= i < |peerings| :: !IsLive(peerings[i], a, b))
            && (|live| >= 2 <==>
                  exists i, j :: 0 <= i < j < |peerings| && IsLive(peerings[i], a, b) && IsLive(peerings[j], a, b))
  {
    if peerings != [] {
      var rest, live := LivePeerings(peerings[1..], a, b), LivePeerings(peerings, a, b);
      LiveAreListed(peerings[1..], a, b);
      assert live == (if IsLive(peerings[0], a, b) then [peerings[0]] else []) + rest;
      forall i | 1 <= i < |peerings|
        ensures peerings[1..][i - 1] == peerings[i]
      {
      }
      if |live| >= 2 {
        if IsLive(peerings[0], a, b) {
          assert rest[0] in rest;
          var j :| 0 <= j < |peerings[1..]| && peerings[1..][j] == rest[0];
          assert IsLive(peerings[0], a, b) && IsLive(peerings[j + 1], a, b);
        } else {
          var i, j :| 0 <= i < j < |peerings[1..]| && IsLive(peerings[1..][i], a, b) && IsLive(peerings[1..][j], a, b);
          assert IsLive(peerings[i + 1], a, b) && IsLive(peerings[j + 1], a, b);
        }
      }
      if i, j :| 0 <= i < j < |peerings| && IsLive(peerings[i], a, b) && IsLive(peerings[j], a, b) {
        assert peerings[1..][j - 1] in rest;
        if i > 0 {
          assert IsLive(peerings[1..][i - 1], a, b) && IsLive(peerings[1..][j - 1], a, b);
        }
      }
    }
  }

  lemma CountsAgree(input: ConnectivityInput)
    ensures var live := LivePeerings(input.peerings, input.gateway.vpcId, input.rds.vpcId);
            && (|live| == 0 <==> NoneJoins(input))
            && (|live| >= 2 <==> TwoJoin(input))
            && (forall i | OnlyJoins(input, i) :: live == [input.peerings[i]])
            && (|live| == 1 ==> exists i :: OnlyJoins(input, i))
  {
    var a, b := input.gateway.vpcId, input.rds.vpcId;
    var live := LivePeerings(input.peerings, a, b);
    LiveAreListed(input.peerings, a, b);
    forall i | 0 <= i < |input.peerings|
      ensures JoinsAt(input, i) <==> IsLive(input.peerings[i], a, b)
    {
      JoinsIsLive(input.peerings[i], a, b);
    }
    if |live| == 1 {
      assert live[0] in live;
      var i :| 0 <= i < |input.peerings| && input.peerings[i] == live[0];
      assert OnlyJoins(input, i);
    }
    forall i | OnlyJoins(input, i)
      ensures live == [input.peerings[i]]
    {
      assert input.peerings[i] in live && |live| == 1;
    }
  }

  /**
   What is planned about the peering. None joins the VPCs: one is created with leave to, and refused without.
   Only one does: it is reused when activated, accepted while it is being made, and unusable otherwise. With
   more the choice is refused.
   */
  lemma PeeringAnswers(input: ConnectivityInput)
    ensures PlanPeering(input) == Ok(Create(input.peeringName)) <==> NoneJoins(input) && input.createPeering
    ensures PlanPeering(input) == Err(NoPeering) <==> NoneJoins(input) && !input.createPeering
    ensures forall i | OnlyJoins(input, i) ::
              var p := input.peerings[i];
              PlanPeering(input) ==
              if p.status == Activated then Ok(Reuse(p.peeringId))
              else if p.status in {Creating, Accepting, Updating} then Ok(Accept(p.peeringId))
              else Err(PeeringUnusable(p.peeringId))
    ensures TwoJoin(input) <==> PlanPeering(input).Err? && PlanPeering(input).error.AmbiguousPeerings?
    ensures NoneJoins(input) || TwoJoin(input) || exists i :: OnlyJoins(input, i)
  {
    CountsAgree(input);
  }

  /** Creation, acceptance and reuse each happen in exactly one situation. */
  lemma ActionsIff(input: ConnectivityInput)
    ensures PlanPeering(input).Ok? && PlanPeering(input).value.Create? <==> NoneJoins(input) && input.createPeering
    ensures PlanPeering(input).Ok? && PlanPeering(input).value.Accept? <==>
            exists i :: OnlyJoins(input, i) && input.peerings[i].status in {Creating, Accepting, Updating}
    ensures PlanPeering(input).Ok? && PlanPeering(input).value.Reuse? <==>
            exists i :: OnlyJoins(input, i) && input.peerings[i].status == Activated
  {
    PeeringAnswers(input);
  }

  // ---- The whole plan ----

  /** A longest match for the host leaves elsewhere, above a default route or beside the peering. */
  ghost predicate Competes(routes: seq<RouteEntry>, host: string, peeringId: Option<string>)
    requires Ipv4(host).Some?
  {
    exists r :: && BestMatch(routes, r, Ipv4(host).value) && !RouteUsesPeering(r, peeringId)
                && (Prefix(r) > 0
                    || exists p :: BestMatch(routes, p, Ipv4(host).value) && RouteUsesPeering(p, peeringId))
  }

  lemma SharedVpcNeedsNothing(input: ConnectivityInput)
    requires input.gateway.vpcId == input.rds.vpcId
    ensures PlanConnectivity(input) ==
            Ok(ConnectivityPlan(false, true, input.gateway.vpcId, input.rds.vpcId, NoAction, []))
  {
  }

  /** Between two VPCs the planner refuses exactly for their blocks, for the peering, or for a competing route. */
  lemma PlanRefusedIff(input: ConnectivityInput)
    requires input.gateway.vpcId != input.rds.vpcId
    requires Ipv4(input.gateway.privateIp).Some? && Ipv4(input.rds.privateIp).Some?
    ensures PlanConnectivity(input) == Err(UnknownVpcCidr) <==>
            input.gateway.vpcCidr.None? || input.rds.vpcCidr.None?
    ensures PlanConnectivity(input) == Err(OverlappingVpcs) <==>
            && input.gateway.vpcCidr.Some? && input.rds.vpcCidr.Some?
            && CidrOverlaps(input.gateway.vpcCidr.value, input.rds.vpcCidr.value)
    ensures PlanConnectivity(input).Err? <==>
            || !ReadableVpcs(input) || PlanPeering(input).Err?
            || Competes(input.gatewayRoutes, input.rds.privateIp, KnownPeering(PlanPeering(input).value))
            || Competes(input.rdsRoutes, input.gateway.privateIp, KnownPeering(PlanPeering(input).value))
    ensures ReadableVpcs(input) && PlanPeering(input).Err? ==>
              PlanConnectivity(input) == Err(PlanPeering(input).error)
  {
    if ReadableVpcs(input) && PlanPeering(input).Ok? {
      var known := KnownPeering(PlanPeering(input).value);
      RefusesExactlyCompetingPaths(input.gatewayRoutes, input.gateway.routeTableId, input.rds.privateIp, known);
      RefusesExactlyCompetingPaths(input.rdsRoutes, input.rds.routeTableId, input.gateway.privateIp, known);
      RouteRefusals(input, PlanPeering(input).value);
    } else {
      PeeringErrors(input);
    }
  }

  lemma PeeringErrors(input: ConnectivityInput)
    ensures PlanPeering(input).Err? ==>
              var e := PlanPeering(input).error;
              e.AmbiguousPeerings? || e.PeeringUnusable? || e.NoPeering?
  {
  }

  lemma RouteRefusals(input: ConnectivityInput, peering: PeeringAction)
    requires Ipv4(input.gateway.privateIp).Some? && Ipv4(input.rds.privateIp).Some?
    ensures var known := KnownPeering(peering);
            PlanBothRoutes(input, peering).Err? <==>
            || PlanRoute(input.gatewayRoutes, input.gateway.routeTableId, input.rds.privateIp, known).Err?
            || PlanRoute(input.rdsRoutes, input.rds.routeTableId, input.gateway.privateIp, known).Err?
    ensures PlanBothRoutes(input, peering).Err? ==> PlanBothRoutes(input, peering).error.CompetingPath?
  {
  }
}
