/**
 Deleting a vSwitch: repeat the request while what still depends on the switch is going away, and tell a
 blocked switch from one that is not ready.
 */
module VSwitchDelete {
  import opened Wrappers
  import opened Lifecycle
  import opened World

  datatype Decision = Absent | IsDeleting | Pending | Blocked(error: ApiError) | Accepted

  datatype Outcome =
    | Deleted
    | DependencyBlocked(dependency: Dependency, attempts: nat)
    | WaitTimeout
    | ProviderError(error: ApiError)

  /** The world as the run sees it, with the number of `DeleteVSwitch` requests sent so far. */
  datatype Run = Run(world: WorldState, sent: nat)

  /** Attachments that managed services give up late, and transitional states of the network. */
  predicate RetryableDeleteDependency(e: ApiError) {
    match e.code
    case DependencyViolation(on) => on.Unnamed? || on.NetworkInterface? || on.Kvstore? || on.Rds?
    case IncorrectRouteEntryStatus => true
    case IncorrectVSwitchStatus => true
    case InternalError => true
    case LastTokenProcessing => true
    case OperationConflict => true
    case OtherSubnetProcessing => true
    case SystemBusy => true
    case TaskConflict => true
    case _ => false
  }

  function AfterRequest(answer: Answer<()>): Answer<Decision> {
    match answer
    case Value(_) => Value(Decision.Accepted)
    case Fault(e) =>
      if e.code.NotFound? then Value(Absent)
      else if RetryableDeleteDependency(e) then Value(Blocked(e))
      else Fault(e)
  }

  /** The codes a deletion of the switch is tried again after; any other but a missing switch ends it. */
  const RETRIED: set<Code> := {
    DependencyViolation(Unnamed), DependencyViolation(NetworkInterface), DependencyViolation(Kvstore),
    DependencyViolation(Rds), IncorrectRouteEntryStatus, IncorrectVSwitchStatus, InternalError, LastTokenProcessing,
    OperationConflict, OtherSubnetProcessing, SystemBusy, TaskConflict}

  lemma FaultsAreTaken(e: ApiError)
    ensures var taken := AfterRequest(Fault(e));
            && (taken == Value(Absent) <==> e.code == NotFound)
            && (taken == Value(Blocked(e)) <==> e.code in RETRIED)
            && (taken == Fault(e) <==> e.code !in RETRIED + {NotFound})
            && !Done(Blocked(e)) && Done(Absent)
  {
  }

  /** One round: read the switch, and only if it is available ask for its deletion. */
  function Decide(r: Run, id: nat): (Run, Answer<Decision>) {
    match DescribeVSwitch(r.world, id)
    case None => (r, Value(Absent))
    case Some(v) =>
      if !v.status.VSwitchAvailable? then
        (r, Value(Pending))
      else
        var (world, answer) := DeleteVSwitch(r.world, id);
        (Run(world, r.sent + 1), AfterRequest(answer))
  }

  function Rounds(id: nat): Run -> (Run, Answer<Decision>) {
    (r: Run) => Decide(r, id)
  }

  predicate Done(d: Decision) {
    d.Absent? || d.IsDeleting? || d.Accepted?
  }

  function ReportExhausted(last: Decision, attempts: nat): Outcome {
    match last
    case Blocked(e) => DependencyBlocked(if e.code.DependencyViolation? then e.code.on else Unnamed, attempts)
    case _ => WaitTimeout
  }

  function Delete(w: WorldState, id: nat, attempts: nat, waitAttempts: nat): (Run, Outcome)
    requires attempts >= 1 && waitAttempts >= 1
  {
    var (r, result) :=
      ObserveUntil(Run(w, 0), Rounds(id), Done, IsRetryableObservation, attempts);
    match result
    case Failed(e) => (r, ProviderError(e))
    case Exhausted(last) => (r, ReportExhausted(last, attempts))
    case Completed(_) =>
      var (gone, absent) :=
        WaitFor(
          r, (r: Run) => (r, Value(DescribeVSwitch(r.world, id))), (v: Option<VSwitchRecord>) => v.None?, waitAttempts);
      match absent
      case Ok(_) => (gone, Deleted)
      case Err(TimedOut) => (gone, WaitTimeout)
      case Err(Provider(e)) => (gone, ProviderError(e))
  }

  function AtLeastZero(n: int): nat {
    if n < 0 then 0 else n
  }

  /** Rejections still to come from delayed Tair releases. */
  function KvstoreRejections(w: WorldState, id: nat): nat {
    AtLeastZero(KvstoreHold(w.net, id))
  }

  /** Rejections still to come from managed ENIs: none if no ENI is on the switch. */
  function EniRejections(w: WorldState, id: nat): nat {
    if EniOn(w.net.enis, id) then AtLeastZero(EniHold(w.settings, w.net, id)) else 0
  }

  /** What any number of rounds leaves alone. */
  ghost predicate OnlySwitchTouched(before: WorldState, after: WorldState, id: nat) {
    && after.tair == before.tair && after.rds == before.rds && after.ids == before.ids
    && after.settings == before.settings
    && after.net.vswitches - {id} == before.net.vswitches - {id}
  }

  predicate Available(w: WorldState, id: nat) {
    id in w.net.vswitches && w.net.vswitches[id].status.VSwitchAvailable?
  }

  /** What one round does to an available switch, in terms of the rejections still to come. */
  lemma OneRound(w: WorldState, sent: nat, id: nat)
    requires Available(w, id)
    ensures var (r, answer) := Decide(Run(w, sent), id);
            var k, h, live := KvstoreRejections(w, id), EniRejections(w, id), LiveTairOn(w.tair.records, id);
            && r.sent == sent + 1 && OnlySwitchTouched(w, r.world, id)
            && (live || k > 0 ==> answer == Value(Blocked(Rejection(DependencyViolation(Kvstore)))))
            && (!live && k == 0 && h > 0 ==> answer == Value(Blocked(Rejection(DependencyViolation(NetworkInterface)))))
            && (!live && k == 0 && h == 0 ==> answer == Value(Decision.Accepted) && id !in r.world.net.vswitches)
            && (live || k > 0 || h > 0 ==> Available(r.world, id))
            && KvstoreRejections(r.world, id) == (if !live && k > 0 then k - 1 else k)
            && EniRejections(r.world, id) == (if !live && k == 0 && h > 0 then h - 1 else h)
  {
  }

  /** The dependency the last of `rounds` rejections names. */
  function LastDependency(w: WorldState, id: nat, rounds: nat): Dependency {
    if LiveTairOn(w.tair.records, id) || rounds <= KvstoreRejections(w, id) then Kvstore else NetworkInterface
  }

  predicate GoesWithin(w: WorldState, id: nat, rounds: nat) {
    !LiveTairOn(w.tair.records, id) && rounds >= KvstoreRejections(w, id) + EniRejections(w, id) + 1
  }

  lemma {:induction false} RoundsUntilAccepted(w: WorldState, sent: nat, id: nat, attempts: nat)
    requires attempts >= 1 && Available(w, id)
    ensures var (r, result) :=
              ObserveUntil(Run(w, sent), Rounds(id), Done, IsRetryableObservation, attempts);
            && OnlySwitchTouched(w, r.world, id)
            && if GoesWithin(w, id, attempts) then
                 && result == Completed(Decision.Accepted) && id !in r.world.net.vswitches
                 && r.sent == sent + KvstoreRejections(w, id) + EniRejections(w, id) + 1
               else
                 && result == Exhausted(Blocked(Rejection(DependencyViolation(LastDependency(w, id, attempts)))))
                 && Available(r.world, id) && r.sent == sent + attempts
    decreases attempts
  {
    OneRound(w, sent, id);
    var (r, answer) := Decide(Run(w, sent), id);
    if attempts > 1 && !answer.value.Accepted? {
      RoundsUntilAccepted(r.world, sent + 1, id, attempts - 1);
    }
  }

  /**
   With no live Tair instance on it, an available switch goes after exactly `k + h + 1` requests if that
   many attempts are allowed; otherwise the attempts run out naming the dependency met last, and the
   switch stays. Nothing else changes either way.
   */
  lemma DeleteTakesEveryRejectionPlusOne(w: WorldState, id: nat, attempts: nat, waitAttempts: nat)
    requires attempts >= 1 && waitAttempts >= 1 && Available(w, id)
    ensures var (r, outcome) := Delete(w, id, attempts, waitAttempts);
            && OnlySwitchTouched(w, r.world, id)
            && if GoesWithin(w, id, attempts) then
                 && outcome == Deleted && id !in r.world.net.vswitches
                 && r.sent == KvstoreRejections(w, id) + EniRejections(w, id) + 1
               else
                 && outcome == DependencyBlocked(LastDependency(w, id, attempts), attempts)
                 && Available(r.world, id) && r.sent == attempts
  {
    RoundsUntilAccepted(w, 0, id, attempts);
    var (r, result) := ObserveUntil(Run(w, 0), Rounds(id), Done, IsRetryableObservation, attempts);
    assert result.Exhausted? ==> Delete(w, id, attempts, waitAttempts) == (r, ReportExhausted(result.value, attempts));
    assert result.Completed? ==> Delete(w, id, attempts, waitAttempts) == (r, Deleted);
  }

  /** A switch that is gone already is deleted without a request. */
  lemma AlreadyGone(w: WorldState, id: nat, attempts: nat, waitAttempts: nat)
    requires attempts >= 1 && waitAttempts >= 1 && id !in w.net.vswitches
    ensures Delete(w, id, attempts, waitAttempts) == (Run(w, 0), Deleted)
  {
    var decided := ObserveUntil(Run(w, 0), Rounds(id), Done, IsRetryableObservation, attempts);
    assert decided == (Run(w, 0), Completed(Absent));
  }

  /** A switch that never becomes available is never asked for: the run times out with nothing sent. */
  lemma {:induction false} PendingIsNeverRequested(w: WorldState, id: nat, attempts: nat, waitAttempts: nat)
    requires attempts >= 1 && waitAttempts >= 1
    requires id in w.net.vswitches && w.net.vswitches[id].status.VSwitchPending?
    ensures Delete(w, id, attempts, waitAttempts) == (Run(w, 0), WaitTimeout)
  {
    PendingRounds(w, id, attempts);
    var rounds := ObserveUntil(Run(w, 0), Rounds(id), Done, IsRetryableObservation, attempts);
    assert rounds.1.Exhausted?;
  }

  lemma {:induction false} PendingRounds(w: WorldState, id: nat, attempts: nat)
    requires attempts >= 1
    requires id in w.net.vswitches && w.net.vswitches[id].status.VSwitchPending?
    ensures ObserveUntil(Run(w, 0), Rounds(id), Done, IsRetryableObservation, attempts) ==
            (Run(w, 0), Exhausted(Pending))
  {
    if attempts > 1 {
      PendingRounds(w, id, attempts - 1);
    }
  }

  // ---- After an RDS instance ----

  /**
   A deleted instance holds its switch by one ENI: where nothing else did, the switch then goes after exactly
   `eniHoldAfterDelete` rejections, and without the instance at the first request.
   */
  lemma InstanceHoldsSwitch(w: WorldState, instance: nat, id: nat, attempts: nat, waitAttempts: nat)
    requires attempts >= 1 && waitAttempts >= 1 && Available(w, id)
    requires instance in w.rds && w.rds[instance].vSwitchId == Some(id)
    requires !w.rds[instance].deletionProtection && !w.rds[instance].status.RdsCreating?
    requires KvstoreRejections(w, id) == 0 && !EniOn(w.net.enis, id) && !LiveTairOn(w.tair.records, id)
    requires id !in w.net.eniHolds && attempts > AtLeastZero(w.settings.eniHoldAfterDelete)
    ensures Delete(w, id, attempts, waitAttempts).0.sent == 1
    ensures var gone := DeleteRds(w, instance).0;
            var (r, outcome) := Delete(gone, id, attempts, waitAttempts);
            && instance !in gone.rds && outcome == Deleted
            && r.sent == AtLeastZero(w.settings.eniHoldAfterDelete) + 1
  {
    DeleteTakesEveryRejectionPlusOne(w, id, attempts, waitAttempts);
    var gone := DeleteRds(w, instance).0;
    assert gone.net.enis[|w.net.enis|].vSwitchId == id && gone.net.enis[|w.net.enis|] in gone.net.enis;
    DeleteTakesEveryRejectionPlusOne(gone, id, attempts, waitAttempts);
  }

  // ---- After a Tair instance ----

  ghost predicate OnlyTairOn(w: WorldState, tair: nat, id: nat) {
    && tair in w.tair.records && w.tair.records[tair].vSwitchId == Some(id)
    && forall t | t in w.tair.records && t != tair ::
         w.tair.records[t].vSwitchId != Some(id) || w.tair.records[t].status.TairDestroyed?
  }

  /**
   An instance holds its switch until it is destroyed, in the recycle bin too: no number of requests deletes
   it. Once destroyed, the last one leaves only the rejections still to come.
   */
  lemma TairHoldsSwitch(w: WorldState, tair: nat, id: nat, attempts: nat, waitAttempts: nat)
    requires attempts >= 1 && waitAttempts >= 1 && Available(w, id) && OnlyTairOn(w, tair, id)
    ensures !w.tair.records[tair].status.TairDestroyed? ==>
              var (r, outcome) := Delete(w, id, attempts, waitAttempts);
              outcome == DependencyBlocked(Kvstore, attempts) && Available(r.world, id)
    ensures w.tair.records[tair].status.TairReleased?
            && attempts >= KvstoreRejections(w, id) + EniRejections(w, id) + 1 ==>
              var destroyed := DestroyTair(w, tair).0;
              var (r, outcome) := Delete(destroyed, id, attempts, waitAttempts);
              outcome == Deleted && r.sent == KvstoreRejections(w, id) + EniRejections(w, id) + 1
  {
    DeleteTakesEveryRejectionPlusOne(w, id, attempts, waitAttempts);
    var destroyed := DestroyTair(w, tair).0;
    DeleteTakesEveryRejectionPlusOne(destroyed, id, attempts, waitAttempts);
  }
}
