/**
 Deleting an RDS instance: wait out its creation, switch deletion protection off, request the deletion,
 and wait until the instance can no longer be read.
 */
module RdsDelete {
  import opened Wrappers
  import opened Lifecycle
  import opened World

  datatype Decision =
    | Absent
    | IsDeleting
    | StillCreating
    | ProtectionDisabled
    | RetryableError(error: ApiError)
    | Accepted

  datatype Outcome = Deleted | WaitTimeout | ProviderError(error: ApiError)

  /** The world, and what has been asked of it: reads while deciding, requests of each kind, rejections. */
  datatype Run = Run(world: WorldState, rounds: nat, disables: nat, deletes: nat, rejections: nat)

  predicate RetryableDeleteState(e: ApiError) {
    e.code.IncorrectDBInstanceState? || e.transient
  }

  function AfterRequest(answer: Answer<()>, accepted: Decision): Answer<Decision> {
    match answer
    case Value(_) => Value(accepted)
    case Fault(e) =>
      if e.code.NotFound? then Value(Absent)
      else if RetryableDeleteState(e) then Value(RetryableError(e))
      else Fault(e)
  }

  function Rejected(answer: Answer<()>): nat {
    if answer.Fault? then 1 else 0
  }

  /** One round: read the instance, then at most one request. */
  function Decide(r: Run, id: nat): (Run, Answer<Decision>) {
    var (seen, read) := DescribeRds(r.world, id);
    var observed := r.(world := seen, rounds := r.rounds + 1);
    match read
    case Fault(e) => (observed, if e.code.NotFound? then Value(Absent) else Fault(e))
    case Value(instance) =>
      if instance.status.RdsDeleting? then
        (observed, Value(IsDeleting))
      else if instance.status.RdsCreating? then
        (observed, Value(StillCreating))
      else if instance.deletionProtection then
        var (world, answer) := ModifyRdsProtection(seen, id, false);
        (observed.(world := world, disables := r.disables + 1, rejections := r.rejections + Rejected(answer)),
         AfterRequest(answer, ProtectionDisabled))
      else
        var (world, answer) := DeleteRds(seen, id);
        (observed.(world := world, deletes := r.deletes + 1, rejections := r.rejections + Rejected(answer)),
         AfterRequest(answer, Decision.Accepted))
  }

  function Rounds(id: nat): Run -> (Run, Answer<Decision>) {
    (r: Run) => Decide(r, id)
  }

  predicate Done(d: Decision) {
    d.Absent? || d.IsDeleting? || d.Accepted?
  }

  function GetById(r: Run, id: nat): (Run, Answer<Option<RdsRecord>>) {
    var (world, read) := DescribeRds(r.world, id);
    (r.(world := world),
     match read
     case Value(v) => Value(Some(v))
     case Fault(e) => if e.code.NotFound? then Value(None) else Fault(e))
  }

  function Delete(w: WorldState, id: nat, attempts: nat, waitAttempts: nat): (Run, Outcome)
    requires attempts >= 1 && waitAttempts >= 1
  {
    var (r, result) :=
      ObserveUntil(Run(w, 0, 0, 0, 0), Rounds(id), Done, IsRetryableObservation, attempts);
    match result
    case Failed(e) => (r, ProviderError(e))
    case Exhausted(last) => (r, if last.RetryableError? then ProviderError(last.error) else WaitTimeout)
    case Completed(_) =>
      var (gone, absent) :=
        WaitFor(r, (r: Run) => GetById(r, id), (v: Option<RdsRecord>) => v.None?, waitAttempts);
      match absent
      case Ok(_) => (gone, Deleted)
      case Err(TimedOut) => (gone, WaitTimeout)
      case Err(Provider(e)) => (gone, ProviderError(e))
  }

  /**
   How a deletion takes the answer to a request: a missing instance is what it wants, a conflict with the
   instance's state and a transient fault are met by another round, and any other fault ends it.
   */
  lemma FaultsAreTaken(e: ApiError, accepted: Decision)
    ensures var taken := AfterRequest(Fault(e), accepted);
            && (taken == Value(Absent) <==> e.code == NotFound)
            && (taken == Value(RetryableError(e)) <==>
                  e.code != NotFound && (e.code == IncorrectDBInstanceState || e.transient))
            && (taken == Fault(e) <==> e.code !in {NotFound, IncorrectDBInstanceState} && !e.transient)
            && !Done(RetryableError(e)) && Done(Absent)
  {
  }

  /** Reads until the instance first answers as something other than creating. */
  function ReadsUntilSettled(s: Settings, r: RdsRecord): nat
    requires RdsCoherent(s, r)
  {
    if r.status.RdsCreating? then AtLeastOne(s.rdsDescribesUntilRunning) - r.describes else 1
  }

  function Protected(r: RdsRecord): nat {
    if r.deletionProtection then 1 else 0
  }

  function RoundsNeeded(s: Settings, r: RdsRecord): nat
    requires RdsCoherent(s, r)
  {
    ReadsUntilSettled(s, r) + Protected(r)
  }

  /** What removing an instance leaves on its vSwitch: one managed ENI, under a new id. */
  function EniLeft(w: WorldState, id: nat): seq<Eni>
    requires id in w.rds
  {
    match w.rds[id].vSwitchId
    case None => []
    case Some(v) => [Eni(w.ids + 1, v)]
  }

  /** Every other resource is as it was; the instance is still there, or gone with the ENI it leaves behind. */
  ghost predicate OnlyInstanceTouched(before: WorldState, after: WorldState, id: nat)
    requires id in before.rds
  {
    && after.tair == before.tair && after.settings == before.settings
    && after.rds - {id} == before.rds - {id}
    && after.net.(enis := before.net.enis) == before.net
    && (if id in after.rds then after.ids == before.ids && after.net.enis == before.net.enis
        else after.net.enis == before.net.enis + EniLeft(before, id))
    && (id in after.rds ==> after.rds[id].vSwitchId == before.rds[id].vSwitchId)
  }

  ghost predicate Present(w: WorldState, id: nat) {
    id in w.rds && RdsCoherent(w.settings, w.rds[id])
  }

  /** One round either waits, disables protection, or deletes, and is never rejected. */
  lemma OneRound(r: Run, id: nat)
    requires Present(r.world, id)
    ensures var (next, answer) := Decide(r, id);
            var before := r.world.rds[id];
            var settles := ReadsUntilSettled(r.world.settings, before) == 1;
            && next.rounds == r.rounds + 1 && next.rejections == r.rejections
            && OnlyInstanceTouched(r.world, next.world, id)
            && (!settles ==> answer == Value(StillCreating) && next.disables == r.disables && next.deletes == r.deletes)
            && (settles && before.deletionProtection ==>
                  answer == Value(ProtectionDisabled) && next.disables == r.disables + 1 && next.deletes == r.deletes)
            && (settles && !before.deletionProtection ==>
                  && answer == Value(Decision.Accepted) && next.disables == r.disables && next.deletes == r.deletes + 1
                  && id !in next.world.rds)
            && (!answer.value.Accepted? ==>
                  && Present(next.world, id)
                  && RoundsNeeded(r.world.settings, before) == RoundsNeeded(next.world.settings, next.world.rds[id]) + 1
                  && Protected(next.world.rds[id]) == Protected(before) - (next.disables - r.disables))
  {
  }

  lemma {:induction false} RoundsUntilAccepted(r: Run, id: nat, attempts: nat)
    requires attempts >= 1 && Present(r.world, id)
    ensures var (last, result) := ObserveUntil(r, Rounds(id), Done, IsRetryableObservation, attempts);
            var before := r.world.rds[id];
            var needed := RoundsNeeded(r.world.settings, before);
            && last.rejections == r.rejections && OnlyInstanceTouched(r.world, last.world, id)
            && if attempts >= needed then
                 && result == Completed(Decision.Accepted) && id !in last.world.rds
                 && last.rounds == r.rounds + needed
                 && last.disables == r.disables + Protected(before) && last.deletes == r.deletes + 1
               else
                 && (result == Exhausted(StillCreating) || result == Exhausted(ProtectionDisabled))
                 && Present(last.world, id) && last.rounds == r.rounds + attempts
                 && last.disables <= r.disables + Protected(before) && last.deletes == r.deletes
    decreases attempts
  {
    OneRound(r, id);
    var (next, answer) := Decide(r, id);
    if attempts > 1 && !answer.value.Accepted? {
      RoundsUntilAccepted(next, id, attempts - 1);
    }
  }

  /**
   Alone against the world, a delete is never rejected, switches protection off only if it was on, and
   sends one deletion. It needs exactly `RoundsNeeded` reads; given fewer attempts it times out and the
   instance stays.
   */
  lemma DeleteTakesExactlyTheRoundsNeeded(w: WorldState, id: nat, attempts: nat, waitAttempts: nat)
    requires attempts >= 1 && waitAttempts >= 1 && Valid(w) && id in w.rds
    ensures var (r, outcome) := Delete(w, id, attempts, waitAttempts);
            var needed := RoundsNeeded(w.settings, w.rds[id]);
            && r.rejections == 0 && OnlyInstanceTouched(w, r.world, id)
            && if attempts >= needed then
                 && outcome == Deleted && id !in r.world.rds && r.rounds == needed
                 && r.disables == Protected(w.rds[id]) && r.deletes == 1
               else
                 && outcome == WaitTimeout && id in r.world.rds && r.rounds == attempts
                 && r.disables <= Protected(w.rds[id]) && r.deletes == 0
  {
    RoundsUntilAccepted(Run(w, 0, 0, 0, 0), id, attempts);
    var (r, result) := ObserveUntil(Run(w, 0, 0, 0, 0), Rounds(id), Done, IsRetryableObservation, attempts);
    assert result.Exhausted? ==> Delete(w, id, attempts, waitAttempts) == (r, WaitTimeout);
    assert result.Completed? ==> Delete(w, id, attempts, waitAttempts) == (r, Deleted);
  }

  /** An instance that is being deleted is left alone, and waited for. */
  lemma DeletingIsLeftAlone(r: Run, id: nat)
    requires id in r.world.rds && r.world.rds[id].status.RdsDeleting?
    ensures var (next, answer) := Decide(r, id);
            && answer == Value(IsDeleting) && Done(IsDeleting)
            && (next.disables, next.deletes) == (r.disables, r.deletes) && id in next.world.rds
  {
  }

  /** An instance that is gone already is deleted with one read and no request. */
  lemma AlreadyGone(w: WorldState, id: nat, attempts: nat, waitAttempts: nat)
    requires attempts >= 1 && waitAttempts >= 1 && id !in w.rds
    ensures Delete(w, id, attempts, waitAttempts) == (Run(w, 1, 0, 0, 0), Deleted)
  {
    var decided := ObserveUntil(Run(w, 0, 0, 0, 0), Rounds(id), Done, IsRetryableObservation, attempts);
    assert decided == (Run(w, 1, 0, 0, 0), Completed(Absent));
  }

  /** From every reachable record the deciding is over within `max(rdsDescribesUntilRunning, 1) + 1` reads. */
  lemma RoundsNeededAreBounded(settings: Settings, omissions: nat, requests: seq<Request>, id: nat)
    ensures var w := HandleAll(Initial(settings, omissions), requests);
            id in w.rds ==> && RdsCoherent(settings, w.rds[id])
                            && RoundsNeeded(settings, w.rds[id]) <= AtLeastOne(settings.rdsDescribesUntilRunning) + 1
  {
    EveryRunStaysValid(Initial(settings, omissions), requests);
    SettingsNeverChange(Initial(settings, omissions), requests);
  }
}
