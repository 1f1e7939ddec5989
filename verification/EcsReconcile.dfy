/**
 Reconciling an existing ECS instance with the desired type and security groups, alone against the machine:
 start it, resize it while stopped, join missing groups, then leave the others.
 */
module EcsReconcile {
  import opened Wrappers
  import opened Lifecycle
  import opened Ecs

  /** A request that changed the instance, with the instance before and after it. */
  datatype Sent = Sent(request: InstanceRequest, before: Instance, after: Instance)

  datatype Outcome = Converged | InvalidGroups | WaitTimeout

  predicate Present(s: State, id: nat) {
    id in s.compute.instances && id <= s.issued.sequence
  }

  function Get(s: State, id: nat): Instance
    requires Present(s, id)
  {
    s.compute.instances[id]
  }

  /** Nothing but one instance, and the reads that pending instances wait for, has changed. */
  ghost predicate OnlyMoved(s: State, t: State, id: nat) {
    && Present(s, id) && Present(t, id)
    && t == s.(compute := Compute(s.compute.instances[id := Get(t, id)], t.compute.pendingReads))
  }

  lemma MovedTwice(s: State, t: State, u: State, id: nat)
    requires OnlyMoved(s, t, id) && OnlyMoved(t, u, id)
    ensures OnlyMoved(s, u, id)
  {
    assert s.compute.instances[id := Get(t, id)][id := Get(u, id)] == s.compute.instances[id := Get(u, id)];
  }

  predicate SameGroups(a: seq<nat>, b: seq<nat>) {
    multiset(a) == multiset(b)
  }

  // ---- Reading ----

  function Look(s: State, id: nat): (State, Answer<Option<Instance>>) {
    var t := Describe(s, Some(id));
    (t, Value(if id in t.compute.instances then Some(t.compute.instances[id]) else None))
  }

  function Read(id: nat): State -> (State, Answer<Option<Instance>>) {
    (s: State) => Look(s, id)
  }

  lemma {:induction false} SettleOne(c: Compute, id: nat, bound: nat)
    ensures SettleUpTo(c, Some(id), bound) == if id in c.instances && id <= bound then Settle(c, id) else c
    decreases bound
  {
    if bound > 0 {
      SettleOne(c, id, bound - 1);
    }
  }

  /** What one read of the instance leaves behind. */
  function Seen(s: State, id: nat): State
    requires Present(s, id)
  {
    s.(compute := Settle(s.compute, id))
  }

  lemma LookSees(s: State, id: nat)
    requires Present(s, id)
    ensures Present(Seen(s, id), id) && Look(s, id) == (Seen(s, id), Value(Some(Get(Seen(s, id), id))))
  {
    SettleOne(s.compute, id, s.issued.sequence);
  }

  /** A read that sees the instance as `Seen` says. */
  ghost predicate Reads(read: State -> (State, Answer<Option<Instance>>), id: nat) {
    forall s {:trigger read(s)} | Present(s, id) ::
      Present(Seen(s, id), id) && read(s) == (Seen(s, id), Value(Some(Get(Seen(s, id), id))))
  }

  lemma ReadReads(id: nat)
    ensures Reads(Read(id), id)
  {
    forall s | Present(s, id)
      ensures Present(Seen(s, id), id) && Read(id)(s) == (Seen(s, id), Value(Some(Get(Seen(s, id), id))))
    {
      LookSees(s, id);
    }
  }

  lemma SeenMoves(s: State, id: nat)
    requires Present(s, id)
    ensures OnlyMoved(s, Seen(s, id), id)
    ensures Get(s, id).status.Running? || Get(s, id).status.Stopped? ==> Seen(s, id) == s
    ensures Get(s, id).status.Stopping? ==> Get(Seen(s, id), id) == Get(s, id).(status := Stopped)
    ensures Get(s, id).status.Pending? ==>
              && Seen(s, id).compute.pendingReads == s.compute.pendingReads - 1
              && Get(Seen(s, id), id) == Get(s, id).(status := if s.compute.pendingReads <= 0 then Running else Pending)
  {
    assert s.compute.instances[id := s.compute.instances[id]] == s.compute.instances;
  }

  predicate RunningWith(i: Instance, instanceType: string) {
    i.status.Running? && i.instanceType == instanceType
  }

  predicate IsRunning(v: Option<Instance>) {
    v.Some? && v.value.status.Running?
  }

  predicate IsStopped(v: Option<Instance>) {
    v.Some? && v.value.status.Stopped?
  }

  /** A pending instance is seen running once its reads have passed; a running one at once; a stopped one never. */
  predicate WillRun(s: State, id: nat, attempts: nat)
    requires Present(s, id)
  {
    Get(s, id).status.Running? || (Get(s, id).status.Pending? && s.compute.pendingReads < attempts)
  }

  lemma {:induction false} WaitRunning(
    s: State, read: State -> (State, Answer<Option<Instance>>), id: nat, attempts: nat)
    requires attempts >= 1 && Reads(read, id) && Present(s, id) && !Get(s, id).status.Stopping?
    ensures var (t, result) := WaitFor(s, read, IsRunning, attempts);
            && OnlyMoved(s, t, id)
            && (result.Ok? <==> WillRun(s, id, attempts))
            && Get(t, id) == (if result.Ok? then Get(s, id).(status := Running) else Get(s, id))
            && (Get(s, id).status.Running? ==> t == s)
    decreases attempts
  {
    SeenMoves(s, id);
    var t := Seen(s, id);
    assert read(s).0 == t;
    if attempts > 1 && !Get(t, id).status.Running? {
      WaitRunning(t, read, id, attempts - 1);
      MovedTwice(s, t, WaitFor(t, read, IsRunning, attempts - 1).0, id);
    }
  }

  /** Waiting for what the first read shows ends there. */
  lemma WaitOnce(
    s: State, read: State -> (State, Answer<Option<Instance>>), id: nat, ready: Option<Instance> -> bool, attempts: nat)
    requires attempts >= 1 && Reads(read, id) && Present(s, id)
    requires Present(Seen(s, id), id) && ready(Some(Get(Seen(s, id), id)))
    ensures WaitFor(s, read, ready, attempts) == (Seen(s, id), Ok(Some(Get(Seen(s, id), id))))
  {
    assert read(s).0 == Seen(s, id);
  }

  /** Waiting for what a settled instance is not never ends well. */
  lemma {:induction false} WaitInVain(
    s: State, read: State -> (State, Answer<Option<Instance>>), id: nat, ready: Option<Instance> -> bool, attempts: nat)
    requires attempts >= 1 && Reads(read, id) && Present(s, id) && Get(s, id).status.Running?
    requires !ready(Some(Get(s, id)))
    ensures WaitFor(s, read, ready, attempts) == (s, Err(TimedOut))
    decreases attempts
  {
    SeenMoves(s, id);
    assert read(s).0 == s;
    if attempts > 1 {
      WaitInVain(s, read, id, ready, attempts - 1);
    }
  }

  method AwaitRunning(s: State, id: nat, attempts: nat) returns (t: State, running: bool)
    requires attempts >= 1 && Present(s, id) && !Get(s, id).status.Stopping?
    ensures OnlyMoved(s, t, id) && (running <==> WillRun(s, id, attempts))
    ensures Get(t, id) == if running then Get(s, id).(status := Running) else Get(s, id)
    ensures Get(s, id).status.Running? ==> t == s
  {
    ReadReads(id);
    WaitRunning(s, Read(id), id, attempts);
    var step := WaitFor(s, Read(id), IsRunning, attempts);
    t, running := step.0, step.1.Ok?;
  }

  method AwaitStopped(s: State, id: nat, attempts: nat) returns (t: State)
    requires attempts >= 1 && Present(s, id) && Get(s, id).status.Stopping?
    ensures OnlyMoved(s, t, id) && Get(t, id) == Get(s, id).(status := Stopped)
  {
    ReadReads(id);
    SeenMoves(s, id);
    WaitOnce(s, Read(id), id, IsStopped, attempts);
    t := WaitFor(s, Read(id), IsStopped, attempts).0;
  }

  /** Waits for a condition on a running instance, which reads no longer change. */
  method AwaitAgreement(s: State, id: nat, ready: Option<Instance> -> bool, attempts: nat) returns (agreed: bool)
    requires attempts >= 1 && Present(s, id) && Get(s, id).status.Running?
    ensures agreed <==> ready(Some(Get(s, id)))
  {
    ReadReads(id);
    SeenMoves(s, id);
    if ready(Some(Get(s, id))) {
      WaitOnce(s, Read(id), id, ready, attempts);
    } else {
      WaitInVain(s, Read(id), id, ready, attempts);
    }
    agreed := WaitFor(s, Read(id), ready, attempts).1.Ok?;
  }

  // ---- Sending ----

  /** The instance as a request leaves it. */
  function Changed(i: Instance, r: InstanceRequest): Instance {
    match r
    case StartInstance(_) => i.(status := Running)
    case StopInstance(_) => i.(status := Stopping)
    case ModifyInstanceSpec(_, newType) => i.(instanceType := newType)
    case JoinSecurityGroup(_, g) => if g in i.groups then i else i.(groups := i.groups + [g])
    case LeaveSecurityGroup(_, g) => i.(groups := Without(i.groups, g))
    case _ => i
  }

  method Send(s: State, r: InstanceRequest, id: nat) returns (t: State, sent: seq<Sent>)
    requires || r.StartInstance? || r.StopInstance? || r.ModifyInstanceSpec?
             || r.JoinSecurityGroup? || r.LeaveSecurityGroup?
    requires r.id == id && Present(s, id)
    requires r.ModifyInstanceSpec? ==> Get(s, id).status.Stopped?
    ensures HandleInstance(s, r) == (t, DONE) && OnlyMoved(s, t, id)
    ensures Get(t, id) == Changed(Get(s, id), r) && sent == [Sent(r, Get(s, id), Get(t, id))]
  {
    t := HandleInstance(s, r).0;
    assert s.compute.instances[id := s.compute.instances[id]] == s.compute.instances;
    sent := [Sent(r, Get(s, id), Get(t, id))];
  }

  // ---- What a whole reconcile may do on the way ----

  /** Kept groups stay, there is always a group, and the type changes only while the instance is stopped. */
  ghost predicate Careful(trace: seq<Sent>, had: seq<nat>, wanted: seq<nat>) {
    forall k | 0 <= k < |trace| ::
      && (forall g | g in had && g in wanted :: g in trace[k].after.groups)
      && (had != [] ==> trace[k].after.groups != [])
      && (trace[k].request.ModifyInstanceSpec? || trace[k].before.instanceType != trace[k].after.instanceType ==>
            trace[k].before.status.Stopped?)
  }

  lemma CarefulConcat(a: seq<Sent>, b: seq<Sent>, had: seq<nat>, wanted: seq<nat>)
    requires Careful(a, had, wanted) && Careful(b, had, wanted)
    ensures Careful(a + b, had, wanted)
  {
  }

  /** Brings the instance to running: starts it if it is stopped, then waits. */
  method EnsureRunning(s: State, id: nat, wanted: seq<nat>, attempts: nat)
    returns (t: State, running: bool, trace: seq<Sent>)
    requires Present(s, id) && attempts >= 1
    ensures OnlyMoved(s, t, id)
    ensures running <==> !Get(s, id).status.Pending? || s.compute.pendingReads <= attempts
    ensures running ==> Get(t, id) == Get(s, id).(status := Running)
    ensures Careful(trace, Get(s, id).groups, wanted)
    ensures Get(s, id).status.Running? ==> trace == [] && t == s
  {
    trace := [];
    LookSees(s, id);
    SeenMoves(s, id);
    t := Look(s, id).0;
    ghost var first := t;
    if Get(t, id).status.Stopped? {
      t, trace := Send(t, StartInstance(id), id);
      MovedTwice(s, first, t, id);
    }
    ghost var before := t;
    t, running := AwaitRunning(t, id, attempts);
    MovedTwice(s, before, t, id);
  }

  /** Stops the running instance, changes its type, and starts it again. */
  method Resize(s: State, id: nat, newType: string, wanted: seq<nat>, attempts: nat)
    returns (t: State, trace: seq<Sent>)
    requires Present(s, id) && attempts >= 1 && Get(s, id).status.Running?
    ensures OnlyMoved(s, t, id)
    ensures Get(t, id) == Get(s, id).(instanceType := newType)
    ensures Careful(trace, Get(s, id).groups, wanted)
  {
    var stopping, stop := Send(s, StopInstance(id), id);
    var stopped := AwaitStopped(stopping, id, attempts);
    var changed, change := Send(stopped, ModifyInstanceSpec(id, newType), id);
    var started, start := Send(changed, StartInstance(id), id);
    var agreed := AwaitAgreement(
      started, id, (v: Option<Instance>) => v.Some? && RunningWith(v.value, newType), attempts);
    assert agreed;
    MovedTwice(s, stopping, stopped, id);
    MovedTwice(s, stopped, changed, id);
    MovedTwice(s, changed, started, id);
    t, trace := started, stop + change + start;
  }

  /** The identity of a machine under `OnlyMoved`. */
  lemma NotMoved(s: State, id: nat)
    requires Present(s, id)
    ensures OnlyMoved(s, s, id)
  {
    assert s.compute.instances[id := s.compute.instances[id]] == s.compute.instances;
  }

  // ---- Security groups: join before leaving ----

  /** One group request on the way, added to the trace. */
  method SendNext(
    ghost s: State, before: State, r: InstanceRequest, id: nat, ghost had: seq<nat>, ghost wanted: seq<nat>,
    trace: seq<Sent>)
    returns (t: State, longer: seq<Sent>)
    requires r.JoinSecurityGroup? || r.LeaveSecurityGroup?
    requires r.id == id && OnlyMoved(s, before, id) && Careful(trace, had, wanted)
    requires var after := Changed(Get(before, id), r).groups;
             (forall g | g in had && g in wanted :: g in after) && (had != [] ==> after != [])
    ensures OnlyMoved(s, t, id) && Get(t, id) == Changed(Get(before, id), r)
    ensures Careful(longer, had, wanted)
  {
    var sent: seq<Sent>;
    t, sent := Send(before, r, id);
    MovedTwice(s, before, t, id);
    CarefulConcat(trace, sent, had, wanted);
    longer := trace + sent;
  }

  predicate NoDuplicates(groups: seq<nat>) {
    forall i, j | 0 <= i < j < |groups| :: groups[i] != groups[j]
  }

  function Missing(wanted: seq<nat>, current: seq<nat>): seq<nat> {
    if wanted == [] then []
    else
      var g := wanted[|wanted| - 1];
      Missing(wanted[..|wanted| - 1], current) + if g in current then [] else [g]
  }

  lemma {:induction false} MissingCounts(wanted: seq<nat>, current: seq<nat>, g: nat)
    requires NoDuplicates(wanted)
    ensures multiset(Missing(wanted, current))[g] == if g in wanted && g !in current then 1 else 0
    ensures g in wanted ==> multiset(wanted)[g] == 1
  {
    if wanted != [] {
      var init, last := wanted[..|wanted| - 1], wanted[|wanted| - 1];
      assert wanted == init + [last];
      MissingCounts(init, current, g);
    }
  }

  lemma {:induction false} MissingHolds(wanted: seq<nat>, current: seq<nat>, g: nat)
    ensures g in Missing(wanted, current) <==> g in wanted && g !in current
  {
    if wanted != [] {
      assert wanted == wanted[..|wanted| - 1] + [wanted[|wanted| - 1]];
      MissingHolds(wanted[..|wanted| - 1], current, g);
    }
  }

  lemma {:induction false} WithoutCounts(groups: seq<nat>, group: nat, g: nat)
    ensures multiset(Without(groups, group))[g] == if g == group then 0 else multiset(groups)[g]
  {
    if groups != [] {
      assert groups == [groups[0]] + groups[1..];
      WithoutCounts(groups[1..], group, g);
      assert Without(groups, group) == (if groups[0] != group then [groups[0]] else []) + Without(groups[1..], group);
    }
  }

  /** Joins one group unless the instance was in it. */
  method JoinOne(
    ghost s: State, before: State, id: nat, ghost joined: seq<nat>, group: nat, current: seq<nat>,
    ghost wanted: seq<nat>, trace: seq<Sent>)
    returns (t: State, longer: seq<Sent>)
    requires OnlyMoved(s, before, id) && Careful(trace, current, wanted)
    requires Get(before, id) == Get(s, id).(groups := current + joined) && group !in joined
    ensures OnlyMoved(s, t, id) && Careful(longer, current, wanted)
    ensures Get(t, id) == Get(s, id).(groups := current + if group in current then joined else joined + [group])
    ensures group in current ==> longer == trace && t == before
  {
    if group in current {
      return before, trace;
    }
    assert current + joined + [group] == current + (joined + [group]);
    t, longer := SendNext(s, before, JoinSecurityGroup(id, group), id, current, wanted, trace);
  }

  /** Joins every wanted group the instance is not in. */
  method JoinMissing(s: State, id: nat, wanted: seq<nat>) returns (t: State, trace: seq<Sent>)
    requires Present(s, id) && NoDuplicates(wanted)
    ensures OnlyMoved(s, t, id)
    ensures Get(t, id) == Get(s, id).(groups := Get(s, id).groups + Missing(wanted, Get(s, id).groups))
    ensures Careful(trace, Get(s, id).groups, wanted)
    ensures Missing(wanted, Get(s, id).groups) == [] ==> trace == [] && t == s
  {
    t, trace := s, [];
    var current := Get(s, id).groups;
    NotMoved(s, id);
    for i := 0 to |wanted|
      invariant OnlyMoved(s, t, id)
      invariant Get(t, id) == Get(s, id).(groups := current + Missing(wanted[..i], current))
      invariant Careful(trace, current, wanted)
      invariant Missing(wanted[..i], current) == [] ==> trace == [] && t == s
    {
      ghost var joined := Missing(wanted[..i], current);
      MissingHolds(wanted[..i], current, wanted[i]);
      assert wanted[..i + 1][..i] == wanted[..i];
      assert Missing(wanted[..i + 1], current) == joined + if wanted[i] in current then [] else [wanted[i]];
      t, trace := JoinOne(s, t, id, joined, wanted[i], current, wanted, trace);
    }
    assert wanted[..|wanted|] == wanted;
  }

  /** On the way: wanted groups as often as at the start, and unwanted ones only among those still to leave. */
  ghost predicate Leaving(start: seq<nat>, groups: seq<nat>, wanted: seq<nat>, left: seq<nat>) {
    && (forall g | g in wanted :: g in start && g in groups && multiset(groups)[g] == multiset(start)[g])
    && (forall g | g in groups :: g in wanted || g in left)
  }

  lemma LeaveOne(start: seq<nat>, groups: seq<nat>, wanted: seq<nat>, group: nat, left: seq<nat>)
    requires Leaving(start, groups, wanted, [group] + left)
    ensures group in wanted ==> Leaving(start, groups, wanted, left)
    ensures group !in wanted ==> Leaving(start, Without(groups, group), wanted, left)
  {
    if group !in wanted {
      forall g | g in wanted
        ensures g in Without(groups, group) && multiset(Without(groups, group))[g] == multiset(start)[g]
      {
        WithoutCounts(groups, group, g);
      }
    }
  }

  /** Leaves one group unless it is wanted. */
  method LeaveUnwanted(
    ghost s: State, before: State, id: nat, group: nat, ghost left: seq<nat>, ghost had: seq<nat>, wanted: seq<nat>,
    trace: seq<Sent>)
    returns (t: State, longer: seq<Sent>)
    requires OnlyMoved(s, before, id) && wanted != [] && Careful(trace, had, wanted)
    requires Leaving(Get(s, id).groups, Get(before, id).groups, wanted, [group] + left)
    ensures OnlyMoved(s, t, id) && Get(t, id) == Get(before, id).(groups := Get(t, id).groups)
    ensures Leaving(Get(s, id).groups, Get(t, id).groups, wanted, left)
    ensures Careful(longer, had, wanted)
    ensures group in wanted ==> longer == trace && t == before
  {
    LeaveOne(Get(s, id).groups, Get(before, id).groups, wanted, group, left);
    if group in wanted {
      return before, trace;
    }
    assert wanted[0] in Without(Get(before, id).groups, group);
    t, longer := SendNext(s, before, LeaveSecurityGroup(id, group), id, had, wanted, trace);
  }

  /** Leaves every group of `current` that is not wanted. */
  method LeaveOthers(s: State, id: nat, current: seq<nat>, wanted: seq<nat>) returns (t: State, trace: seq<Sent>)
    requires Present(s, id) && wanted != []
    requires Leaving(Get(s, id).groups, Get(s, id).groups, wanted, current)
    ensures OnlyMoved(s, t, id)
    ensures Get(t, id) == Get(s, id).(groups := Get(t, id).groups)
    ensures Leaving(Get(s, id).groups, Get(t, id).groups, wanted, [])
    ensures Careful(trace, current, wanted)
    ensures Missing(current, wanted) == [] ==> trace == [] && t == s
  {
    t, trace := s, [];
    NotMoved(s, id);
    for i := 0 to |current|
      invariant OnlyMoved(s, t, id)
      invariant Get(t, id) == Get(s, id).(groups := Get(t, id).groups)
      invariant Leaving(Get(s, id).groups, Get(t, id).groups, wanted, current[i..])
      invariant Careful(trace, current, wanted)
      invariant Missing(current[..i], wanted) == [] ==> trace == [] && t == s
    {
      assert current[i..] == [current[i]] + current[i + 1..];
      assert current[..i + 1][..i] == current[..i];
      t, trace := LeaveUnwanted(s, t, id, current[i], current[i + 1..], current, wanted, trace);
    }
    assert current[..|current|] == current && current[|current|..] == [];
  }

  /** None of the groups that stay is listed twice, so leaving and joining can reach the wanted list. */
  ghost predicate KeptOnce(had: seq<nat>, wanted: seq<nat>) {
    forall g | g in had && g in wanted :: multiset(had)[g] == 1
  }

  ghost predicate SameSet(a: seq<nat>, b: seq<nat>) {
    forall g :: g in a <==> g in b
  }

  lemma SwappedGroups(had: seq<nat>, wanted: seq<nat>, after: seq<nat>)
    requires NoDuplicates(wanted)
    requires forall g | g in wanted :: multiset(after)[g] == multiset(had + Missing(wanted, had))[g]
    requires forall g | g in after :: g in wanted
    ensures SameSet(after, wanted)
    ensures SameGroups(after, wanted) <==> KeptOnce(had, wanted)
  {
    forall g | g in wanted
      ensures g in after && multiset(wanted)[g] == 1
      ensures multiset(after)[g] == if g in had then multiset(had)[g] else 1
    {
      MissingCounts(wanted, had, g);
      assert multiset(had + Missing(wanted, had)) == multiset(had) + multiset(Missing(wanted, had));
      assert g in had <==> g in multiset(had);
      assert g in multiset(after);
    }
    if KeptOnce(had, wanted) {
      forall g: nat
        ensures multiset(after)[g] == multiset(wanted)[g]
      {
        if g !in wanted {
          assert g !in after && g !in multiset(after) && g !in multiset(wanted);
        }
      }
    } else {
      var g :| g in had && g in wanted && multiset(had)[g] != 1;
      assert multiset(after)[g] != multiset(wanted)[g];
    }
  }

  /** Joins what is missing, then leaves what is not wanted. */
  method SwapGroups(s: State, id: nat, wanted: seq<nat>) returns (t: State, trace: seq<Sent>)
    requires Present(s, id) && wanted != [] && NoDuplicates(wanted)
    ensures OnlyMoved(s, t, id) && Get(t, id) == Get(s, id).(groups := Get(t, id).groups)
    ensures Careful(trace, Get(s, id).groups, wanted)
    ensures SameSet(Get(t, id).groups, wanted)
    ensures SameGroups(Get(t, id).groups, wanted) <==> KeptOnce(Get(s, id).groups, wanted)
    ensures SameSet(Get(s, id).groups, wanted) ==> trace == [] && t == s
  {
    var had := Get(s, id).groups;
    forall g: nat
      ensures g in Missing(wanted, had) <==> g in wanted && g !in had
      ensures g in Missing(had, wanted) <==> g in had && g !in wanted
    {
      MissingHolds(wanted, had, g);
      MissingHolds(had, wanted, g);
    }
    assert Missing(wanted, had) != [] ==> Missing(wanted, had)[0] in Missing(wanted, had);
    assert Missing(had, wanted) != [] ==> Missing(had, wanted)[0] in Missing(had, wanted);
    var joined, join := JoinMissing(s, id, wanted);
    var leave: seq<Sent>;
    t, leave := LeaveOthers(joined, id, had, wanted);
    MovedTwice(s, joined, t, id);
    CarefulConcat(join, leave, had, wanted);
    trace := join + leave;
    SwappedGroups(had, wanted, Get(t, id).groups);
  }

  // ---- The whole reconcile ----

  ghost predicate AlreadyRight(i: Instance, instanceType: string, wanted: seq<nat>) {
    RunningWith(i, instanceType) && SameSet(i.groups, wanted)
  }

  /**
   Reconciles an existing instance. It changes nothing on invalid input; otherwise, given enough attempts
   to outwait a pending start, it ends running with the desired type and exactly the wanted groups, having
   been careful on the way; and on an instance that is already right it sends nothing. Convergence is
   reported unless a kept group was listed twice.
   */
  method Reconcile(s: State, id: nat, instanceType: string, wanted: seq<nat>, attempts: nat)
    returns (t: State, outcome: Outcome, trace: seq<Sent>)
    requires Present(s, id) && attempts >= 1
    ensures (wanted == [] || !NoDuplicates(wanted)) <==> outcome.InvalidGroups?
    ensures outcome.InvalidGroups? ==> t == s && trace == []
    ensures OnlyMoved(s, t, id) && Careful(trace, Get(s, id).groups, wanted)
    ensures !outcome.InvalidGroups? && (Get(s, id).status.Pending? ==> s.compute.pendingReads <= attempts) ==>
              && AlreadyRight(Get(t, id), instanceType, wanted)
              && Get(t, id) == Get(s, id).(status := Running, instanceType := instanceType, groups := Get(t, id).groups)
              && (outcome.Converged? <==> KeptOnce(Get(s, id).groups, wanted))
              && (outcome.Converged? <==> SameGroups(Get(t, id).groups, wanted))
    ensures !outcome.InvalidGroups? && Get(s, id).status.Pending? && s.compute.pendingReads > attempts ==>
              outcome.WaitTimeout?
    ensures AlreadyRight(Get(s, id), instanceType, wanted) ==> trace == [] && t == s
  {
    NotMoved(s, id);
    if wanted == [] || !NoDuplicates(wanted) {
      return s, InvalidGroups, [];
    }
    var running: bool;
    t, running, trace := EnsureRunning(s, id, wanted, attempts);
    if !running {
      return t, WaitTimeout, trace;
    }
    var had := Get(t, id).groups;
    ghost var ensured := t;
    if Get(t, id).instanceType != instanceType {
      var resize: seq<Sent>;
      t, resize := Resize(t, id, instanceType, wanted, attempts);
      MovedTwice(s, ensured, t, id);
      CarefulConcat(trace, resize, had, wanted);
      trace := trace + resize;
    }
    ghost var resized := t;
    var swap: seq<Sent>;
    t, swap := SwapGroups(t, id, wanted);
    MovedTwice(s, resized, t, id);
    CarefulConcat(trace, swap, had, wanted);
    trace := trace + swap;
    var agreed := AwaitAgreement(
      t, id,
      (v: Option<Instance>) => v.Some? && RunningWith(v.value, instanceType) && SameGroups(v.value.groups, wanted),
      attempts);
    outcome := if agreed then Converged else WaitTimeout;
  }

  /** A second reconcile right after a converged one sends no request at all. */
  method ReconcileTwice(s: State, id: nat, instanceType: string, wanted: seq<nat>, attempts: nat)
    returns (first: Outcome, second: Outcome, trace: seq<Sent>)
    requires Present(s, id) && attempts >= 1
    ensures first.Converged? ==> second.Converged? && trace == []
  {
    var t, u: State;
    t, first, trace := Reconcile(s, id, instanceType, wanted, attempts);
    u, second, trace := Reconcile(t, id, instanceType, wanted, attempts);
  }

  /** An instance started with a group listed twice: however long it waits, keeping that group never converges. */
  method RepeatedGroupTimesOut(attempts: nat) returns (outcome: Outcome)
    requires attempts >= 1
    ensures outcome.WaitTimeout?
  {
    var started := HandleInstance(Ecs.Initial(0), RunInstances(None, "small", [7, 7], false)).0;
    assert Get(started, 1) == Instance("small", Pending, [7, 7], false);
    assert multiset([7, 7])[7] == 2 && 7 in [7, 7] && 7 in [7];
    var t: State, trace: seq<Sent>;
    t, outcome, trace := Reconcile(started, 1, "small", [7], attempts);
  }
}
