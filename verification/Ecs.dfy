/**
 The simulated ECS machine: disks, instances, security groups and their rules, and the client tokens that
 replay earlier answers. Ids are the numbers of the one sequence they are all drawn from.
 */
module Ecs {
  import opened Wrappers

  datatype DiskStatus = Available | InUse

  datatype Disk = Disk(size: int, status: DiskStatus, instanceId: Option<nat>, deleteWithInstance: bool)

  datatype InstanceStatus = Pending | Running | Stopping | Stopped

  datatype Instance = Instance(instanceType: string, status: InstanceStatus, groups: seq<nat>, deletionProtection: bool)

  datatype Group = Group(name: string, vpcId: string)

  datatype Direction = Ingress | Egress

  /** The CIDR, IPv6 CIDR and group a rule may name on one side. */
  datatype Peer = Peer(cidr: Option<string>, ipv6: Option<string>, group: Option<string>)

  /** What makes two rules of a group the same rule. */
  datatype RuleKey = RuleKey(direction: Direction, source: Peer, dest: Peer, portRange: string)

  datatype Rule = Rule(group: nat, key: RuleKey, protocol: string, priority: string)

  /** `tokens` remembers the id each client token got; a create without a token files it under `None`. */
  datatype Issued = Issued(sequence: nat, tokens: map<Option<string>, nat>)

  datatype Compute = Compute(instances: map<nat, Instance>, pendingReads: int)

  datatype Firewall = Firewall(groups: map<nat, Group>, rules: map<nat, Rule>)

  datatype State = State(issued: Issued, disks: map<nat, Disk>, compute: Compute, firewall: Firewall)

  datatype Error =
    | InvalidDiskIdNotFound
    | InvalidParameterNewSize
    | IncorrectDiskStatus
    | InvalidInstanceIdNotFound
    | OperationDeletionProtection
    | IncorrectInstanceStatus
    | InstanceNotStopped
    | InvalidSecurityGroupIdNotFound
    | DependencyViolation

  /** An id, or nothing to return, or an error. */
  type Reply = Result<Option<nat>, Error>

  const DONE: Reply := Ok(None)

  function Issue(i: Issued, token: Option<string>): Issued {
    Issued(i.sequence + 1, i.tokens[token := i.sequence + 1])
  }

  // ---- Disks ----

  datatype DiskRequest =
    | CreateDisk(token: Option<string>, size: int)
    | ResizeDisk(disk: nat, newSize: int)
    | ModifyDisk(disk: nat, deleteWithInstance: Option<bool>)
    | AttachDisk(disk: nat, instance: nat, deleteWith: bool)
    | DetachDisk(disk: nat)
    | DeleteDisk(disk: nat)

  function HandleDisk(s: State, r: DiskRequest): (State, Reply) {
    match r
    case CreateDisk(token, size) =>
      if token in s.issued.tokens then (s, Ok(Some(s.issued.tokens[token])))
      else
        var id := s.issued.sequence + 1;
        (s.(issued := Issue(s.issued, token), disks := s.disks[id := Disk(size, Available, None, false)]), Ok(Some(id)))
    case DeleteDisk(disk) =>
      if disk in s.disks && s.disks[disk].instanceId.Some? then (s, Err(IncorrectDiskStatus))
      else (s.(disks := s.disks - {disk}), DONE)
    case _ =>
      if r.disk !in s.disks then (s, Err(InvalidDiskIdNotFound)) else ChangeDisk(s, r, s.disks[r.disk])
  }

  function ChangeDisk(s: State, r: DiskRequest, d: Disk): (State, Reply)
    requires !r.CreateDisk? && !r.DeleteDisk?
  {
    match r
    case ResizeDisk(disk, newSize) =>
      if newSize <= d.size then (s, Err(InvalidParameterNewSize))
      else (s.(disks := s.disks[disk := d.(size := newSize)]), DONE)
    case ModifyDisk(disk, delete) =>
      (if delete.None? then s else s.(disks := s.disks[disk := d.(deleteWithInstance := delete.value)]), DONE)
    case AttachDisk(disk, instance, delete) =>
      if d.instanceId.Some? || instance !in s.compute.instances then (s, Err(IncorrectDiskStatus))
      else
        var attached := d.(instanceId := Some(instance), status := InUse, deleteWithInstance := delete);
        (s.(disks := s.disks[disk := attached]), DONE)
    case DetachDisk(disk) =>
      (s.(disks := s.disks[disk := d.(instanceId := None, status := Available)]), DONE)
  }

  // ---- Instances ----

  datatype InstanceRequest =
    | RunInstances(token: Option<string>, instanceType: string, groups: seq<nat>, protection: bool)
    | DescribeInstances(only: Option<nat>)
    | StartInstance(id: nat)
    | StopInstance(id: nat)
    | DeleteInstance(id: nat)
    | ModifyInstanceSpec(id: nat, newType: string)
    | JoinSecurityGroup(id: nat, group: nat)
    | LeaveSecurityGroup(id: nat, group: nat)
    | ModifyInstanceAttribute(id: nat, protect: bool)

  /** `tokens.get(p.ClientToken ?? "")`: a missing token is looked up as the empty one. */
  function Remembered(i: Issued, token: Option<string>): Option<nat> {
    var key := Some(if token.Some? then token.value else "");
    if key in i.tokens then Some(i.tokens[key]) else None
  }

  /** Reading an instance moves it on: pending ones start once enough reads have passed, stopping ones stop. */
  function Settle(c: Compute, id: nat): Compute
    requires id in c.instances
  {
    match c.instances[id].status
    case Pending =>
      if c.pendingReads <= 0
      then Compute(c.instances[id := c.instances[id].(status := Running)], c.pendingReads - 1)
      else c.(pendingReads := c.pendingReads - 1)
    case Stopping => c.(instances := c.instances[id := c.instances[id].(status := Stopped)])
    case _ => c
  }

  predicate Listed(id: nat, only: Option<nat>) {
    only.None? || only.value == id
  }

  /** The listed instances up to `bound`, settled in the order they were made. */
  function SettleUpTo(c: Compute, only: Option<nat>, bound: nat): (r: Compute)
    ensures r.instances.Keys == c.instances.Keys
    decreases bound
  {
    var before := if bound == 0 then c else SettleUpTo(c, only, bound - 1);
    if bound in before.instances && Listed(bound, only) then Settle(before, bound) else before
  }

  function ReleaseDisks(disks: map<nat, Disk>, instance: nat): map<nat, Disk> {
    map d | d in disks && !(disks[d].instanceId == Some(instance) && disks[d].deleteWithInstance) ::
      if disks[d].instanceId == Some(instance) then disks[d].(instanceId := None, status := Available) else disks[d]
  }

  function SetInstance(s: State, id: nat, i: Instance): State {
    s.(compute := s.compute.(instances := s.compute.instances[id := i]))
  }

  function Without(groups: seq<nat>, group: nat): (kept: seq<nat>)
    ensures forall g {:trigger g in kept} :: g in kept <==> g in groups && g != group
  {
    Filter(groups, g => g != group)
  }

  function ChangeInstance(s: State, r: InstanceRequest, i: Instance): (State, Reply)
    requires !r.RunInstances? && !r.DescribeInstances?
  {
    match r
    case StartInstance(id) => (SetInstance(s, id, i.(status := Running)), DONE)
    case StopInstance(id) => (SetInstance(s, id, i.(status := Stopping)), DONE)
    case DeleteInstance(id) =>
      if i.deletionProtection then (s, Err(OperationDeletionProtection))
      else if !i.status.Stopped? then (s, Err(IncorrectInstanceStatus))
      else (s.(compute := s.compute.(instances := s.compute.instances - {id}), disks := ReleaseDisks(s.disks, id)),
            DONE)
    case ModifyInstanceSpec(id, newType) =>
      if !i.status.Stopped? then (s, Err(InstanceNotStopped))
      else (SetInstance(s, id, i.(instanceType := newType)), DONE)
    case JoinSecurityGroup(id, group) =>
      (if group in i.groups then s else SetInstance(s, id, i.(groups := i.groups + [group])), DONE)
    case LeaveSecurityGroup(id, group) => (SetInstance(s, id, i.(groups := Without(i.groups, group))), DONE)
    case ModifyInstanceAttribute(id, protect) => (SetInstance(s, id, i.(deletionProtection := protect)), DONE)
  }

  function Describe(s: State, only: Option<nat>): State {
    s.(compute := SettleUpTo(s.compute, only, s.issued.sequence))
  }

  function HandleInstance(s: State, r: InstanceRequest): (State, Reply) {
    match r
    case RunInstances(token, instanceType, groups, protection) =>
      var existing := Remembered(s.issued, token);
      if existing.Some? then (s, Ok(existing))
      else
        var id := s.issued.sequence + 1;
        (SetInstance(s, id, Instance(instanceType, Pending, groups, protection)).(issued := Issue(s.issued, token)),
         Ok(Some(id)))
    case DescribeInstances(only) =>
      (Describe(s, only), DONE)
    case _ =>
      if r.id !in s.compute.instances then (s, Err(InvalidInstanceIdNotFound))
      else ChangeInstance(s, r, s.compute.instances[r.id])
  }

  // ---- Security groups ----

  datatype GroupRequest =
    | CreateSecurityGroup(token: Option<string>, name: string, vpcId: string)
    | DeleteSecurityGroup(group: nat)
    | Authorize(group: nat, key: RuleKey, protocol: string, priority: string)
    | Revoke(ids: seq<nat>)

  predicate InUseBy(instances: map<nat, Instance>, group: nat) {
    exists i | i in instances :: group in instances[i].groups
  }

  predicate HasRule(rules: map<nat, Rule>, group: nat, key: RuleKey) {
    exists r | r in rules :: rules[r].group == group && rules[r].key == key
  }

  function RulesWithout(rules: map<nat, Rule>, group: nat): map<nat, Rule> {
    map r | r in rules && rules[r].group != group :: rules[r]
  }

  function IdSet(ids: seq<nat>): set<nat> {
    set i | i in ids
  }

  function HandleGroup(s: State, r: GroupRequest): (State, Reply) {
    match r
    case CreateSecurityGroup(token, name, vpcId) =>
      var existing := Remembered(s.issued, token);
      var id := if existing.Some? then existing.value else s.issued.sequence + 1;
      var issued := Issued(if existing.Some? then s.issued.sequence else id, s.issued.tokens[token := id]);
      (s.(issued := issued, firewall := s.firewall.(groups := s.firewall.groups[id := Group(name, vpcId)])),
       Ok(Some(id)))
    case DeleteSecurityGroup(group) =>
      if group !in s.firewall.groups then (s, Err(InvalidSecurityGroupIdNotFound))
      else if InUseBy(s.compute.instances, group) then (s, Err(DependencyViolation))
      else (s.(firewall := Firewall(s.firewall.groups - {group}, RulesWithout(s.firewall.rules, group))), DONE)
    case Authorize(group, key, protocol, priority) =>
      if group !in s.firewall.groups then (s, Err(InvalidSecurityGroupIdNotFound))
      else if HasRule(s.firewall.rules, group, key) then (s, DONE)
      else
        var id := s.issued.sequence + 1;
        (s.(issued := s.issued.(sequence := id),
            firewall := s.firewall.(rules := s.firewall.rules[id := Rule(group, key, protocol, priority)])), DONE)
    case Revoke(ids) =>
      (s.(firewall := s.firewall.(rules := s.firewall.rules - IdSet(ids))), DONE)
  }

  datatype Request = ForDisk(disk: DiskRequest) | ForInstance(instance: InstanceRequest) | ForGroup(group: GroupRequest)

  function Handle(s: State, r: Request): (State, Reply) {
    match r
    case ForDisk(d) => HandleDisk(s, d)
    case ForInstance(i) => HandleInstance(s, i)
    case ForGroup(g) => HandleGroup(s, g)
  }

  function HandleAll(s: State, requests: seq<Request>): State
    decreases |requests|
  {
    if requests == [] then s else HandleAll(Handle(s, requests[0]).0, requests[1..])
  }

  function Initial(pendingReads: int): State {
    State(Issued(0, map[]), map[], Compute(map[], pendingReads), Firewall(map[], map[]))
  }

  // ---- What every request keeps ----

  /** A disk is in use exactly when it names an instance, and that instance exists. */
  ghost predicate DisksOk(disks: map<nat, Disk>, instances: set<nat>) {
    forall d | d in disks ::
      && (disks[d].status.InUse? <==> disks[d].instanceId.Some?)
      && (disks[d].instanceId.Some? ==> disks[d].instanceId.value in instances)
  }

  /** Every rule belongs to a group that exists, and no two rules of a group are the same rule. */
  ghost predicate RulesOk(f: Firewall) {
    && (forall r | r in f.rules :: f.rules[r].group in f.groups)
    && (forall r, q | r in f.rules && q in f.rules && r != q ::
          !(f.rules[r].group == f.rules[q].group && f.rules[r].key == f.rules[q].key))
  }

  /** No id in use lies beyond the sequence. */
  ghost predicate IdsOk(s: State) {
    && (forall i | i in s.disks :: i <= s.issued.sequence)
    && (forall i | i in s.compute.instances :: i <= s.issued.sequence)
    && (forall i | i in s.firewall.groups :: i <= s.issued.sequence)
    && (forall i | i in s.firewall.rules :: i <= s.issued.sequence)
    && (forall t | t in s.issued.tokens :: s.issued.tokens[t] <= s.issued.sequence)
  }

  ghost predicate Valid(s: State) {
    DisksOk(s.disks, s.compute.instances.Keys) && RulesOk(s.firewall) && IdsOk(s)
  }

  lemma DiskKeepsValid(s: State, r: DiskRequest)
    requires Valid(s)
    ensures Valid(HandleDisk(s, r).0)
  {
  }

  lemma InstanceKeepsValid(s: State, r: InstanceRequest)
    requires Valid(s)
    ensures Valid(HandleInstance(s, r).0)
  {
  }

  lemma GroupKeepsValid(s: State, r: GroupRequest)
    requires Valid(s)
    ensures Valid(HandleGroup(s, r).0)
  {
  }

  /** Over every sequence of requests the machine stays valid. */
  lemma {:induction false} EveryRunStaysValid(s: State, requests: seq<Request>)
    requires Valid(s)
    ensures Valid(HandleAll(s, requests))
    decreases |requests|
  {
    if requests != [] {
      match requests[0] {
        case ForDisk(d) => DiskKeepsValid(s, d);
        case ForInstance(i) => InstanceKeepsValid(s, i);
        case ForGroup(g) => GroupKeepsValid(s, g);
      }
      EveryRunStaysValid(Handle(s, requests[0]).0, requests[1..]);
    }
  }

  // ---- Ids ----

  /** Disks, instances and rules only ever appear under an id nothing had before. */
  lemma NewIdsAreFresh(s: State, r: Request)
    requires Valid(s)
    ensures var t := Handle(s, r).0;
            && s.issued.sequence <= t.issued.sequence
            && (forall i | i in t.disks && i !in s.disks :: i > s.issued.sequence)
            && (forall i | i in t.compute.instances && i !in s.compute.instances :: i > s.issued.sequence)
            && (forall i | i in t.firewall.rules && i !in s.firewall.rules :: i > s.issued.sequence)
  {
  }

  /** So one that is gone never comes back, whatever is asked. */
  lemma {:induction false} GoneStaysGone(s: State, requests: seq<Request>, id: nat)
    requires Valid(s) && id <= s.issued.sequence
    ensures var t := HandleAll(s, requests);
            && (id !in s.disks ==> id !in t.disks)
            && (id !in s.compute.instances ==> id !in t.compute.instances)
            && (id !in s.firewall.rules ==> id !in t.firewall.rules)
    decreases |requests|
  {
    if requests != [] {
      NewIdsAreFresh(s, requests[0]);
      var one := [requests[0]];
      EveryRunStaysValid(s, one);
      assert HandleAll(Handle(s, requests[0]).0, one[1..]) == Handle(s, requests[0]).0;
      GoneStaysGone(Handle(s, requests[0]).0, requests[1..], id);
    }
  }

  /** A group can: a create under a token that remembers an old id, of any kind, makes a group of that id. */
  lemma GroupComesBackIff(s: State, r: Request, id: nat)
    requires Valid(s) && id <= s.issued.sequence && id !in s.firewall.groups
    ensures id in Handle(s, r).0.firewall.groups <==>
            r.ForGroup? && r.group.CreateSecurityGroup? && Remembered(s.issued, r.group.token) == Some(id)
  {
  }

  /** Deleting a group and repeating the create that made it shows it: the same id again. */
  lemma RepeatedCreateReusesTheId(s: State, token: string, name: string, vpcId: string)
    requires Valid(s) && Remembered(s.issued, Some(token)).None?
    ensures var id := s.issued.sequence + 1;
            var made := HandleGroup(s, CreateSecurityGroup(Some(token), name, vpcId)).0;
            var gone := HandleGroup(made, DeleteSecurityGroup(id)).0;
            var again := HandleGroup(gone, CreateSecurityGroup(Some(token), name, vpcId)).0;
            !InUseBy(s.compute.instances, id) ==>
              id in made.firewall.groups && id !in gone.firewall.groups && id in again.firewall.groups
  {
  }

  ghost predicate Forgotten(i: Issued, id: nat) {
    forall t: string | Some(t) in i.tokens :: i.tokens[Some(t)] != id
  }

  lemma HandleKeepsForgotten(s: State, r: Request, id: nat)
    requires Valid(s) && id <= s.issued.sequence && Forgotten(s.issued, id)
    ensures Forgotten(Handle(s, r).0.issued, id) && s.issued.sequence <= Handle(s, r).0.issued.sequence
  {
  }

  /** A group whose id no token remembers is gone for good. */
  lemma {:induction false} ForgottenGroupsStayGone(s: State, requests: seq<Request>, id: nat)
    requires Valid(s) && id <= s.issued.sequence && Forgotten(s.issued, id) && id !in s.firewall.groups
    ensures id !in HandleAll(s, requests).firewall.groups
    decreases |requests|
  {
    if requests != [] {
      HandleKeepsForgotten(s, requests[0], id);
      GroupComesBackIff(s, requests[0], id);
      var one := [requests[0]];
      EveryRunStaysValid(s, one);
      assert HandleAll(Handle(s, requests[0]).0, one[1..]) == Handle(s, requests[0]).0;
      ForgottenGroupsStayGone(Handle(s, requests[0]).0, requests[1..], id);
    }
  }

  // ---- What each request brings about ----

  lemma RefusedChangesNothing(s: State, r: Request)
    ensures Handle(s, r).1.Err? ==> Handle(s, r).0 == s
  {
  }

  /** A disk goes exactly when it is attached to nothing, and nothing else does. */
  lemma DiskGoesIff(s: State, disk: nat)
    requires disk in s.disks
    ensures var (t, reply) := HandleDisk(s, DeleteDisk(disk));
            && t == s.(disks := t.disks) && t.disks - {disk} == s.disks - {disk}
            && (disk !in t.disks <==> s.disks[disk].instanceId.None?)
            && (reply.Ok? <==> disk !in t.disks)
  {
  }

  /** Attaching is refused to a disk in use and a missing instance; detaching undoes it. */
  lemma DetachUndoesAttach(s: State, disk: nat, instance: nat, delete: bool)
    requires Valid(s) && disk in s.disks
    ensures var (t, reply) := HandleDisk(s, AttachDisk(disk, instance, delete));
            && (reply.Ok? <==> s.disks[disk].status.Available? && instance in s.compute.instances)
            && (reply.Ok? ==>
                  && disk in t.disks && t.disks[disk].instanceId == Some(instance) && t.disks[disk].status.InUse?
                  && HandleDisk(t, DetachDisk(disk)) ==
                     (s.(disks := s.disks[disk := s.disks[disk].(deleteWithInstance := delete)]), DONE))
  {
    var (t, reply) := HandleDisk(s, AttachDisk(disk, instance, delete));
    if reply.Ok? {
      var back := s.disks[disk].(deleteWithInstance := delete);
      assert t.disks[disk].(instanceId := None, status := Available) == back;
      assert t.disks[disk := back] == s.disks[disk := back];
    }
  }

  /** A disk only grows, and then to the size asked for. */
  lemma ResizedIff(s: State, disk: nat, size: int)
    requires disk in s.disks
    ensures var (t, reply) := HandleDisk(s, ResizeDisk(disk, size));
            && (reply.Ok? <==> size > s.disks[disk].size)
            && disk in t.disks && t.disks[disk].size == if reply.Ok? then size else s.disks[disk].size
  {
  }

  /** A repeated create under one token makes nothing new and answers with the first id. */
  lemma CreatesReplay(s: State, token: string, size: int, instanceType: string, groups: seq<nat>, protect: bool)
    ensures var (t, reply) := HandleDisk(s, CreateDisk(Some(token), size));
            reply.Ok? && HandleDisk(t, CreateDisk(Some(token), size)) == (t, reply)
            && (Some(token) !in s.issued.tokens ==>
                  reply == Ok(Some(s.issued.sequence + 1))
                  && t.disks == s.disks[s.issued.sequence + 1 := Disk(size, Available, None, false)])
    ensures var (t, reply) := HandleInstance(s, RunInstances(Some(token), instanceType, groups, protect));
            reply.Ok? && HandleInstance(t, RunInstances(Some(token), instanceType, groups, protect)) == (t, reply)
            && (Some(token) !in s.issued.tokens ==>
                  && reply == Ok(Some(s.issued.sequence + 1))
                  && t.compute.instances ==
                     s.compute.instances[s.issued.sequence + 1 := Instance(instanceType, Pending, groups, protect)])
  {
  }

  /**
   An instance goes exactly when it is stopped and not protected; of its disks those marked for it go too, the
   others become available, and every other disk stays as it is.
   */
  lemma InstanceGoesIff(s: State, id: nat)
    requires Valid(s) && id in s.compute.instances
    ensures var i := s.compute.instances[id];
            var (t, reply) := HandleInstance(s, DeleteInstance(id));
            && (id !in t.compute.instances <==> i.status.Stopped? && !i.deletionProtection)
            && (reply.Ok? <==> id !in t.compute.instances)
            && t.compute.instances - {id} == s.compute.instances - {id} && t.firewall == s.firewall
            && (reply.Ok? ==> forall d | d in s.disks ::
                  if s.disks[d].instanceId != Some(id) then d in t.disks && t.disks[d] == s.disks[d]
                  else if s.disks[d].deleteWithInstance then d !in t.disks
                  else d in t.disks && t.disks[d].instanceId.None? && t.disks[d].status.Available?
                       && t.disks[d].size == s.disks[d].size)
  {
  }

  /** A protection that was switched on stops the deletion, and one switched off does not. */
  lemma ProtectionStopsDeletion(s: State, id: nat, protect: bool)
    requires id in s.compute.instances && s.compute.instances[id].status.Stopped?
    ensures var t := HandleInstance(s, ModifyInstanceAttribute(id, protect)).0;
            HandleInstance(t, DeleteInstance(id)).1 == if protect then Err(OperationDeletionProtection) else DONE
  {
  }

  /** A group goes exactly when no instance is in it, with its rules; every other group and rule stays. */
  lemma GroupGoesIff(s: State, group: nat)
    requires group in s.firewall.groups
    ensures var (t, reply) := HandleGroup(s, DeleteSecurityGroup(group));
            && (group !in t.firewall.groups <==>
                  forall i | i in s.compute.instances :: group !in s.compute.instances[i].groups)
            && (reply.Ok? <==> group !in t.firewall.groups)
            && t == s.(firewall := t.firewall) && t.firewall.groups - {group} == s.firewall.groups - {group}
            && (reply.Ok? ==> forall r | r in s.firewall.rules ::
                  if s.firewall.rules[r].group == group then r !in t.firewall.rules
                  else r in t.firewall.rules && t.firewall.rules[r] == s.firewall.rules[r])
  {
  }

  /** Revoking takes away exactly the rules named. */
  lemma RevokedAreGone(s: State, ids: seq<nat>)
    ensures var (t, reply) := HandleGroup(s, Revoke(ids));
            && reply == DONE && t == s.(firewall := t.firewall) && t.firewall.groups == s.firewall.groups
            && (forall r :: r in t.firewall.rules <==> r in s.firewall.rules && r !in ids)
            && forall r | r in t.firewall.rules :: t.firewall.rules[r] == s.firewall.rules[r]
  {
  }

  /** Authorizing is refused only for a missing group; then the rule is there, once however often it is asked for. */
  lemma AuthorizedOnce(s: State, group: nat, key: RuleKey, protocol: string, priority: string)
    ensures var (t, reply) := HandleGroup(s, Authorize(group, key, protocol, priority));
            && (reply.Ok? <==> group in s.firewall.groups)
            && (reply.Ok? ==>
                  && HasRule(t.firewall.rules, group, key)
                  && HandleGroup(t, Authorize(group, key, protocol, priority)) == (t, DONE)
                  && forall r | r in s.firewall.rules && s.issued.sequence >= r ::
                       r in t.firewall.rules && t.firewall.rules[r] == s.firewall.rules[r])
  {
    var (t, reply) := HandleGroup(s, Authorize(group, key, protocol, priority));
    if reply.Ok? && !HasRule(s.firewall.rules, group, key) {
      assert t.firewall.rules[s.issued.sequence + 1].group == group;
    }
  }

  // ---- The machine itself ----

  /** The simulator's maps, changed in place by each request. */
  class EcsResources {
    var disks: map<nat, Disk>
    var instances: map<nat, Instance>
    var groups: map<nat, Group>
    var rules: map<nat, Rule>
    var tokens: map<Option<string>, nat>
    var sequence: nat
    var pendingReads: int

    ghost function Contents(): State
      reads this
    {
      State(Issued(sequence, tokens), disks, Compute(instances, pendingReads), Firewall(groups, rules))
    }

    constructor (pendingReads: int)
      ensures Contents() == Initial(pendingReads) && Valid(Contents())
    {
      disks, instances, groups, rules, tokens := map[], map[], map[], map[], map[];
      sequence := 0;
      this.pendingReads := pendingReads;
    }

    method NextId() returns (id: nat)
      modifies this`sequence
      ensures id == sequence == old(sequence) + 1
    {
      sequence := sequence + 1;
      id := sequence;
    }

    method DispatchDisk(r: DiskRequest) returns (reply: Reply)
      requires Valid(Contents())
      modifies this
      ensures (Contents(), reply) == HandleDisk(old(Contents()), r)
      ensures Valid(Contents())
    {
      DiskKeepsValid(Contents(), r);
      match r {
        case CreateDisk(token, size) =>
          if token in tokens {
            return Ok(Some(tokens[token]));
          }
          var id := NextId();
          disks := disks[id := Disk(size, Available, None, false)];
          tokens := tokens[token := id];
          return Ok(Some(id));
        case DeleteDisk(disk) =>
          if disk in disks && disks[disk].instanceId.Some? {
            return Err(IncorrectDiskStatus);
          }
          disks := disks - {disk};
          return DONE;
        case _ =>
      }
      if r.disk !in disks {
        return Err(InvalidDiskIdNotFound);
      }
      var d := disks[r.disk];
      match r {
        case ResizeDisk(_, newSize) =>
          if newSize <= d.size {
            return Err(InvalidParameterNewSize);
          }
          disks := disks[r.disk := d.(size := newSize)];
        case ModifyDisk(_, delete) =>
          if delete.Some? {
            disks := disks[r.disk := d.(deleteWithInstance := delete.value)];
          }
        case AttachDisk(_, instance, delete) =>
          if d.instanceId.Some? || instance !in instances {
            return Err(IncorrectDiskStatus);
          }
          disks := disks[r.disk := d.(instanceId := Some(instance), status := InUse, deleteWithInstance := delete)];
        case DetachDisk(_) =>
          disks := disks[r.disk := d.(instanceId := None, status := Available)];
      }
      reply := DONE;
    }

    /** Walks the disks of a deleted instance: each goes with it or becomes available again. */
    method ReleaseDisksOf(instance: nat)
      modifies this`disks
      ensures disks == ReleaseDisks(old(disks), instance)
    {
      ghost var before := disks;
      var left := disks.Keys;
      while left != {}
        invariant left <= before.Keys
        invariant disks.Keys == ReleaseDisks(before, instance).Keys + left
        invariant forall d | d in disks ::
                    disks[d] == if d in left then before[d] else ReleaseDisks(before, instance)[d]
      {
        var d :| d in left;
        if disks[d].instanceId == Some(instance) {
          if disks[d].deleteWithInstance {
            disks := disks - {d};
          } else {
            disks := disks[d := disks[d].(instanceId := None, status := Available)];
          }
        }
        left := left - {d};
      }
    }

    /** Walks the instances in the order they were made, settling the listed ones. */
    method SettleListed(only: Option<nat>)
      modifies this`instances, this`pendingReads
      ensures Compute(instances, pendingReads) == SettleUpTo(old(Compute(instances, pendingReads)), only, sequence)
    {
      ghost var before := Compute(instances, pendingReads);
      var next := 0;
      while next <= sequence
        invariant next <= sequence + 1
        invariant Compute(instances, pendingReads) == if next == 0 then before else SettleUpTo(before, only, next - 1)
      {
        if next in instances && Listed(next, only) {
          var i := instances[next];
          if i.status.Pending? {
            if pendingReads <= 0 {
              instances := instances[next := i.(status := Running)];
            }
            pendingReads := pendingReads - 1;
          }
          if i.status.Stopping? {
            instances := instances[next := i.(status := Stopped)];
          }
        }
        next := next + 1;
      }
    }

    method DispatchInstance(r: InstanceRequest) returns (reply: Reply)
      requires Valid(Contents())
      modifies this
      ensures (Contents(), reply) == HandleInstance(old(Contents()), r)
      ensures Valid(Contents())
    {
      InstanceKeepsValid(Contents(), r);
      match r {
        case RunInstances(token, instanceType, groupIds, protection) =>
          var key := Some(if token.Some? then token.value else "");
          if key in tokens {
            return Ok(Some(tokens[key]));
          }
          var id := NextId();
          instances := instances[id := Instance(instanceType, Pending, groupIds, protection)];
          tokens := tokens[token := id];
          return Ok(Some(id));
        case DescribeInstances(only) =>
          SettleListed(only);
          return DONE;
        case _ =>
      }
      if r.id !in instances {
        return Err(InvalidInstanceIdNotFound);
      }
      var i := instances[r.id];
      match r {
        case StartInstance(_) =>
          instances := instances[r.id := i.(status := Running)];
        case StopInstance(_) =>
          instances := instances[r.id := i.(status := Stopping)];
        case DeleteInstance(_) =>
          if i.deletionProtection {
            return Err(OperationDeletionProtection);
          }
          if !i.status.Stopped? {
            return Err(IncorrectInstanceStatus);
          }
          instances := instances - {r.id};
          ReleaseDisksOf(r.id);
        case ModifyInstanceSpec(_, newType) =>
          if !i.status.Stopped? {
            return Err(InstanceNotStopped);
          }
          instances := instances[r.id := i.(instanceType := newType)];
        case JoinSecurityGroup(_, group) =>
          if group !in i.groups {
            instances := instances[r.id := i.(groups := i.groups + [group])];
          }
        case LeaveSecurityGroup(_, group) =>
          instances := instances[r.id := i.(groups := Without(i.groups, group))];
        case ModifyInstanceAttribute(_, protect) =>
          instances := instances[r.id := i.(deletionProtection := protect)];
      }
      reply := DONE;
    }

    /** Walks the rules, dropping those of one group. */
    method DropRulesOf(group: nat)
      modifies this`rules
      ensures rules == RulesWithout(old(rules), group)
    {
      ghost var before := rules;
      var left := rules.Keys;
      while left != {}
        invariant left <= before.Keys
        invariant rules.Keys == RulesWithout(before, group).Keys + left
        invariant forall r | r in rules :: r in before && rules[r] == before[r]
      {
        var r :| r in left;
        if rules[r].group == group {
          rules := rules - {r};
        }
        left := left - {r};
      }
    }

    method RevokeAll(ids: seq<nat>)
      modifies this`rules
      ensures rules == old(rules) - IdSet(ids)
    {
      for k := 0 to |ids|
        invariant rules == old(rules) - IdSet(ids[..k])
      {
        assert ids[..k + 1] == ids[..k] + [ids[k]];
        rules := rules - {ids[k]};
      }
      assert ids[..|ids|] == ids;
    }

    method DispatchGroup(r: GroupRequest) returns (reply: Reply)
      requires Valid(Contents())
      modifies this
      ensures (Contents(), reply) == HandleGroup(old(Contents()), r)
      ensures Valid(Contents())
    {
      GroupKeepsValid(Contents(), r);
      match r {
        case CreateSecurityGroup(token, name, vpcId) =>
          var key := Some(if token.Some? then token.value else "");
          var id: nat;
          if key in tokens {
            id := tokens[key];
          } else {
            id := NextId();
          }
          groups := groups[id := Group(name, vpcId)];
          tokens := tokens[token := id];
          return Ok(Some(id));
        case DeleteSecurityGroup(group) =>
          if group !in groups {
            return Err(InvalidSecurityGroupIdNotFound);
          }
          if InUseBy(instances, group) {
            return Err(DependencyViolation);
          }
          groups := groups - {group};
          DropRulesOf(group);
        case Authorize(group, key, protocol, priority) =>
          if group !in groups {
            return Err(InvalidSecurityGroupIdNotFound);
          }
          if !HasRule(rules, group, key) {
            var id := NextId();
            rules := rules[id := Rule(group, key, protocol, priority)];
          }
        case Revoke(ids) =>
          RevokeAll(ids);
      }
      reply := DONE;
    }

    method ServeOne(r: Request)
      requires Valid(Contents())
      modifies this
      ensures Contents() == Handle(old(Contents()), r).0 && Valid(Contents())
    {
      match r {
        case ForDisk(d) => var _ := DispatchDisk(d);
        case ForInstance(i) => var _ := DispatchInstance(i);
        case ForGroup(g) => var _ := DispatchGroup(g);
      }
    }

    /** Any run of requests on the object is the run the lemmas are about, and keeps it valid. */
    method Serve(requests: seq<Request>)
      requires Valid(Contents())
      modifies this
      ensures Contents() == HandleAll(old(Contents()), requests) && Valid(Contents())
    {
      for i := 0 to |requests|
        invariant Valid(Contents())
        invariant HandleAll(Contents(), requests[i..]) == HandleAll(old(Contents()), requests)
      {
        assert requests[i..][1..] == requests[i + 1..];
        ServeOne(requests[i]);
      }
    }
  }
}
