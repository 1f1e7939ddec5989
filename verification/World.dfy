/**
 The repository's own statement of the remote machine: Tair and RDS instances and vSwitches, what each
 request does to them, and what it rejects. Ids are the numbers of the one counter all resources share.
 */
module World {
  import opened Wrappers
  import opened Lifecycle

  datatype TairStatus = TairCreating | TairNormal | TairReleased | TairDestroyed

  datatype TairRecord = TairRecord(
    name: string,
    status: TairStatus,
    token: Option<string>,
    vSwitchId: Option<nat>,
    releaseProtection: bool,
    describes: nat)

  /** `RdsDeleting` is declared by the original but no request enters it. */
  datatype RdsStatus = RdsCreating | RdsRunning | RdsDeleting | RdsModifying

  datatype RdsRecord = RdsRecord(
    regionId: string,
    instanceClass: string,
    pendingClass: Option<string>,
    deletionProtection: bool,
    status: RdsStatus,
    clientToken: Option<string>,
    vSwitchId: Option<nat>,
    describes: nat)

  datatype VSwitchStatus = VSwitchPending | VSwitchAvailable

  datatype VSwitchRecord = VSwitchRecord(vpcId: nat, name: string, status: VSwitchStatus)

  datatype Eni = Eni(id: nat, vSwitchId: nat)

  datatype Settings = Settings(
    tairDescribesUntilNormal: int,
    tairKvstoreHoldAfterDestroy: int,
    rdsDescribesUntilRunning: int,
    eniHoldAfterDelete: int)

  /** The Tair records, and how many detail reads will still fail to see a live one. */
  datatype TairMachine = TairMachine(records: map<nat, TairRecord>, readOmissions: nat)

  /** The vSwitches and what still holds them: managed ENIs and delayed releases. */
  datatype Network = Network(
    vswitches: map<nat, VSwitchRecord>,
    createBusy: bool,
    enis: seq<Eni>,
    kvstoreHolds: map<nat, int>,
    eniHolds: map<nat, int>)

  datatype WorldState = WorldState(
    settings: Settings,
    ids: nat,
    tair: TairMachine,
    rds: map<nat, RdsRecord>,
    net: Network)

  /** The codes the provider counts as transient, so that the call is tried again. */
  predicate TransientCode(code: Code) {
    code.IncorrectVSwitchStatus? || code.InternalError? || code.OperationConflict? || code.TaskConflict?
  }

  /** A rejection with status 400: transient by its code alone. */
  function Rejection(code: Code): ApiError {
    ApiError(code, TransientCode(code))
  }

  // ---- Tair ----

  /** JavaScript's `find` over a map: ids are inserted in increasing order. */
  function FirstTair(tair: map<nat, TairRecord>, test: TairRecord -> bool, from: nat, bound: nat): (found: Option<nat>)
    requires from <= bound + 1
    ensures found.Some? ==> from <= found.value <= bound && found.value in tair && test(tair[found.value])
    ensures found.Some? ==> forall i | from <= i < found.value && i in tair :: !test(tair[i])
    ensures found.None? ==> forall i | from <= i <= bound && i in tair :: !test(tair[i])
    decreases bound + 1 - from
  {
    if from > bound then None
    else if from in tair && test(tair[from]) then Some(from)
    else FirstTair(tair, test, from + 1, bound)
  }

  function TairByToken(w: WorldState, token: Option<string>): Option<nat> {
    if token.None? then None else FirstTair(w.tair.records, (t: TairRecord) => t.token == token, 0, w.ids)
  }

  function TairByName(w: WorldState, name: string): Option<nat> {
    FirstTair(w.tair.records, (t: TairRecord) => t.name == name && !t.status.TairDestroyed?, 0, w.ids)
  }

  /** The record a create is answered with instead of making a new one: by token, else by name. */
  function ExistingTair(w: WorldState, name: string, token: Option<string>): Option<nat> {
    var byToken := TairByToken(w, token);
    var found := if byToken.Some? then byToken else TairByName(w, name);
    if found.Some? && found.value in w.tair.records && !w.tair.records[found.value].status.TairDestroyed? then found
    else None
  }

  function AddTair(w: WorldState, name: string, token: Option<string>, vSwitchId: Option<nat>): WorldState {
    var id := w.ids + 1;
    var hold := w.settings.tairKvstoreHoldAfterDestroy;
    w.(ids := id,
       tair := w.tair.(records := w.tair.records[id := TairRecord(name, TairCreating, token, vSwitchId, false, 0)]),
       net := if vSwitchId.None? then w.net
              else w.net.(kvstoreHolds := w.net.kvstoreHolds[vSwitchId.value := hold]))
  }

  function CreateTair(w: WorldState, name: string, token: Option<string>, vSwitchId: Option<nat>): (WorldState, nat) {
    var existing := ExistingTair(w, name, token);
    if existing.Some? then (w, existing.value) else (AddTair(w, name, token, vSwitchId), w.ids + 1)
  }

  function PromoteTair(s: Settings, t: TairRecord): TairRecord {
    if !t.status.TairCreating? then t
    else if t.describes + 1 >= s.tairDescribesUntilNormal then t.(describes := t.describes + 1, status := TairNormal)
    else t.(describes := t.describes + 1)
  }

  datatype TairRow = TairRow(instanceId: nat, instanceName: string, status: TairStatus)

  /** Whether a list shows a record; only the overview shows the recycle bin. */
  predicate Visible(id: nat, t: TairRecord, overview: bool, only: Option<nat>) {
    && !t.status.TairDestroyed?
    && (overview || !t.status.TairReleased?)
    && (only.None? || only.value == id)
  }

  /** The records with every visible one up to `bound` promoted. */
  function PromotedTairs(s: Settings, tair: map<nat, TairRecord>, overview: bool, only: Option<nat>, bound: nat)
    : map<nat, TairRecord>
  {
    map id | id in tair ::
      if id <= bound && Visible(id, tair[id], overview, only) then PromoteTair(s, tair[id]) else tair[id]
  }

  /** The rows for the visible ids up to `bound`, each as its own promotion leaves it. */
  function TairRows(
    s: Settings, tair: map<nat, TairRecord>, overview: bool, only: Option<nat>, bound: nat): seq<TairRow>
    decreases bound
  {
    var before := if bound == 0 then [] else TairRows(s, tair, overview, only, bound - 1);
    if bound in tair && Visible(bound, tair[bound], overview, only) then
      before + [TairRow(bound, tair[bound].name, PromoteTair(s, tair[bound]).status)]
    else
      before
  }

  /** `DescribeInstances`, or with `overview` `DescribeInstancesOverview`, optionally for one id. */
  function DescribeTair(w: WorldState, overview: bool, only: Option<nat>): (WorldState, seq<TairRow>) {
    if !overview && w.tair.readOmissions > 0 then
      (w.(tair := Omitted(w.tair)), [])
    else
      (w.(tair := w.tair.(records := PromotedTairs(w.settings, w.tair.records, overview, only, w.ids))),
       TairRows(w.settings, w.tair.records, overview, only, w.ids))
  }

  function Omitted(t: TairMachine): TairMachine
    requires t.readOmissions > 0
  {
    t.(readOmissions := t.readOmissions - 1)
  }

  predicate TairLive(w: WorldState, id: nat) {
    && id in w.tair.records
    && (w.tair.records[id].status.TairCreating? || w.tair.records[id].status.TairNormal?)
  }

  function SetTair(w: WorldState, id: nat, t: TairRecord): WorldState {
    w.(tair := w.tair.(records := w.tair.records[id := t]))
  }

  function DescribeTairAttribute(w: WorldState, id: nat): (WorldState, Answer<TairRecord>) {
    if !TairLive(w, id) then
      (w, Fault(Rejection(NotFound)))
    else if w.tair.readOmissions > 0 then
      (w.(tair := Omitted(w.tair)), Fault(Rejection(NotFound)))
    else
      var promoted := PromoteTair(w.settings, w.tair.records[id]);
      (SetTair(w, id, promoted), Value(promoted))
  }

  function ModifyTairAttribute(
    w: WorldState, id: nat, name: Option<string>, protection: Option<bool>): (WorldState, Answer<()>) {
    if id !in w.tair.records then
      (w, Fault(Rejection(NotFound)))
    else
      var t := w.tair.records[id];
      (SetTair(w, id, t.(name := if name.Some? then name.value else t.name,
                         releaseProtection := if protection.Some? then protection.value else t.releaseProtection)),
       Value(()))
  }

  function DeleteTair(w: WorldState, id: nat): (WorldState, Answer<()>) {
    if id !in w.tair.records || w.tair.records[id].status.TairDestroyed? then
      (w, Fault(Rejection(NotFound)))
    else
      (SetTair(w, id, w.tair.records[id].(status := TairReleased)), Value(()))
  }

  function DestroyTair(w: WorldState, id: nat): (WorldState, Answer<()>) {
    if id !in w.tair.records || w.tair.records[id].status.TairDestroyed? then
      (w, Fault(Rejection(NotFound)))
    else if !w.tair.records[id].status.TairReleased? then
      (w, Fault(Rejection(IncorrectInstanceStatus)))
    else
      (SetTair(w, id, w.tair.records[id].(status := TairDestroyed)), Value(()))
  }

  // ---- RDS ----

  function FirstRds(
    rds: map<nat, RdsRecord>, token: string, regionId: string, from: nat, bound: nat): (found: Option<nat>)
    requires from <= bound + 1
    ensures found.Some? ==> from <= found.value <= bound && found.value in rds
    ensures found.Some? ==> rds[found.value].clientToken == Some(token) && rds[found.value].regionId == regionId
    ensures found.None? ==> forall i | from <= i <= bound && i in rds ::
                              !(rds[i].clientToken == Some(token) && rds[i].regionId == regionId)
    decreases bound + 1 - from
  {
    if from > bound then None
    else if from in rds && rds[from].clientToken == Some(token) && rds[from].regionId == regionId then Some(from)
    else FirstRds(rds, token, regionId, from + 1, bound)
  }

  function CreateRds(
    w: WorldState, token: Option<string>, regionId: string, instanceClass: string, vSwitchId: Option<nat>)
    : (WorldState, nat)
  {
    var existing := if token.None? then None else FirstRds(w.rds, token.value, regionId, 0, w.ids);
    if existing.Some? then
      (w, existing.value)
    else
      var id := w.ids + 1;
      (w.(ids := id,
          rds := w.rds[id := RdsRecord(regionId, instanceClass, None, false, RdsCreating, token, vSwitchId, 0)]),
       id)
  }

  /** A resize settles on the third read; a creation on the configured one. */
  function PromoteRds(s: Settings, r: RdsRecord): RdsRecord {
    match r.status
    case RdsModifying =>
      if r.describes + 1 >= 3 then
        r.(describes := r.describes + 1, status := RdsRunning, pendingClass := None,
           instanceClass := if r.pendingClass.Some? then r.pendingClass.value else r.instanceClass)
      else
        r.(describes := r.describes + 1)
    case RdsCreating =>
      if r.describes + 1 >= s.rdsDescribesUntilRunning then r.(describes := r.describes + 1, status := RdsRunning)
      else r.(describes := r.describes + 1)
    case _ => r
  }

  function DescribeRds(w: WorldState, id: nat): (WorldState, Answer<RdsRecord>) {
    if id !in w.rds then
      (w, Fault(Rejection(NotFound)))
    else
      var promoted := PromoteRds(w.settings, w.rds[id]);
      (w.(rds := w.rds[id := promoted]), Value(promoted))
  }

  function ModifyRdsSpec(w: WorldState, id: nat, instanceClass: Option<string>): (WorldState, Answer<()>) {
    if id !in w.rds then
      (w, Fault(Rejection(NotFound)))
    else
      (w.(rds := w.rds[id := w.rds[id].(status := RdsModifying, describes := 0, pendingClass := instanceClass)]),
       Value(()))
  }

  function ModifyRdsProtection(w: WorldState, id: nat, protect: bool): (WorldState, Answer<()>) {
    (if id in w.rds then w.(rds := w.rds[id := w.rds[id].(deletionProtection := protect)]) else w, Value(()))
  }

  function RemoveRds(w: WorldState, id: nat): WorldState
    requires id in w.rds
  {
    var removed := w.(rds := w.rds - {id});
    match w.rds[id].vSwitchId
    case None => removed
    case Some(v) => removed.(ids := w.ids + 1, net := w.net.(enis := w.net.enis + [Eni(w.ids + 1, v)]))
  }

  function DeleteRds(w: WorldState, id: nat): (WorldState, Answer<()>) {
    if id !in w.rds then
      (w, Fault(Rejection(NotFound)))
    else if w.rds[id].deletionProtection then
      (w, Fault(Rejection(DeletionProtection)))
    else if w.rds[id].status.RdsCreating? then
      (w, Fault(Rejection(IncorrectDBInstanceState)))
    else
      (RemoveRds(w, id), Value(()))
  }

  // ---- vSwitches ----

  predicate PendingIn(vswitches: map<nat, VSwitchRecord>, vpcId: nat) {
    exists v | v in vswitches :: vswitches[v].vpcId == vpcId && vswitches[v].status.VSwitchPending?
  }

  function CreateVSwitch(w: WorldState, vpcId: nat, name: string): (WorldState, Answer<nat>) {
    if w.net.createBusy || PendingIn(w.net.vswitches, vpcId) then
      (w, Fault(Rejection(IncorrectVSwitchStatus)))
    else
      var id := w.ids + 1;
      (w.(ids := id, net := w.net.(vswitches := w.net.vswitches[id := VSwitchRecord(vpcId, name, VSwitchAvailable)])),
       Value(id))
  }

  /** A deleted vSwitch answers with an empty success. */
  function DescribeVSwitch(w: WorldState, id: nat): Option<VSwitchRecord> {
    if id in w.net.vswitches then Some(w.net.vswitches[id]) else None
  }

  predicate LiveTairOn(tair: map<nat, TairRecord>, vSwitchId: nat) {
    exists t | t in tair :: tair[t].vSwitchId == Some(vSwitchId) && !tair[t].status.TairDestroyed?
  }

  predicate EniOn(enis: seq<Eni>, vSwitchId: nat) {
    exists e | e in enis :: e.vSwitchId == vSwitchId
  }

  function KvstoreHold(net: Network, id: nat): int {
    if id in net.kvstoreHolds then net.kvstoreHolds[id] else 0
  }

  function EniHold(s: Settings, net: Network, id: nat): int {
    if id in net.eniHolds then net.eniHolds[id] else s.eniHoldAfterDelete
  }

  function WithoutEnis(enis: seq<Eni>, vSwitchId: nat): (left: seq<Eni>)
    ensures !EniOn(left, vSwitchId)
  {
    Filter(enis, (e: Eni) => e.vSwitchId != vSwitchId)
  }

  /** `DeleteVSwitch` on the network, given whether a Tair instance that is not destroyed uses it. */
  function DeleteFromNetwork(s: Settings, net: Network, id: nat, liveTair: bool): (Network, Answer<()>) {
    var hold, eniHold := KvstoreHold(net, id), EniHold(s, net, id);
    if liveTair then
      (net, Fault(Rejection(DependencyViolation(Kvstore))))
    else if hold > 0 then
      (net.(kvstoreHolds := net.kvstoreHolds[id := hold - 1]), Fault(Rejection(DependencyViolation(Kvstore))))
    else if EniOn(net.enis, id) && eniHold > 0 then
      (net.(eniHolds := net.eniHolds[id := eniHold - 1],
            enis := if eniHold - 1 <= 0 then WithoutEnis(net.enis, id) else net.enis),
       Fault(Rejection(DependencyViolation(NetworkInterface))))
    else
      (net.(vswitches := net.vswitches - {id}), Value(()))
  }

  function DeleteVSwitch(w: WorldState, id: nat): (WorldState, Answer<()>) {
    var (net, answer) := DeleteFromNetwork(w.settings, w.net, id, LiveTairOn(w.tair.records, id));
    (w.(net := net), answer)
  }

  // ---- Every run of requests ----

  datatype TairRequest =
    | TairCreate(name: string, token: Option<string>, vSwitchId: Option<nat>)
    | TairList(overview: bool, only: Option<nat>)
    | TairRead(id: nat)
    | TairModify(id: nat, newName: Option<string>, protection: Option<bool>)
    | TairDelete(id: nat)
    | TairDestroy(id: nat)

  datatype RdsRequest =
    | RdsCreate(token: Option<string>, regionId: string, instanceClass: string, vSwitchId: Option<nat>)
    | RdsRead(id: nat)
    | RdsResize(id: nat, newClass: Option<string>)
    | RdsProtect(id: nat, protect: bool)
    | RdsDelete(id: nat)

  datatype VSwitchRequest =
    | VSwitchCreate(vpcId: nat, name: string)
    | VSwitchDelete(id: nat)

  datatype Request = ForTair(tair: TairRequest) | ForRds(rds: RdsRequest) | ForVSwitch(vswitch: VSwitchRequest)

  function HandleTair(w: WorldState, r: TairRequest): WorldState {
    match r
    case TairCreate(name, token, v) => CreateTair(w, name, token, v).0
    case TairList(overview, only) => DescribeTair(w, overview, only).0
    case TairRead(id) => DescribeTairAttribute(w, id).0
    case TairModify(id, name, protection) => ModifyTairAttribute(w, id, name, protection).0
    case TairDelete(id) => DeleteTair(w, id).0
    case TairDestroy(id) => DestroyTair(w, id).0
  }

  function HandleRds(w: WorldState, r: RdsRequest): WorldState {
    match r
    case RdsCreate(token, regionId, instanceClass, v) => CreateRds(w, token, regionId, instanceClass, v).0
    case RdsRead(id) => DescribeRds(w, id).0
    case RdsResize(id, c) => ModifyRdsSpec(w, id, c).0
    case RdsProtect(id, protect) => ModifyRdsProtection(w, id, protect).0
    case RdsDelete(id) => DeleteRds(w, id).0
  }

  function HandleVSwitch(w: WorldState, r: VSwitchRequest): WorldState {
    match r
    case VSwitchCreate(vpcId, name) => CreateVSwitch(w, vpcId, name).0
    case VSwitchDelete(id) => DeleteVSwitch(w, id).0
  }

  function Handle(w: WorldState, r: Request): WorldState {
    match r
    case ForTair(t) => HandleTair(w, t)
    case ForRds(d) => HandleRds(w, d)
    case ForVSwitch(v) => HandleVSwitch(w, v)
  }

  function HandleAll(w: WorldState, requests: seq<Request>): WorldState
    decreases |requests|
  {
    if requests == [] then w else HandleAll(Handle(w, requests[0]), requests[1..])
  }

  function Initial(settings: Settings, omissions: nat): WorldState {
    WorldState(settings, 0, TairMachine(map[], omissions), map[], Network(map[], false, [], map[], map[]))
  }

  function AtLeastOne(n: int): nat {
    if n < 1 then 1 else n
  }

  /** Ids come from the counter, a record's read count fits its status, and tokens buy one instance. */
  ghost predicate Valid(w: WorldState) {
    && IdsUpTo(w.tair.records.Keys, w.ids) && IdsUpTo(w.rds.Keys, w.ids) && IdsUpTo(w.net.vswitches.Keys, w.ids)
    && AllCoherent(w.settings, w.rds)
    && OneRdsPerToken(w.rds)
    && NonePending(w.net.vswitches)
  }

  ghost predicate IdsUpTo(issued: set<nat>, ids: nat) {
    forall i | i in issued :: 1 <= i <= ids
  }

  ghost predicate AllCoherent(s: Settings, rds: map<nat, RdsRecord>) {
    forall i | i in rds :: RdsCoherent(s, rds[i])
  }

  ghost predicate RdsCoherent(s: Settings, r: RdsRecord) {
    && !r.status.RdsDeleting?
    && (r.status.RdsCreating? ==> r.describes < AtLeastOne(s.rdsDescribesUntilRunning))
    && (r.status.RdsModifying? ==> r.describes < 3)
    && (r.pendingClass.Some? ==> r.status.RdsModifying?)
  }

  /** A client token buys at most one instance per region. */
  ghost predicate OneRdsPerToken(rds: map<nat, RdsRecord>) {
    forall i, j | i in rds && j in rds && rds[i].clientToken.Some? ::
      rds[i].clientToken == rds[j].clientToken && rds[i].regionId == rds[j].regionId ==> i == j
  }

  ghost predicate NonePending(vswitches: map<nat, VSwitchRecord>) {
    forall i | i in vswitches :: vswitches[i].status.VSwitchAvailable?
  }

  lemma CreateRdsKeepsValid(
    w: WorldState, token: Option<string>, regionId: string, instanceClass: string, v: Option<nat>)
    requires Valid(w)
    ensures Valid(CreateRds(w, token, regionId, instanceClass, v).0)
  {
    var (after, id) := CreateRds(w, token, regionId, instanceClass, v);
    if after != w {
      assert after.rds.Keys == w.rds.Keys + {id};
      assert OneRdsPerToken(after.rds);
    }
  }

  lemma UpdateRdsKeepsValid(w: WorldState, id: nat, r: RdsRecord)
    requires Valid(w) && id in w.rds
    requires RdsCoherent(w.settings, r) && r.clientToken == w.rds[id].clientToken && r.regionId == w.rds[id].regionId
    ensures Valid(w.(rds := w.rds[id := r]))
  {
    assert w.rds[id := r].Keys == w.rds.Keys;
  }

  lemma TairKeepsValid(w: WorldState, r: TairRequest)
    requires Valid(w)
    ensures Valid(HandleTair(w, r))
  {
    if r.TairList? {
      assert PromotedTairs(w.settings, w.tair.records, r.overview, r.only, w.ids).Keys == w.tair.records.Keys;
    }
  }

  lemma RdsKeepsValid(w: WorldState, r: RdsRequest)
    requires Valid(w)
    ensures Valid(HandleRds(w, r))
  {
    match r
    case RdsCreate(token, regionId, instanceClass, v) =>
      CreateRdsKeepsValid(w, token, regionId, instanceClass, v);
    case RdsRead(id) =>
      if id in w.rds {
        UpdateRdsKeepsValid(w, id, PromoteRds(w.settings, w.rds[id]));
      }
    case RdsResize(id, c) =>
      if id in w.rds {
        UpdateRdsKeepsValid(w, id, w.rds[id].(status := RdsModifying, describes := 0, pendingClass := c));
      }
    case RdsProtect(id, protect) =>
      if id in w.rds {
        UpdateRdsKeepsValid(w, id, w.rds[id].(deletionProtection := protect));
      }
    case RdsDelete(id) =>
      assert (w.rds - {id}).Keys <= w.rds.Keys;
  }

  lemma VSwitchKeepsValid(w: WorldState, r: VSwitchRequest)
    requires Valid(w)
    ensures Valid(HandleVSwitch(w, r))
  {
    if r.VSwitchDelete? {
      assert (w.net.vswitches - {r.id}).Keys <= w.net.vswitches.Keys;
    }
  }

  lemma HandleKeepsValid(w: WorldState, r: Request)
    requires Valid(w)
    ensures Valid(Handle(w, r))
  {
    match r
    case ForTair(t) => TairKeepsValid(w, t);
    case ForRds(d) => RdsKeepsValid(w, d);
    case ForVSwitch(v) => VSwitchKeepsValid(w, v);
  }

  /** Whatever is asked of the world, in whatever order, it stays valid. */
  lemma {:induction false} EveryRunStaysValid(w: WorldState, requests: seq<Request>)
    requires Valid(w)
    ensures Valid(HandleAll(w, requests))
    decreases |requests|
  {
    if requests != [] {
      HandleKeepsValid(w, requests[0]);
      EveryRunStaysValid(Handle(w, requests[0]), requests[1..]);
    }
  }

  lemma {:induction false} SettingsNeverChange(w: WorldState, requests: seq<Request>)
    ensures HandleAll(w, requests).settings == w.settings
    decreases |requests|
  {
    if requests != [] {
      SettingsNeverChange(Handle(w, requests[0]), requests[1..]);
    }
  }

  /** A requested resize is pending through two reads, and in effect at the third. */
  lemma ResizeSettlesAtTheThirdRead(w: WorldState, id: nat, instanceClass: string)
    requires id in w.rds
    ensures var asked := ModifyRdsSpec(w, id, Some(instanceClass)).0;
            var (once, first) := DescribeRds(asked, id);
            var (twice, second) := DescribeRds(once, id);
            var (thrice, third) := DescribeRds(twice, id);
            && first.Value? && first.value.status.RdsModifying? && first.value.instanceClass == w.rds[id].instanceClass
            && second.Value? && second.value.status.RdsModifying?
            && second.value.instanceClass == w.rds[id].instanceClass
            && third == Value(thrice.rds[id]) && thrice.rds[id].status.RdsRunning?
            && thrice.rds[id].instanceClass == instanceClass && thrice.rds[id].pendingClass.None?
  {
    var asked := ModifyRdsSpec(w, id, Some(instanceClass)).0;
    assert asked.rds[id].describes == 0;
    var once := DescribeRds(asked, id).0;
    assert once.rds[id].describes == 1;
    var twice := DescribeRds(once, id).0;
    assert twice.rds[id].describes == 2;
  }

  /**
   A repeated create is answered by the first one, unless the first record ever made with its token is
   already destroyed: then every repetition makes another instance.
   */
  lemma CreateTairReplaysUnlessDestroyed(w: WorldState, name: string, token: Option<string>, v: Option<nat>)
    requires Valid(w)
    ensures var (once, id) := CreateTair(w, name, token, v);
            CreateTair(once, name, token, v) == (once, id) <==>
            !(TairByToken(w, token).Some? && w.tair.records[TairByToken(w, token).value].status.TairDestroyed?)
  {
    var (once, id) := CreateTair(w, name, token, v);
    var first := TairByToken(w, token);
    if ExistingTair(w, name, token).None? {
      assert once.tair.records[id] == TairRecord(name, TairCreating, token, v, false, 0);
      if first.Some? {
        assert once.tair.records[first.value] == w.tair.records[first.value];
        assert TairByToken(once, token).Some?;
        assert TairByToken(once, token).value <= first.value;
      } else if token.Some? {
        assert TairByToken(once, token) == Some(id);
      } else {
        assert TairByName(once, name) == Some(id);
      }
    }
  }

  /** A Tair create that is not a replay makes a new instance, which holds its vSwitch and nothing else. */
  lemma CreateTairMakes(w: WorldState, name: string, token: Option<string>, v: Option<nat>)
    requires Valid(w)
    ensures var known := exists i | i in w.tair.records :: token.Some? && w.tair.records[i].token == token;
            var named := exists i | i in w.tair.records ::
                           w.tair.records[i].name == name && !w.tair.records[i].status.TairDestroyed?;
            var (once, id) := CreateTair(w, name, token, v);
            && (!known && !named ==>
                  && id == w.ids + 1 && id !in w.tair.records
                  && once.tair.records == w.tair.records[id := TairRecord(name, TairCreating, token, v, false, 0)]
                  && once.rds == w.rds && once.net.(kvstoreHolds := w.net.kvstoreHolds) == w.net
                  && (v.Some? ==> KvstoreHold(once.net, v.value) == w.settings.tairKvstoreHoldAfterDestroy))
            && (!known && named ==> once == w && id in w.tair.records && w.tair.records[id].name == name
                                    && !w.tair.records[id].status.TairDestroyed?)
  {
  }

  /** A new instance is normal from the configured read on, and not before. */
  lemma TairSettles(s: Settings, t: TairRecord)
    requires t.status.TairCreating?
    ensures PromoteTair(s, t).describes == t.describes + 1
    ensures PromoteTair(s, t).status ==
            if PromoteTair(s, t).describes >= s.tairDescribesUntilNormal then TairNormal else TairCreating
  {
  }

  /** An RDS create is answered by the instance its token made in the region, and only by that one. */
  lemma CreateRdsReplaysIff(
    w: WorldState, token: Option<string>, regionId: string, instanceClass: string, v: Option<nat>)
    requires Valid(w)
    ensures var (once, id) := CreateRds(w, token, regionId, instanceClass, v);
            if exists i | i in w.rds :: token.Some? && w.rds[i].clientToken == token && w.rds[i].regionId == regionId
            then once == w && id in w.rds && w.rds[id].clientToken == token && w.rds[id].regionId == regionId
            else
              && id == w.ids + 1 && id !in w.rds && once.tair == w.tair && once.net == w.net
              && once.rds == w.rds[id := RdsRecord(regionId, instanceClass, None, false, RdsCreating, token, v, 0)]
              && (token.Some? ==> CreateRds(once, token, regionId, instanceClass, v) == (once, id))
  {
    var (once, id) := CreateRds(w, token, regionId, instanceClass, v);
    if token.Some? && id !in w.rds {
      assert once.rds[id].clientToken == token && once.rds[id].regionId == regionId;
      assert FirstRds(once.rds, token.value, regionId, 0, once.ids).Some?;
    }
  }

  /** A vSwitch create is refused exactly while another create is under way; else the switch is there at once. */
  lemma CreateVSwitchMakes(w: WorldState, vpcId: nat, name: string)
    requires Valid(w)
    ensures var (once, answer) := CreateVSwitch(w, vpcId, name);
            && (answer.Fault? <==> w.net.createBusy)
            && (answer.Fault? ==> once == w)
            && (answer.Value? ==>
                  && answer.value == w.ids + 1 && answer.value !in w.net.vswitches && once.ids == answer.value
                  && once.net.(vswitches := w.net.vswitches) == w.net
                  && once.net.vswitches ==
                     w.net.vswitches[answer.value := VSwitchRecord(vpcId, name, VSwitchAvailable)])
  {
  }

  /** Reached by creating, deleting and destroying one instance: its token then buys a new one every time. */
  lemma DestroyedTokenMakesTwo(settings: Settings, token: string)
    ensures var made := CreateTair(Initial(settings, 0), "cache", Some(token), None).0;
            var gone := DestroyTair(DeleteTair(made, 1).0, 1).0;
            var (once, first) := CreateTair(gone, "cache", Some(token), None);
            var (twice, second) := CreateTair(once, "cache", Some(token), None);
            && first == 2 && second == 3
            && TairLive(twice, 2) && TairLive(twice, 3)
            && twice.tair.records[2].token == twice.tair.records[3].token
            && twice.tair.records[2].name == twice.tair.records[3].name
  {
    var made := CreateTair(Initial(settings, 0), "cache", Some(token), None).0;
    var gone := DestroyTair(DeleteTair(made, 1).0, 1).0;
    assert gone.tair.records[1].status.TairDestroyed? && gone.tair.records[1].token == Some(token);
    assert TairByToken(gone, Some(token)) == Some(1);
    var once := CreateTair(gone, "cache", Some(token), None).0;
    assert once.tair.records[1] == gone.tair.records[1];
    assert TairByToken(once, Some(token)) == Some(1);
  }

  /** The simulator: maps, records and counters that each request changes in place. */
  class ProtocolWorld {
    const settings: Settings
    var ids: nat
    var tair: map<nat, TairRecord>
    var tairDetailReadOmissions: nat
    var rds: map<nat, RdsRecord>
    var vswitches: map<nat, VSwitchRecord>
    var createVSwitchBusy: bool
    var enis: seq<Eni>
    var kvstoreHolds: map<nat, int>
    var eniHolds: map<nat, int>

    ghost function State(): WorldState
      reads this
    {
      WorldState(settings, ids, TairMachine(tair, tairDetailReadOmissions), rds,
                 Network(vswitches, createVSwitchBusy, enis, kvstoreHolds, eniHolds))
    }

    constructor (settings: Settings, omissions: nat)
      ensures State() == Initial(settings, omissions) && Valid(State())
    {
      this.settings := settings;
      ids, tair, rds, vswitches := 0, map[], map[], map[];
      tairDetailReadOmissions, createVSwitchBusy := omissions, false;
      enis, kvstoreHolds, eniHolds := [], map[], map[];
    }

    method NextId() returns (id: nat)
      modifies this`ids
      ensures id == ids == old(ids) + 1
    {
      ids := ids + 1;
      id := ids;
    }

    method Create(name: string, token: Option<string>, vSwitchId: Option<nat>) returns (id: nat)
      requires Valid(State())
      modifies this
      ensures Valid(State())
      ensures (State(), id) == CreateTair(old(State()), name, token, vSwitchId)
    {
      TairKeepsValid(State(), TairCreate(name, token, vSwitchId));
      var existing := None;
      if token.Some? {
        existing := FirstTair(tair, (t: TairRecord) => t.token == token, 0, ids);
      }
      if existing.None? {
        existing := FirstTair(tair, (t: TairRecord) => t.name == name && !t.status.TairDestroyed?, 0, ids);
      }
      if existing.Some? && !tair[existing.value].status.TairDestroyed? {
        return existing.value;
      }
      id := NextId();
      tair := tair[id := TairRecord(name, TairCreating, token, vSwitchId, false, 0)];
      if vSwitchId.Some? {
        kvstoreHolds := kvstoreHolds[vSwitchId.value := settings.tairKvstoreHoldAfterDestroy];
      }
    }

    method Promote(id: nat)
      requires id in tair
      modifies this`tair
      ensures tair == old(tair)[id := PromoteTair(settings, old(tair)[id])]
    {
      var record := tair[id];
      if !record.status.TairCreating? {
        assert tair == tair[id := record];
        return;
      }
      record := record.(describes := record.describes + 1);
      if record.describes >= settings.tairDescribesUntilNormal {
        record := record.(status := TairNormal);
      }
      tair := tair[id := record];
    }

    /** Walks the records in insertion order, promoting every one it shows. */
    method ListAndPromote(overview: bool, only: Option<nat>) returns (rows: seq<TairRow>)
      modifies this`tair
      ensures rows == TairRows(settings, old(tair), overview, only, ids)
      ensures tair == PromotedTairs(settings, old(tair), overview, only, ids)
    {
      rows := [];
      var next := 0;
      while next <= ids
        invariant next <= ids + 1
        invariant rows == if next == 0 then [] else TairRows(settings, old(tair), overview, only, next - 1)
        invariant tair == if next == 0 then old(tair) else PromotedTairs(settings, old(tair), overview, only, next - 1)
      {
        if next in tair && Visible(next, tair[next], overview, only) {
          Promote(next);
          rows := rows + [TairRow(next, tair[next].name, tair[next].status)];
        }
        next := next + 1;
      }
    }

    method Describe(overview: bool, only: Option<nat>) returns (rows: seq<TairRow>)
      requires Valid(State())
      modifies this
      ensures Valid(State())
      ensures (State(), rows) == DescribeTair(old(State()), overview, only)
    {
      TairKeepsValid(State(), TairList(overview, only));
      if !overview && tairDetailReadOmissions > 0 {
        tairDetailReadOmissions := tairDetailReadOmissions - 1;
        return [];
      }
      rows := ListAndPromote(overview, only);
    }

    method DescribeAttribute(id: nat) returns (answer: Answer<TairRecord>)
      requires Valid(State())
      modifies this
      ensures Valid(State())
      ensures (State(), answer) == DescribeTairAttribute(old(State()), id)
    {
      TairKeepsValid(State(), TairRead(id));
      var live := id in tair && !tair[id].status.TairReleased? && !tair[id].status.TairDestroyed?;
      if live && tairDetailReadOmissions > 0 {
        tairDetailReadOmissions := tairDetailReadOmissions - 1;
        return Fault(Rejection(NotFound));
      }
      if !live {
        return Fault(Rejection(NotFound));
      }
      Promote(id);
      answer := Value(tair[id]);
    }

    method ModifyAttribute(id: nat, name: Option<string>, protection: Option<bool>) returns (answer: Answer<()>)
      requires Valid(State())
      modifies this
      ensures Valid(State())
      ensures (State(), answer) == ModifyTairAttribute(old(State()), id, name, protection)
    {
      TairKeepsValid(State(), TairModify(id, name, protection));
      if id !in tair {
        return Fault(Rejection(NotFound));
      }
      var record := tair[id];
      if name.Some? {
        record := record.(name := name.value);
      }
      if protection.Some? {
        record := record.(releaseProtection := protection.value);
      }
      tair := tair[id := record];
      answer := Value(());
    }

    method Delete(id: nat) returns (answer: Answer<()>)
      requires Valid(State())
      modifies this
      ensures Valid(State())
      ensures (State(), answer) == DeleteTair(old(State()), id)
    {
      TairKeepsValid(State(), TairDelete(id));
      if id !in tair || tair[id].status.TairDestroyed? {
        return Fault(Rejection(NotFound));
      }
      tair := tair[id := tair[id].(status := TairReleased)];
      answer := Value(());
    }

    method Destroy(id: nat) returns (answer: Answer<()>)
      requires Valid(State())
      modifies this
      ensures Valid(State())
      ensures (State(), answer) == DestroyTair(old(State()), id)
    {
      TairKeepsValid(State(), TairDestroy(id));
      if id !in tair || tair[id].status.TairDestroyed? {
        return Fault(Rejection(NotFound));
      }
      if !tair[id].status.TairReleased? {
        return Fault(Rejection(IncorrectInstanceStatus));
      }
      tair := tair[id := tair[id].(status := TairDestroyed)];
      answer := Value(());
    }

    method CreateDb(token: Option<string>, regionId: string, instanceClass: string, vSwitchId: Option<nat>)
      returns (id: nat)
      requires Valid(State())
      modifies this
      ensures Valid(State())
      ensures (State(), id) == CreateRds(old(State()), token, regionId, instanceClass, vSwitchId)
    {
      RdsKeepsValid(State(), RdsCreate(token, regionId, instanceClass, vSwitchId));
      if token.Some? {
        var existing := FirstRds(rds, token.value, regionId, 0, ids);
        if existing.Some? {
          return existing.value;
        }
      }
      id := NextId();
      rds := rds[id := RdsRecord(regionId, instanceClass, None, false, RdsCreating, token, vSwitchId, 0)];
    }

    method DescribeDb(id: nat) returns (answer: Answer<RdsRecord>)
      requires Valid(State())
      modifies this
      ensures Valid(State())
      ensures (State(), answer) == DescribeRds(old(State()), id)
    {
      RdsKeepsValid(State(), RdsRead(id));
      if id !in rds {
        return Fault(Rejection(NotFound));
      }
      var record := rds[id];
      if record.status.RdsModifying? {
        record := record.(describes := record.describes + 1);
        if record.describes >= 3 {
          if record.pendingClass.Some? {
            record := record.(instanceClass := record.pendingClass.value, pendingClass := None);
          }
          record := record.(status := RdsRunning);
        }
      } else if record.status.RdsCreating? {
        record := record.(describes := record.describes + 1);
        if record.describes >= settings.rdsDescribesUntilRunning {
          record := record.(status := RdsRunning);
        }
      }
      rds := rds[id := record];
      answer := Value(record);
    }

    method ModifyDbSpec(id: nat, instanceClass: Option<string>) returns (answer: Answer<()>)
      requires Valid(State())
      modifies this
      ensures Valid(State())
      ensures (State(), answer) == ModifyRdsSpec(old(State()), id, instanceClass)
    {
      RdsKeepsValid(State(), RdsResize(id, instanceClass));
      if id !in rds {
        return Fault(Rejection(NotFound));
      }
      rds := rds[id := rds[id].(status := RdsModifying, describes := 0, pendingClass := instanceClass)];
      answer := Value(());
    }

    method ModifyDbProtection(id: nat, protect: bool) returns (answer: Answer<()>)
      requires Valid(State())
      modifies this
      ensures Valid(State())
      ensures (State(), answer) == ModifyRdsProtection(old(State()), id, protect)
    {
      RdsKeepsValid(State(), RdsProtect(id, protect));
      if id in rds {
        rds := rds[id := rds[id].(deletionProtection := protect)];
      }
      answer := Value(());
    }

    method DeleteDb(id: nat) returns (answer: Answer<()>)
      requires Valid(State())
      modifies this
      ensures Valid(State())
      ensures (State(), answer) == DeleteRds(old(State()), id)
    {
      RdsKeepsValid(State(), RdsDelete(id));
      if id !in rds {
        return Fault(Rejection(NotFound));
      }
      if rds[id].deletionProtection {
        return Fault(Rejection(DeletionProtection));
      }
      if rds[id].status.RdsCreating? {
        return Fault(Rejection(IncorrectDBInstanceState));
      }
      var record := rds[id];
      if record.vSwitchId.Some? {
        var eni := NextId();
        enis := enis + [Eni(eni, record.vSwitchId.value)];
      }
      rds := rds - {id};
      answer := Value(());
    }

    method CreateSwitch(vpcId: nat, name: string) returns (answer: Answer<nat>)
      requires Valid(State())
      modifies this
      ensures Valid(State())
      ensures (State(), answer) == CreateVSwitch(old(State()), vpcId, name)
    {
      VSwitchKeepsValid(State(), VSwitchCreate(vpcId, name));
      if createVSwitchBusy || PendingIn(vswitches, vpcId) {
        return Fault(Rejection(IncorrectVSwitchStatus));
      }
      var id := NextId();
      vswitches := vswitches[id := VSwitchRecord(vpcId, name, VSwitchAvailable)];
      answer := Value(id);
    }

    method DeleteSwitch(id: nat) returns (answer: Answer<()>)
      requires Valid(State())
      modifies this
      ensures Valid(State())
      ensures (State(), answer) == DeleteVSwitch(old(State()), id)
    {
      VSwitchKeepsValid(State(), VSwitchDelete(id));
      var liveTair := LiveTairOn(tair, id);
      var hold := if id in kvstoreHolds then kvstoreHolds[id] else 0;
      if liveTair || hold > 0 {
        if !liveTair && hold > 0 {
          kvstoreHolds := kvstoreHolds[id := hold - 1];
        }
        return Fault(Rejection(DependencyViolation(Kvstore)));
      }
      if EniOn(enis, id) {
        var eniHold := if id in eniHolds then eniHolds[id] else settings.eniHoldAfterDelete;
        if eniHold > 0 {
          eniHolds := eniHolds[id := eniHold - 1];
          if eniHold - 1 <= 0 {
            enis := WithoutEnis(enis, id);
          }
          return Fault(Rejection(DependencyViolation(NetworkInterface)));
        }
      }
      vswitches := vswitches - {id};
      answer := Value(());
    }

    method ServeTair(r: TairRequest)
      requires Valid(State())
      modifies this
      ensures State() == HandleTair(old(State()), r) && Valid(State())
    {
      match r {
        case TairCreate(name, token, v) => var _ := Create(name, token, v);
        case TairList(overview, only) => var _ := Describe(overview, only);
        case TairRead(id) => var _ := DescribeAttribute(id);
        case TairModify(id, name, protection) => var _ := ModifyAttribute(id, name, protection);
        case TairDelete(id) => var _ := Delete(id);
        case TairDestroy(id) => var _ := Destroy(id);
      }
    }

    method ServeRds(r: RdsRequest)
      requires Valid(State())
      modifies this
      ensures State() == HandleRds(old(State()), r) && Valid(State())
    {
      match r {
        case RdsCreate(token, regionId, instanceClass, v) => var _ := CreateDb(token, regionId, instanceClass, v);
        case RdsRead(id) => var _ := DescribeDb(id);
        case RdsResize(id, newClass) => var _ := ModifyDbSpec(id, newClass);
        case RdsProtect(id, protect) => var _ := ModifyDbProtection(id, protect);
        case RdsDelete(id) => var _ := DeleteDb(id);
      }
    }

    method ServeVSwitch(r: VSwitchRequest)
      requires Valid(State())
      modifies this
      ensures State() == HandleVSwitch(old(State()), r) && Valid(State())
    {
      match r {
        case VSwitchCreate(vpcId, name) => var _ := CreateSwitch(vpcId, name);
        case VSwitchDelete(id) => var _ := DeleteSwitch(id);
      }
    }

    method ServeOne(r: Request)
      requires Valid(State())
      modifies this
      ensures State() == Handle(old(State()), r) && Valid(State())
    {
      match r {
        case ForTair(t) => ServeTair(t);
        case ForRds(d) => ServeRds(d);
        case ForVSwitch(v) => ServeVSwitch(v);
      }
    }

    /** Any run of requests on the object is the run the lemmas are about, and keeps it valid. */
    method Serve(requests: seq<Request>)
      requires Valid(State())
      modifies this
      ensures State() == HandleAll(old(State()), requests) && Valid(State())
    {
      for i := 0 to |requests|
        invariant Valid(State())
        invariant HandleAll(State(), requests[i..]) == HandleAll(old(State()), requests)
      {
        assert requests[i..][1..] == requests[i + 1..];
        ServeOne(requests[i]);
      }
    }
  }
}
