# A model of alchemy-alibaba and of its RDS access tool

The repository drives Alibaba Cloud from programs that must cope with late, contradictory and rejected
answers, and ships a simulator of the cloud that its providers are exercised against. This project models
the parts where that is hard and proves what they keep.

- `Cidr`, `LongestMatch`, `Routing`, `Connectivity`, `PlanAnswers`: IPv4 blocks by 32-bit masks (section 3.1 of RFC 4632),
  longest-match forwarding (section 5.1 of RFC 4632), the planner that picks a peering and two routes, and
  the applier, any of whose calls may fail or may take effect and still report failure.
- `Lifecycle`: bounded observation over any remote, and the waiters built on it.
- `World`: the simulator's Tair, RDS and vSwitch machines, as functions of a state and as the class
  `ProtocolWorld` whose fields each request changes in place.
- `TairDelete`, `TairProtocol`, `TairWorld`, `RdsDelete`, `VSwitchDelete`: the three deletions. The Tair one is
  proved to follow a protocol against every remote and then taken through the simulator; the other two are
  taken through it.
- `VSwitchCreate`: any number of reconciles sharing one provider, as an interleaving of steps.
- `Password`, `SecretFile`: the generated password, and processes racing for the file that holds it.
- `Quoting`, `Grants`: SQL quoting, and read-only grants against their verification.
- `Ecs`, `EcsReconcile`, `Ram`, `Nat`: three more simulated machines, with two of their clients.
- `Pagination`, `Observation`, `IpGroup`: exhaustive listing, the partial match that tells drift, and
  canonical address lists.
- `Wrappers`, `Text`: options, results, and the JavaScript string operations the rest relies on.

A remote is either a record of functions from its state to its next state and an answer, or a class. Loops
and in-place changes of the original are methods proved against a function; lemmas say what the function
means. Ids are the numbers of the counter they are drawn from.

## Findings

Claims one might expect of the code that do not hold as they stand. Each names the lines in question, a
lemma or method with the failing case, and the exact condition.

- `src/vpc/vswitch.ts:465-472`: a locked create that times out, or whose reply is lost, frees the lock while
  its switch may still be pending. The next create of the VPC is then refused, as a transient fault that is
  tried up to seven times (`src/error.ts:193-196`, `src/error.ts:423-429`), and fails when the switch is still
  pending at the last try (`VSwitchCreate.AbandonedCreateBlocksTheNext`); when it settles with a try left the
  create goes through (`VSwitchCreate.SettledInTime`). A try is refused for a pending switch exactly when one
  left over like that, or pending from the start, is still pending (`VSwitchCreate.RefusedIffLeftPending`).
- `src/protocol/ecs-resources.ts:313-326`: security group ids are reused
  (`Ecs.RepeatedCreateReusesTheId`), exactly by a create under a token that remembers an old id
  (`Ecs.GroupComesBackIff`).
- `src/ecs/instance.ts:448-460`: a reconcile of an instance started with a group listed twice times out when
  it keeps that group (`EcsReconcile.RepeatedGroupTimesOut`); it converges exactly when no group it keeps is
  listed twice (`EcsReconcile.Reconcile`).
- `src/protocol/ram-resources.ts:159-164`: a policy loses its one default version exactly when that version
  is deleted, which nothing forbids (`Ram.DefaultKeptIff`).
- `src/protocol/vpc-connectivity.ts:224-230`: a change of a SNAT entry's address can strip its gateway of its
  protection (`Nat.ImproperModifyLosesTheGateway`); it keeps the entry right exactly when an elastic IP of
  that gateway has the address (`Nat.NatKeepsValidIff`).
- `src/protocol/world.ts:867-882`: once the first Tair record of a token is destroyed, every create with the
  token makes another instance (`World.DestroyedTokenMakesTwo`); a create replays exactly otherwise
  (`World.CreateTairReplaysUnlessDestroyed`).
- `src/tair/instance.ts:1028-1036`: a deletion that sees the instance in time destroys it but reports a
  time-out exactly when another listed instance bears its name (`TairWorld.LiveIsDestroyed`). Every rerun then
  fails because the instance is not found (`TairWorld.NamesakeDefeatsDeletion`). `TairWorld.TwoNamesakes` is
  such a pair, seen in time whatever the attempts.
- `src/tair/instance.ts:412-422`, `src/tair/instance.ts:940-961`: with an odd number of omitted reads a deletion
  takes the first listed instance of the name for its own, and asks for the deletion with release protection on
  exactly when its own is on and that one's is off (`TairWorld.ProtectionOfTheNamesake`). In every other case
  protection ends off (`TairWorld.ProtectionEndsOff`).
- `packages/rds-access/src/gateway/secret-file.ts:74-77`: a process that dies between creating the password
  file and writing it strands the file (`SecretFile.DyingBeforeTheWriteStrandsTheFile`). A process about to
  start can still get a password exactly when there is no file, or a private one that its owner can read a
  password from or that is still being made (`SecretFile.CanReturnIffHopeful`).
- `packages/rds-access/src/gateway/grants.ts:49-52`: revoking CREATE from the account does not take away the one
  it inherits (`Grants.InheritedCreateStays`); after the grants it is read-only exactly when it had no write
  privilege on a listed table and inherits no CREATE (`Grants.GrantsMakeReadOnly`).
- `packages/rds-access/src/gateway/grants.ts:54-61`: a table created later keeps a verified account read-only
  exactly when its owner's default privileges say so; default write privileges are not part of the
  verification (`Grants.NewTableKeepsReadOnlyIff`; `Grants.DefaultWriteSpoilsTheNext` is a verified account
  that a listed owner's next table makes a writer).
- `src/internal/lifecycle.ts:204-205`: a list API that caps pages below the requested size and reports no
  total is cut off after one page, so the list comes back whole exactly when that page holds it
  (`Pagination.CappedPagesTruncate`).
- `src/rds/security-ip-group.ts:151-176`, and `src/tair/security-ip-group.ts:150-180` alike: a list with an
  entry that itself holds two addresses in descending order is written by every reconcile, and every one
  times out waiting for it (`IpGroup.CommaEntryNeverConverges`). A reconcile that writes succeeds exactly when
  the write shows within the attempts and the written text, split at its commas, is canonical as it stands
  (`IpGroup.WriteSucceedsIff`); a list whose text is not canonical always times out (`IpGroup.NeverConverges`).
- `packages/rds-access/src/gateway/connectivity.ts:97-113`: a host address the planner cannot read, such as
  one with a space before it, is planned again even when its route is there (`Routing.SpacedHostIsNeverFound`);
  a readable one never is after a completed plan (`Routing.PlanningAgainFindsTheRoute`).

## Model

| member | source | states |
|---|---|---|
| Cidr.ReadIpv4 | packages/rds-access/src/gateway/connectivity.ts:32-43 | the loop over dotted parts reads exactly the four-octet base-256 address, or nothing |
| Cidr.FoldFour | packages/rds-access/src/gateway/connectivity.ts:35-42 | four readable octets give their base-256 value, and it fits 32 bits |
| Cidr.MasksGiveTheBlock | packages/rds-access/src/gateway/connectivity.ts:53-55 | for every address and prefix the mask code gives start = floor(a / 2^(32-p)) * 2^(32-p) and end = start + 2^(32-p) - 1 |
| Cidr.ParsedBlock | packages/rds-access/src/gateway/connectivity.ts:45-57 | every block that parses is aligned to its size and inside the address space |
| Cidr.ContainsIffLeadingBitsAgree | packages/rds-access/src/gateway/connectivity.ts:60-64 | a block contains an address exactly when the leading prefix bits agree |
| Cidr.LongerPrefixNests | packages/rds-access/src/gateway/connectivity.ts:53-71 | blocks sharing an address are nested, the longer prefix inside |
| Cidr.OverlapMeansSharedAndNested | packages/rds-access/src/gateway/connectivity.ts:67-71 | two blocks overlap exactly when some address is shared, which is exactly when one contains the other |
| Cidr.HostRouteIsOneAddress | packages/rds-access/src/gateway/connectivity.ts:73 | the planned destination parses back to the block holding the host alone |
| Cidr.SpacedAddressIsUnreadable | packages/rds-access/src/gateway/connectivity.ts:32-37 | with a space before it a readable address is not, though its host route is the same |
| Cidr.WrittenPrefix | packages/rds-access/src/gateway/connectivity.ts:45-57 | an address, a slash and a prefix text give the block of that address and prefix when the trimmed text is a decimal number of at most 32, and none otherwise, whatever follows a second slash |
| Cidr.BareAddress | packages/rds-access/src/gateway/connectivity.ts:50 | an address alone gives the block of that address |
| Cidr.UnreadableBlock | packages/rds-access/src/gateway/connectivity.ts:47-49 | without a readable address there is no block |
| Cidr.PaddedBlock | packages/rds-access/src/gateway/connectivity.ts:46 | white space around a block's text does not matter |
| Cidr.DottedReads | packages/rds-access/src/gateway/connectivity.ts:32-43 | four numbers written with dots are read back exactly when each is at most 255 |
| Cidr.WrittenBlock | packages/rds-access/src/gateway/connectivity.ts:45-57 | four numbers and a prefix, written down, give the block of those numbers, or none when one is out of range |
| Cidr.HostRouteTwice | packages/rds-access/src/gateway/connectivity.ts:73 | a host given with its prefix asks for the same host route |
| Routing.MostSpecificAreBestMatches | packages/rds-access/src/gateway/connectivity.ts:97-115 | the planner's candidates are exactly the longest matches for the host |
| Routing.AcceptedPlanRedirectsOnlyTheHost | packages/rds-access/src/gateway/connectivity.ts:90-155 | after an accepted plan every longest-match next hop of the host is the peering, and every other address is forwarded as before |
| Routing.RefusesExactlyCompetingPaths | packages/rds-access/src/gateway/connectivity.ts:114-145 | refusal exactly when a longest match uses another next hop and is above a default route or ties with the peering |
| Routing.RefusalNamesThePath | packages/rds-access/src/gateway/connectivity.ts:132-145 | the refusal names a longest match through another next hop, and says whether the peering ties with it |
| Routing.PlannedOnlyOverDefaults | packages/rds-access/src/gateway/connectivity.ts:103-131 | a route is planned only where at most default routes match |
| Routing.KeptRouteIsTheOnlyNextHop | packages/rds-access/src/gateway/connectivity.ts:146-154 | when nothing is planned the peering already is the only next hop, and the plan names a longest match through it |
| Routing.AddedHostRouteWins | packages/rds-access/src/gateway/connectivity.ts:118-131 | a host route over default routes takes the host and shadows nothing else |
| Routing.PlanningAgainFindsTheRoute | packages/rds-access/src/gateway/connectivity.ts:90-155 | after a plan is applied, planning that direction again changes nothing |
| Routing.PlannedRouteIsMissing | packages/rds-access/src/gateway/connectivity.ts:103-131 | the destination of a planned route is not in the table yet |
| Routing.UnreadableHostIsAlwaysPlannedAgain | packages/rds-access/src/gateway/connectivity.ts:97-113 | a host the parser cannot read is neither refused nor ever found in place |
| Routing.SpacedHostIsNeverFound | packages/rds-access/src/gateway/connectivity.ts:97-113 | a host with a space before it is planned again although its route is in the table |
| PlanAnswers.PeeringAnswers | packages/rds-access/src/gateway/connectivity.ts:157-200 | with no live peering listed one is created with leave to and refused without; the only one is reused, accepted or unusable by its status; more than one is ambiguous |
| PlanAnswers.ActionsIff | packages/rds-access/src/gateway/connectivity.ts:157-200 | creation, acceptance and reuse are each planned in exactly one situation |
| PlanAnswers.SharedVpcNeedsNothing | packages/rds-access/src/gateway/connectivity.ts:209-224 | in one VPC nothing is planned |
| PlanAnswers.PlanRefusedIff | packages/rds-access/src/gateway/connectivity.ts:225-257 | between two VPCs the planner refuses exactly for unknown or overlapping blocks, for the peering, or for a competing route of either host |
| Connectivity.PlannedPeeringFits | packages/rds-access/src/gateway/connectivity.ts:157-200 | an accepted action fits the peerings it was read from: creation only with no live one, reuse and acceptance only of the single live one |
| Connectivity.ChangedIffAsks | packages/rds-access/src/gateway/connectivity.ts:258-279 | a plan says it changes something exactly when applying it asks for something |
| Connectivity.FreshPlanFits | packages/rds-access/src/gateway/connectivity.ts:206-281 | a cross-VPC plan's peering and routes fit the state it was read from, with nothing planned that is there already |
| Connectivity.ActivatedIsReused | packages/rds-access/src/gateway/connectivity.ts:175-179 | the one live peering, once activated, is reused |
| Connectivity.NothingLeftToPlan | packages/rds-access/src/gateway/connectivity.ts:240-279 | a reused peering with both routes found gives a plan made of just those |
| Connectivity.AwaitPeering | packages/rds-access/src/gateway/onboard.ts:268-333 | waiting ends well exactly when the last listing shows the wanted peering activated, fails with a failed listing, and times out only after all sixty |
| Connectivity.AwaitRoute | packages/rds-access/src/gateway/onboard.ts:353-366 | waiting ends well exactly when the table last read lists the destination through the peering |
| Connectivity.PreparePeering | packages/rds-access/src/gateway/onboard.ts:301-334 | sends the creation with the owner read for it, or the acceptance, or nothing; stopped anywhere it leaves at most one live peering, and it stops only for a failed call or a wait that ran out |
| Connectivity.EstablishPeering | packages/rds-access/src/gateway/onboard.ts:301-347 | the id settled on names every live peering between the VPCs, and an activated one when created |
| Connectivity.AddRoute | packages/rds-access/src/gateway/onboard.ts:348-352 | one creation, failing anywhere, keeps the cloud safe and leaves the other planned routes missing |
| Connectivity.AddRoutes | packages/rds-access/src/gateway/onboard.ts:348-352 | adds exactly the changed routes in order, never one twice, and is safe wherever it stops |
| Connectivity.AwaitRoutes | packages/rds-access/src/gateway/onboard.ts:353-366 | success means every added route is listed through the peering |
| Connectivity.ApplyConnectivity | packages/rds-access/src/gateway/onboard.ts:291-368 | safe wherever it stops, having sent what the plan asks for, in order, up to there; a completed run has sent all of it, and reports whether that was anything; it stops only for a failed call, a peering not activated in time, or a created one that no activated one replaces |
| Connectivity.CompletedRunIsSettled | packages/rds-access/src/gateway/onboard.ts:291-368 | after a completed plan, planning again gives changed = false |
| Connectivity.CompletedRunConnects | packages/rds-access/src/gateway/onboard.ts:291-368 | after a completed plan each side's host is reached through the peering alone from the other side's table, and every other address and table is as before |
| Connectivity.MakePlan | packages/rds-access/src/gateway/connectivity.ts:206-281 | an accepted plan fits its state, and completing it settles it |
| Connectivity.Onboard | packages/rds-access/src/gateway/onboard.ts:291-368 | one read-plan-apply run keeps at most one live peering and no route added twice, never asks for a peering without leave, and stops only for a failed call, the planner's refusal or a peering not activated; a successful one has connected the two sides and leaves nothing to plan as long as the live peering is then activated |
| Connectivity.RerunAnyNumberOfTimes | packages/rds-access/src/gateway/onboard.ts:291-368 | any number of runs stopped anywhere keep both |
| Lifecycle.ObservationStopsAtFirstDecisive | src/internal/lifecycle.ts:111-168 | observation reads up to the first ready value or fatal fault, or the last attempt, and reports that answer |
| Lifecycle.CompletesIff | src/internal/lifecycle.ts:111-168 | it completes exactly when some answer within the attempts is ready and no fatal fault comes before |
| Lifecycle.FaultEndsWaitIff | src/internal/lifecycle.ts:111-168 | a wait goes on after a fault exactly when it is transient or a spent retry budget |
| Lifecycle.DeleteContinuesIff | src/internal/lifecycle.ts:357-388 | a delete request counts as accepted exactly when it was, or a fresh read finds the resource gone or deleting; otherwise its own fault, or the read's, is the answer |
| Lifecycle.AcceptanceIsObservation | src/internal/lifecycle.ts:321-353 | waiting for acceptance repeats exactly the errors `retryIf` names, with the last error on exhaustion |
| World.EveryRunStaysValid | src/protocol/world.ts:288-582 | over every request sequence ids stay within the counter, RDS read counts fit their status, and one client token buys one instance per region |
| World.CreateTairReplaysUnlessDestroyed | src/protocol/world.ts:862-926 | a repeated create is answered by the first one exactly unless the first record of its token is destroyed |
| World.CreateTairMakes | src/protocol/world.ts:862-926 | with its token unknown a create is answered by an instance of the name that is not destroyed, or makes a new one that holds its vSwitch |
| World.TairSettles | src/protocol/world.ts:928-938 | a new instance is normal from the configured read on |
| World.CreateRdsReplaysIff | src/protocol/world.ts:1219-1262 | an RDS create is answered by the instance its token made in the region, and makes a new one otherwise |
| World.CreateVSwitchMakes | src/protocol/world.ts:744-770 | a vSwitch create is refused exactly while another is under way, and else makes an available switch |
| World.DestroyedTokenMakesTwo | src/protocol/world.ts:862-882 | create, delete and destroy, then two creates with the token leave two live instances of one token and name |
| World.ResizeSettlesAtTheThirdRead | src/protocol/world.ts:512-545 | a requested class is pending for two reads and in effect at the third |
| World.ProtocolWorld.ListAndPromote | src/protocol/world.ts:953-977 | the loop shows the visible records in order and promotes each of them |
| World.ProtocolWorld.Serve | src/protocol/world.ts:288-582 | any run of requests on the object, changing its fields in place, is the run the lemmas are about, and keeps the object valid |
| TairDelete.Delete | src/tair/instance.ts:896-1037 | the program with its reassigned presence is the deletion the lemmas are about |
| TairDelete.ObservingIsSafe | src/tair/instance.ts:423-447 | observing sends nothing, and success reports the latest observation |
| TairDelete.DetailIsLive | src/tair/instance.ts:412-447 | an instance whose detail is read is live, under the id asked for unless the answer names another |
| TairDelete.DeleteIsSafe | src/tair/instance.ts:896-1037 | against any answers each request is sent at most once, in order, only on the observation that allows it, and what is destroyed is what was last seen in the recycle bin; success only after absence was last observed; neither unsafe-transition error is reachable |
| TairProtocol.DeleteFollows | src/tair/instance.ts:896-1037 | against any answers the trace is a path of a machine that says what each observation obliges to, with no obligation left open, and the deletion succeeds exactly when the path is done |
| TairProtocol.RequestsAreDetermined | src/tair/instance.ts:896-1037 | at every point an obligation is met by the very next event, and nothing is sent without one |
| TairProtocol.ProtectionGoesFirst | src/tair/instance.ts:940-961 | protection on at the first consistent observation of an instance not being deleted is switched off next |
| TairProtocol.DeleteOnlyUnprotected | src/tair/instance.ts:940-985 | the deletion is asked for only when protection was last seen off or was asked to be switched off before |
| TairDelete.DestroysWhatWasAsked | src/tair/instance.ts:386-410 | while overview answers hold only rows of the instance asked about, nothing else is destroyed |
| TairDelete.DestroysAnother | src/tair/instance.ts:391-410 | against a remote that answers with a released row of another instance of the name, that one is destroyed and the deletion reports success |
| TairWorld.LookSees | src/tair/instance.ts:386-447 | what one observation of a live, released or destroyed record sees and which omissions it uses up |
| TairWorld.LiveIsDestroyed | src/tair/instance.ts:896-1037 | a live instance seen in time (two omitted reads per attempt do not cover all attempts, or only the last list is left to decide and shows the name) ends destroyed, all else kept; success exactly when no other listed instance bears the name |
| TairWorld.ProtectionEndsOff | src/tair/instance.ts:940-961 | protection of an instance seen in time ends off, unless an odd number of omitted reads meets a namesake listed first |
| TairWorld.ProtectionOfTheNamesake | src/tair/instance.ts:412-422 | in that case it is left on exactly when it was on and the namesake's is off |
| TairWorld.ReleasedIsDestroyed | src/tair/instance.ts:1019-1036 | a released instance is destroyed whatever the attempts |
| TairWorld.ContradictionStopsDeletion | src/tair/instance.ts:909-938 | one that is not seen in time is left alive, all else kept, and the deletion stops with the conflict error: with the row above every attempt count is decided |
| TairWorld.DestroyedStaysDestroyed | src/tair/instance.ts:896-1037 | from a destroyed record the deletion succeeds, or fails as not found exactly when another listed instance bears the name and no read is omitted |
| TairWorld.NamesakeDefeatsDeletion | src/tair/instance.ts:896-1037 | of two live instances of one name the deletion of one times out after destroying it, and each of any number of reruns fails as not found |
| TairWorld.TwoNamesakes | src/protocol/world.ts:862-882 | a destroyed token used twice more leaves such a pair |
| TairWorld.SimulatorOwnRows | src/protocol/world.ts:953-977 | the simulator's overview of an id holds no other row |
| RdsDelete.OneRound | src/rds/instance.ts:1049-1124 | one round waits, disables protection or deletes, is never rejected, and brings the end one round closer |
| RdsDelete.DeleteTakesExactlyTheRoundsNeeded | src/rds/instance.ts:1027-1154 | never rejected, one disable if protected, one delete, record gone after exactly the rounds needed, leaving one ENI on its vSwitch and all else as it was; with fewer attempts a time-out and the record stays |
| RdsDelete.FaultsAreTaken | src/rds/instance.ts:1100-1118 | a missing instance ends the deciding well, a state conflict or a transient fault is met by another round, and any other fault ends it |
| RdsDelete.AlreadyGone | src/rds/instance.ts:1049-1154 | an instance gone already takes one read and no request |
| RdsDelete.DeletingIsLeftAlone | src/rds/instance.ts:1060-1075 | an instance being deleted is sent nothing, and waited for |
| RdsDelete.RoundsNeededAreBounded | src/protocol/world.ts:1264-1277 | from every reachable record at most max(rdsDescribesUntilRunning, 1) + 1 rounds |
| VSwitchDelete.OneRound | src/vpc/vswitch.ts:532-585 | one round on an available switch uses up one rejection or removes it |
| VSwitchDelete.DeleteTakesEveryRejectionPlusOne | src/vpc/vswitch.ts:518-634 | removed after exactly k + h + 1 requests when allowed that many, else blocked by the dependency met last, in place |
| VSwitchDelete.PendingIsNeverRequested | src/vpc/vswitch.ts:548-553 | a switch that stays pending is never asked for |
| VSwitchDelete.FaultsAreTaken | src/vpc/vswitch.ts:127-144 | the request is repeated after exactly the listed codes, a missing switch is success, and any other fault ends it |
| VSwitchDelete.AlreadyGone | src/vpc/vswitch.ts:532-548 | a switch gone already takes no request |
| VSwitchDelete.InstanceHoldsSwitch | src/protocol/world.ts:1378-1400 | a deleted RDS instance holds its switch for exactly the configured number of rejections |
| VSwitchDelete.TairHoldsSwitch | src/protocol/world.ts:812-860 | a Tair instance holds its switch until it is destroyed, and then only for the rejections still to come |
| VSwitchCreate.NextKeepsLocks | src/vpc/vswitch.ts:217-225 | whoever is inside the locked section of a VPC is the one its lock names |
| VSwitchCreate.NoCreateWhilePending | src/vpc/vswitch.ts:214-216 | in every interleaving, when a create is about to be sent, any pending switch of its VPC was pending from the start or abandoned |
| VSwitchCreate.RefusedIffLeftPending | src/error.ts:413-431 | a try of a locked create is refused, making nothing, exactly when such a left-over switch is still pending; it is tried again up to the seventh, which fails the create |
| VSwitchCreate.NoneRefusedWithoutAbandonment | src/vpc/vswitch.ts:431-473 | with no timed-out or lost create none is ever tried while a switch of its VPC is pending |
| VSwitchCreate.OnePendingPerVpc | src/vpc/vswitch.ts:431-473 | by the locks alone, two new pending switches of a VPC that nobody abandoned are the same |
| VSwitchCreate.EveryRunKeepsOnePending | src/protocol/world.ts:744-757 | with the remote's refusal at most one switch of a VPC is pending in every interleaving, whatever fails |
| VSwitchCreate.RefusesAsTheWorldDoes | src/protocol/world.ts:744-757 | the refusal is the simulated world's, a transient fault that changes nothing |
| VSwitchCreate.CreateAlone | src/vpc/vswitch.ts:431-464 | alone, with its name missing and none pending, a reconcile creates one switch and waits for it holding the lock; a lost reply leaves the switch and frees the lock |
| VSwitchCreate.CompletedAlone | src/vpc/vswitch.ts:431-473 | alone, a reconcile's switch settles, is taken, and the lock is free again |
| VSwitchCreate.CompletedInTurn | src/vpc/vswitch.ts:431-473 | the next reconcile of the VPC then makes its own switch |
| VSwitchCreate.LooksFind | src/vpc/vswitch.ts:430 | a look finds the remembered switch while it exists, else the first of the name |
| VSwitchCreate.FoundIsTaken | src/vpc/vswitch.ts:430-445 | a switch that is there is taken at once, or under the lock, which is given back |
| VSwitchCreate.EveryReconcileCanFinish | src/vpc/vswitch.ts:431-473 | from every reachable state every reconcile that has not failed can still get its switch: no interleaving deadlocks |
| VSwitchCreate.RefusedAlone | src/vpc/vswitch.ts:446-464 | with a switch of the VPC pending at all seven tries the same create fails and makes nothing |
| VSwitchCreate.SettledInTime | src/error.ts:413-431 | when the one pending switch settles after fewer refused tries the next try makes the switch |
| VSwitchCreate.AbandonedCreateBlocksTheNext | src/vpc/vswitch.ts:465-472 | from any start, after a timed-out or lost create whose switch stays pending the VPC's next create is refused at every try and fails |
| VSwitchCreate.EveryRunCreatesOnce | src/vpc/vswitch.ts:437-445 | even with failures and time-outs each name of a VPC is created at most once |
| Password.GeneratePassword | packages/rds-access/src/gateway/onboard.ts:525-542 | 24 characters, six of each class, unchanged by trimming with the line end after it |
| Password.SwapKeepsCounts | packages/rds-access/src/gateway/onboard.ts:537-540 | swapping keeps every class's number |
| SecretFile.AllPasswordsAgree | packages/rds-access/src/gateway/secret-file.ts:85-105 | in every interleaving all processes that get a password get the one in the file |
| SecretFile.WrittenAtMostOnce | packages/rds-access/src/gateway/secret-file.ts:65-82 | the content is written at most once, never over an existing file, and the file is never open to others |
| SecretFile.InsecureIsRefused | packages/rds-access/src/gateway/secret-file.ts:26-49 | a file gives up the process that inspects it exactly when the group or others have any right, and is left as it is |
| SecretFile.UnreadableFails | packages/rds-access/src/gateway/secret-file.ts:50-61 | a file its owner may not read fails the process |
| SecretFile.CreationRights | packages/rds-access/src/gateway/secret-file.ts:74 | a new file gives its owner what the umask leaves of reading and writing, and nobody anything else |
| SecretFile.LostRaceReadsOnce | packages/rds-access/src/gateway/secret-file.ts:85-105 | a process that loses the race to create reads once more and then gives up |
| SecretFile.AccountIsMade | packages/rds-access/src/cli.ts:318-324 | the account is made once, with a password a process got |
| SecretFile.AccountPasswordIsInTheFile | packages/rds-access/src/cli.ts:318-324 | at every point an account that was created has its password in the file, for good |
| SecretFile.AloneCreatesAndReturns | packages/rds-access/src/gateway/secret-file.ts:85-100 | alone without a file a process creates it with mode 0600 and returns its own password |
| SecretFile.LaterProcessReadsIt | packages/rds-access/src/gateway/secret-file.ts:22-63 | with a private file a process returns what it holds and changes nothing |
| SecretFile.StuckForever | packages/rds-access/src/gateway/secret-file.ts:100-104 | a blank file nobody is writing is never repaired |
| SecretFile.DyingBeforeTheWriteStrandsTheFile | packages/rds-access/src/gateway/secret-file.ts:74-77 | dying between creation and write leads there |
| SecretFile.CanReturnIffHopeful | packages/rds-access/src/gateway/secret-file.ts:85-105 | from every reachable state a process about to start can still get a password exactly when there is no file, or a private one readable with a password or still being made |
| SecretFile.Start | packages/rds-access/src/cli.ts:318 | any number of processes with generated passwords make the initial state the other results start from |
| Quoting.QuotedReadsBack | packages/rds-access/src/gateway/grants.ts:3-7 | a quoted value reads back as itself and ends exactly where the quotes do |
| Grants.BuildGrantStatements | packages/rds-access/src/gateway/grants.ts:25-64 | the nested loops build the statement list in order |
| Grants.StatementsAreWanted | packages/rds-access/src/gateway/grants.ts:25-64 | the list holds exactly the wanted statements for each schema and owner role |
| Grants.RerunConverges | packages/rds-access/src/gateway/grants.ts:21-24 | rerunning after any statements already carried out gives what one run gives |
| Grants.InterpretVerification | packages/rds-access/src/gateway/grants.ts:143-187 | the issues found, in order, and verified exactly when there are none |
| Grants.VerifiedIff | packages/rds-access/src/gateway/grants.ts:143-187 | for arbitrary rows: verified exactly when the first row names the database and the account, reads read-only, usage and full read, no create and no write, and every default is reported as granted |
| Grants.IssuesIff | packages/rds-access/src/gateway/grants.ts:143-187 | an issue is listed exactly for each thing amiss |
| Grants.CheckDefaults | packages/rds-access/src/gateway/grants.ts:177-185 | one issue for every row without the default SELECT |
| Grants.VerifiedMeansReadOnly | packages/rds-access/src/gateway/grants.ts:76-187 | the report is verified exactly when the account is read-only by default, may use and read everything listed, and may not create or write |
| Grants.GrantsMakeReadOnly | packages/rds-access/src/gateway/grants.ts:25-64 | after all statements the account is read-only exactly when it had no write privilege and inherits no CREATE |
| Grants.GrantsGiveNothingElse | packages/rds-access/src/gateway/grants.ts:25-64 | the statements give nobody else anything, and the account nothing outside the listed schemas and no write |
| Grants.InheritedCreateStays | packages/rds-access/src/gateway/grants.ts:49-52 | a CREATE the account inherits stays, and every report says so |
| Grants.NewTableKeepsReadOnlyIff | packages/rds-access/src/gateway/grants.ts:54-61 | a later table keeps it read-only exactly when its default privileges let the account read and not write |
| Grants.DefaultWriteSpoilsTheNext | packages/rds-access/src/gateway/grants.ts:54-61 | an account every report verifies that the next table of a listed owner makes a writer |
| Grants.UnlistedTablesDoNotMatter | packages/rds-access/src/gateway/grants.ts:97-98 | a later table of an unlisted schema changes nothing for the account |
| Grants.ListedOwnersKeepReadOnly | packages/rds-access/src/gateway/grants.ts:54-61 | any sequence of new tables of listed owner roles without default write privileges keeps the account read-only |
| Grants.TablesAreMade | packages/rds-access/src/gateway/grants.ts:54-61 | each table of such a sequence is there in the end, with the privileges its owner's defaults give |
| Grants.GrantsVerifyAndStayVerified | packages/rds-access/src/gateway/grants.ts:21-187 | all statements after any part of them make every report verified, running them again changes nothing, and every report stays verified after any such new tables |
| Grants.RenderIsInjective | packages/rds-access/src/gateway/grants.ts:26-60 | whatever characters the names hold, distinct statements are distinct texts |
| Grants.SchemaListIsInjective | packages/rds-access/src/gateway/grants.ts:77 | distinct schema lists are distinct texts in the verification query |
| Grants.ListGrows | packages/rds-access/src/gateway/grants.ts:77 | one more schema is written quoted after a comma |
| Ecs.EveryRunStaysValid | src/protocol/ecs-resources.ts:98-449 | over every request sequence a disk is in use exactly when it names an existing instance, rules name existing groups, and no two rules of a group are alike |
| Ecs.NewIdsAreFresh | src/protocol/ecs-resources.ts:98-449 | disks, instances and rules appear only under ids never issued before |
| Ecs.GoneStaysGone | src/protocol/ecs-resources.ts:98-449 | a disk, instance or rule that is gone never comes back under its id |
| Ecs.GroupComesBackIff | src/protocol/ecs-resources.ts:313-326 | an old id becomes a group exactly by a create whose token remembers it |
| Ecs.RepeatedCreateReusesTheId | src/protocol/ecs-resources.ts:313-326 | create, delete and create again under one token shows it |
| Ecs.ForgottenGroupsStayGone | src/protocol/ecs-resources.ts:313-359 | a group no token remembers is gone for good |
| Ecs.RefusedChangesNothing | src/protocol/ecs-resources.ts:98-449 | a refused request changes nothing |
| Ecs.DiskGoesIff | src/protocol/ecs-resources.ts:170-175 | a disk goes exactly when it is attached to nothing, and nothing else does |
| Ecs.DetachUndoesAttach | src/protocol/ecs-resources.ts:152-169 | a free disk is attached to an existing instance, and detaching undoes it |
| Ecs.ResizedIff | src/protocol/ecs-resources.ts:135-142 | a disk only grows, to the size asked for |
| Ecs.CreatesReplay | src/protocol/ecs-resources.ts:103-228 | a disk or instance is made once under one token |
| Ecs.InstanceGoesIff | src/protocol/ecs-resources.ts:260-275 | an instance goes exactly when stopped and unprotected; its disks go or become available, every other stays |
| Ecs.ProtectionStopsDeletion | src/protocol/ecs-resources.ts:260-307 | protection stops a deletion exactly while it is on |
| Ecs.GroupGoesIff | src/protocol/ecs-resources.ts:348-359 | a group goes exactly when no instance is in it, with just its rules |
| Ecs.RevokedAreGone | src/protocol/ecs-resources.ts:441-445 | revoking takes away exactly the rules named |
| Ecs.AuthorizedOnce | src/protocol/ecs-resources.ts:402-440 | a rule is there once however often it is authorized, for an existing group only |
| Ecs.EcsResources.ReleaseDisksOf | src/protocol/ecs-resources.ts:267-274 | the loop over disks deletes or detaches exactly the instance's own |
| Ecs.EcsResources.SettleListed | src/protocol/ecs-resources.ts:234-244 | the loop over listed instances starts pending ones once enough reads passed, and stops stopping ones |
| Ecs.EcsResources.DropRulesOf | src/protocol/ecs-resources.ts:357-358 | the loop over rules drops exactly the group's own |
| Ecs.EcsResources.RevokeAll | src/protocol/ecs-resources.ts:443-444 | the loop over ids drops exactly those rules |
| Ecs.EcsResources.Serve | src/protocol/ecs-resources.ts:98-449 | any run of requests on the object is the run the lemmas are about, and keeps the object valid |
| EcsReconcile.WaitRunning | src/ecs/instance.ts:391-397 | waiting ends running exactly when the remaining pending reads fit the attempts |
| EcsReconcile.Resize | src/ecs/instance.ts:398-433 | the type changes while stopped, and the instance runs again |
| EcsReconcile.JoinMissing | src/ecs/instance.ts:434-447 | joins exactly the missing groups |
| EcsReconcile.LeaveOthers | src/ecs/instance.ts:448-460 | leaves exactly the unwanted ones, keeping the others |
| EcsReconcile.SwapGroups | src/ecs/instance.ts:434-460 | ends with exactly the wanted groups, always keeping the common ones and at least one |
| EcsReconcile.Reconcile | src/ecs/instance.ts:272-535 | ends running with the desired type and groups, careful at every step, sending nothing when already right; when convergence is reported |
| EcsReconcile.ReconcileTwice | src/ecs/instance.ts:398-460 | a second reconcile sends no request |
| EcsReconcile.RepeatedGroupTimesOut | src/ecs/instance.ts:448-460 | an instance started with a group listed twice, kept, never converges |
| Ram.EveryRunStaysValid | src/protocol/ram-resources.ts:53-200 | attachments name existing roles and custom policies, and versions stay ordered and at most five, with at most one default, which is the newest |
| Ram.AddVersionKeepsOthers | src/protocol/ram-resources.ts:130-151 | a new version is the default with the next number and document, dropping only the oldest at the limit |
| Ram.VersionsAreLimited | src/protocol/ram-resources.ts:111-151 | a policy is made once, and a version added, at five only when the oldest may make way |
| Ram.DefaultKeptIff | src/protocol/ram-resources.ts:159-164 | a default survives a request exactly when the request does not delete it |
| Ram.EveryPolicyHasItsDefault | src/protocol/ram-resources.ts:111-164 | if only other versions are deleted every policy has exactly one default, the newest, with the current document |
| Ram.RefusedChangesNothing | src/protocol/ram-resources.ts:53-200 | a refused request changes nothing |
| Ram.RoleRequests | src/protocol/ram-resources.ts:66-98 | a role is made when its name is free, updated when it is there, and goes exactly when nothing is attached |
| Ram.PolicyGoesIff | src/protocol/ram-resources.ts:165-177 | a policy goes exactly when nothing is attached to it and at most one version is left |
| Ram.VersionGoes | src/protocol/ram-resources.ts:159-164 | a deleted version is the only one that goes |
| Ram.AttachmentHolds | src/protocol/ram-resources.ts:188-200 | an attachment needs its role and a custom policy, holds the role, and is undone by detaching |
| Ram.ClearVersions | src/ram/policy.ts:191-209 | the loop leaves exactly the default version |
| Ram.DeletePolicyAndVersions | src/ram/policy.ts:188-224 | never rejected for leftover versions; stopped exactly by an attachment, with only the default left |
| Ram.RamResources.PushVersion | src/protocol/ram-resources.ts:130-151 | rotation, cleared flags and push, in place |
| Ram.RamResources.Serve | src/protocol/ram-resources.ts:53-200 | any run of requests on the object is the run the lemmas are about, and keeps the object valid |
| Nat.EveryRunStaysValid | src/protocol/vpc-connectivity.ts:64-266 | over runs of proper requests every entry's table belongs to an existing gateway and its address to an elastic IP associated with it |
| Nat.EipKeepsValid | src/protocol/vpc-connectivity.ts:75-137 | no elastic IP request breaks that |
| Nat.NatKeepsValidIff | src/protocol/vpc-connectivity.ts:178-233 | a gateway request keeps it exactly when an address change stays on the gateway |
| Nat.NeededResourcesAreKept | src/protocol/vpc-connectivity.ts:122-185 | a gateway is not deleted and an elastic IP not unassociated or released while an entry needs it |
| Nat.ImproperModifyLosesTheGateway | src/protocol/vpc-connectivity.ts:224-230 | an improper address change lets both be given up under an entry |
| Nat.RefusedChangesNothing | src/protocol/vpc-connectivity.ts:64-266 | a refused request changes nothing |
| Nat.EipGoesIff | src/protocol/vpc-connectivity.ts:132-137 | an elastic IP goes exactly when it is associated with nothing |
| Nat.UnassociateUndoesAssociate | src/protocol/vpc-connectivity.ts:110-131 | a free elastic IP is associated, as a NAT one only with an existing gateway, and unassociating undoes it |
| Nat.GatewayGoesIff | src/protocol/vpc-connectivity.ts:178-185 | a gateway goes exactly when no elastic IP is associated with it |
| Nat.EntryRequests | src/protocol/vpc-connectivity.ts:186-233 | an entry is made exactly for a gateway with the address, once under one token, and deleting undoes it |
| Nat.CreatesReplay | src/protocol/vpc-connectivity.ts:75-159 | elastic IPs and gateways are made once under one token |
| Nat.VpcConnectivity.Serve | src/protocol/vpc-connectivity.ts:64-266 | any run of requests on the object, from any state, is the run the lemmas are about; from a valid state a proper run keeps the object valid |
| Pagination.Paginate | src/internal/lifecycle.ts:179-219 | the loop returns what draining page by page gives |
| Pagination.TotalsDrainExactly | src/internal/lifecycle.ts:179-219 | with a true total and any slice size: the whole list if it fits maxPages slices, else the limit error |
| Pagination.ShortPagesDrainExactly | src/internal/lifecycle.ts:203-208 | without totals the whole list exactly when it is shorter than maxPages * pageSize |
| Pagination.CappedPagesTruncate | src/internal/lifecycle.ts:203-208 | a server capping pages without a total is cut off after one |
| Pagination.FailsIff | src/internal/lifecycle.ts:179-219 | the drain fails with a page's error exactly when that page is the first one not read and the earlier ones do not complete the list |
| Pagination.Pages | src/ram/internal.ts:14-42 | succeeds exactly when the marker chain ends within 200 fetches, with all its items in order; fails with a fetch's error only when that fetch of the chain failed, and with the limit only for a chain that long or one that repeats |
| Pagination.CycleNeverEnds | src/ram/internal.ts:30-31 | a chain that repeats a marker has no end, so stopping there loses nothing |
| Pagination.MarkedPagesDrainExactly | src/ram/internal.ts:14-42 | a server that marks its pages is drained whole, in order, exactly when it has at most 200 |
| Observation.Reflexive | src/internal/observation.ts:9-40 | a value matches itself under every descriptor |
| Observation.Transitive | src/internal/observation.ts:9-40 | matching is transitive although missing and empty parts match loosely |
| Observation.MatchedByNothing | src/internal/observation.ts:25-38 | what matches an absent value matches every value |
| Observation.DescriptorsRestrict | src/internal/observation.ts:25-38 | matching under a descriptor is plain matching against the described part of the desired value |
| Observation.MatchesIffNoDrift | src/internal/observation.ts:9-40 | a match means exactly that every scalar at a described path of the desired value is observed there, and every array meets one of its length |
| Observation.ScalarDrifts | src/internal/observation.ts:39 | any other scalar observed where one is wanted is drift |
| IpGroup.NormalizeIsCanonical | src/rds/security-ip-group.ts:56-57 | the canonical list is ascending and names exactly the trimmed non-empty entries |
| IpGroup.NormalizeIsIdempotent | src/rds/security-ip-group.ts:56-57 | normalizing twice is normalizing once |
| IpGroup.SameIpsIff | src/rds/security-ip-group.ts:62-63 | for comma-free entries the comparison holds exactly when the same addresses are named |
| IpGroup.JoinedSplitsBack | src/tair/security-ip-group.ts:55-60 | splitting the joined canonical list gives it back |
| IpGroup.CoverConverges | src/rds/security-ip-group.ts:129-177 | a comma-free list's reconcile succeeds once the write shows, whatever order and spacing it is read back in, and the next one writes nothing and succeeds |
| IpGroup.CanonicalIsNormal | src/rds/security-ip-group.ts:56-57 | a list is its own normal form exactly when it is ascending with trimmed non-empty entries |
| IpGroup.AgreesIff | src/rds/security-ip-group.ts:151-176 | a shown text agrees with a list exactly when it names the addresses of the written text and that text splits into a canonical list |
| IpGroup.WriteSucceedsIff | src/rds/security-ip-group.ts:143-176 | a reconcile that writes ends well exactly when the write shows within the attempts and its text splits into a canonical list, and else times out |
| IpGroup.NothingToWrite | src/rds/security-ip-group.ts:143-176 | a reconcile that finds the addresses writes nothing and ends well |
| IpGroup.BlankIsRefused | src/rds/security-ip-group.ts:130-138 | a list of blank entries, and only such a list, is refused with nothing read or written |
| IpGroup.NeverConverges | src/rds/security-ip-group.ts:129-177 | with any other text the reconcile writes and times out whatever the group holds and whatever is read back |
| IpGroup.ConvergesIff | src/rds/security-ip-group.ts:129-177 | once a write has shown: the reconcile succeeds and the next one writes nothing exactly when the text splits into a canonical list, and both time out exactly when it does not |
| IpGroup.CommaEntryNeverConverges | src/rds/security-ip-group.ts:151-176 | an entry holding two addresses in descending order is written and timed out on by every reconcile |
| IpGroup.CommaEntryInOrderConverges | src/rds/security-ip-group.ts:129-177 | the same entry in ascending order is written and read back as wanted |
| Text.SplitAfterJoin | src/rds/security-ip-group.ts:59-60 | joining separator-free parts is undone by splitting |
| Text.TrimKeeps | packages/rds-access/src/gateway/secret-file.ts:53-54 | text without white space at its ends survives a written line end and trimming |

## Left out

- SDK clients, HTTP, credentials, command-line flags, Effect layers, tags, attribute mapping and diffing: plumbing.
- Time: sleeps are steps, a retried SDK call is one answer (except the vSwitch create, whose tries are counted), and attempt counts are already raised to one as `Math.max(1, ...)` does.
- Error classification: `isNotFound` and `isTransient` are part of an error value; the code lists and message patterns behind them are not modelled.
- The simulator's scripted faults, missing parameters, paging of its own lists, and default names; ids are numbers, not prefixed text.
- Simulated VPCs, ACK clusters, container registry links, key pairs, tags, and the SSL, backup and parameter requests of RDS and Tair: simple records.
- Connectivity: a peering always reports a status; route lists are read whole. A list shows every write that completed, so a list that lags, and the second creation it could cause, cannot arise.
- Cidr.ReadIpv4: digits are the ASCII ones, and a prefix in a block's text is decimal digits, blank, or unusable; other texts JavaScript's `Number()` accepts are not modelled.
- `applyWhitelist`, the report steps and warnings of onboarding, and database account creation beyond the password it uses.
- TairWorld: the list behind the name lookup is read whole; past 10000 instances the original reports the pagination limit instead.
- RdsDelete and VSwitchDelete run alone; other clients changing the record between rounds are not modelled.
- VSwitchCreate: a lost reply or a fault that is not transient ends the call, no switch is deleted meanwhile, and name reads are consistent with creations.
- Tair, RDS and vSwitch reconcile beyond the locked create: long sequences of updates with no law of their own.
- SecretFile: the directory's creation, the Windows branch without the mode check, and files deleted or changed from outside.
- Grants: statements and rows are values; executing SQL, the `LIKE` patterns on ACL text, schema ownership, superusers, and the session itself (an account that cannot connect gets no report) are not modelled.
- EcsReconcile.Reconcile: creating the instance, bandwidth, description, protection, release time and tags are not modelled; it starts from an existing instance.
- World.EveryRunStaysValid: covers the Tair, RDS and vSwitch requests of the dispatcher, the ones the deletions use.
- World.ProtocolWorld.Serve: covers the same requests, and a pending RDS resize carries the class only.
- World.ProtocolWorld.ListAndPromote: filters by id only; the name search and the pages of the list are not modelled.
- Ecs.EcsResources.SettleListed: filters by id only, not by name or region.
- Ecs.EcsResources.Serve: describe requests of disks, groups and rules, tags, and descriptive attributes are not modelled; replies carry the id and not the whole record.
- Ram.RamResources.Serve: read requests, descriptions, session durations and tags are not modelled.
- Ram: attachments are keyed by their three parts, so names containing a slash cannot collide as the joined key of the original could.
- Nat: `AssociateEipAddress` always names a target.
- Observation: prototype keys such as `toString` count as undescribed, and `jsonConfigMatches` is not modelled.
- IpGroup: a read or write the service rejects ends the reconcile and is not modelled; group attribute and type settings, and the deletion that resets a group, repeat the same comparison.
- Existence-check resources, `src/vpc/network.ts`, and the container and Kubernetes providers: they would only add easy members.
