/**
 Concurrent vSwitch reconciles sharing one provider. Each looks the switch up, takes the VPC's create lock
 when it is missing, looks again, requests it, and keeps the lock until the switch is ready. A run is any
 interleaving of their steps with the remote settling pending switches when it pleases.
 */
module VSwitchCreate {
  import opened Wrappers
  import Lifecycle
  import World

  /** A switch of the remote; its id is its position. */
  datatype Switch = Switch(vpcId: nat, name: string, pending: bool)

  datatype Phase =
    | Start
    | WaitingForLock
    | HoldingLock
    | Requesting(tries: nat)
    | AwaitingReady(id: nat)
    | Found(id: nat)
    | Failed

  /** A create is sent at most this often: a transient fault is tried again six times. */
  const TRIES: nat := 7

  /** One reconcile: what it wants, the id it remembers from before, and where it is. */
  datatype Reconcile = Reconcile(vpcId: nat, name: string, known: Option<nat>, phase: Phase)

  /** `locks` is filled lazily; a VPC's lock is free or held by one reconcile. `abandoned` is history. */
  datatype State = State(
    switches: seq<Switch>,
    reconciles: seq<Reconcile>,
    locks: map<nat, Option<nat>>,
    abandoned: set<nat>)

  /**
   What becomes of one try that finds no switch of the VPC pending: accepted, or accepted with the reply lost.
   `Rejected` ends the call at any try, by a fault that is not transient or by the time for retries running out.
   */
  datatype Reply = Accepted | Rejected | LostReply

  datatype Action =
    | Look(p: nat)
    | Acquire(p: nat)
    | LookAgain(p: nat)
    | Request(p: nat, reply: Reply)
    | SeeReady(p: nat)
    | GiveUp(p: nat)
    | Settle(v: nat)

  /** `observe`: by the remembered id if it still exists, else by name within the VPC. */
  function Observe(switches: seq<Switch>, r: Reconcile): (found: Option<nat>)
    ensures found.Some? ==> found.value < |switches|
    ensures found.None? ==> forall v | 0 <= v < |switches| :: !Named(switches[v], r)
  {
    if r.known.Some? && r.known.value < |switches| then r.known else FindNamed(switches, r, 0)
  }

  predicate Named(s: Switch, r: Reconcile) {
    s.vpcId == r.vpcId && s.name == r.name
  }

  function FindNamed(switches: seq<Switch>, r: Reconcile, from: nat): (found: Option<nat>)
    requires from <= |switches|
    ensures found.Some? ==> from <= found.value < |switches| && Named(switches[found.value], r)
    ensures found.None? ==> forall v | from <= v < |switches| :: !Named(switches[v], r)
    decreases |switches| - from
  {
    if from == |switches| then None
    else if Named(switches[from], r) then Some(from)
    else FindNamed(switches, r, from + 1)
  }

  function SetPhase(s: State, p: nat, phase: Phase): State
    requires p < |s.reconciles|
  {
    s.(reconciles := s.reconciles[p := s.reconciles[p].(phase := phase)])
  }

  /** Leaving the locked section, for whatever reason, frees the VPC's lock. */
  function Leave(s: State, p: nat, phase: Phase): State
    requires p < |s.reconciles|
  {
    SetPhase(s, p, phase).(locks := s.locks[s.reconciles[p].vpcId := None])
  }

  function AddSwitch(s: State, p: nat): State
    requires p < |s.reconciles|
  {
    s.(switches := s.switches + [Switch(s.reconciles[p].vpcId, s.reconciles[p].name, true)])
  }

  predicate LockFree(s: State, vpcId: nat) {
    vpcId !in s.locks || s.locks[vpcId].None?
  }

  /** The remote refuses a create while a switch of its VPC is pending. */
  predicate PendingIn(switches: seq<Switch>, vpcId: nat) {
    exists s | s in switches :: s.vpcId == vpcId && s.pending
  }

  /** A refused try makes nothing; the lock is kept for the next one, and freed after the last. */
  function Refuse(s: State, p: nat, tries: nat): State
    requires p < |s.reconciles|
  {
    if tries < TRIES then SetPhase(s, p, Requesting(tries)) else Leave(s, p, Failed)
  }

  /** One reconcile's step; a step that is not enabled changes nothing. */
  function Advance(s: State, p: nat, a: Action): State
    requires p < |s.reconciles|
  {
    var r := s.reconciles[p];
    match a
    case Look(_) =>
      if !r.phase.Start? then s
      else if Observe(s.switches, r).Some? then SetPhase(s, p, Found(Observe(s.switches, r).value))
      else SetPhase(s, p, WaitingForLock)
    case Acquire(_) =>
      if r.phase.WaitingForLock? && LockFree(s, r.vpcId)
      then SetPhase(s, p, HoldingLock).(locks := s.locks[r.vpcId := Some(p)])
      else s
    case LookAgain(_) =>
      if !r.phase.HoldingLock? then s
      else if Observe(s.switches, r).Some? then Leave(s, p, Found(Observe(s.switches, r).value))
      else SetPhase(s, p, Requesting(0))
    case Request(_, reply) =>
      if !r.phase.Requesting? then s
      else if reply.Rejected? then Leave(s, p, Failed)
      else if PendingIn(s.switches, r.vpcId) then Refuse(s, p, r.phase.tries + 1)
      else (match reply
            case Accepted => SetPhase(AddSwitch(s, p), p, AwaitingReady(|s.switches|))
            case Rejected => s
            case LostReply => Leave(AddSwitch(s, p), p, Failed).(abandoned := s.abandoned + {|s.switches|}))
    case SeeReady(_) =>
      if r.phase.AwaitingReady? && r.phase.id < |s.switches| && !s.switches[r.phase.id].pending
      then Leave(s, p, Found(r.phase.id))
      else s
    case GiveUp(_) =>
      if r.phase.AwaitingReady? then Leave(s, p, Failed).(abandoned := s.abandoned + {r.phase.id}) else s
    case Settle(_) => s
  }

  function Actor(a: Action): Option<nat> {
    match a
    case Settle(_) => None
    case _ => Some(a.p)
  }

  function Next(s: State, a: Action): State {
    match Actor(a)
    case Some(p) => if p < |s.reconciles| then Advance(s, p, a) else s
    case None =>
      if a.v < |s.switches| then s.(switches := s.switches[a.v := s.switches[a.v].(pending := false)]) else s
  }

  function Play(s: State, actions: seq<Action>): State
    decreases |actions|
  {
    if actions == [] then s else Play(Next(s, actions[0]), actions[1..])
  }

  predicate IsInitial(s: State) {
    && (forall p | 0 <= p < |s.reconciles| :: s.reconciles[p].phase.Start?)
    && s.locks == map[] && s.abandoned == {}
  }

  // ---- Mutual exclusion ----

  predicate InsideLock(phase: Phase) {
    phase.HoldingLock? || phase.Requesting? || phase.AwaitingReady?
  }

  /** Whoever is inside the locked section of a VPC is the one its lock names. */
  ghost predicate LocksHeld(s: State) {
    forall p | 0 <= p < |s.reconciles| && InsideLock(s.reconciles[p].phase) ::
      s.reconciles[p].vpcId in s.locks && s.locks[s.reconciles[p].vpcId] == Some(p)
  }

  lemma NextKeepsLocks(s: State, a: Action)
    requires LocksHeld(s)
    ensures LocksHeld(Next(s, a))
  {
  }

  // ---- At most one switch of a VPC is pending ----

  predicate Excused(s: State, initial: nat, v: int) {
    v < initial || v in s.abandoned
  }

  ghost predicate Waiting(s: State, v: int, p: nat) {
    && p < |s.reconciles| && 0 <= v < |s.switches|
    && s.reconciles[p].phase == AwaitingReady(v) && s.reconciles[p].vpcId == s.switches[v].vpcId
  }

  /** A pending switch was pending from the start, was abandoned, or is waited for under its VPC's lock. */
  ghost predicate PendingAccounted(s: State, initial: nat) {
    forall v | 0 <= v < |s.switches| && s.switches[v].pending && !Excused(s, initial, v) ::
      exists p: nat :: Waiting(s, v, p)
  }

  lemma NextKeepsPending(s: State, a: Action, initial: nat)
    requires PendingAccounted(s, initial)
    ensures PendingAccounted(Next(s, a), initial)
  {
    var t := Next(s, a);
    forall v | 0 <= v < |t.switches| && t.switches[v].pending && !Excused(t, initial, v)
      ensures exists p: nat :: Waiting(t, v, p)
    {
      if v < |s.switches| {
        var p: nat :| Waiting(s, v, p);
        assert Waiting(t, v, p);
      } else {
        assert Waiting(t, v, a.p);
      }
    }
  }

  lemma {:induction false} PlayKeepsAccounts(s: State, actions: seq<Action>, initial: nat)
    requires LocksHeld(s) && PendingAccounted(s, initial)
    ensures LocksHeld(Play(s, actions)) && PendingAccounted(Play(s, actions), initial)
    decreases |actions|
  {
    if actions != [] {
      NextKeepsLocks(s, actions[0]);
      NextKeepsPending(s, actions[0], initial);
      PlayKeepsAccounts(Next(s, actions[0]), actions[1..], initial);
    }
  }

  // ---- What the lock is for ----

  lemma PendingHasWaiter(s: State, actions: seq<Action>, v: nat)
    requires IsInitial(s)
    requires v < |Play(s, actions).switches| && Play(s, actions).switches[v].pending
    ensures Excused(Play(s, actions), |s.switches|, v) || exists p: nat :: Waiting(Play(s, actions), v, p)
  {
    PlayKeepsAccounts(s, actions, |s.switches|);
  }

  /** Two reconciles inside the locked section of one VPC are the same. */
  lemma OneInside(s: State, actions: seq<Action>, p: nat, q: nat)
    requires IsInitial(s)
    requires var t := Play(s, actions);
             && p < |t.reconciles| && q < |t.reconciles| && t.reconciles[p].vpcId == t.reconciles[q].vpcId
             && InsideLock(t.reconciles[p].phase) && InsideLock(t.reconciles[q].phase)
    ensures p == q
  {
    PlayKeepsAccounts(s, actions, |s.switches|);
  }

  /**
   In every interleaving, whenever a reconcile is about to send its create, any switch of its VPC that is
   still pending was pending from the start or was abandoned.
   */
  lemma NoCreateWhilePending(s: State, actions: seq<Action>, p: nat, v: nat)
    requires IsInitial(s)
    requires var t := Play(s, actions);
             && p < |t.reconciles| && t.reconciles[p].phase.Requesting?
             && v < |t.switches| && t.switches[v].pending && t.switches[v].vpcId == t.reconciles[p].vpcId
    ensures Excused(Play(s, actions), |s.switches|, v)
  {
    PendingHasWaiter(s, actions, v);
    if !Excused(Play(s, actions), |s.switches|, v) {
      var q: nat :| Waiting(Play(s, actions), v, q);
      OneInside(s, actions, p, q);
    }
  }

  /** Two pending switches of one VPC that nobody left behind are the same switch, by the locks alone. */
  lemma OnePendingPerVpc(s: State, actions: seq<Action>, v: nat, u: nat)
    requires IsInitial(s)
    requires var t := Play(s, actions);
             && v < |t.switches| && u < |t.switches|
             && t.switches[v].pending && t.switches[u].pending && t.switches[v].vpcId == t.switches[u].vpcId
             && !Excused(t, |s.switches|, v) && !Excused(t, |s.switches|, u)
    ensures v == u
  {
    PlayKeepsAccounts(s, actions, |s.switches|);
    var t := Play(s, actions);
    var p: nat :| Waiting(t, v, p);
    var q: nat :| Waiting(t, u, q);
    assert t.locks[t.switches[v].vpcId] == Some(p) && t.locks[t.switches[v].vpcId] == Some(q);
  }

  ghost predicate LeftPending(t: State, initial: nat, vpcId: nat) {
    exists v :: 0 <= v < |t.switches| && t.switches[v].pending && t.switches[v].vpcId == vpcId && Excused(t, initial, v)
  }

  /**
   So a try the service would accept is refused exactly when a left-over switch of the VPC is still pending,
   and the create fails by it exactly at the last try.
   */
  lemma RefusedIffLeftPending(s: State, actions: seq<Action>, p: nat)
    requires IsInitial(s)
    requires p < |Play(s, actions).reconciles| && Play(s, actions).reconciles[p].phase.Requesting?
    ensures var t := Play(s, actions);
            var after := Next(t, Request(p, Accepted));
            && |after.reconciles| == |t.reconciles|
            && (after.switches == t.switches <==> LeftPending(t, |s.switches|, t.reconciles[p].vpcId))
            && after.reconciles[p].phase ==
                 if !LeftPending(t, |s.switches|, t.reconciles[p].vpcId) then AwaitingReady(|t.switches|)
                 else if t.reconciles[p].phase.tries + 1 < TRIES then Requesting(t.reconciles[p].phase.tries + 1)
                 else Failed
  {
    var t := Play(s, actions);
    if PendingIn(t.switches, t.reconciles[p].vpcId) {
      var v :| 0 <= v < |t.switches| && t.switches[v].pending && t.switches[v].vpcId == t.reconciles[p].vpcId;
      NoCreateWhilePending(s, actions, p, v);
    }
  }

  predicate Abandons(a: Action) {
    a.GiveUp? || (a.Request? && a.reply.LostReply?)
  }

  lemma {:induction false} NothingAbandoned(s: State, actions: seq<Action>)
    requires forall i | 0 <= i < |actions| :: !Abandons(actions[i])
    ensures Play(s, actions).abandoned == s.abandoned
    decreases |actions|
  {
    if actions != [] {
      NothingAbandoned(Next(s, actions[0]), actions[1..]);
    }
  }

  /** A switch that is not pending never becomes pending again. */
  lemma {:induction false} PlayKeepsSettled(s: State, actions: seq<Action>, v: nat)
    ensures v < |s.switches| && !s.switches[v].pending ==>
              v < |Play(s, actions).switches| && !Play(s, actions).switches[v].pending
    decreases |actions|
  {
    if actions != [] {
      PlayKeepsSettled(Next(s, actions[0]), actions[1..], v);
    }
  }

  /** While no locked create times out or loses its reply, none is ever sent while a switch of its VPC is pending. */
  lemma NoneRefusedWithoutAbandonment(s: State, actions: seq<Action>, p: nat)
    requires IsInitial(s) && (forall i | 0 <= i < |s.switches| :: !s.switches[i].pending)
    requires forall i | 0 <= i < |actions| :: !Abandons(actions[i])
    requires p < |Play(s, actions).reconciles| && Play(s, actions).reconciles[p].phase.Requesting?
    ensures !PendingIn(Play(s, actions).switches, Play(s, actions).reconciles[p].vpcId)
  {
    var t := Play(s, actions);
    NothingAbandoned(s, actions);
    if PendingIn(t.switches, t.reconciles[p].vpcId) {
      var v :| 0 <= v < |t.switches| && t.switches[v].pending && t.switches[v].vpcId == t.reconciles[p].vpcId;
      NoCreateWhilePending(s, actions, p, v);
      PlayKeepsSettled(s, actions, v);
      assert false;
    }
  }

  /** At most one switch of each VPC is pending. */
  ghost predicate OnePending(switches: seq<Switch>) {
    forall v, u | 0 <= v < u < |switches| && switches[v].pending && switches[u].pending ::
      switches[v].vpcId != switches[u].vpcId
  }

  /** Together with the remote's refusal: in every interleaving at most one switch of a VPC is pending. */
  lemma {:induction false} EveryRunKeepsOnePending(s: State, actions: seq<Action>)
    requires OnePending(s.switches)
    ensures OnePending(Play(s, actions).switches)
    decreases |actions|
  {
    if actions != [] {
      EveryRunKeepsOnePending(Next(s, actions[0]), actions[1..]);
    }
  }

  /** The remote as the simulated world sees it. */
  function AsWorld(switches: seq<Switch>): map<nat, World.VSwitchRecord> {
    map i: nat | i < |switches| ::
      World.VSwitchRecord(switches[i].vpcId, switches[i].name,
                          if switches[i].pending then World.VSwitchPending else World.VSwitchAvailable)
  }

  /** The refusal is the one of the simulated world, and one that is tried again. */
  lemma RefusesAsTheWorldDoes(w: World.WorldState, switches: seq<Switch>, vpcId: nat, name: string)
    requires w.net.vswitches == AsWorld(switches) && !w.net.createBusy
    ensures World.CreateVSwitch(w, vpcId, name).1.Fault? <==> PendingIn(switches, vpcId)
    ensures PendingIn(switches, vpcId) ==>
              World.CreateVSwitch(w, vpcId, name) ==
              (w, Lifecycle.Fault(Lifecycle.ApiError(Lifecycle.IncorrectVSwitchStatus, true)))
  {
    if World.PendingIn(AsWorld(switches), vpcId) {
      var i :| && i in AsWorld(switches) && AsWorld(switches)[i].vpcId == vpcId
               && AsWorld(switches)[i].status.VSwitchPending?;
      assert switches[i] in switches;
    }
    if PendingIn(switches, vpcId) {
      var i :| 0 <= i < |switches| && switches[i].vpcId == vpcId && switches[i].pending;
      assert i in AsWorld(switches);
    }
  }

  // ---- Alone, and after an abandoned create ----

  lemma {:induction false} PlayInTwo(s: State, first: seq<Action>, second: seq<Action>)
    ensures Play(s, first + second) == Play(Play(s, first), second)
    decreases |first|
  {
    if first == [] {
      assert first + second == second;
    } else {
      assert (first + second)[1..] == first[1..] + second;
      PlayInTwo(Next(s, first[0]), first[1..], second);
    }
  }

  lemma PlayOne(s: State, a: Action)
    ensures Play(s, [a]) == Next(s, a)
  {
    assert Play(Next(s, a), []) == Next(s, a);
  }

  lemma PlayThree(s: State, a: Action, b: Action, c: Action, s1: State, s2: State, s3: State)
    requires s1 == Next(s, a) && s2 == Next(s1, b) && s3 == Next(s2, c)
    ensures Play(s, [a, b, c]) == s3
  {
    PlayOne(s2, c);
    assert [b, c][1..] == [c] && Play(s1, [b, c]) == s3;
    assert [a, b, c][1..] == [b, c];
  }

  /** A reconcile alone, up to the point of sending its create. */
  function LockedSteps(p: nat): seq<Action> {
    [Look(p), Acquire(p), LookAgain(p)]
  }

  function Taken(s: State, p: nat): State
    requires p < |s.reconciles|
  {
    s.(locks := s.locks[s.reconciles[p].vpcId := Some(p)])
  }

  predicate Missing(s: State, p: nat, phase: Phase) {
    p < |s.reconciles| && s.reconciles[p].phase == phase && Observe(s.switches, s.reconciles[p]).None?
  }

  lemma SetTwice(s: State, p: nat, first: Phase, second: Phase)
    requires p < |s.reconciles|
    ensures SetPhase(SetPhase(s, p, first), p, second) == SetPhase(s, p, second)
    ensures Observe(s.switches, s.reconciles[p].(phase := first)) == Observe(s.switches, s.reconciles[p])
  {
    FindIgnoresPhase(s.switches, s.reconciles[p], first, 0);
  }

  lemma {:induction false} FindIgnoresPhase(switches: seq<Switch>, r: Reconcile, phase: Phase, from: nat)
    requires from <= |switches|
    ensures FindNamed(switches, r.(phase := phase), from) == FindNamed(switches, r, from)
    decreases |switches| - from
  {
    if from < |switches| {
      FindIgnoresPhase(switches, r, phase, from + 1);
    }
  }

  lemma StepToLock(s: State, p: nat)
    requires Missing(s, p, Start) && LockFree(s, s.reconciles[p].vpcId)
    ensures Next(s, Look(p)) == SetPhase(s, p, WaitingForLock)
    ensures Next(SetPhase(s, p, WaitingForLock), Acquire(p)) == SetPhase(Taken(s, p), p, HoldingLock)
  {
    SetTwice(s, p, WaitingForLock, HoldingLock);
  }

  /** Alone with a free lock and its name missing, a reconcile reaches its create holding the lock. */
  lemma LockedAlone(s: State, p: nat)
    requires Missing(s, p, Start) && LockFree(s, s.reconciles[p].vpcId)
    ensures Play(s, LockedSteps(p)) == SetPhase(Taken(s, p), p, Requesting(0))
  {
    StepToLock(s, p);
    var locked := SetPhase(Taken(s, p), p, HoldingLock);
    SetTwice(Taken(s, p), p, HoldingLock, Requesting(0));
    PlayThree(s, Look(p), Acquire(p), LookAgain(p),
              SetPhase(s, p, WaitingForLock), locked, SetPhase(Taken(s, p), p, Requesting(0)));
  }

  /** Then, with no switch of the VPC pending, its create makes a pending switch that it waits for. */
  lemma CreateAlone(s: State, p: nat)
    requires Missing(s, p, Start) && LockFree(s, s.reconciles[p].vpcId)
    requires !PendingIn(s.switches, s.reconciles[p].vpcId)
    ensures Play(s, LockedSteps(p) + [Request(p, Accepted)]) ==
            SetPhase(AddSwitch(Taken(s, p), p), p, AwaitingReady(|s.switches|))
    ensures var lost := Play(s, LockedSteps(p) + [Request(p, LostReply)]);
            && lost.switches == AddSwitch(s, p).switches && lost.reconciles == SetPhase(s, p, Failed).reconciles
            && LockFree(lost, s.reconciles[p].vpcId)
    ensures var rejected := Play(s, LockedSteps(p) + [Request(p, Rejected)]);
            && rejected.switches == s.switches && rejected.reconciles == SetPhase(s, p, Failed).reconciles
            && LockFree(rejected, s.reconciles[p].vpcId)
  {
    LockedAlone(s, p);
    var ready := SetPhase(Taken(s, p), p, Requesting(0));
    PlayInTwo(s, LockedSteps(p), [Request(p, Rejected)]);
    PlayOne(ready, Request(p, Rejected));
    SetTwice(s, p, Requesting(0), Failed);
    PlayInTwo(s, LockedSteps(p), [Request(p, Accepted)]);
    PlayInTwo(s, LockedSteps(p), [Request(p, LostReply)]);
    PlayOne(ready, Request(p, Accepted));
    PlayOne(ready, Request(p, LostReply));
    SetTwice(AddSwitch(Taken(s, p), p), p, Requesting(0), AwaitingReady(|s.switches|));
    SetTwice(AddSwitch(Taken(s, p), p), p, Requesting(0), Failed);
  }

  function Tries(p: nat, n: nat): seq<Action> {
    seq(n, _ => Request(p, Accepted))
  }

  /** While a switch of the VPC stays pending every try is refused, up to the last, which fails the create. */
  lemma {:induction false} TriesRefused(s: State, p: nat, n: nat)
    requires p < |s.reconciles| && s.reconciles[p].phase.Requesting? && s.reconciles[p].phase.tries + n <= TRIES
    requires PendingIn(s.switches, s.reconciles[p].vpcId) && n >= 1
    ensures Play(s, Tries(p, n)) == Refuse(s, p, s.reconciles[p].phase.tries + n)
    decreases n
  {
    var next := Next(s, Request(p, Accepted));
    assert Tries(p, n)[0] == Request(p, Accepted) && Tries(p, n)[1..] == Tries(p, n - 1);
    if n > 1 {
      var tries := s.reconciles[p].phase.tries;
      TriesRefused(next, p, n - 1);
      SetTwice(s, p, Requesting(tries + 1), Requesting(tries + n));
      SetTwice(s, p, Requesting(tries + 1), Failed);
    }
  }

  /** With a switch of the VPC pending at every try, the same create fails and makes nothing. */
  lemma RefusedAlone(s: State, p: nat)
    requires Missing(s, p, Start) && LockFree(s, s.reconciles[p].vpcId)
    requires PendingIn(s.switches, s.reconciles[p].vpcId)
    ensures var t := Play(s, LockedSteps(p) + Tries(p, 7));
            && t.switches == s.switches && t.reconciles == SetPhase(s, p, Failed).reconciles
            && LockFree(t, s.reconciles[p].vpcId)
  {
    LockedAlone(s, p);
    PlayInTwo(s, LockedSteps(p), Tries(p, TRIES));
    TriesRefused(SetPhase(Taken(s, p), p, Requesting(0)), p, TRIES);
    SetTwice(s, p, Requesting(0), Failed);
  }

  /** With one try left when the only pending switch of the VPC settles, the create goes through. */
  lemma SettledInTime(s: State, p: nat, v: nat, n: nat)
    requires Missing(s, p, Start) && LockFree(s, s.reconciles[p].vpcId) && 1 <= n < 7
    requires v < |s.switches| && s.switches[v].vpcId == s.reconciles[p].vpcId && s.switches[v].pending
    requires forall u | 0 <= u < |s.switches| && u != v && s.switches[u].vpcId == s.reconciles[p].vpcId ::
               !s.switches[u].pending
    ensures var t := Play(s, LockedSteps(p) + Tries(p, n) + [Settle(v)] + [Request(p, Accepted)]);
            && |t.switches| == |s.switches| + 1 && t.switches[|s.switches|] == AddSwitch(s, p).switches[|s.switches|]
            && |t.reconciles| == |s.reconciles| && t.reconciles[p].phase == AwaitingReady(|s.switches|)
  {
    LockedAlone(s, p);
    var locked := SetPhase(Taken(s, p), p, Requesting(0));
    assert s.switches[v] in s.switches;
    TriesRefused(locked, p, n);
    var tried := Refuse(locked, p, n);
    var settled := Next(tried, Settle(v));
    PlayInTwo(s, LockedSteps(p), Tries(p, n));
    PlayInTwo(s, LockedSteps(p) + Tries(p, n), [Settle(v)]);
    PlayInTwo(s, LockedSteps(p) + Tries(p, n) + [Settle(v)], [Request(p, Accepted)]);
    PlayOne(tried, Settle(v));
    PlayOne(settled, Request(p, Accepted));
    assert !PendingIn(settled.switches, s.reconciles[p].vpcId);
  }

  /** The two ways to leave a create behind: give up waiting for it, or lose its reply. */
  function AbandonedSteps(p: nat, timeout: bool): seq<Action> {
    if timeout then LockedSteps(p) + [Request(p, Accepted)] + [GiveUp(p)] else LockedSteps(p) + [Request(p, LostReply)]
  }

  lemma AbandonedAlone(s: State, p: nat, timeout: bool)
    requires Missing(s, p, Start) && LockFree(s, s.reconciles[p].vpcId)
    requires !PendingIn(s.switches, s.reconciles[p].vpcId)
    ensures var t := Play(s, AbandonedSteps(p, timeout));
            && t.switches == AddSwitch(s, p).switches && t.reconciles == SetPhase(s, p, Failed).reconciles
            && LockFree(t, s.reconciles[p].vpcId)
  {
    CreateAlone(s, p);
    if timeout {
      var waiting := SetPhase(AddSwitch(Taken(s, p), p), p, AwaitingReady(|s.switches|));
      PlayInTwo(s, LockedSteps(p) + [Request(p, Accepted)], [GiveUp(p)]);
      PlayOne(waiting, GiveUp(p));
      SetTwice(AddSwitch(s, p), p, AwaitingReady(|s.switches|), Failed);
    }
  }

  /**
   From any start with no switch of the VPC pending: after one reconcile times out or loses its reply, the
   next reconcile of the VPC takes the lock, is refused at every try while the first switch stays pending,
   and fails without its switch.
   */
  lemma AbandonedCreateBlocksTheNext(s: State, p: nat, q: nat, timeout: bool)
    requires IsInitial(s) && Missing(s, p, Start) && Missing(s, q, Start)
    requires !PendingIn(s.switches, s.reconciles[p].vpcId)
    requires s.reconciles[p].vpcId == s.reconciles[q].vpcId && s.reconciles[p].name != s.reconciles[q].name
    requires s.reconciles[q].known.None?
    ensures var t := Play(s, AbandonedSteps(p, timeout) + (LockedSteps(q) + Tries(q, 7)));
            && |t.switches| == |s.switches| + 1
            && q < |t.reconciles| && t.reconciles[q].phase.Failed? && Observe(t.switches, t.reconciles[q]).None?
  {
    AbandonedAlone(s, p, timeout);
    var u := Play(s, AbandonedSteps(p, timeout));
    assert u.reconciles[q] == s.reconciles[q];
    assert u.switches[|s.switches|].pending && u.switches[|s.switches|] in u.switches;
    RefusedAlone(u, q);
    PlayInTwo(s, AbandonedSteps(p, timeout), LockedSteps(q) + Tries(q, TRIES));
    SetTwice(u, q, Failed, Failed);
  }

  // ---- Each name is created at most once ----

  /** Between its second look and its request, a reconcile's name is still missing. */
  ghost predicate StillMissing(s: State) {
    forall p, v | 0 <= p < |s.reconciles| && s.reconciles[p].phase.Requesting? && 0 <= v < |s.switches| ::
      !Named(s.switches[v], s.reconciles[p])
  }

  /** A switch made in this run shares its VPC and name with no other. */
  ghost predicate CreatedOnce(s: State, initial: nat) {
    forall v, u | initial <= v < |s.switches| && 0 <= u < |s.switches| && u != v ::
      !(s.switches[v].vpcId == s.switches[u].vpcId && s.switches[v].name == s.switches[u].name)
  }

  lemma NextKeepsNames(s: State, a: Action, initial: nat)
    requires LocksHeld(s) && StillMissing(s) && CreatedOnce(s, initial) && initial <= |s.switches|
    ensures StillMissing(Next(s, a)) && CreatedOnce(Next(s, a), initial) && initial <= |Next(s, a).switches|
  {
    var t := Next(s, a);
    if a.Request? && |t.switches| > |s.switches| {
      assert t.switches[..|s.switches|] == s.switches;
      assert Named(t.switches[|s.switches|], s.reconciles[a.p]);
    }
  }

  /** Even with rejected, lost and timed-out creates, no reconcile creates a name its VPC already has. */
  lemma {:induction false} EachNameCreatedOnce(s: State, actions: seq<Action>, initial: nat)
    requires LocksHeld(s) && StillMissing(s) && CreatedOnce(s, initial) && initial <= |s.switches|
    ensures CreatedOnce(Play(s, actions), initial)
    decreases |actions|
  {
    if actions != [] {
      NextKeepsLocks(s, actions[0]);
      NextKeepsNames(s, actions[0], initial);
      EachNameCreatedOnce(Next(s, actions[0]), actions[1..], initial);
    }
  }

  lemma EveryRunCreatesOnce(s: State, actions: seq<Action>)
    requires IsInitial(s)
    ensures CreatedOnce(Play(s, actions), |s.switches|)
  {
    EachNameCreatedOnce(s, actions, |s.switches|);
  }

  // ---- Creates complete, and give the lock back ----

  /** What a look finds: the remembered switch while it exists, else the first one of the name. */
  lemma {:induction false} LooksFind(switches: seq<Switch>, r: Reconcile, v: nat)
    ensures Observe(switches, r) == Some(v) <==>
            if r.known.Some? && r.known.value < |switches| then v == r.known.value
            else && v < |switches| && Named(switches[v], r)
                 && forall u | 0 <= u < v :: !Named(switches[u], r)
  {
    FirstFound(switches, r, 0, v);
  }

  lemma {:induction false} FirstFound(switches: seq<Switch>, r: Reconcile, from: nat, v: nat)
    requires from <= |switches|
    ensures FindNamed(switches, r, from) == Some(v) <==>
            from <= v < |switches| && Named(switches[v], r) && forall u | from <= u < v :: !Named(switches[u], r)
    decreases |switches| - from
  {
    if from < |switches| {
      FirstFound(switches, r, from + 1, v);
    }
  }

  /** A switch that is there is taken as it is: at once, or under the lock, which is then given back. */
  lemma FoundIsTaken(s: State, p: nat)
    requires p < |s.reconciles| && Observe(s.switches, s.reconciles[p]).Some?
    ensures var v := Observe(s.switches, s.reconciles[p]).value;
            && (s.reconciles[p].phase.Start? ==> Next(s, Look(p)) == SetPhase(s, p, Found(v)))
            && (s.reconciles[p].phase.HoldingLock? ==>
                  && Next(s, LookAgain(p)) == Leave(s, p, Found(v))
                  && LockFree(Next(s, LookAgain(p)), s.reconciles[p].vpcId))
  {
  }

  /** The switch once it has settled. */
  function AddSettled(s: State, p: nat): State
    requires p < |s.reconciles|
  {
    s.(switches := s.switches + [Switch(s.reconciles[p].vpcId, s.reconciles[p].name, false)])
  }

  function CompletedSteps(p: nat, made: nat): seq<Action> {
    LockedSteps(p) + [Request(p, Accepted)] + [Settle(made)] + [SeeReady(p)]
  }

  /** A reconcile alone, with its name missing and none pending, makes its switch and leaves the lock free. */
  lemma CompletedAlone(s: State, p: nat)
    requires Missing(s, p, Start) && LockFree(s, s.reconciles[p].vpcId)
    requires !PendingIn(s.switches, s.reconciles[p].vpcId)
    ensures var t := Play(s, CompletedSteps(p, |s.switches|));
            && t.switches == AddSettled(s, p).switches && t.abandoned == s.abandoned
            && t.reconciles == SetPhase(s, p, Found(|s.switches|)).reconciles
            && t.locks == s.locks[s.reconciles[p].vpcId := None]
  {
    var made := |s.switches|;
    CreateAlone(s, p);
    var waiting := SetPhase(AddSwitch(Taken(s, p), p), p, AwaitingReady(made));
    var settled := Next(waiting, Settle(made));
    PlayInTwo(s, LockedSteps(p) + [Request(p, Accepted)], [Settle(made)]);
    PlayInTwo(s, LockedSteps(p) + [Request(p, Accepted)] + [Settle(made)], [SeeReady(p)]);
    PlayOne(waiting, Settle(made));
    PlayOne(settled, SeeReady(p));
    assert settled.switches == AddSettled(s, p).switches;
  }

  /** So the next reconcile of the VPC makes its own switch in turn. */
  lemma CompletedInTurn(s: State, p: nat, q: nat)
    requires Missing(s, p, Start) && Missing(s, q, Start) && LockFree(s, s.reconciles[p].vpcId)
    requires s.reconciles[p].vpcId == s.reconciles[q].vpcId && s.reconciles[p].name != s.reconciles[q].name
    requires s.reconciles[q].known.None? && !PendingIn(s.switches, s.reconciles[p].vpcId)
    ensures var n := |s.switches|;
            var t := Play(s, CompletedSteps(p, n) + CompletedSteps(q, n + 1));
            && |t.switches| == n + 2 && !PendingIn(t.switches, s.reconciles[p].vpcId)
            && |t.reconciles| == |s.reconciles|
            && t.reconciles[p].phase == Found(n) && t.reconciles[q].phase == Found(n + 1)
            && LockFree(t, s.reconciles[p].vpcId)
  {
    var n := |s.switches|;
    CompletedAlone(s, p);
    var u := Play(s, CompletedSteps(p, n));
    assert u.reconciles[q] == s.reconciles[q];
    CompletedAlone(u, q);
    PlayInTwo(s, CompletedSteps(p, n), CompletedSteps(q, n + 1));
  }

  // ---- No interleaving ends in a deadlock ----

  /** A lock that is held is held by a reconcile inside its locked section. */
  ghost predicate HoldersInside(s: State) {
    forall v | v in s.locks && s.locks[v].Some? ::
      && s.locks[v].value < |s.reconciles|
      && InsideLock(s.reconciles[s.locks[v].value].phase) && s.reconciles[s.locks[v].value].vpcId == v
  }

  ghost predicate WaitedForExist(s: State) {
    forall p | 0 <= p < |s.reconciles| && s.reconciles[p].phase.AwaitingReady? ::
      s.reconciles[p].phase.id < |s.switches|
  }

  ghost predicate Sound(s: State) {
    LocksHeld(s) && HoldersInside(s) && WaitedForExist(s)
  }

  lemma NextKeepsHolders(s: State, a: Action)
    requires LocksHeld(s) && HoldersInside(s)
    ensures HoldersInside(Next(s, a))
  {
    var t := Next(s, a);
    forall v | v in t.locks && t.locks[v].Some?
      ensures var q := t.locks[v].value;
              q < |t.reconciles| && InsideLock(t.reconciles[q].phase) && t.reconciles[q].vpcId == v
    {
      if v in s.locks && s.locks[v] == t.locks[v] {
        HolderStays(s, a, v);
      } else {
        assert a.Acquire? && t.locks[v] == Some(a.p);
      }
    }
  }

  /** Whoever keeps a lock stays inside its section. */
  lemma HolderStays(s: State, a: Action, v: nat)
    requires LocksHeld(s) && HoldersInside(s) && v in s.locks && s.locks[v].Some?
    requires v in Next(s, a).locks && Next(s, a).locks[v] == s.locks[v]
    ensures var t, q := Next(s, a), s.locks[v].value;
            q < |t.reconciles| && InsideLock(t.reconciles[q].phase) && t.reconciles[q].vpcId == v
  {
    var q := s.locks[v].value;
    if Actor(a) != Some(q) {
      assert Next(s, a).reconciles[q] == s.reconciles[q];
    }
  }

  lemma NextKeepsWaitedFor(s: State, a: Action)
    requires WaitedForExist(s)
    ensures WaitedForExist(Next(s, a))
  {
  }

  lemma {:induction false} PlayKeepsSound(s: State, actions: seq<Action>)
    requires Sound(s)
    ensures Sound(Play(s, actions)) && |Play(s, actions).reconciles| == |s.reconciles|
    decreases |actions|
  {
    if actions != [] {
      NextKeepsLocks(s, actions[0]);
      NextKeepsHolders(s, actions[0]);
      NextKeepsWaitedFor(s, actions[0]);
      PlayKeepsSound(Next(s, actions[0]), actions[1..]);
    }
  }

  function SettleSteps(n: nat): seq<Action> {
    seq(n, i requires 0 <= i < n => Settle(i))
  }

  /** Every switch up to `n` has settled; nothing else has moved. */
  ghost predicate OnlySettled(s: State, t: State, n: nat) {
    && t == s.(switches := t.switches) && |t.switches| == |s.switches| && n <= |s.switches|
    && (forall v | 0 <= v < n :: !t.switches[v].pending)
    && forall v | 0 <= v < |s.switches| :: t.switches[v] in {s.switches[v], s.switches[v].(pending := false)}
  }

  lemma {:induction false} AllSettle(s: State, n: nat)
    requires n <= |s.switches|
    ensures OnlySettled(s, Play(s, SettleSteps(n)), n)
    decreases n
  {
    if n > 0 {
      AllSettle(s, n - 1);
      assert SettleSteps(n) == SettleSteps(n - 1) + [Settle(n - 1)];
      PlayInTwo(s, SettleSteps(n - 1), [Settle(n - 1)]);
      PlayOne(Play(s, SettleSteps(n - 1)), Settle(n - 1));
    }
  }

  /** `p` has what it came for, its lock is free, and no other reconcile has moved. */
  ghost predicate Finished(s: State, t: State, p: nat)
    requires p < |s.reconciles|
  {
    && |t.reconciles| == |s.reconciles| && t.reconciles[p].phase.Found?
    && (forall q | 0 <= q < |s.reconciles| && q != p :: t.reconciles[q] == s.reconciles[q])
    && (InsideLock(s.reconciles[p].phase) ==> LockFree(t, s.reconciles[p].vpcId))
  }

  lemma AwaitingFinishes(s: State, p: nat) returns (actions: seq<Action>)
    requires p < |s.reconciles| && s.reconciles[p].phase.AwaitingReady? && s.reconciles[p].phase.id < |s.switches|
    ensures Finished(s, Play(s, actions), p)
  {
    var v := s.reconciles[p].phase.id;
    actions := [Settle(v)] + [SeeReady(p)];
    PlayInTwo(s, [Settle(v)], [SeeReady(p)]);
    PlayOne(s, Settle(v));
    PlayOne(Next(s, Settle(v)), SeeReady(p));
  }

  lemma RequestingFinishes(s: State, p: nat) returns (actions: seq<Action>)
    requires p < |s.reconciles| && s.reconciles[p].phase.Requesting?
    ensures Finished(s, Play(s, actions), p)
  {
    var n := |s.switches|;
    AllSettle(s, n);
    var settled := Play(s, SettleSteps(n));
    var asked := Next(settled, Request(p, Accepted));
    assert !PendingIn(settled.switches, s.reconciles[p].vpcId);
    assert asked.reconciles[p].phase == AwaitingReady(n) && |asked.switches| == n + 1;
    var rest := AwaitingFinishes(asked, p);
    actions := SettleSteps(n) + [Request(p, Accepted)] + rest;
    PlayInTwo(s, SettleSteps(n), [Request(p, Accepted)]);
    PlayOne(settled, Request(p, Accepted));
    PlayInTwo(s, SettleSteps(n) + [Request(p, Accepted)], rest);
  }

  /** From inside its locked section a reconcile can always finish, without any other moving. */
  lemma InsideFinishes(s: State, p: nat) returns (actions: seq<Action>)
    requires WaitedForExist(s) && p < |s.reconciles| && InsideLock(s.reconciles[p].phase)
    ensures Finished(s, Play(s, actions), p)
  {
    match s.reconciles[p].phase
    case AwaitingReady(_) => actions := AwaitingFinishes(s, p);
    case Requesting(_) => actions := RequestingFinishes(s, p);
    case HoldingLock =>
      var looked := Next(s, LookAgain(p));
      PlayOne(s, LookAgain(p));
      if looked.reconciles[p].phase.Requesting? {
        var rest := RequestingFinishes(looked, p);
        actions := [LookAgain(p)] + rest;
        PlayInTwo(s, [LookAgain(p)], rest);
      } else {
        actions := [LookAgain(p)];
      }
  }

  lemma WaitingFinishes(s: State, p: nat) returns (actions: seq<Action>)
    requires Sound(s) && p < |s.reconciles| && s.reconciles[p].phase.WaitingForLock?
    ensures |Play(s, actions).reconciles| == |s.reconciles| && Play(s, actions).reconciles[p].phase.Found?
  {
    var vpcId := s.reconciles[p].vpcId;
    var first: seq<Action> := [];
    if !LockFree(s, vpcId) {
      first := InsideFinishes(s, s.locks[vpcId].value);
    } else {
      assert Play(s, first) == s;
    }
    var free := Play(s, first);
    PlayKeepsSound(s, first);
    var held := Next(free, Acquire(p));
    var rest := InsideFinishes(held, p);
    actions := first + [Acquire(p)] + rest;
    PlayInTwo(s, first, [Acquire(p)]);
    PlayOne(free, Acquire(p));
    PlayInTwo(s, first + [Acquire(p)], rest);
  }

  /**
   From every reachable state every reconcile that has not failed can still get its switch: whatever the others
   did, each lock is given back and each created switch is taken.
   */
  lemma EveryReconcileCanFinish(s: State, actions: seq<Action>, p: nat)
    requires IsInitial(s) && p < |s.reconciles|
    requires p < |Play(s, actions).reconciles| && !Play(s, actions).reconciles[p].phase.Failed?
    ensures exists more :: |Play(s, actions + more).reconciles| == |s.reconciles|
                           && Play(s, actions + more).reconciles[p].phase.Found?
  {
    PlayKeepsSound(s, actions);
    var t := Play(s, actions);
    var more: seq<Action> := [];
    match t.reconciles[p].phase {
      case Found(_) => assert Play(t, more) == t;
      case Start =>
        var looked := Next(t, Look(p));
        PlayOne(t, Look(p));
        more := [Look(p)];
        if looked.reconciles[p].phase.WaitingForLock? {
          PlayKeepsSound(t, [Look(p)]);
          var rest := WaitingFinishes(looked, p);
          more := [Look(p)] + rest;
          PlayInTwo(t, [Look(p)], rest);
        }
      case WaitingForLock => more := WaitingFinishes(t, p);
      case _ => more := InsideFinishes(t, p);
    }
    PlayInTwo(s, actions, more);
    PlayKeepsSound(s, actions + more);
    assert Play(s, actions + more).reconciles[p].phase.Found?;
  }
}
