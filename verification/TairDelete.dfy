/**
 Deleting a Tair instance: release it to the recycle bin, then destroy it for good. The inventory can
 contradict itself, so each request must be licensed by the latest observation. A remote is a record of
 functions from its state to its next state and an answer; nothing is assumed of how it answers.
 */
module TairDelete {
  import opened Wrappers
  import opened Lifecycle

  datatype Status = Normal | Creating | Deleting | Releasing | Released | Unknown

  datatype OverviewItem = OverviewItem(instanceId: Option<nat>, instanceName: Option<string>, status: Status)

  datatype Instance = Instance(instanceId: Option<nat>, instanceName: Option<string>, status: Status, protected: bool)

  datatype ListItem = ListItem(instanceId: Option<nat>, instanceName: Option<string>)

  datatype Presence =
    | Absent
    | Visible(id: nat)
    | InRecycleBin(id: nat)
    | Live(id: nat, raw: Instance)

  datatype TairApi<!S> = TairApi(
    overview: (S, nat) -> (S, Answer<seq<OverviewItem>>),
    detail: (S, nat) -> (S, Answer<Option<Instance>>),
    list: S -> (S, Answer<seq<ListItem>>),
    disableProtection: (S, nat) -> (S, Answer<()>),
    delete: (S, nat) -> (S, Answer<()>),
    destroy: (S, nat) -> (S, Answer<()>))

  datatype Event =
    | Observed(presence: Presence)
    | SentDisable(id: nat)
    | SentDelete(id: nat)
    | SentDestroy(id: nat)
    | Faulted(error: ApiError)
    | Checked(found: Option<Instance>)

  /** A request as the trace shows it: that it was sent, and the fault it was answered with, if any. */
  function Sent(trace: seq<Event>, request: Event, answer: Answer<()>): seq<Event> {
    if answer.Fault? then trace + [request] + [Faulted(answer.error)] else trace + [request]
  }

  /** A run so far: the remote's state, and what was observed and sent. */
  datatype Run<S> = Run(remote: S, trace: seq<Event>)

  datatype Failure =
    | ObservationConflict
    | WaitTimeout
    | ProviderError(error: ApiError)
    | UnsafeTransition(from: Presence)

  predicate IsDeleting(i: Instance) {
    i.status.Deleting? || i.status.Releasing?
  }

  /** `Effect.catchIf(isNotFound, ...)` */
  function OrElse<V>(answer: Answer<V>, absent: V): Answer<V> {
    if answer.Fault? && answer.error.code.NotFound? then Value(absent) else answer
  }

  function Find<T(!new)>(items: seq<T>, test: T -> bool): (found: Option<T>)
    ensures found.Some? ==> found.value in items && test(found.value)
    ensures found.None? ==> forall i | i in items :: !test(i)
  {
    if items == [] then None
    else if test(items[0]) then Some(items[0])
    else Find(items[1..], test)
  }

  function PresenceFromOverview(items: seq<OverviewItem>, id: nat, name: string): Presence {
    match Find(items, (i: OverviewItem) => i.instanceId == Some(id) || i.instanceName == Some(name))
    case None => Absent
    case Some(i) =>
      if i.instanceId.None? then Absent
      else if i.status.Released? then InRecycleBin(i.instanceId.value)
      else Visible(i.instanceId.value)
  }

  function WithFallback(i: Instance, id: nat, name: string): Instance {
    i.(instanceId := if i.instanceId.None? then Some(id) else i.instanceId,
       instanceName := if i.instanceName.None? then Some(name) else i.instanceName)
  }

  function GetById<S>(api: TairApi<S>, s: S, id: nat, name: string): (S, Answer<Option<Instance>>) {
    var (s1, answer) := api.detail(s, id);
    match answer
    case Value(Some(i)) => (s1, Value(Some(WithFallback(i, id, name))))
    case _ => (s1, OrElse(answer, None))
  }

  function FindByName<S>(api: TairApi<S>, s: S, name: string): (S, Answer<Option<Instance>>) {
    var (s1, answer) := api.list(s);
    match OrElse(answer, [])
    case Fault(e) => (s1, Fault(e))
    case Value(items) =>
      var named := Find(items, (i: ListItem) => i.instanceName == Some(name));
      if named.None? || named.value.instanceId.None? then (s1, Value(None))
      else GetById(api, s1, named.value.instanceId.value, name)
  }

  function Observe<S>(api: TairApi<S>, s: S, id: nat, name: string): (S, Answer<Option<Instance>>) {
    var (s1, byId) := GetById(api, s, id, name);
    if byId == Value(None) then FindByName(api, s1, name) else (s1, byId)
  }

  function PresenceOf(seen: Presence, live: Option<Instance>): Presence {
    if live.Some? && live.value.instanceId.Some? then Live(live.value.instanceId.value, live.value) else seen
  }

  function Look<S>(api: TairApi<S>, s: S, id: nat, name: string): (S, Answer<Presence>) {
    var (s1, overview) := api.overview(s, id);
    match OrElse(overview, [])
    case Fault(e) => (s1, Fault(e))
    case Value(items) =>
      var seen := PresenceFromOverview(items, id, name);
      if seen.InRecycleBin? then
        (s1, Value(seen))
      else
        var (s2, live) := Observe(api, s1, id, name);
        (s2, match live
             case Fault(e) => Fault(e)
             case Value(i) => Value(PresenceOf(seen, i)))
  }

  /** An instance whose detail is read is live, under the id asked for unless the answer names another. */
  lemma DetailIsLive<S>(api: TairApi<S>, s: S, id: nat, name: string, i: Instance)
    requires api.overview(s, id).1.Value?
    requires !PresenceFromOverview(api.overview(s, id).1.value, id, name).InRecycleBin?
    requires api.detail(api.overview(s, id).0, id).1 == Value(Some(i))
    ensures var answer := Look(api, s, id, name).1;
            && answer.Value? && answer.value.Live?
            && answer.value.id == (if i.instanceId.Some? then i.instanceId.value else id)
            && answer.value.raw.status == i.status && answer.value.raw.protected == i.protected
            && answer.value.raw.instanceName == (if i.instanceName.Some? then i.instanceName else Some(name))
  {
  }

  /** `observePresence`, recorded in the trace when it succeeds. */
  function ObservePresence<S>(api: TairApi<S>, r: Run<S>, id: nat, name: string): (Run<S>, Answer<Presence>) {
    var (s, answer) := Look(api, r.remote, id, name);
    (Run(s, r.trace + if answer.Value? then [Observed(answer.value)] else []), answer)
  }

  function Reading<S>(api: TairApi<S>, id: nat, name: string): Run<S> -> (Run<S>, Answer<Presence>) {
    (r: Run<S>) => ObservePresence(api, r, id, name)
  }

  /** `waitFor` over presence observations. */
  function Await<S>(api: TairApi<S>, r: Run<S>, id: nat, name: string, ready: Presence -> bool, attempts: nat)
    : (Run<S>, Result<Presence, Failure>)
    requires attempts >= 1
  {
    var (next, result) := WaitFor(r, Reading(api, id, name), ready, attempts);
    (next, match result
           case Ok(p) => Ok(p)
           case Err(TimedOut) => Err(WaitTimeout)
           case Err(Provider(e)) => Err(ProviderError(e)))
  }

  predicate Consistent(p: Presence) {
    !p.Visible?
  }

  predicate IsReleased(p: Presence) {
    p.InRecycleBin? || p.Absent?
  }

  predicate IsAbsent(p: Presence) {
    p.Absent?
  }

  function ObserveForDelete<S>(api: TairApi<S>, r: Run<S>, id: nat, name: string, attempts: nat)
    : (Run<S>, Result<Presence, Failure>)
    requires attempts >= 1
  {
    var (next, result) := Await(api, r, id, name, Consistent, attempts);
    (next, if result == Err(WaitTimeout) then Err(ObservationConflict) else result)
  }

  /** The request to switch protection off, and the detail read that a fault is followed by. */
  function DisableTrace<S>(api: TairApi<S>, r: Run<S>, id: nat, name: string): seq<Event> {
    var (s, answer) := api.disableProtection(r.remote, id);
    var read := GetById(api, s, id, name).1;
    Sent(r.trace, SentDisable(id), answer) + if answer.Fault? && read.Value? then [Checked(read.value)] else []
  }

  /** Switches release protection off if the observation shows it on, and observes again. */
  function Unprotect<S>(api: TairApi<S>, r: Run<S>, p: Presence, id: nat, name: string, attempts: nat)
    : (Run<S>, Result<Presence, Failure>)
    requires attempts >= 1 && p.Live?
  {
    if IsDeleting(p.raw) || !p.raw.protected then
      (r, Ok(p))
    else
      var (s, answer) := RequestOrContinueDelete(
        r.remote, (s: S) => api.disableProtection(s, id), (s: S) => GetById(api, s, id, name), IsDeleting);
      var sent := Run(s, DisableTrace(api, r, id, name));
      if answer.Fault? then (sent, Err(ProviderError(answer.error)))
      else ObserveForDelete(api, sent, id, name, attempts)
  }

  predicate DeletingOrReleased(i: Instance) {
    IsDeleting(i) || i.status.Released?
  }

  function LiveInstance(p: Presence): Option<Instance> {
    if p.Live? then Some(p.raw) else None
  }

  /** A presence observation mapped to the live instance it found, if any. */
  function ObserveLive<S>(api: TairApi<S>, id: nat, name: string): Run<S> -> (Run<S>, Answer<Option<Instance>>) {
    (r: Run<S>) =>
      var (next, answer) := ObservePresence(api, r, id, name);
      (next, match answer
             case Value(p) => Value(LiveInstance(p))
             case Fault(e) => Fault(e))
  }

  function SendDelete<S>(api: TairApi<S>, id: nat): Run<S> -> (Run<S>, Answer<()>) {
    (r: Run<S>) =>
      var (s, answer) := api.delete(r.remote, id);
      (Run(s, Sent(r.trace, SentDelete(id), answer)), answer)
  }

  function AskDelete<S>(api: TairApi<S>, r: Run<S>, p: Presence, id: nat, name: string): (Run<S>, Answer<()>) {
    if p.Live? && !DeletingOrReleased(p.raw) then
      RequestOrContinueDelete(r, SendDelete(api, id), ObserveLive(api, id, name), DeletingOrReleased)
    else
      (r, Value(()))
  }

  /** From live to the recycle bin, or to absence. */
  function Release<S>(api: TairApi<S>, r: Run<S>, p: Presence, id: nat, name: string, attempts: nat)
    : (Run<S>, Result<Presence, Failure>)
    requires attempts >= 1 && p.Live?
  {
    var (r1, unprotected) := Unprotect(api, r, p, id, name, attempts);
    if unprotected.Err? then
      (r1, unprotected)
    else
      var (r2, asked) := AskDelete(api, r1, unprotected.value, id, name);
      if asked.Fault? then (r2, Err(ProviderError(asked.error)))
      else Await(api, r2, id, name, IsReleased, attempts)
  }

  function Confirm<S>(api: TairApi<S>, r: Run<S>, id: nat, name: string, attempts: nat): (Run<S>, Result<(), Failure>)
    requires attempts >= 1
  {
    var (last, absent) := Await(api, r, id, name, IsAbsent, attempts);
    (last, match absent
           case Ok(_) => Ok(())
           case Err(e) => Err(e))
  }

  /** Destroys what the recycle bin holds, and waits until it is absent. */
  function Finish<S>(api: TairApi<S>, r: Run<S>, p: Presence, id: nat, name: string, attempts: nat)
    : (Run<S>, Result<(), Failure>)
    requires attempts >= 1
  {
    if p.Visible? || p.Live? then
      (r, Err(UnsafeTransition(p)))
    else if p.Absent? then
      Confirm(api, r, id, name, attempts)
    else
      var (s, answer) := api.destroy(r.remote, p.id);
      var sent := Run(s, Sent(r.trace, SentDestroy(p.id), answer));
      var destroyed := OrElse(answer, ());
      if destroyed.Fault? then (sent, Err(ProviderError(destroyed.error)))
      else Confirm(api, sent, id, name, attempts)
  }

  /** The whole deletion, as a function of the remote and its first state. */
  function DeleteRun<S>(api: TairApi<S>, s: S, id: nat, name: string, attempts: nat): (Run<S>, Result<(), Failure>)
    requires attempts >= 1
  {
    var (r, first) := ObserveForDelete(api, Run(s, []), id, name, attempts);
    if first.Err? then (r, Err(first.error))
    else if first.value.Absent? then (r, Ok(()))
    else if !first.value.Live? then Finish(api, r, first.value, id, name, attempts)
    else
      var (r1, released) := Release(api, r, first.value, id, name, attempts);
      if released.Err? then (r1, Err(released.error)) else Finish(api, r1, released.value, id, name, attempts)
  }

  /** The deletion as the program runs it, reassigning `presence` as observations come in. */
  method Delete<S>(api: TairApi<S>, s: S, id: nat, name: string, attempts: nat)
    returns (r: Run<S>, outcome: Result<(), Failure>)
    requires attempts >= 1
    ensures (r, outcome) == DeleteRun(api, s, id, name, attempts)
  {
    var step1 := ObserveForDelete(api, Run(s, []), id, name, attempts);
    var presence := step1.1;
    r := step1.0;
    if presence.Err? {
      return r, Err(presence.error);
    }
    if presence.value.Absent? {
      return r, Ok(());
    }
    if presence.value.Live? {
      var step2 := Unprotect(api, r, presence.value, id, name, attempts);
      r, presence := step2.0, step2.1;
      if presence.Err? {
        return r, Err(presence.error);
      }
      var step3 := AskDelete(api, r, presence.value, id, name);
      r := step3.0;
      if step3.1.Fault? {
        return r, Err(ProviderError(step3.1.error));
      }
      var step4 := Await(api, r, id, name, IsReleased, attempts);
      r, presence := step4.0, step4.1;
      if presence.Err? {
        return r, Err(presence.error);
      }
    }
    var step5 := Finish(api, r, presence.value, id, name, attempts);
    r, outcome := step5.0, step5.1;
  }

  // ---- What every trace keeps ----

  /** The latest presence observation of a trace. */
  function Latest(trace: seq<Event>): Option<Presence> {
    if trace == [] then None
    else
      var last := trace[|trace| - 1];
      if last.Observed? then Some(last.presence) else Latest(trace[..|trace| - 1])
  }

  function Rank(e: Event): nat {
    match e
    case Observed(_) => 0
    case SentDisable(_) => 1
    case SentDelete(_) => 2
    case SentDestroy(_) => 3
    case Faulted(_) => 0
    case Checked(_) => 0
  }

  /** Whether an observation allows a request to be sent. */
  predicate Allows(p: Presence, request: Event, id: nat) {
    match request
    case Observed(_) => true
    case SentDisable(target) => target == id && p.Live? && !IsDeleting(p.raw) && p.raw.protected
    case SentDelete(target) => target == id && p.Live? && !IsDeleting(p.raw) && !p.raw.status.Released?
    case SentDestroy(target) => p == InRecycleBin(target)
    case Faulted(_) => true
    case Checked(_) => true
  }

  /**
   Requests come in order and at most once each, and only on the observation that allows them;
   `own` says that no other instance is to be seen in the recycle bin.
   */
  predicate Licensed(before: seq<Event>, e: Event, id: nat, own: bool) {
    || e.Faulted? || e.Checked?
    || (e.Observed? && (own && e.presence.InRecycleBin? ==> e.presence.id == id))
    || (&& !e.Observed? && !e.Faulted? && !e.Checked? && (forall i | 0 <= i < |before| :: Rank(before[i]) < Rank(e))
        && Latest(before).Some? && Allows(Latest(before).value, e, id))
  }

  ghost predicate SafeTrace(trace: seq<Event>, id: nat, own: bool) {
    forall i | 0 <= i < |trace| :: Licensed(trace[..i], trace[i], id, own)
  }

  /** No request of rank `rank` or above has been sent. */
  ghost predicate Below(trace: seq<Event>, rank: nat) {
    forall i | 0 <= i < |trace| :: Rank(trace[i]) < rank
  }

  lemma Logged(trace: seq<Event>, e: Event, id: nat, own: bool)
    requires SafeTrace(trace, id, own) && Licensed(trace, e, id, own)
    ensures SafeTrace(trace + [e], id, own)
    ensures Latest(trace + [e]) == if e.Observed? then Some(e.presence) else Latest(trace)
    ensures forall rank :: Below(trace, rank) && Rank(e) < rank ==> Below(trace + [e], rank)
  {
    var longer := trace + [e];
    assert longer[..|trace|] == trace;
    forall i | 0 <= i < |longer|
      ensures Licensed(longer[..i], longer[i], id, own)
    {
      assert i < |trace| ==> longer[..i] == trace[..i];
    }
  }

  /** The overview of the instance holds no row of another one. */
  ghost predicate OwnRows<S(!new)>(api: TairApi<S>, id: nat) {
    forall s: S {:trigger api.overview(s, id)} | api.overview(s, id).1.Value? ::
      forall i | i in api.overview(s, id).1.value :: i.instanceId.Some? ==> i.instanceId == Some(id)
  }

  /** A request that is allowed keeps a trace safe, with the fault it may be answered with. */
  lemma SendingIsSafe(trace: seq<Event>, request: Event, answer: Answer<()>, id: nat, own: bool)
    requires SafeTrace(trace, id, own) && Licensed(trace, request, id, own) && !request.Observed?
    ensures SafeTrace(Sent(trace, request, answer), id, own)
    ensures Latest(Sent(trace, request, answer)) == Latest(trace)
    ensures forall rank :: Below(trace, rank) && Rank(request) < rank ==> Below(Sent(trace, request, answer), rank)
  {
    Logged(trace, request, id, own);
    if answer.Fault? {
      Logged(trace + [request], Faulted(answer.error), id, own);
    }
  }

  lemma LookIsOwn<S(!new)>(api: TairApi<S>, s: S, id: nat, name: string)
    ensures var answer := Look(api, s, id, name).1;
            answer.Value? && answer.value.InRecycleBin? && OwnRows(api, id) ==> answer.value.id == id
  {
    var overview := api.overview(s, id).1;
  }

  /** One observation keeps a trace safe, and is the latest. */
  lemma LookingIsSafe<S(!new)>(api: TairApi<S>, r: Run<S>, id: nat, name: string, rank: nat)
    requires SafeTrace(r.trace, id, OwnRows(api, id)) && Below(r.trace, rank) && rank >= 1
    ensures var (next, answer) := ObservePresence(api, r, id, name);
            && SafeTrace(next.trace, id, OwnRows(api, id)) && Below(next.trace, rank)
            && (answer.Value? ==> Latest(next.trace) == Some(answer.value))
  {
    var answer := Look(api, r.remote, id, name).1;
    LookIsOwn(api, r.remote, id, name);
    if answer.Value? {
      Logged(r.trace, Observed(answer.value), id, OwnRows(api, id));
    } else {
      assert r.trace + [] == r.trace;
    }
  }

  /** Observing any number of times keeps a trace safe, and leaves what it reports as the latest. */
  lemma {:induction false} ObservingIsSafe<S(!new)>(
    api: TairApi<S>, r: Run<S>, id: nat, name: string, ready: Presence -> bool, retryRead: ApiError -> bool,
    attempts: nat, rank: nat)
    requires attempts >= 1 && SafeTrace(r.trace, id, OwnRows(api, id)) && Below(r.trace, rank) && rank >= 1
    ensures var (next, result) := ObserveUntil(r, Reading(api, id, name), ready, retryRead, attempts);
            && SafeTrace(next.trace, id, OwnRows(api, id)) && Below(next.trace, rank)
            && (result.Completed? ==> Latest(next.trace) == Some(result.value) && ready(result.value))
    decreases attempts
  {
    var (next, answer) := ObservePresence(api, r, id, name);
    assert Reading(api, id, name)(r) == (next, answer);
    LookingIsSafe(api, r, id, name, rank);
    if attempts > 1 && !Decisive(answer, ready, retryRead) {
      ObservingIsSafe(api, next, id, name, ready, retryRead, attempts - 1, rank);
    }
  }

  lemma AwaitIsSafe<S(!new)>(
    api: TairApi<S>, r: Run<S>, id: nat, name: string, ready: Presence -> bool, attempts: nat, rank: nat)
    requires attempts >= 1 && SafeTrace(r.trace, id, OwnRows(api, id)) && Below(r.trace, rank) && rank >= 1
    ensures var (next, result) := Await(api, r, id, name, ready, attempts);
            && SafeTrace(next.trace, id, OwnRows(api, id)) && Below(next.trace, rank)
            && (result.Ok? ==> Latest(next.trace) == Some(result.value) && ready(result.value))
            && (result.Err? ==> !result.error.UnsafeTransition?)
  {
    ObservingIsSafe(api, r, id, name, ready, IsRetryableObservation, attempts, rank);
  }

  lemma DisablingIsSafe<S(!new)>(api: TairApi<S>, r: Run<S>, p: Presence, id: nat, name: string)
    requires p.Live? && !IsDeleting(p.raw) && p.raw.protected
    requires SafeTrace(r.trace, id, OwnRows(api, id)) && Below(r.trace, 1) && Latest(r.trace) == Some(p)
    ensures SafeTrace(DisableTrace(api, r, id, name), id, OwnRows(api, id)) && Below(DisableTrace(api, r, id, name), 2)
  {
    var (s, answer) := api.disableProtection(r.remote, id);
    var read := GetById(api, s, id, name).1;
    var sent := Sent(r.trace, SentDisable(id), answer);
    SendingIsSafe(r.trace, SentDisable(id), answer, id, OwnRows(api, id));
    if answer.Fault? && read.Value? {
      Logged(sent, Checked(read.value), id, OwnRows(api, id));
    } else {
      assert sent + [] == sent;
    }
  }

  lemma UnprotectIsSafe<S(!new)>(api: TairApi<S>, r: Run<S>, p: Presence, id: nat, name: string, attempts: nat)
    requires attempts >= 1 && p.Live?
    requires SafeTrace(r.trace, id, OwnRows(api, id)) && Below(r.trace, 1) && Latest(r.trace) == Some(p)
    ensures var (next, result) := Unprotect(api, r, p, id, name, attempts);
            && SafeTrace(next.trace, id, OwnRows(api, id)) && Below(next.trace, 2)
            && (result.Ok? ==> Latest(next.trace) == Some(result.value) && !result.value.Visible?)
            && (result.Err? ==> !result.error.UnsafeTransition?)
  {
    if !IsDeleting(p.raw) && p.raw.protected {
      DisablingIsSafe(api, r, p, id, name);
      var (s, answer) := RequestOrContinueDelete(
        r.remote, (s: S) => api.disableProtection(s, id), (s: S) => GetById(api, s, id, name), IsDeleting);
      AwaitIsSafe(api, Run(s, DisableTrace(api, r, id, name)), id, name, Consistent, attempts, 2);
    }
  }

  lemma AskDeleteIsSafe<S(!new)>(api: TairApi<S>, r: Run<S>, p: Presence, id: nat, name: string)
    requires SafeTrace(r.trace, id, OwnRows(api, id)) && Below(r.trace, 2) && Latest(r.trace) == Some(p)
    ensures var (next, _) := AskDelete(api, r, p, id, name);
            SafeTrace(next.trace, id, OwnRows(api, id)) && Below(next.trace, 3)
  {
    if p.Live? && !DeletingOrReleased(p.raw) {
      AskingIsSafe(api, r, p, id, name);
    }
  }

  lemma AskingIsSafe<S(!new)>(api: TairApi<S>, r: Run<S>, p: Presence, id: nat, name: string)
    requires p.Live? && !DeletingOrReleased(p.raw)
    requires SafeTrace(r.trace, id, OwnRows(api, id)) && Below(r.trace, 2) && Latest(r.trace) == Some(p)
    ensures var next :=
              RequestOrContinueDelete(r, SendDelete(api, id), ObserveLive(api, id, name), DeletingOrReleased).0;
            SafeTrace(next.trace, id, OwnRows(api, id)) && Below(next.trace, 3)
  {
    var (sent, answer) := SendDelete(api, id)(r);
    SendingIsSafe(r.trace, SentDelete(id), answer, id, OwnRows(api, id));
    if answer.Fault? {
      LookingIsSafe(api, sent, id, name, 3);
    }
  }

  lemma FinishIsSafe<S(!new)>(api: TairApi<S>, r: Run<S>, p: Presence, id: nat, name: string, attempts: nat)
    requires attempts >= 1 && IsReleased(p)
    requires SafeTrace(r.trace, id, OwnRows(api, id)) && Below(r.trace, 3) && Latest(r.trace) == Some(p)
    ensures var (last, outcome) := Finish(api, r, p, id, name, attempts);
            && SafeTrace(last.trace, id, OwnRows(api, id))
            && (outcome.Ok? ==> Latest(last.trace) == Some(Absent))
            && (outcome.Err? ==> !outcome.error.UnsafeTransition?)
  {
    if p.Absent? {
      AwaitIsSafe(api, r, id, name, IsAbsent, attempts, 4);
    } else {
      var (s, answer) := api.destroy(r.remote, p.id);
      SendingIsSafe(r.trace, SentDestroy(p.id), answer, id, OwnRows(api, id));
      AwaitIsSafe(api, Run(s, Sent(r.trace, SentDestroy(p.id), answer)), id, name, IsAbsent, attempts, 4);
    }
  }

  /**
   Whatever the remote answers: every request is licensed by the latest observation, each kind is sent at
   most once and in order, success means the instance was last observed absent, and neither refusal to
   destroy an unreleased instance can be reached.
   */
  lemma DeleteIsSafe<S(!new)>(api: TairApi<S>, s: S, id: nat, name: string, attempts: nat)
    requires attempts >= 1
    ensures var (r, outcome) := DeleteRun(api, s, id, name, attempts);
            && SafeTrace(r.trace, id, OwnRows(api, id))
            && (outcome.Ok? ==> Latest(r.trace) == Some(Absent))
            && (outcome.Err? ==> !outcome.error.UnsafeTransition?)
  {
    var (r, first) := ObserveForDelete(api, Run(s, []), id, name, attempts);
    AwaitIsSafe(api, Run(s, []), id, name, Consistent, attempts, 1);
    if first.Ok? && first.value.Live? {
      UnprotectIsSafe(api, r, first.value, id, name, attempts);
      var (r1, unprotected) := Unprotect(api, r, first.value, id, name, attempts);
      if unprotected.Ok? {
        AskDeleteIsSafe(api, r1, unprotected.value, id, name);
        var (r2, asked) := AskDelete(api, r1, unprotected.value, id, name);
        if asked.Value? {
          AwaitIsSafe(api, r2, id, name, IsReleased, attempts, 3);
          var (r3, released) := Await(api, r2, id, name, IsReleased, attempts);
          if released.Ok? {
            FinishIsSafe(api, r3, released.value, id, name, attempts);
          }
        }
      }
    } else if first.Ok? && first.value.InRecycleBin? {
      FinishIsSafe(api, r, first.value, id, name, attempts);
    }
  }

  // ---- Which instance is destroyed ----

  lemma {:induction false} LatestIsOwn(trace: seq<Event>, id: nat)
    requires SafeTrace(trace, id, true)
    ensures Latest(trace).Some? && Latest(trace).value.InRecycleBin? ==> Latest(trace).value.id == id
    decreases |trace|
  {
    if trace != [] {
      var shorter := trace[..|trace| - 1];
      assert Licensed(shorter, trace[|trace| - 1], id, true);
      assert forall i | 0 <= i < |shorter| :: trace[..i] == shorter[..i];
      LatestIsOwn(shorter, id);
    }
  }

  lemma OwnTraceDestroysOwn(trace: seq<Event>, id: nat)
    requires SafeTrace(trace, id, true)
    ensures forall i | 0 <= i < |trace| && trace[i].SentDestroy? :: trace[i].id == id
  {
    forall i | 0 <= i < |trace| && trace[i].SentDestroy?
      ensures trace[i].id == id
    {
      assert Licensed(trace[..i], trace[i], id, true);
      assert forall j | 0 <= j < i :: trace[..i][..j] == trace[..j];
      LatestIsOwn(trace[..i], id);
    }
  }

  /** While the overview keeps to the instance asked about, no other one is ever destroyed. */
  lemma DestroysWhatWasAsked<S(!new)>(api: TairApi<S>, s: S, id: nat, name: string, attempts: nat)
    requires attempts >= 1 && OwnRows(api, id)
    ensures var (r, _) := DeleteRun(api, s, id, name, attempts);
            forall i | 0 <= i < |r.trace| && r.trace[i].SentDestroy? :: r.trace[i].id == id
  {
    DeleteIsSafe(api, s, id, name, attempts);
    OwnTraceDestroysOwn(DeleteRun(api, s, id, name, attempts).0.trace, id);
  }

  /** A remote that answers about any instance with the recycle bin's row of instance 2, until that is destroyed. */
  function Namesake(): TairApi<bool> {
    var row := OverviewItem(Some(2), Some("cache"), Released);
    TairApi((destroyed, _) => (destroyed, Value(if destroyed then [] else [row])),
            (destroyed, _) => (destroyed, Value(None)),
            destroyed => (destroyed, Value([])),
            (destroyed, _) => (destroyed, Value(())),
            (destroyed, _) => (destroyed, Value(())),
            (_, _) => (true, Value(())))
  }

  /** Against it, deleting instance 1 destroys instance 2 and reports success. */
  lemma DestroysAnother(attempts: nat)
    requires attempts >= 1
    ensures DeleteRun(Namesake(), false, 1, "cache", attempts) ==
            (Run(true, [Observed(InRecycleBin(2)), SentDestroy(2), Observed(Absent)]), Ok(()))
  {
    var seen := [OverviewItem(Some(2), Some("cache"), Released)];
    assert PresenceFromOverview(seen, 1, "cache") == InRecycleBin(2);
    assert PresenceFromOverview([], 1, "cache") == Absent;
    assert Look(Namesake(), false, 1, "cache") == (false, Value(InRecycleBin(2)));
    assert Look(Namesake(), true, 1, "cache") == (true, Value(Absent));
    var start, sent := [], [Observed(InRecycleBin(2)), SentDestroy(2)];
    assert start + [Observed(InRecycleBin(2))] == [Observed(InRecycleBin(2))];
    assert [Observed(InRecycleBin(2))] + [SentDestroy(2)] == sent;
    assert sent + [Observed(Absent)] == [Observed(InRecycleBin(2)), SentDestroy(2), Observed(Absent)];
    assert Reading(Namesake(), 1, "cache")(Run(false, start)) ==
           (Run(false, start + [Observed(InRecycleBin(2))]), Value(InRecycleBin(2)));
    assert Reading(Namesake(), 1, "cache")(Run(true, sent)) == (Run(true, sent + [Observed(Absent)]), Value(Absent));
  }
}
