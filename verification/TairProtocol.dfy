/**
 The Tair deletion as a protocol: what each observation obliges the deletion to do next, as a machine over
 its trace. Every run, against every remote, is a path of the machine that leaves no obligation open.
 */
module TairProtocol {
  import opened Wrappers
  import opened Lifecycle
  import opened TairDelete

  datatype Stage =
    | Looking
    | MustDisable
    | Disabled
    | Checking
    | LookingAgain
    | MustDelete
    | Asked
    | Doubting
    | Awaiting
    | MustDestroy(id: nat)
    | Destroyed
    | Confirming
    | Done
    | Stopped

  predicate Obliged(stage: Stage) {
    stage.MustDisable? || stage.MustDelete? || stage.MustDestroy?
  }

  /** Where an observation leads. */
  function Lead(stage: Stage, p: Presence): Option<Stage> {
    match stage
    case Looking =>
      Some(match p
           case Visible(_) => Looking
           case Absent => Done
           case InRecycleBin(seen) => MustDestroy(seen)
           case Live(_, raw) =>
             if raw.status in {Deleting, Releasing} then Awaiting
             else if raw.protected then MustDisable
             else if raw.status.Released? then Awaiting
             else MustDelete)
    case Disabled => Some(AfterDisabling(p))
    case LookingAgain => Some(AfterDisabling(p))
    case Doubting => Some(if p.Live? && p.raw.status !in GOING then Stopped else Awaiting)
    case Asked => Some(WhileAwaiting(p))
    case Awaiting => Some(WhileAwaiting(p))
    case Destroyed => Some(if p.Absent? then Done else Confirming)
    case Confirming => Some(if p.Absent? then Done else Confirming)
    case _ => None
  }

  const GOING: set<Status> := {Deleting, Releasing, Released}

  function AfterDisabling(p: Presence): Stage {
    if p.Visible? then LookingAgain else if p.Live? && p.raw.status !in GOING then MustDelete else Awaiting
  }

  function WhileAwaiting(p: Presence): Stage {
    if p.InRecycleBin? then MustDestroy(p.id) else if p.Absent? then Confirming else Awaiting
  }

  /** One event of the deletion of `id`; none means that the event is not allowed there. */
  function Step(stage: Stage, e: Event, id: nat): Option<Stage> {
    match e
    case Observed(p) => Lead(stage, p)
    case SentDisable(target) => if stage.MustDisable? && target == id then Some(Disabled) else None
    case SentDelete(target) => if stage.MustDelete? && target == id then Some(Asked) else None
    case SentDestroy(target) => if stage == MustDestroy(target) then Some(Destroyed) else None
    case Checked(found) =>
      if !stage.Checking? then None
      else Some(if found.Some? && found.value.status !in {Deleting, Releasing} then Stopped else LookingAgain)
    case Faulted(error) =>
      match stage
      case Disabled => Some(Checking)
      case Asked => Some(Doubting)
      case Destroyed => Some(if error.code.NotFound? then Confirming else Stopped)
      case _ => None
  }

  function Follow(trace: seq<Event>, id: nat): Option<Stage> {
    if trace == [] then Some(Looking)
    else
      match Follow(trace[..|trace| - 1], id)
      case None => None
      case Some(stage) => Step(stage, trace[|trace| - 1], id)
  }

  // ---- Runs follow the machine ----

  lemma FollowOne(trace: seq<Event>, e: Event, id: nat)
    requires Follow(trace, id).Some?
    ensures Follow(trace + [e], id) == Step(Follow(trace, id).value, e, id)
  {
    assert (trace + [e])[..|trace|] == trace;
  }

  lemma FollowSent(trace: seq<Event>, request: Event, answer: Answer<()>, id: nat)
    requires Follow(trace, id).Some? && Step(Follow(trace, id).value, request, id).Some?
    ensures var asked := Step(Follow(trace, id).value, request, id).value;
            Follow(Sent(trace, request, answer), id) ==
            if answer.Fault? then Step(asked, Faulted(answer.error), id) else Some(asked)
  {
    FollowOne(trace, request, id);
    if answer.Fault? {
      FollowOne(trace + [request], Faulted(answer.error), id);
    }
  }

  lemma LookFollows<S>(api: TairApi<S>, r: Run<S>, id: nat, name: string)
    requires Follow(r.trace, id).Some?
    ensures var (next, answer) := ObservePresence(api, r, id, name);
            Follow(next.trace, id) ==
            if answer.Value? then Lead(Follow(r.trace, id).value, answer.value) else Follow(r.trace, id)
  {
    var (next, answer) := ObservePresence(api, r, id, name);
    if answer.Value? {
      FollowOne(r.trace, Observed(answer.value), id);
    } else {
      assert next.trace == r.trace;
    }
  }

  /** From `stage` observations lead where they lead from `wait`, and an unready one leads to `wait`. */
  ghost predicate WaitsAt(stage: Stage, wait: Stage, ready: Presence -> bool) {
    forall p {:trigger ready(p)} ::
      && Lead(stage, p) == Lead(wait, p) && Lead(wait, p).Some?
      && (!ready(p) ==> Lead(wait, p) == Some(wait))
  }

  lemma {:induction false} ObservingFollows<S>(
    api: TairApi<S>, r: Run<S>, id: nat, name: string, ready: Presence -> bool, attempts: nat, stage: Stage,
    wait: Stage)
    requires attempts >= 1 && Follow(r.trace, id) == Some(stage) && WaitsAt(stage, wait, ready)
    ensures var (next, result) := ObserveUntil(r, Reading(api, id, name), ready, IsRetryableObservation, attempts);
            Follow(next.trace, id) ==
            match result
            case Completed(p) => Lead(wait, p)
            case Exhausted(_) => Some(wait)
            case Failed(_) => Follow(next.trace, id)
    ensures var (next, result) := ObserveUntil(r, Reading(api, id, name), ready, IsRetryableObservation, attempts);
            result.Failed? ==> Follow(next.trace, id) in {Some(stage), Some(wait)}
    decreases attempts
  {
    var (next, answer) := ObservePresence(api, r, id, name);
    assert Reading(api, id, name)(r) == (next, answer);
    LookFollows(api, r, id, name);
    if answer.Value? {
      assert ready(answer.value) || !ready(answer.value);
    }
    if attempts > 1 && !Decisive(answer, ready, IsRetryableObservation) {
      ObservingFollows(api, next, id, name, ready, attempts - 1, if answer.Value? then wait else stage, wait);
    }
  }

  lemma AwaitFollows<S>(
    api: TairApi<S>, r: Run<S>, id: nat, name: string, ready: Presence -> bool, attempts: nat, stage: Stage,
    wait: Stage)
    requires attempts >= 1 && Follow(r.trace, id) == Some(stage) && WaitsAt(stage, wait, ready)
    ensures var (next, result) := Await(api, r, id, name, ready, attempts);
            && (result.Ok? ==> ready(result.value) && Follow(next.trace, id) == Lead(wait, result.value))
            && (result == Err(WaitTimeout) ==> Follow(next.trace, id) == Some(wait))
            && (result.Err? ==> Follow(next.trace, id) in {Some(stage), Some(wait)})
            && (result.Err? ==> result.error.WaitTimeout? || result.error.ProviderError?)
  {
    ObservingFollows(api, r, id, name, ready, attempts, stage, wait);
    var last := ObservationStopsAtFirstDecisive(r, Reading(api, id, name), ready, IsRetryableObservation, attempts);
  }

  lemma WaitsConsistently(stage: Stage)
    requires stage in {Disabled, LookingAgain}
    ensures WaitsAt(stage, LookingAgain, Consistent)
  {
    forall p: Presence
      ensures Lead(stage, p) == Lead(LookingAgain, p) && Lead(LookingAgain, p).Some?
      ensures !Consistent(p) ==> Lead(LookingAgain, p) == Some(LookingAgain)
    {
    }
  }

  lemma WaitsForRelease(stage: Stage)
    requires stage in {Asked, Awaiting}
    ensures WaitsAt(stage, Awaiting, IsReleased)
  {
    forall p: Presence
      ensures Lead(stage, p) == Lead(Awaiting, p) && Lead(Awaiting, p).Some?
      ensures !IsReleased(p) ==> Lead(Awaiting, p) == Some(Awaiting)
    {
    }
  }

  lemma WaitsForAbsence(stage: Stage)
    requires stage in {Destroyed, Confirming}
    ensures WaitsAt(stage, Confirming, IsAbsent)
  {
    forall p: Presence
      ensures Lead(stage, p) == Lead(Confirming, p) && Lead(Confirming, p).Some?
      ensures !IsAbsent(p) ==> Lead(Confirming, p) == Some(Confirming)
    {
    }
  }

  lemma FirstLookFollows<S>(api: TairApi<S>, s: S, id: nat, name: string, attempts: nat)
    requires attempts >= 1
    ensures var (r, result) := ObserveForDelete(api, Run(s, []), id, name, attempts);
            && (result.Ok? ==> !result.value.Visible? && Follow(r.trace, id) == Lead(Looking, result.value))
            && (result.Err? ==> Follow(r.trace, id) == Some(Looking))
  {
    AwaitFollows(api, Run(s, []), id, name, Consistent, attempts, Looking, Looking);
  }

  /** Protection seen on is switched off at once, and the instance looked at again. */
  lemma UnprotectFollows<S>(api: TairApi<S>, r: Run<S>, p: Presence, id: nat, name: string, attempts: nat)
    requires attempts >= 1 && p.Live? && Follow(r.trace, id) == Lead(Looking, p)
    ensures var (next, result) := Unprotect(api, r, p, id, name, attempts);
            && (result.Ok? ==> !result.value.Visible? && Follow(next.trace, id) == AskedFor(result.value))
            && (result.Err? ==>
                  Follow(next.trace, id) in {Some(Disabled), Some(Checking), Some(LookingAgain), Some(Stopped)})
  {
    if !IsDeleting(p.raw) && p.raw.protected {
      var (s, answer) := RequestOrContinueDelete(
        r.remote, (s: S) => api.disableProtection(s, id), (s: S) => GetById(api, s, id, name), IsDeleting);
      DisablingFollows(api, r, id, name);
      if answer.Value? {
        var sent := Run(s, DisableTrace(api, r, id, name));
        WaitsConsistently(Follow(sent.trace, id).value);
        AwaitFollows(api, sent, id, name, Consistent, attempts, Follow(sent.trace, id).value, LookingAgain);
      }
    }
  }

  /** After the request protection is off, or the detail read decides. */
  lemma DisablingFollows<S>(api: TairApi<S>, r: Run<S>, id: nat, name: string)
    requires Follow(r.trace, id) == Some(MustDisable)
    ensures var answer := RequestOrContinueDelete(
              r.remote, (s: S) => api.disableProtection(s, id), (s: S) => GetById(api, s, id, name), IsDeleting).1;
            && (answer.Value? ==> Follow(DisableTrace(api, r, id, name), id) in {Some(Disabled), Some(LookingAgain)})
            && (answer.Fault? ==> Follow(DisableTrace(api, r, id, name), id) in {Some(Checking), Some(Stopped)})
  {
    var (s, answer) := api.disableProtection(r.remote, id);
    var read := GetById(api, s, id, name).1;
    var sent := Sent(r.trace, SentDisable(id), answer);
    FollowSent(r.trace, SentDisable(id), answer, id);
    if answer.Fault? && read.Value? {
      FollowOne(sent, Checked(read.value), id);
    } else {
      assert sent + [] == sent;
    }
  }

  /** What a consistent observation obliges to once protection is out of the way. */
  function AskedFor(p: Presence): Option<Stage> {
    Some(if p.Live? && p.raw.status !in GOING then MustDelete else Awaiting)
  }

  lemma AskFollows<S>(api: TairApi<S>, r: Run<S>, p: Presence, id: nat, name: string)
    requires Follow(r.trace, id) == AskedFor(p)
    ensures var (next, asked) := AskDelete(api, r, p, id, name);
            && (asked.Value? ==> Follow(next.trace, id) in {Some(Asked), Some(Awaiting)})
            && (asked.Fault? ==> Follow(next.trace, id) in {Some(Doubting), Some(Stopped)})
  {
    if p.Live? && !DeletingOrReleased(p.raw) {
      RequestFollows(api, r, id, name);
    }
  }

  /** The delete request, and the one look that a fault is followed by. */
  lemma RequestFollows<S>(api: TairApi<S>, r: Run<S>, id: nat, name: string)
    requires Follow(r.trace, id) == Some(MustDelete)
    ensures var (next, asked) :=
              RequestOrContinueDelete(r, SendDelete(api, id), ObserveLive(api, id, name), DeletingOrReleased);
            && (asked.Value? ==> Follow(next.trace, id) in {Some(Asked), Some(Awaiting)})
            && (asked.Fault? ==> Follow(next.trace, id) in {Some(Doubting), Some(Stopped)})
  {
    var (sent, answer) := SendDelete(api, id)(r);
    FollowSent(r.trace, SentDelete(id), answer, id);
    if answer.Fault? {
      DoubtFollows(api, sent, id, name);
    }
  }

  lemma DoubtFollows<S>(api: TairApi<S>, r: Run<S>, id: nat, name: string)
    requires Follow(r.trace, id) == Some(Doubting)
    ensures var (next, answer) := ObserveLive(api, id, name)(r);
            Follow(next.trace, id) ==
            if answer.Fault? then Some(Doubting)
            else if answer.value.None? || DeletingOrReleased(answer.value.value) then Some(Awaiting) else Some(Stopped)
  {
    LookFollows(api, r, id, name);
  }

  lemma ReleaseFollows<S>(api: TairApi<S>, r: Run<S>, p: Presence, id: nat, name: string, attempts: nat)
    requires attempts >= 1 && p.Live? && Follow(r.trace, id) == Lead(Looking, p)
    ensures var (next, result) := Release(api, r, p, id, name, attempts);
            && (result.Ok? ==> IsReleased(result.value) && Follow(next.trace, id) == Lead(Awaiting, result.value))
            && (result.Err? ==> Follow(next.trace, id).Some? && !Obliged(Follow(next.trace, id).value)
                                && !Follow(next.trace, id).value.Done?)
  {
    UnprotectFollows(api, r, p, id, name, attempts);
    var (r1, unprotected) := Unprotect(api, r, p, id, name, attempts);
    if unprotected.Ok? {
      AskFollows(api, r1, unprotected.value, id, name);
      var (r2, asked) := AskDelete(api, r1, unprotected.value, id, name);
      if asked.Value? {
        WaitsForRelease(Follow(r2.trace, id).value);
        AwaitFollows(api, r2, id, name, IsReleased, attempts, Follow(r2.trace, id).value, Awaiting);
      }
    }
  }

  lemma ConfirmFollows<S>(api: TairApi<S>, r: Run<S>, id: nat, name: string, attempts: nat)
    requires attempts >= 1 && Follow(r.trace, id) in {Some(Destroyed), Some(Confirming)}
    ensures var (next, outcome) := Confirm(api, r, id, name, attempts);
            if outcome.Ok? then Follow(next.trace, id) == Some(Done)
            else Follow(next.trace, id) in {Some(Destroyed), Some(Confirming)}
  {
    var stage := Follow(r.trace, id).value;
    WaitsForAbsence(stage);
    AwaitFollows(api, r, id, name, IsAbsent, attempts, stage, Confirming);
  }

  /** After the destroy request: confirmation is due unless a fault other than a missing instance stopped it. */
  lemma DestroyFollows(trace: seq<Event>, seen: nat, answer: Answer<()>, id: nat)
    requires Follow(trace, id) == Some(MustDestroy(seen))
    ensures var sent := Sent(trace, SentDestroy(seen), answer);
            if OrElse(answer, ()).Value? then Follow(sent, id) in {Some(Destroyed), Some(Confirming)}
            else Follow(sent, id) == Some(Stopped)
  {
    FollowSent(trace, SentDestroy(seen), answer, id);
  }

  lemma FinishFollows<S>(api: TairApi<S>, r: Run<S>, p: Presence, id: nat, name: string, attempts: nat)
    requires attempts >= 1 && IsReleased(p) && Follow(r.trace, id) == Some(WhileAwaiting(p))
    ensures var (next, outcome) := Finish(api, r, p, id, name, attempts);
            if outcome.Ok? then Follow(next.trace, id) == Some(Done)
            else Follow(next.trace, id) in {Some(Destroyed), Some(Confirming), Some(Stopped)}
  {
    if p.Absent? {
      ConfirmFollows(api, r, id, name, attempts);
    } else {
      var (s, answer) := api.destroy(r.remote, p.id);
      DestroyFollows(r.trace, p.id, answer, id);
      if OrElse(answer, ()).Value? {
        ConfirmFollows(api, Run(s, Sent(r.trace, SentDestroy(p.id), answer)), id, name, attempts);
      }
    }
  }

  /** From a live instance to the end. */
  lemma LiveFollows<S>(api: TairApi<S>, r: Run<S>, p: Presence, id: nat, name: string, attempts: nat)
    requires attempts >= 1 && p.Live? && Follow(r.trace, id) == Lead(Looking, p)
    ensures var (r1, released) := Release(api, r, p, id, name, attempts);
            if released.Err? then Ends(r1.trace, id, false)
            else
              var (last, outcome) := Finish(api, r1, released.value, id, name, attempts);
              Ends(last.trace, id, outcome.Ok?)
  {
    ReleaseFollows(api, r, p, id, name, attempts);
    var (r1, released) := Release(api, r, p, id, name, attempts);
    if released.Ok? {
      FinishFollows(api, r1, released.value, id, name, attempts);
    }
  }

  /** No obligation is open, and the path is done exactly when `done` says so. */
  ghost predicate Ends(trace: seq<Event>, id: nat, done: bool) {
    Follow(trace, id).Some? && !Obliged(Follow(trace, id).value) && (done <==> Follow(trace, id) == Some(Done))
  }

  /**
   Whatever the remote answers, the deletion does just what its observations oblige it to: its trace is a path
   of the machine with nothing left to do at the end, and it succeeds exactly when the path is done.
   */
  lemma DeleteFollows<S>(api: TairApi<S>, s: S, id: nat, name: string, attempts: nat)
    requires attempts >= 1
    ensures var (r, outcome) := DeleteRun(api, s, id, name, attempts);
            && Follow(r.trace, id).Some? && !Obliged(Follow(r.trace, id).value)
            && (outcome.Ok? <==> Follow(r.trace, id) == Some(Done))
  {
    var (r, first) := ObserveForDelete(api, Run(s, []), id, name, attempts);
    FirstLookFollows(api, s, id, name, attempts);
    if first.Ok? && first.value.Live? {
      LiveFollows(api, r, first.value, id, name, attempts);
    } else if first.Ok? && first.value.InRecycleBin? {
      FinishFollows(api, r, first.value, id, name, attempts);
    }
  }

  // ---- What that means for the requests ----

  /** The request a stage obliges to. */
  function Demand(stage: Stage, id: nat): Event
    requires Obliged(stage)
  {
    match stage
    case MustDisable => SentDisable(id)
    case MustDelete => SentDelete(id)
    case MustDestroy(seen) => SentDestroy(seen)
  }

  lemma {:induction false} PrefixFollows(trace: seq<Event>, id: nat, i: nat)
    requires i <= |trace| && Follow(trace, id).Some?
    ensures Follow(trace[..i], id).Some?
    ensures i < |trace| ==> Follow(trace[..i + 1], id) == Step(Follow(trace[..i], id).value, trace[i], id)
    decreases |trace|
  {
    if i == |trace| {
      assert trace[..i] == trace;
    } else {
      var shorter := trace[..|trace| - 1];
      PrefixFollows(shorter, id, if i < |shorter| then i else |shorter|);
      assert trace[..i] == shorter[..i] && trace[..i + 1][..i] == trace[..i];
      if i + 1 == |trace| {
        assert trace[..i + 1] == trace;
      } else {
        assert trace[..i + 1] == shorter[..i + 1];
      }
    }
  }

  /** At every point of every run: an obligation is met by the very next event, and nothing is sent without one. */
  lemma RequestsAreDetermined<S>(api: TairApi<S>, s: S, id: nat, name: string, attempts: nat, i: nat)
    requires attempts >= 1 && i <= |DeleteRun(api, s, id, name, attempts).0.trace|
    ensures var trace := DeleteRun(api, s, id, name, attempts).0.trace;
            && Follow(trace[..i], id).Some?
            && var stage := Follow(trace[..i], id).value;
               if Obliged(stage) then i < |trace| && trace[i] == Demand(stage, id)
               else i < |trace| ==> trace[i].Observed? || trace[i].Faulted? || trace[i].Checked?
  {
    var trace := DeleteRun(api, s, id, name, attempts).0.trace;
    DeleteFollows(api, s, id, name, attempts);
    PrefixFollows(trace, id, i);
    if i < |trace| {
      PrefixFollows(trace, id, i + 1);
    } else {
      assert trace[..i] == trace;
    }
  }

  lemma {:induction false} VisibleKeepsLooking(trace: seq<Event>, id: nat)
    requires forall j | 0 <= j < |trace| :: trace[j].Observed? && trace[j].presence.Visible?
    ensures Follow(trace, id) == Some(Looking)
    decreases |trace|
  {
    if trace != [] {
      VisibleKeepsLooking(trace[..|trace| - 1], id);
    }
  }

  /** Protection on at the first consistent observation is switched off before anything else. */
  lemma ProtectionGoesFirst<S>(api: TairApi<S>, s: S, id: nat, name: string, attempts: nat, i: nat)
    requires attempts >= 1 && i < |DeleteRun(api, s, id, name, attempts).0.trace|
    requires var trace := DeleteRun(api, s, id, name, attempts).0.trace;
             && (forall j | 0 <= j < i :: trace[j].Observed? && trace[j].presence.Visible?)
             && trace[i].Observed? && trace[i].presence.Live?
             && trace[i].presence.raw.protected && trace[i].presence.raw.status !in {Deleting, Releasing}
    ensures var trace := DeleteRun(api, s, id, name, attempts).0.trace;
            i + 1 < |trace| && trace[i + 1] == SentDisable(id)
  {
    var trace := DeleteRun(api, s, id, name, attempts).0.trace;
    VisibleKeepsLooking(trace[..i], id);
    RequestsAreDetermined(api, s, id, name, attempts, i + 1);
    DeleteFollows(api, s, id, name, attempts);
    PrefixFollows(trace, id, i);
  }

  /** The latest observation shows a live instance without protection. */
  predicate SeenUnprotected(trace: seq<Event>) {
    var p := Latest(trace);
    p.Some? && p.value.Live? && !p.value.raw.protected
  }

  ghost predicate WasDisabled(trace: seq<Event>, id: nat) {
    exists i | 0 <= i < |trace| :: trace[i] == SentDisable(id)
  }

  /** Whoever may ask for the deletion has seen protection off, or asked for that. */
  lemma {:induction false} StageHistory(trace: seq<Event>, id: nat)
    requires Follow(trace, id).Some?
    ensures var stage := Follow(trace, id).value;
            && (stage.Disabled? || stage.Checking? || stage.LookingAgain? ==> WasDisabled(trace, id))
            && (stage.MustDelete? ==> SeenUnprotected(trace) || WasDisabled(trace, id))
    decreases |trace|
  {
    if trace != [] {
      var shorter, last := trace[..|trace| - 1], trace[|trace| - 1];
      StageHistory(shorter, id);
      if WasDisabled(shorter, id) {
        var i :| 0 <= i < |shorter| && shorter[i] == SentDisable(id);
        assert trace[i] == SentDisable(id);
      }
      if last == SentDisable(id) {
        assert trace[|trace| - 1] == SentDisable(id);
      }
    }
  }

  /** The deletion is asked for only when protection was last seen off, or was asked to be switched off before. */
  lemma DeleteOnlyUnprotected<S>(api: TairApi<S>, s: S, id: nat, name: string, attempts: nat)
    requires attempts >= 1
    ensures var trace := DeleteRun(api, s, id, name, attempts).0.trace;
            forall i | 0 <= i < |trace| && trace[i].SentDelete? ::
              SeenUnprotected(trace[..i]) || WasDisabled(trace[..i], id)
  {
    var trace := DeleteRun(api, s, id, name, attempts).0.trace;
    forall i | 0 <= i < |trace| && trace[i].SentDelete?
      ensures SeenUnprotected(trace[..i]) || WasDisabled(trace[..i], id)
    {
      RequestsAreDetermined(api, s, id, name, attempts, i);
      StageHistory(trace[..i], id);
    }
  }
}
