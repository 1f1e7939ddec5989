/**
 Bounded observation, and the waiters built on it. An effectful read is a function from the remote's
 state to its next state and an answer, so any remote, however it answers, is some such function.
 */
module Lifecycle {
  import opened Wrappers

  /** What one call answers: a value, or a provider error. */
  datatype Answer<+V> = Value(value: V) | Fault(error: ApiError)

  /** What a `DependencyViolation` code names after its dot, if anything. */
  datatype Dependency = Unnamed | Kvstore | NetworkInterface | Rds | OtherDependency(text: string)

  /** The provider codes some branch of the programs looks at. */
  datatype Code =
    | SafeRetryBudgetExceeded
    | NotFound
    | DependencyViolation(on: Dependency)
    | IncorrectDBInstanceState
    | IncorrectInstanceStatus
    | IncorrectVSwitchStatus
    | IncorrectRouteEntryStatus
    | InternalError
    | LastTokenProcessing
    | OperationConflict
    | OtherSubnetProcessing
    | SystemBusy
    | TaskConflict
    | DeletionProtection
    | OtherCode(text: string)

  /** A provider error; `NotFound` is any code `isNotFound` lists, `transient` what `isTransient` says. */
  datatype ApiError = ApiError(code: Code, transient: bool)

  datatype Observation<+V> = Completed(value: V) | Exhausted(value: V) | Failed(error: ApiError)

  /**
   Reads until `ready`, at most `attempts` times (a count already raised to one). A fault that `retryRead`
   rejects aborts at once; one it accepts uses up an attempt, and is the answer when it was the last.
   */
  function ObserveUntil<S, V>(
    s: S, read: S -> (S, Answer<V>), ready: V -> bool, retryRead: ApiError -> bool, attempts: nat)
    : (S, Observation<V>)
    requires attempts >= 1
    decreases attempts
  {
    var (next, answer) := read(s);
    if Decisive(answer, ready, retryRead) || attempts == 1 then
      (next, Verdict(answer, ready))
    else
      ObserveUntil(next, read, ready, retryRead, attempts - 1)
  }

  /** A ready value or a fault that repeating cannot cure. */
  predicate Decisive<V>(answer: Answer<V>, ready: V -> bool, retryRead: ApiError -> bool) {
    match answer
    case Value(v) => ready(v)
    case Fault(e) => !retryRead(e)
  }

  function Verdict<V>(answer: Answer<V>, ready: V -> bool): Observation<V> {
    match answer
    case Value(v) => if ready(v) then Completed(v) else Exhausted(v)
    case Fault(e) => Failed(e)
  }

  // ---- The specification, over the stream of answers ----

  function StateAfter<S, V>(s: S, read: S -> (S, Answer<V>), count: nat): S {
    if count == 0 then s else read(StateAfter(s, read, count - 1)).0
  }

  function AnswerAt<S, V>(s: S, read: S -> (S, Answer<V>), i: nat): Answer<V> {
    read(StateAfter(s, read, i)).1
  }

  lemma {:induction false} ShiftedStream<S, V>(s: S, read: S -> (S, Answer<V>), i: nat)
    ensures StateAfter(read(s).0, read, i) == StateAfter(s, read, i + 1)
  {
    if i > 0 {
      ShiftedStream(s, read, i - 1);
    }
  }

  /**
   Observation stops at the first decisive answer of the stream, or at the last one it may read, and
   reports exactly that answer, having made exactly that many reads.
   */
  lemma {:induction false} ObservationStopsAtFirstDecisive<S, V>(
    s: S, read: S -> (S, Answer<V>), ready: V -> bool, retryRead: ApiError -> bool, attempts: nat)
    returns (last: nat)
    requires attempts >= 1
    ensures last < attempts
    ensures forall i | 0 <= i < last :: !Decisive(AnswerAt(s, read, i), ready, retryRead)
    ensures last == attempts - 1 || Decisive(AnswerAt(s, read, last), ready, retryRead)
    ensures ObserveUntil(s, read, ready, retryRead, attempts) ==
            (StateAfter(s, read, last + 1), Verdict(AnswerAt(s, read, last), ready))
    decreases attempts
  {
    var (next, answer) := read(s);
    assert AnswerAt(s, read, 0) == answer && StateAfter(s, read, 1) == next;
    if Decisive(answer, ready, retryRead) || attempts == 1 {
      last := 0;
    } else {
      var rest := ObservationStopsAtFirstDecisive(next, read, ready, retryRead, attempts - 1);
      last := rest + 1;
      ShiftedStream(s, read, rest + 1);
      forall i | 0 <= i <= rest
        ensures AnswerAt(next, read, i) == AnswerAt(s, read, i + 1)
      {
        ShiftedStream(s, read, i);
      }
      forall i | 0 <= i < last
        ensures !Decisive(AnswerAt(s, read, i), ready, retryRead)
      {
        assert i > 0 ==> AnswerAt(next, read, i - 1) == AnswerAt(s, read, i);
      }
    }
  }

  /**
   Completion, from the answers alone: some answer within the attempts is ready, and no fatal fault
   comes before it.
   */
  lemma CompletesIff<S, V>(
    s: S, read: S -> (S, Answer<V>), ready: V -> bool, retryRead: ApiError -> bool, attempts: nat)
    requires attempts >= 1
    ensures ObserveUntil(s, read, ready, retryRead, attempts).1.Completed? <==>
            exists k :: && 0 <= k < attempts
                        && AnswerAt(s, read, k).Value? && ready(AnswerAt(s, read, k).value)
                        && forall i | 0 <= i < k ::
                             AnswerAt(s, read, i).Fault? ==> retryRead(AnswerAt(s, read, i).error)
  {
    var last := ObservationStopsAtFirstDecisive(s, read, ready, retryRead, attempts);
    var stopped := AnswerAt(s, read, last);
    if k :| && 0 <= k < attempts
            && AnswerAt(s, read, k).Value? && ready(AnswerAt(s, read, k).value)
            && forall i | 0 <= i < k :: AnswerAt(s, read, i).Fault? ==> retryRead(AnswerAt(s, read, i).error) {
      assert Decisive(AnswerAt(s, read, k), ready, retryRead);
      assert last <= k;
      assert last == k || Decisive(stopped, ready, retryRead);
    }
  }

  // ---- Waiters ----

  datatype WaitError = Provider(error: ApiError) | TimedOut

  /** A transport failure or an exhausted retry budget; anything else aborts an observation. */
  predicate IsRetryableObservation(e: ApiError) {
    e.transient || e.code.SafeRetryBudgetExceeded?
  }

  function WaitFor<S, V>(s: S, read: S -> (S, Answer<V>), ready: V -> bool, attempts: nat)
    : (S, Result<V, WaitError>)
    requires attempts >= 1
  {
    var (next, result) := ObserveUntil(s, read, ready, IsRetryableObservation, attempts);
    match result
    case Completed(v) => (next, Ok(v))
    case Exhausted(_) => (next, Err(TimedOut))
    case Failed(e) => (next, Err(Provider(e)))
  }

  /** A wait goes on after a fault exactly when it is transient or a spent retry budget; any other ends it. */
  lemma FaultEndsWaitIff<S, V>(s: S, read: S -> (S, Answer<V>), ready: V -> bool, attempts: nat)
    requires attempts >= 2 && read(s).1.Fault?
    ensures var (next, answer) := read(s);
            WaitFor(s, read, ready, attempts) ==
            if answer.error.transient || answer.error.code == SafeRetryBudgetExceeded
            then WaitFor(next, read, ready, attempts - 1)
            else (next, Err(Provider(answer.error)))
  {
  }

  /** One read of a wait that may still make `n`: it ends as `post` says, or leaves a wait that does. */
  ghost predicate WaitStep<S(!new), V(!new)>(
    t: S, read: S -> (S, Answer<V>), ready: V -> bool, n: nat, pre: (S, nat) -> bool,
    post: (S, S, Result<V, WaitError>) -> bool)
    requires n >= 1
  {
    var (u, answer) := read(t);
    && answer.Value?
    && if ready(answer.value) then post(t, u, Ok(answer.value))
       else if n == 1 then post(t, u, Err(TimedOut))
       else pre(u, n - 1) && forall last, result | post(u, last, result) :: post(t, last, result)
  }

  /** Induction over a wait whose reads do not fail. */
  lemma {:induction false} WaitEnds<S(!new), V(!new)>(
    s: S, read: S -> (S, Answer<V>), ready: V -> bool, attempts: nat, pre: (S, nat) -> bool,
    post: (S, S, Result<V, WaitError>) -> bool)
    requires attempts >= 1 && pre(s, attempts)
    requires forall t, n: nat | n >= 1 && pre(t, n) :: WaitStep(t, read, ready, n, pre, post)
    ensures var (last, result) := WaitFor(s, read, ready, attempts);
            post(s, last, result)
    decreases attempts
  {
    assert WaitStep(s, read, ready, attempts, pre, post);
    var (next, answer) := read(s);
    if attempts > 1 && !ready(answer.value) {
      WaitEnds(next, read, ready, attempts - 1, pre, post);
    }
  }

  datatype Acceptance<+V> = Accepted(result: V) | Rejected(error: ApiError)

  /** One request, with the errors `retryIf` names turned into values. */
  function Attempt<S, V>(s: S, request: S -> (S, Answer<V>), retryIf: ApiError -> bool): (S, Answer<Acceptance<V>>) {
    var (next, answer) := request(s);
    match answer
    case Value(v) => (next, Value(Accepted(v)))
    case Fault(e) => if retryIf(e) then (next, Value(Rejected(e))) else (next, Fault(e))
  }

  /** Repeats a mutating request until it is accepted; nothing else is retried. */
  function WaitUntilAccepted<S, V>(s: S, request: S -> (S, Answer<V>), retryIf: ApiError -> bool, attempts: nat)
    : (S, Answer<V>)
    requires attempts >= 1
  {
    var (next, result) :=
      ObserveUntil(
        s, (s: S) => Attempt(s, request, retryIf), (a: Acceptance<V>) => a.Accepted?, (_: ApiError) => false, attempts);
    match result
    case Failed(e) => (next, Fault(e))
    case Completed(a) => (next, AcceptanceAnswer(a))
    case Exhausted(a) => (next, AcceptanceAnswer(a))
  }

  function AcceptanceAnswer<V>(a: Acceptance<V>): Answer<V> {
    match a
    case Accepted(v) => Value(v)
    case Rejected(e) => Fault(e)
  }

  /**
   Waiting for acceptance is plain observation in which every answer is ready and `retryIf` decides what
   may be repeated: same requests, and the same result or last error.
   */
  lemma {:induction false} AcceptanceIsObservation<S, V>(
    s: S, request: S -> (S, Answer<V>), retryIf: ApiError -> bool, attempts: nat)
    requires attempts >= 1
    ensures var (state, observed) := ObserveUntil(s, request, (_: V) => true, retryIf, attempts);
            WaitUntilAccepted(s, request, retryIf, attempts) ==
            (state, match observed
                    case Completed(v) => Value(v)
                    case Exhausted(v) => Value(v)
                    case Failed(e) => Fault(e))
    decreases attempts
  {
    var (next, answer) := request(s);
    if attempts > 1 && answer.Fault? && retryIf(answer.error) {
      AcceptanceIsObservation(next, request, retryIf, attempts - 1);
    }
  }

  /**
   Sends one delete request; an error counts as accepted when a fresh read finds the resource gone or
   deleting.
   */
  function RequestOrContinueDelete<S, V>(
    s: S, request: S -> (S, Answer<()>), read: S -> (S, Answer<Option<V>>), deleting: V -> bool): (S, Answer<()>)
  {
    var (sent, answer) := request(s);
    if answer.Value? then
      (sent, answer)
    else
      var (after, latest) := read(sent);
      match latest
      case Fault(e) => (after, Fault(e))
      case Value(v) => (after, if v == None || deleting(v.value) then Value(()) else answer)
  }

  /**
   The request is counted as accepted exactly when it was, or when the resource is then gone or deleting; a
   resource still there leaves the request's own fault, and a read that fails leaves the read's.
   */
  lemma DeleteContinuesIff<S, V>(
    s: S, request: S -> (S, Answer<()>), read: S -> (S, Answer<Option<V>>), deleting: V -> bool)
    ensures var (sent, answer) := request(s);
            var (after, latest) := read(sent);
            var (end, result) := RequestOrContinueDelete(s, request, read, deleting);
            && (result.Value? <==>
                  answer.Value? || (latest.Value? && (latest.value.None? || deleting(latest.value.value))))
            && (result.Fault? ==> result.error == if latest.Fault? then latest.error else answer.error)
            && end == (if answer.Value? then sent else after)
  {
    var (sent, answer) := request(s);
    var (after, latest) := read(sent);
    if answer.Fault? {
      match latest
      case Fault(e) =>
        assert RequestOrContinueDelete(s, request, read, deleting) == (after, Fault(e));
      case Value(v) =>
    }
  }
}
