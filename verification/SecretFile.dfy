/**
 The password file as several processes of the command race for it. Inspecting, reading, exclusive
 creation, writing the content and restricting the mode are separate steps; a process may fail or die
 between any two of them, and goes on to create the database account with the password it got.
 */
module SecretFile {
  import opened Wrappers
  import opened Text
  import Password

  datatype File = File(content: string, mode: bv9)

  datatype Phase =
    | Inspecting(again: bool)
    | Reading(again: bool)
    | Opening
    | Writing
    | Restricting
    | Returned(password: string)
    | Failed

  /** One run of the command, with the password it would generate and its umask. */
  datatype Process = Process(generated: string, umask: bv9, phase: Phase)

  /** `opener` is history: who created the file, if any of these processes did. `writes` counts contents written. */
  datatype State = State(
    file: Option<File>,
    processes: seq<Process>,
    account: Option<string>,
    opener: Option<nat>,
    writes: nat)

  datatype Action = Step(p: nat) | Fail(p: nat) | CreateAccount(p: nat)

  /** `info.mode & 0o077` */
  predicate Insecure(mode: bv9) {
    mode & 0x3f != 0
  }

  /** What `open` gives a new file asked for with mode 0600. */
  function CreationMode(umask: bv9): bv9 {
    0x180 & !umask
  }

  predicate OwnerReads(mode: bv9) {
    mode & 0x100 != 0
  }

  /** The password a file holds, unless it is blank. */
  function Stored(content: string): Option<string> {
    if Trim(content) == "" then None else Some(Trim(content))
  }

  /** After a read that found nothing: the first time, try to create; after losing the race, give up. */
  function NothingRead(again: bool): Phase {
    if again then Failed else Opening
  }

  function AfterRead(file: Option<File>, again: bool): Phase {
    if file.None? then NothingRead(again)
    else if !OwnerReads(file.value.mode) then Failed
    else if Stored(file.value.content).None? then NothingRead(again)
    else Returned(Stored(file.value.content).value)
  }

  function SetPhase(s: State, p: nat, phase: Phase): State
    requires p < |s.processes|
  {
    s.(processes := s.processes[p := s.processes[p].(phase := phase)])
  }

  /** `ensurePasswordFile`, one file operation at a time. */
  function Progress(s: State, p: nat): State
    requires p < |s.processes|
  {
    var me := s.processes[p];
    match me.phase
    case Inspecting(again) =>
      SetPhase(s, p, if s.file.Some? && Insecure(s.file.value.mode) then Failed else Reading(again))
    case Reading(again) => SetPhase(s, p, AfterRead(s.file, again))
    case Opening =>
      if s.file.Some? then SetPhase(s, p, Inspecting(true))
      else SetPhase(s, p, Writing).(file := Some(File("", CreationMode(me.umask))), opener := Some(p))
    case Writing =>
      if s.file.None? then s
      else SetPhase(s, p, Restricting).(
             file := Some(s.file.value.(content := me.generated + "\n")), writes := s.writes + 1)
    case Restricting =>
      if s.file.None? then s
      else SetPhase(s, p, Returned(me.generated)).(file := Some(s.file.value.(mode := 0x180)))
    case Returned(_) => s
    case Failed => s
  }

  function Next(s: State, a: Action): State {
    if a.p >= |s.processes| then s
    else
      match a
      case Step(p) => Progress(s, p)
      case Fail(p) => SetPhase(s, p, Failed)
      case CreateAccount(p) =>
        var phase := s.processes[p].phase;
        if phase.Returned? && s.account.None? then s.(account := Some(phase.password)) else s
  }

  function Play(s: State, actions: seq<Action>): State
    decreases |actions|
  {
    if actions == [] then s else Play(Next(s, actions[0]), actions[1..])
  }

  /** Nothing done yet; every password would survive being written and read back. */
  predicate IsInitial(s: State) {
    && s.account.None? && s.opener.None? && s.writes == 0
    && forall p | 0 <= p < |s.processes| ::
         && s.processes[p].phase == Inspecting(false)
         && Stored(s.processes[p].generated + "\n") == Some(s.processes[p].generated)
  }

  // ---- What every step keeps ----

  /** The file holds `password`. */
  predicate Holds(file: Option<File>, password: string) {
    file.Some? && Stored(file.value.content) == Some(password)
  }

  predicate Opened(phase: Phase) {
    phase.Writing? || phase.Restricting?
  }

  /** Only the opener writes, once, into an empty file; whoever has a password has the file's. */
  predicate ProcessOk(s: State, p: nat)
    requires p < |s.processes|
  {
    var me := s.processes[p];
    && Stored(me.generated + "\n") == Some(me.generated)
    && (Opened(me.phase) ==> s.opener == Some(p))
    && (me.phase.Writing? ==> s.file.Some? && s.file.value.content == "" && s.writes == 0)
    && (me.phase.Restricting? ==> Holds(s.file, me.generated))
    && (me.phase.Returned? ==> Holds(s.file, me.phase.password))
  }

  predicate Invariant(s: State) {
    && (forall p | 0 <= p < |s.processes| :: ProcessOk(s, p))
    && s.writes <= 1
    && (s.writes == 1 ==> s.opener.Some?)
    && (s.opener.Some? ==> s.file.Some? && !Insecure(s.file.value.mode))
    && (s.account.Some? ==> Holds(s.file, s.account.value))
  }

  predicate Allows(mode: bv9, right: bv9) {
    mode & right == right
  }

  /** The group or others may execute, write or read the file. */
  predicate OpenToOthers(mode: bv9) {
    || Allows(mode, 1) || Allows(mode, 2) || Allows(mode, 4)
    || Allows(mode, 8) || Allows(mode, 16) || Allows(mode, 32)
  }

  lemma InsecureIff(mode: bv9)
    ensures Insecure(mode) <==> OpenToOthers(mode)
  {
  }

  /** And a process that finds such a file gives up without reading or changing it. */
  lemma InsecureIsRefused(s: State, p: nat)
    requires p < |s.processes| && s.processes[p].phase.Inspecting? && s.file.Some?
    ensures var t := Next(s, Step(p));
            && t.file == s.file
            && (t.processes[p].phase.Failed? <==> OpenToOthers(s.file.value.mode))
  {
    InsecureIff(s.file.value.mode);
  }

  lemma CreationModeIsPrivate(umask: bv9)
    ensures !Insecure(CreationMode(umask)) && !Insecure(0x180)
  {
  }

  lemma BlankHoldsNothing()
    ensures Stored("").None?
  {
  }

  /** What one step does to the file: create it, fill it while blank, restrict it, or nothing. */
  lemma FileAfterStep(s: State, p: nat)
    requires Invariant(s) && p < |s.processes|
    ensures var t := Progress(s, p);
            && (s.file.Some? ==> t.file.Some? && t.opener == s.opener)
            && (forall password | Holds(s.file, password) :: Holds(t.file, password))
            && (t.opener.Some? ==> t.file.Some? && !Insecure(t.file.value.mode))
            && (s.opener == t.opener || (s.file.None? && t.opener == Some(p)))
            && (t.writes == s.writes || (s.processes[p].phase.Writing? && t.writes == 1))
  {
    assert ProcessOk(s, p);
    BlankHoldsNothing();
    CreationModeIsPrivate(s.processes[p].umask);
  }

  lemma OwnStepKeepsOk(s: State, p: nat)
    requires Invariant(s) && p < |s.processes|
    ensures |Progress(s, p).processes| == |s.processes| && ProcessOk(Progress(s, p), p)
  {
    assert ProcessOk(s, p);
  }

  lemma OthersStayOk(s: State, p: nat, q: nat)
    requires Invariant(s) && p < |s.processes| && q < |s.processes| && p != q
    ensures |Progress(s, p).processes| == |s.processes| && ProcessOk(Progress(s, p), q)
  {
    FileAfterStep(s, p);
    assert ProcessOk(s, p) && ProcessOk(s, q);
    assert Progress(s, p).processes[q] == s.processes[q];
    if s.processes[q].phase.Writing? {
      assert Progress(s, p).file.value.content == "";
    }
  }

  lemma NextKeepsInvariant(s: State, a: Action)
    requires Invariant(s)
    ensures Invariant(Next(s, a))
    ensures forall password | Holds(s.file, password) :: Holds(Next(s, a).file, password)
    ensures s.file.Some? ==> Next(s, a).file.Some? && Next(s, a).opener == s.opener
  {
    if a.p < |s.processes| && a.Step? {
      FileAfterStep(s, a.p);
      OwnStepKeepsOk(s, a.p);
      assert ProcessOk(s, a.p);
      forall q | 0 <= q < |s.processes|
        ensures ProcessOk(Progress(s, a.p), q)
      {
        if q != a.p {
          OthersStayOk(s, a.p, q);
        }
      }
    } else {
      forall q | 0 <= q < |s.processes|
        ensures ProcessOk(Next(s, a), q)
      {
        assert ProcessOk(s, q);
      }
      assert a.p < |s.processes| ==> ProcessOk(s, a.p);
    }
  }

  lemma {:induction false} PlayKeepsInvariant(s: State, actions: seq<Action>)
    requires Invariant(s)
    ensures Invariant(Play(s, actions))
    ensures s.file.Some? ==> Play(s, actions).opener == s.opener
    ensures forall password | Holds(s.file, password) :: Holds(Play(s, actions).file, password)
    decreases |actions|
  {
    if actions != [] {
      NextKeepsInvariant(s, actions[0]);
      PlayKeepsInvariant(Next(s, actions[0]), actions[1..]);
    }
  }

  /** All processes that get a password get the same one, and it is in the file. */
  lemma AllPasswordsAgree(s: State, actions: seq<Action>, p: nat, q: nat)
    requires IsInitial(s) && p < |s.processes| && q < |s.processes|
    requires var t := Play(s, actions);
             && |t.processes| == |s.processes| && t.processes[p].phase.Returned? && t.processes[q].phase.Returned?
    ensures var t := Play(s, actions);
            && t.processes[p].phase == t.processes[q].phase
            && Holds(t.file, t.processes[p].phase.password)
  {
    PlayKeepsInvariant(s, actions);
    var t := Play(s, actions);
    assert ProcessOk(t, p) && ProcessOk(t, q);
  }

  /**
   The content is written at most once, and never over a file that was there; no file of theirs is readable
   by others.
   */
  lemma WrittenAtMostOnce(s: State, actions: seq<Action>)
    requires IsInitial(s)
    ensures var t := Play(s, actions);
            && t.writes <= (if s.file.Some? then 0 else 1)
            && (s.file.None? && t.file.Some? ==> !Insecure(t.file.value.mode))
  {
    PlayKeepsInvariant(s, actions);
    if s.file.None? {
      FilesAreTheirs(s, actions);
    }
  }

  lemma {:induction false} FilesAreTheirs(s: State, actions: seq<Action>)
    requires Invariant(s) && (s.file.Some? ==> s.opener.Some?)
    ensures Play(s, actions).file.Some? ==> Play(s, actions).opener.Some?
    decreases |actions|
  {
    if actions != [] {
      NextKeepsInvariant(s, actions[0]);
      FilesAreTheirs(Next(s, actions[0]), actions[1..]);
    }
  }

  /** At every point of every run, an account that was created has its password in the file, and keeps it there. */
  lemma AccountPasswordIsInTheFile(s: State, before: seq<Action>, after: seq<Action>)
    requires IsInitial(s)
    ensures var t := Play(s, before);
            t.account.Some? ==> && Holds(t.file, t.account.value)
                                && Holds(Play(t, after).file, t.account.value)
  {
    PlayKeepsInvariant(s, before);
    PlayKeepsInvariant(Play(s, before), after);
  }

  // ---- What goes right ----

  /** Alone, with no file there, a process creates it, private, and gets the password it generated. */
  lemma AloneCreatesAndReturns(s: State, p: nat)
    requires IsInitial(s) && s.file.None? && p < |s.processes|
    ensures var t := Next(Next(Next(Next(Next(s, Step(p)), Step(p)), Step(p)), Step(p)), Step(p));
            && |t.processes| == |s.processes| && t.writes == 1
            && t.processes[p].phase == Returned(s.processes[p].generated)
            && t.file == Some(File(s.processes[p].generated + "\n", 0x180))
  {
    var me := s.processes[p];
    var s1 := Next(s, Step(p));
    assert s1 == SetPhase(s, p, Reading(false));
    var s2 := Next(s1, Step(p));
    assert s2.processes[p] == me.(phase := Opening) && s2.file.None? && s2.writes == 0;
    var s3 := Next(s2, Step(p));
    assert s3.processes[p] == me.(phase := Writing) && s3.file == Some(File("", CreationMode(me.umask)));
    var s4 := Next(s3, Step(p));
    assert s4.processes[p] == me.(phase := Restricting) && s4.writes == 1;
  }

  /** With a private file that holds a password, a process that starts gets that password and changes nothing. */
  lemma LaterProcessReadsIt(s: State, p: nat, password: string)
    requires p < |s.processes| && s.processes[p].phase == Inspecting(false)
    requires Holds(s.file, password) && !Insecure(s.file.value.mode) && OwnerReads(s.file.value.mode)
    ensures Next(Next(s, Step(p)), Step(p)) == SetPhase(s, p, Returned(password))
  {
    var s1 := Next(s, Step(p));
    assert s1 == SetPhase(s, p, Reading(false));
  }

  /** What `open` leaves of the owner's rights, and of no one else's. */
  lemma CreationRights(umask: bv9, right: bv9)
    requires || right == 1 || right == 2 || right == 4 || right == 8 || right == 16 || right == 32
             || right == 64 || right == 128 || right == 256
    ensures Allows(CreationMode(umask), right) <==> (right == 128 || right == 256) && !Allows(umask, right)
  {
  }

  /** A process that finds the file there when it goes to create it reads it once more, and then gives up. */
  lemma LostRaceReadsOnce(s: State, p: nat)
    requires p < |s.processes| && s.processes[p].phase == Opening && s.file.Some?
    requires !Insecure(s.file.value.mode) && OwnerReads(s.file.value.mode)
    ensures var password := Stored(s.file.value.content);
            Next(Next(Next(s, Step(p)), Step(p)), Step(p)) ==
            SetPhase(s, p, if password.Some? then Returned(password.value) else Failed)
  {
    var s1 := Next(s, Step(p));
    assert s1 == SetPhase(s, p, Inspecting(true));
    var s2 := Next(s1, Step(p));
    assert s2 == SetPhase(s, p, Reading(true));
  }

  /** A process without the owner's right to read it fails at the read. */
  lemma UnreadableFails(s: State, p: nat, again: bool)
    requires p < |s.processes| && s.processes[p].phase == Reading(again)
    requires s.file.Some? && !Allows(s.file.value.mode, 256)
    ensures Next(s, Step(p)) == SetPhase(s, p, Failed)
  {
  }

  /** The account is made with the password a process got, once. */
  lemma AccountIsMade(s: State, p: nat)
    requires p < |s.processes|
    ensures var t := Next(s, CreateAccount(p));
            && t == s.(account := t.account)
            && t.account == if s.account.None? && s.processes[p].phase.Returned?
                            then Some(s.processes[p].phase.password) else s.account
  {
  }

  // ---- What can still go wrong ----

  /**
   A blank file that nobody is about to write, as a process that dies between creating and writing leaves
   it, is never repaired: no process that has no password yet will ever get one.
   */
  predicate Stuck(s: State) {
    && s.file.Some? && Stored(s.file.value.content).None?
    && forall p | 0 <= p < |s.processes| :: !Opened(s.processes[p].phase) && !s.processes[p].phase.Returned?
  }

  lemma NextKeepsStuck(s: State, a: Action)
    requires Stuck(s)
    ensures Stuck(Next(s, a))
  {
    if a.p < |s.processes| {
      assert !Opened(s.processes[a.p].phase) && !s.processes[a.p].phase.Returned?;
      assert Next(s, a).file == s.file;
    }
  }

  lemma {:induction false} StuckForever(s: State, actions: seq<Action>)
    requires Stuck(s)
    ensures Stuck(Play(s, actions))
    decreases |actions|
  {
    if actions != [] {
      NextKeepsStuck(s, actions[0]);
      StuckForever(Next(s, actions[0]), actions[1..]);
    }
  }

  /** Dying right after the exclusive creation leads there from any start without a file. */
  lemma DyingBeforeTheWriteStrandsTheFile(s: State, p: nat)
    requires IsInitial(s) && s.file.None? && p < |s.processes|
    ensures Stuck(Next(Next(Next(Next(s, Step(p)), Step(p)), Step(p)), Fail(p)))
  {
    var s1 := Next(s, Step(p));
    var s2 := Next(s1, Step(p));
    var s3 := Next(s2, Step(p));
    assert s1 == SetPhase(s, p, Reading(false));
    assert s2.processes == s.processes[p := s.processes[p].(phase := Opening)];
    assert s3.processes == s.processes[p := s.processes[p].(phase := Writing)];
    assert s3.file.value.content == "";
  }

  // ---- Exactly when a process can still get a password ----

  /** Some continuation has `p` return a password. */
  ghost predicate CanReturn(s: State, p: nat) {
    exists actions :: ReturnsAfter(s, actions, p)
  }

  ghost predicate ReturnsAfter(s: State, actions: seq<Action>, p: nat) {
    var t := Play(s, actions);
    p < |t.processes| && t.processes[p].phase.Returned?
  }

  /** Some process has created the file and is still to write or restrict it. */
  ghost predicate BeingMade(s: State) {
    exists q | 0 <= q < |s.processes| :: Opened(s.processes[q].phase)
  }

  /**
   There is no file; or it is private, and its owner may read a password from it or some process is still
   making it.
   */
  ghost predicate Hopeful(s: State) {
    || s.file.None?
    || (&& !Insecure(s.file.value.mode)
        && ((OwnerReads(s.file.value.mode) && Stored(s.file.value.content).Some?) || BeingMade(s)))
  }

  lemma {:induction false} PlayInTwo(s: State, first: seq<Action>, second: seq<Action>)
    ensures Play(s, first + second) == Play(Play(s, first), second)
    decreases |first|
  {
    if first == [] {
      assert first + second == second;
    } else {
      assert (first + second)[1..] == first[1..] + second;
      PlayInTwo(Next(s, first[0]), first[1..], second);
    }
  }

  lemma PlayOne(s: State, a: Action)
    ensures Play(s, [a]) == Next(s, a)
  {
    assert Play(Next(s, a), []) == Next(s, a);
  }

  /** A step first, then a continuation that returns. */
  lemma StepThenReturn(s: State, a: Action, p: nat)
    requires CanReturn(Next(s, a), p)
    ensures CanReturn(s, p)
  {
    var actions :| ReturnsAfter(Next(s, a), actions, p);
    PlayOne(s, a);
    PlayInTwo(s, [a], actions);
    assert ReturnsAfter(s, [a] + actions, p);
  }

  lemma ReturnedCanReturn(s: State, p: nat)
    requires p < |s.processes| && s.processes[p].phase.Returned?
    ensures CanReturn(s, p)
  {
    assert Play(s, []) == s;
    assert ReturnsAfter(s, [], p);
  }

  predicate ReadyToRead(s: State) {
    && s.file.Some? && !Insecure(s.file.value.mode) && OwnerReads(s.file.value.mode)
    && Stored(s.file.value.content).Some?
  }

  lemma ReadableCanReturn(s: State, p: nat)
    requires p < |s.processes| && s.processes[p].phase == Inspecting(false) && ReadyToRead(s)
    ensures CanReturn(s, p)
  {
    LaterProcessReadsIt(s, p, Stored(s.file.value.content).value);
    ReturnedCanReturn(Next(Next(s, Step(p)), Step(p)), p);
    StepThenReturn(Next(s, Step(p)), Step(p), p);
    StepThenReturn(s, Step(p), p);
  }

  /** Once its maker has restricted the file, it can be read. */
  lemma RestrictedIsReadable(s: State, q: nat)
    requires Invariant(s) && q < |s.processes| && s.processes[q].phase.Restricting?
    ensures ReadyToRead(Next(s, Step(q)))
    ensures |Next(s, Step(q)).processes| == |s.processes|
    ensures forall p | 0 <= p < |s.processes| && p != q :: Next(s, Step(q)).processes[p] == s.processes[p]
  {
    assert ProcessOk(s, q);
  }

  lemma BeingMadeCanReturn(s: State, p: nat, q: nat)
    requires Invariant(s) && p < |s.processes| && s.processes[p].phase == Inspecting(false)
    requires q < |s.processes| && Opened(s.processes[q].phase)
    ensures CanReturn(s, p)
  {
    assert ProcessOk(s, q);
    if s.processes[q].phase.Writing? {
      var written := Next(s, Step(q));
      NextKeepsInvariant(s, Step(q));
      assert written.processes[q].phase.Restricting? && written.processes[p] == s.processes[p];
      RestrictedIsReadable(written, q);
      ReadableCanReturn(Next(written, Step(q)), p);
      StepThenReturn(written, Step(q), p);
      StepThenReturn(s, Step(q), p);
    } else {
      RestrictedIsReadable(s, q);
      ReadableCanReturn(Next(s, Step(q)), p);
      StepThenReturn(s, Step(q), p);
    }
  }

  lemma AbsentCanReturn(s: State, p: nat)
    requires Invariant(s) && p < |s.processes| && s.processes[p].phase == Inspecting(false) && s.file.None?
    ensures CanReturn(s, p)
  {
    var s1, s2 := Next(s, Step(p)), Next(Next(s, Step(p)), Step(p));
    assert s1 == SetPhase(s, p, Reading(false));
    assert s2.processes[p].phase.Opening? && s2.file.None?;
    var s3 := Next(s2, Step(p));
    assert s3.processes[p].phase.Writing? && s3.file.Some?;
    var s4 := Next(s3, Step(p));
    assert s4.processes[p].phase.Restricting? && s4.file.Some?;
    var s5 := Next(s4, Step(p));
    ReturnedCanReturn(s5, p);
    StepThenReturn(s4, Step(p), p);
    StepThenReturn(s3, Step(p), p);
    StepThenReturn(s2, Step(p), p);
    StepThenReturn(s1, Step(p), p);
    StepThenReturn(s, Step(p), p);
  }

  /** What stays so once there is no hope: nobody makes the file, and `p` is where it cannot read it. */
  ghost predicate Hopeless(s: State, p: nat) {
    && p < |s.processes| && s.file.Some? && !BeingMade(s)
    && if Insecure(s.file.value.mode) then s.processes[p].phase.Inspecting? || s.processes[p].phase.Failed?
       else !s.processes[p].phase.Returned? && !ReadyToRead(s)
  }

  lemma NextKeepsHopeless(s: State, a: Action, p: nat)
    requires Hopeless(s, p)
    ensures Hopeless(Next(s, a), p)
  {
    if a.p < |s.processes| {
      assert !Opened(s.processes[a.p].phase);
      assert Next(s, a).file == s.file;
    }
  }

  lemma {:induction false} HopelessNeverReturns(s: State, actions: seq<Action>, p: nat)
    requires Hopeless(s, p)
    ensures !ReturnsAfter(s, actions, p)
    decreases |actions|
  {
    if actions != [] {
      NextKeepsHopeless(s, actions[0], p);
      HopelessNeverReturns(Next(s, actions[0]), actions[1..], p);
      assert Play(s, actions) == Play(Next(s, actions[0]), actions[1..]);
    }
  }

  /**
   From any reachable state, a process that is about to start can still get a password exactly when there
   is hope: no file, or a private one that its owner can read a password from or that is still being made.
   */
  lemma CanReturnIffHopeful(start: State, before: seq<Action>, p: nat)
    requires IsInitial(start)
    requires var s := Play(start, before); p < |s.processes| && s.processes[p].phase == Inspecting(false)
    ensures CanReturn(Play(start, before), p) <==> Hopeful(Play(start, before))
  {
    PlayKeepsInvariant(start, before);
    var s := Play(start, before);
    if s.file.None? {
      AbsentCanReturn(s, p);
    } else if ReadyToRead(s) {
      ReadableCanReturn(s, p);
    } else if BeingMade(s) {
      var q: nat :| q < |s.processes| && Opened(s.processes[q].phase);
      assert ProcessOk(s, q);
      BeingMadeCanReturn(s, p, q);
    } else {
      forall actions
        ensures !ReturnsAfter(s, actions, p)
      {
        HopelessNeverReturns(s, actions, p);
      }
    }
  }

  // ---- Where the passwords come from ----

  /** A generated password survives being written and read back. */
  lemma GeneratedIsStored(password: string)
    requires password != "" && Trim(password + "\n") == password
    ensures Stored(password + "\n") == Some(password)
  {
  }

  /** Any number of processes, each with a password of its own generating, make an initial state. */
  method Start(umasks: seq<bv9>, file: Option<File>) returns (s: State)
    ensures IsInitial(s) && |s.processes| == |umasks| && s.file == file
    ensures forall p | 0 <= p < |umasks| ::
              s.processes[p].umask == umasks[p] && |s.processes[p].generated| == 24
  {
    var processes: seq<Process> := [];
    for i := 0 to |umasks|
      invariant |processes| == i
      invariant forall p | 0 <= p < i ::
        && processes[p].phase == Inspecting(false) && processes[p].umask == umasks[p]
        && |processes[p].generated| == 24
        && Stored(processes[p].generated + "\n") == Some(processes[p].generated)
    {
      var password := Password.GeneratePassword();
      GeneratedIsStored(password);
      processes := processes + [Process(password, umasks[i], Inspecting(false))];
    }
    s := State(file, processes, None, None, 0);
  }
}
