// The handshake between `start` and the daemon it launches (launcher/mac/main.go: startCmd, pollUntil,
// and the SSH gate of runVMDaemon): stale files are removed, the daemon reports through vm-state.json,
// vm-state-degraded.json or its exit, three monitors watch for that, and startCmd takes the first
// report. One start per directory is under way. Time is in milliseconds.

module StartHandshake {
  import opened Text

  const TIMEOUT := 240_000
  const CHECK_INTERVAL := 200

  /** vm-state.json only ever appears by renaming a finished file; the degraded marker is written in place. */
  datatype StateFile = NoState | StaleState | FreshState
  datatype Marker = NoMarker | StaleMarker | TornMarker | WholeMarker

  datatype Verdict = Started | Degraded | TimedOut | DaemonExited | WaitFailed | NotLaunched

  datatype ParentPc = Preparing | RemovingState | RemovingRuntime | RemovingMarker | Launching | Selecting | Decided(verdict: Verdict)

  datatype DaemonPc =
    | NotRunning
    | Booting
    | GatePassed
    | WritingState(left: nat)
    | Serving
    | GateFailed
    | WritingMarker
    | StayingUp
    | Gone

  datatype StateMonitor = StateOff | StatePolling(next: int) | StateSent(found: bool)
  datatype MarkerMonitor = MarkerOff | MarkerPolling(next: int) | MarkerSent | MarkerGaveUp
  /** process.Wait in startCmd: it returns when the daemon has ended, or fails at any time. */
  datatype ExitMonitor = ExitOff | ExitWaiting | ExitSent(waited: bool)

  datatype State = State(
    now: int,
    deadline: int,
    parent: ParentPc,
    daemon: DaemonPc,
    gate: Option<bool>,
    stateFile: StateFile,
    marker: Marker,
    stateMonitor: StateMonitor,
    markerMonitor: MarkerMonitor,
    exitMonitor: ExitMonitor)

  /** A `start` about to run: files of an earlier run may still be there. */
  ghost predicate Initial(s: State) {
    && s.parent == Preparing && s.daemon == NotRunning && s.gate == None
    && (s.stateFile == NoState || s.stateFile == StaleState)
    && (s.marker == NoMarker || s.marker == StaleMarker)
    && s.stateMonitor == StateOff && s.markerMonitor == MarkerOff && s.exitMonitor == ExitOff
  }

  datatype Report = FromState | FromMarker | FromExit

  datatype Action =
    | ParentMoves(ok: bool, report: Report)
    | StateMonitorMoves
    | MarkerMonitorMoves
    | ExitMonitorMoves(waited: bool)
    | DaemonMoves(ok: bool, dies: bool)
    | TimePasses(duration: nat)

  function ParentStep(s: State, ok: bool, report: Report): Option<State> {
    var failed := s.(parent := Decided(NotLaunched));
    match s.parent
    case Preparing => Some(if ok then s.(parent := RemovingState) else failed)
    case RemovingState => Some(if ok then s.(parent := RemovingRuntime, stateFile := NoState) else failed)
    case RemovingRuntime => Some(if ok then s.(parent := RemovingMarker) else failed)
    case RemovingMarker => Some(if ok then s.(parent := Launching, marker := NoMarker) else failed)
    case Launching =>
      Some(if ok then s.(parent := Selecting, daemon := Booting, deadline := s.now + TIMEOUT,
                         stateMonitor := StatePolling(s.now), markerMonitor := MarkerPolling(s.now),
                         exitMonitor := ExitWaiting)
           else failed)
    case Selecting =>
      (match report
       case FromState =>
         if !s.stateMonitor.StateSent? then None
         else Some(s.(parent := Decided(if s.stateMonitor.found then Started else TimedOut)))
       case FromMarker => if s.markerMonitor != MarkerSent then None else Some(s.(parent := Decided(Degraded)))
       case FromExit =>
         if !s.exitMonitor.ExitSent? then None
         else Some(s.(parent := Decided(if s.exitMonitor.waited then DaemonExited else WaitFailed))))
    case Decided(_) => None
  }

  function StateMonitorStep(s: State): Option<State> {
    match s.stateMonitor
    case StatePolling(next) =>
      if s.now < next then None
      else if s.now >= s.deadline then Some(s.(stateMonitor := StateSent(false)))
      else if s.stateFile != NoState then Some(s.(stateMonitor := StateSent(true)))
      else Some(s.(stateMonitor := StatePolling(s.now + CHECK_INTERVAL)))
    case _ => None
  }

  function MarkerMonitorStep(s: State): Option<State> {
    match s.markerMonitor
    case MarkerPolling(next) =>
      if s.now < next then None
      else if s.now >= s.deadline then Some(s.(markerMonitor := MarkerGaveUp))
      else if s.marker == WholeMarker || s.marker == StaleMarker then Some(s.(markerMonitor := MarkerSent))
      else Some(s.(markerMonitor := MarkerPolling(s.now + CHECK_INTERVAL)))
    case _ => None
  }

  /** `ok`: the gate, the write or the close at hand succeeds; `dies`: the process ends instead. */
  function DaemonStep(s: State, ok: bool, dies: bool): Option<State> {
    if s.daemon == NotRunning || s.daemon == Gone then None
    else if dies then Some(s.(daemon := Gone))
    else match s.daemon
      case Booting => Some(s.(gate := Some(ok), daemon := if ok then GatePassed else GateFailed))
      case GatePassed => Some(s.(daemon := if ok then WritingState(4) else Gone))
      case WritingState(left) =>
        Some(if !ok then s.(daemon := Gone)
             else if left > 0 then s.(daemon := WritingState(left - 1))
             else s.(daemon := Serving, stateFile := FreshState))
      case GateFailed => Some(if ok then s.(daemon := WritingMarker, marker := TornMarker) else s.(daemon := StayingUp))
      case WritingMarker => Some(if ok then s.(daemon := StayingUp, marker := WholeMarker) else s.(daemon := StayingUp))
      case _ => None
  }

  function Apply(s: State, a: Action): Option<State> {
    match a
    case ParentMoves(ok, report) => ParentStep(s, ok, report)
    case StateMonitorMoves => StateMonitorStep(s)
    case MarkerMonitorMoves => MarkerMonitorStep(s)
    case ExitMonitorMoves(waited) =>
      if s.exitMonitor == ExitWaiting && (waited ==> s.daemon == Gone) then Some(s.(exitMonitor := ExitSent(waited))) else None
    case DaemonMoves(ok, dies) => DaemonStep(s, ok, dies)
    case TimePasses(duration) => Some(s.(now := s.now + duration))
  }

  function Run(s: State, actions: seq<Action>): Option<State>
    decreases |actions|
  {
    if actions == [] then Some(s)
    else match Apply(s, actions[0])
      case None => None
      case Some(next) => Run(next, actions[1..])
  }

  // ----- invariant -----

  predicate Unlaunched(pc: ParentPc) {
    pc != Selecting && (pc.Decided? ==> pc.verdict == NotLaunched)
  }

  ghost predicate DaemonOk(s: State) {
    && (s.daemon == NotRunning || s.daemon == Booting ==> s.gate == None)
    && (s.daemon == Booting || s.daemon == GateFailed ==> s.marker == NoMarker)
    && (s.daemon == WritingMarker ==> s.marker == TornMarker)
    && (s.daemon == GatePassed || s.daemon.WritingState? ==> s.gate == Some(true) && s.stateFile == NoState)
    && (s.daemon == Serving ==> s.gate == Some(true))
    && (s.daemon == GateFailed || s.daemon == WritingMarker || s.daemon == StayingUp ==> s.gate == Some(false))
  }

  ghost predicate VerdictOk(s: State, verdict: Verdict) {
    match verdict
    case Started => s.gate == Some(true) && s.stateFile == FreshState
    case Degraded => s.gate == Some(false) && s.marker == WholeMarker
    case TimedOut => s.now >= s.deadline
    case DaemonExited => s.daemon == Gone
    case WaitFailed => s.exitMonitor == ExitSent(false)
    case NotLaunched => s.daemon == NotRunning
  }

  ghost predicate Inv(s: State) {
    && DaemonOk(s)
    && (s.stateFile == FreshState ==> s.gate == Some(true))
    && (s.marker == TornMarker || s.marker == WholeMarker ==> s.gate == Some(false))
    && (s.parent.Decided? ==> VerdictOk(s, s.parent.verdict))
    && if Unlaunched(s.parent) then
         && s.daemon == NotRunning && s.stateMonitor == StateOff && s.markerMonitor == MarkerOff && s.exitMonitor == ExitOff
         && (s.parent in {RemovingRuntime, RemovingMarker, Launching} ==> s.stateFile == NoState)
         && (s.parent == Launching ==> s.marker == NoMarker)
       else
         && s.daemon != NotRunning && s.stateFile != StaleState && s.marker != StaleMarker
         && (s.stateMonitor == StateSent(true) ==> s.stateFile == FreshState)
         && (s.stateMonitor == StateSent(false) ==> s.now >= s.deadline)
         && s.stateMonitor != StateOff
         && (s.stateMonitor.StatePolling? ==> s.stateMonitor.next < s.deadline + CHECK_INTERVAL)
         && (s.markerMonitor == MarkerSent ==> s.marker == WholeMarker)
         && (s.exitMonitor == ExitSent(true) ==> s.daemon == Gone)
  }

  lemma DaemonKeepsInv(s: State, ok: bool, dies: bool)
    requires Inv(s) && DaemonStep(s, ok, dies).Some?
    ensures Inv(DaemonStep(s, ok, dies).value)
  {
  }

  lemma ParentKeepsInv(s: State, ok: bool, report: Report)
    requires Inv(s) && ParentStep(s, ok, report).Some?
    ensures Inv(ParentStep(s, ok, report).value)
  {
  }

  lemma MonitorsKeepInv(s: State, a: Action)
    requires Inv(s) && Apply(s, a).Some? && (a.StateMonitorMoves? || a.MarkerMonitorMoves? || a.ExitMonitorMoves?)
    ensures Inv(Apply(s, a).value)
  {
    hide DaemonStep, ParentStep;
  }

  lemma StepKeepsInv(s: State, a: Action)
    requires Inv(s) && Apply(s, a).Some?
    ensures Inv(Apply(s, a).value)
    ensures s.parent.Decided? ==> Apply(s, a).value.parent == s.parent
  {
    match a
    case ParentMoves(ok, report) => ParentKeepsInv(s, ok, report); hide Inv;
    case DaemonMoves(ok, dies) => DaemonKeepsInv(s, ok, dies); hide Inv;
    case TimePasses(_) => hide DaemonStep, ParentStep;
    case _ => MonitorsKeepInv(s, a); hide Inv;
  }

  lemma {:induction false} RunKeepsInv(s: State, actions: seq<Action>)
    requires Inv(s) && Run(s, actions).Some?
    ensures Inv(Run(s, actions).value)
    ensures s.parent.Decided? ==> Run(s, actions).value.parent == s.parent
    decreases |actions|
  {
    hide Inv, Apply;
    if actions == [] {
    } else {
      StepKeepsInv(s, actions[0]);
      RunKeepsInv(Apply(s, actions[0]).value, actions[1..]);
    }
  }

  // ----- what a verdict means -----

  /**
   * Whatever files an earlier run left behind: `start` reports success only after the daemon it
   * launched passed the SSH gate and published vm-state.json, a degraded start only after that daemon
   * failed the gate, and a daemon never leaves both files.
   */
  lemma VerdictIsTrue(first: State, actions: seq<Action>)
    requires Initial(first) && Run(first, actions).Some?
    ensures
      var s := Run(first, actions).value;
      && (s.parent == Decided(Started) ==> s.gate == Some(true) && s.stateFile == FreshState)
      && (s.parent == Decided(Degraded) ==> s.gate == Some(false) && s.marker == WholeMarker && s.stateFile == NoState)
      && (s.parent == Decided(TimedOut) ==> s.now >= s.deadline)
      && (s.parent == Decided(DaemonExited) ==> s.daemon == Gone)
      && (s.parent == Decided(WaitFailed) ==> s.exitMonitor == ExitSent(false) && s.daemon != NotRunning)
      && (s.parent == Decided(NotLaunched) ==> s.daemon == NotRunning)
      && !(s.stateFile == FreshState && (s.marker == TornMarker || s.marker == WholeMarker))
  {
    assert Inv(first);
    RunKeepsInv(first, actions);
  }

  /** There is exactly one verdict: once given it never changes. */
  lemma VerdictIsFinal(first: State, earlier: seq<Action>, later: seq<Action>)
    requires Initial(first) && Run(first, earlier).Some? && Run(Run(first, earlier).value, later).Some?
    requires Run(first, earlier).value.parent.Decided?
    ensures Run(Run(first, earlier).value, later).value.parent == Run(first, earlier).value.parent
  {
    assert Inv(first);
    RunKeepsInv(first, earlier);
    RunKeepsInv(Run(first, earlier).value, later);
  }

  /**
   * And there always is one: one interval after the deadline at the latest, the state monitor and the
   * selection need nothing but their own steps to reach it.
   */
  lemma VerdictIsReached(first: State, actions: seq<Action>) returns (rest: seq<Action>)
    requires Initial(first) && Run(first, actions).Some?
    requires var s := Run(first, actions).value; s.parent == Selecting && s.now >= s.deadline + CHECK_INTERVAL
    ensures |rest| <= 2 && forall a | a in rest :: a.StateMonitorMoves? || a.ParentMoves?
    ensures Run(Run(first, actions).value, rest).Some? && Run(Run(first, actions).value, rest).value.parent.Decided?
  {
    assert Inv(first);
    RunKeepsInv(first, actions);
    var s := Run(first, actions).value;
    var select := ParentMoves(true, FromState);
    assert [select][1..] == [];
    if s.stateMonitor.StateSent? {
      rest := [select];
    } else {
      rest := [StateMonitorMoves, select];
      assert rest[1..] == [select];
      var t := Apply(s, StateMonitorMoves).value;
      assert Run(t, [select]) == Apply(t, select);
    }
  }

  // ----- which verdict is given -----

  /** The monitors look at their files again no later than one interval after their last look. */
  lemma Polls(first: State, actions: seq<Action>)
    requires Initial(first) && Run(first, actions).Some?
    ensures
      var s := Run(first, actions).value;
      && (s.stateMonitor.StatePolling? ==> s.stateMonitor.next <= s.now + 200)
      && (s.markerMonitor.MarkerPolling? ==> s.markerMonitor.next <= s.now + 200)
  {
    PollsRun(first, actions);
  }

  ghost predicate Prompt(s: State) {
    && (s.stateMonitor.StatePolling? ==> s.stateMonitor.next <= s.now + 200)
    && (s.markerMonitor.MarkerPolling? ==> s.markerMonitor.next <= s.now + 200)
  }

  lemma {:induction false} PollsRun(s: State, actions: seq<Action>)
    requires Prompt(s) && Run(s, actions).Some?
    ensures Prompt(Run(s, actions).value)
    decreases |actions|
  {
    if actions == [] {
    } else {
      PollsRun(Apply(s, actions[0]).value, actions[1..]);
    }
  }

  lemma TwoSteps(s: State, a: Action, b: Action)
    requires Apply(s, a).Some?
    ensures Run(s, [a, b]) == Apply(Apply(s, a).value, b)
  {
    assert [a, b][1..] == [b] && [b][1..] == [];
    assert Run(Apply(s, a).value, [b]) == Apply(Apply(s, a).value, b);
  }

  /** A published vm-state.json that the next look finds in time is reported as success. */
  lemma PublishedIsStarted(first: State, actions: seq<Action>)
    requires Initial(first) && Run(first, actions).Some?
    requires
      var s := Run(first, actions).value;
      && s.parent == Selecting && s.stateFile == FreshState
      && s.stateMonitor.StatePolling? && s.stateMonitor.next <= s.now < s.deadline
    ensures
      var t := Run(Run(first, actions).value, [StateMonitorMoves, ParentMoves(true, FromState)]);
      t.Some? && t.value.parent == Decided(Started)
  {
    TwoSteps(Run(first, actions).value, StateMonitorMoves, ParentMoves(true, FromState));
  }

  /** A complete degraded marker that the next look finds in time is reported as a degraded start. */
  lemma MarkedIsDegraded(first: State, actions: seq<Action>)
    requires Initial(first) && Run(first, actions).Some?
    requires
      var s := Run(first, actions).value;
      && s.parent == Selecting && s.marker == WholeMarker
      && s.markerMonitor.MarkerPolling? && s.markerMonitor.next <= s.now < s.deadline
    ensures
      var t := Run(Run(first, actions).value, [MarkerMonitorMoves, ParentMoves(true, FromMarker)]);
      t.Some? && t.value.parent == Decided(Degraded)
  {
    TwoSteps(Run(first, actions).value, MarkerMonitorMoves, ParentMoves(true, FromMarker));
  }

  /** A daemon that has ended, and a wait that fails, are reported at any time as that. */
  lemma EndedIsReported(first: State, actions: seq<Action>, waited: bool)
    requires Initial(first) && Run(first, actions).Some?
    requires
      var s := Run(first, actions).value;
      s.parent == Selecting && s.exitMonitor == ExitWaiting && (waited ==> s.daemon == Gone)
    ensures
      var t := Run(Run(first, actions).value, [ExitMonitorMoves(waited), ParentMoves(true, FromExit)]);
      t.Some? && t.value.parent == Decided(if waited then DaemonExited else WaitFailed)
  {
    TwoSteps(Run(first, actions).value, ExitMonitorMoves(waited), ParentMoves(true, FromExit));
  }

  ghost predicate Deadline(s: State, deadline: int) {
    s.deadline == deadline && !s.parent.Launching? && !Unlaunched(s.parent)
  }

  lemma {:induction false} DeadlineStays(s: State, actions: seq<Action>, deadline: int)
    requires Deadline(s, deadline) && Run(s, actions).Some?
    ensures Deadline(Run(s, actions).value, deadline)
    decreases |actions|
  {
    if actions == [] {
    } else {
      DeadlineStays(Apply(s, actions[0]).value, actions[1..], deadline);
    }
  }

  /** A time-out is reported no earlier than four minutes after the daemon was launched. */
  lemma TimeOutTakesFourMinutes(first: State, earlier: seq<Action>, launch: Action, later: seq<Action>)
    requires Initial(first) && Run(first, earlier).Some? && Run(first, earlier).value.parent == Launching
    requires launch.ParentMoves? && launch.ok && Run(Run(first, earlier).value, [launch] + later).Some?
    ensures
      var s := Run(first, earlier).value;
      var t := Run(s, [launch] + later).value;
      t.deadline == s.now + 240_000 && (t.parent == Decided(TimedOut) ==> t.now >= s.now + 240_000)
  {
    var s := Run(first, earlier).value;
    assert ([launch] + later)[1..] == later;
    assert Inv(first);
    RunKeepsInv(first, earlier);
    RunKeepsInv(s, [launch] + later);
    DeadlineStays(Apply(s, launch).value, later, s.now + 240_000);
  }

  /** A preparation that fails ends the start there and then, and no daemon is launched. */
  lemma FailedPreparation(first: State, actions: seq<Action>, report: Report)
    requires Initial(first) && Run(first, actions).Some?
    requires
      var s := Run(first, actions).value;
      s.parent in {Preparing, RemovingState, RemovingRuntime, RemovingMarker, Launching}
    ensures
      var s := Run(first, actions).value;
      Apply(s, ParentMoves(false, report)) == Some(s.(parent := Decided(NotLaunched))) && s.daemon == NotRunning
  {
    assert Inv(first);
    RunKeepsInv(first, actions);
  }

  /**
   * What the daemon does when a step fails: without a published state it ends, and without a marker it
   * stays up all the same.
   */
  lemma DaemonFailures(first: State, actions: seq<Action>)
    requires Initial(first) && Run(first, actions).Some?
    ensures
      var s := Run(first, actions).value;
      var t := Apply(s, DaemonMoves(false, false));
      && (s.daemon == GatePassed || s.daemon.WritingState? ==>
            t == Some(s.(daemon := Gone)) && t.value.stateFile == NoState)
      && (s.daemon == GateFailed || s.daemon == WritingMarker ==> t == Some(s.(daemon := StayingUp)))
      && (s.daemon == Serving || s.daemon == StayingUp ==> t == None)
  {
    assert Inv(first);
    RunKeepsInv(first, actions);
  }

  // ----- whole starts -----

  function Prepared(): seq<Action> { [STEP, STEP, STEP, STEP, STEP] }

  const STEP := ParentMoves(true, FromState)
  const DAEMON_WORKS := DaemonMoves(true, false)

  /** Launching: whatever files were there before, they are gone and the monitors run. */
  lemma Launches(first: State) returns (s: State)
    requires Initial(first)
    ensures Run(first, Prepared()) == Some(s)
    ensures s == State(first.now, first.now + 240_000, Selecting, Booting, None, NoState, NoMarker,
                       StatePolling(first.now), MarkerPolling(first.now), ExitWaiting)
  {
    var s1 := first.(parent := RemovingState);
    var s2 := s1.(parent := RemovingRuntime, stateFile := NoState);
    var s3 := s2.(parent := RemovingMarker);
    var s4 := s3.(parent := Launching, marker := NoMarker);
    s := Apply(s4, STEP).value;
    assert Prepared() == [STEP] + ([STEP] + ([STEP] + ([STEP] + ([STEP] + []))));
    RunCons(first, STEP, [STEP] + ([STEP] + ([STEP] + ([STEP] + []))));
    RunCons(s1, STEP, [STEP] + ([STEP] + ([STEP] + [])));
    RunCons(s2, STEP, [STEP] + ([STEP] + []));
    RunCons(s3, STEP, [STEP] + []);
    RunCons(s4, STEP, []);
  }

  lemma RunCons(s: State, a: Action, rest: seq<Action>)
    requires Apply(s, a).Some?
    ensures Run(s, [a] + rest) == Run(Apply(s, a).value, rest)
  {
    assert ([a] + rest)[1..] == rest;
  }

  lemma {:induction false} RunAppend(s: State, a: seq<Action>, b: seq<Action>)
    requires Run(s, a).Some?
    ensures Run(s, a + b) == Run(Run(s, a).value, b)
    decreases |a|
  {
    if a == [] {
      assert a + b == b;
    } else {
      RunAppend(Apply(s, a[0]).value, a[1..], b);
      assert (a + b)[1..] == a[1..] + b;
    }
  }

  function Works(n: nat): seq<Action> { if n == 0 then [] else [DAEMON_WORKS] + Works(n - 1) }

  lemma {:induction false} WritesState(s: State, left: nat)
    requires s.daemon == WritingState(left)
    ensures Run(s, Works(left + 1)) == Some(s.(daemon := Serving, stateFile := FreshState))
    decreases left
  {
    RunCons(s, DAEMON_WORKS, Works(left));
    if left == 0 {
    } else {
      WritesState(s.(daemon := WritingState(left - 1)), left - 1);
    }
  }

  /** Every start can succeed: when the SSH gate passes and the state is published, startCmd says so. */
  lemma GoodStart(first: State) returns (actions: seq<Action>)
    requires Initial(first)
    ensures Run(first, actions).Some? && Run(first, actions).value.parent == Decided(Started)
  {
    var s := Launches(first);
    var ready := s.(daemon := WritingState(4), gate := Some(true));
    var served := ready.(daemon := Serving, stateFile := FreshState);
    RunCons(s, DAEMON_WORKS, [DAEMON_WORKS] + Works(5));
    RunCons(s.(daemon := GatePassed, gate := Some(true)), DAEMON_WORKS, Works(5));
    WritesState(ready, 4);
    var daemon := [DAEMON_WORKS] + ([DAEMON_WORKS] + Works(5));
    RunAppend(first, Prepared(), daemon);
    PublishedIsStarted(first, Prepared() + daemon);
    actions := Prepared() + daemon + [StateMonitorMoves, STEP];
    RunAppend(first, Prepared() + daemon, [StateMonitorMoves, STEP]);
  }

  /** And every start can end degraded: when the gate fails and the marker is written. */
  lemma DegradedStart(first: State) returns (actions: seq<Action>)
    requires Initial(first)
    ensures Run(first, actions).Some? && Run(first, actions).value.parent == Decided(Degraded)
  {
    var s := Launches(first);
    var failed, works := DaemonMoves(false, false), DAEMON_WORKS;
    var s1 := s.(daemon := GateFailed, gate := Some(false));
    var s2 := s1.(daemon := WritingMarker, marker := TornMarker);
    RunCons(s, failed, [works] + ([works] + []));
    RunCons(s1, works, [works] + []);
    RunCons(s2, works, []);
    var daemon := [failed] + ([works] + ([works] + []));
    RunAppend(first, Prepared(), daemon);
    MarkedIsDegraded(first, Prepared() + daemon);
    var look := [MarkerMonitorMoves, ParentMoves(true, FromMarker)];
    actions := Prepared() + daemon + look;
    RunAppend(first, Prepared() + daemon, look);
  }

  /** A daemon that dies is reported as that, however far it has come. */
  lemma DyingStart(first: State, actions: seq<Action>)
    requires Initial(first) && Run(first, actions).Some?
    requires
      var s := Run(first, actions).value;
      s.parent == Selecting && s.exitMonitor == ExitWaiting && s.daemon != Gone
    ensures
      var t := Run(first, actions + [DaemonMoves(true, true)] + [ExitMonitorMoves(true), ParentMoves(true, FromExit)]);
      t.Some? && t.value.parent == Decided(DaemonExited)
  {
    assert Inv(first);
    RunKeepsInv(first, actions);
    var s, dies := Run(first, actions).value, DaemonMoves(true, true);
    RunCons(s, dies, []);
    assert [dies] + [] == [dies];
    RunAppend(first, actions, [dies]);
    EndedIsReported(first, actions + [dies], true);
    RunAppend(first, actions + [dies], [ExitMonitorMoves(true), ParentMoves(true, FromExit)]);
  }

  /** And a start whose daemon does nothing times out after four minutes. */
  lemma IdleStart(first: State) returns (actions: seq<Action>)
    requires Initial(first)
    ensures Run(first, actions).Some?
    ensures
      var t := Run(first, actions).value;
      t.parent == Decided(TimedOut) && t.now == first.now + 240_000 && t.daemon == Booting
  {
    var s := Launches(first);
    var late := s.(now := s.now + 240_000);
    var rest := [TimePasses(240_000)] + ([StateMonitorMoves] + ([STEP] + []));
    RunCons(s, TimePasses(240_000), [StateMonitorMoves] + ([STEP] + []));
    RunCons(late, StateMonitorMoves, [STEP] + []);
    RunCons(late.(stateMonitor := StateSent(false)), STEP, []);
    actions := Prepared() + rest;
    RunAppend(first, Prepared(), rest);
  }

  // ----- the poll loop -----

  function CheckTime(start: int, interval: nat, overrun: nat -> nat, k: nat): int {
    if k == 0 then start else CheckTime(start, interval, overrun, k - 1) + interval + overrun(k)
  }

  /**
   * pollUntil ends: it makes at most one check per started interval, reports success exactly when its
   * last check succeeded, and gives up only when the deadline has passed. `overrun` is the time a
   * check takes on top of the interval.
   */
  method PollUntil(start: int, deadline: int, interval: nat, overrun: nat -> nat, check: int -> bool)
    returns (found: bool, checks: nat)
    requires interval > 0
    ensures forall k | 0 <= k < checks :: CheckTime(start, interval, overrun, k) < deadline
    ensures forall k | 0 <= k < checks - 1 :: !check(CheckTime(start, interval, overrun, k))
    ensures found <==> checks > 0 && check(CheckTime(start, interval, overrun, checks - 1))
    ensures !found ==> CheckTime(start, interval, overrun, checks) >= deadline
    ensures checks > 0 ==> start + (checks - 1) * interval < deadline
  {
    var now := start;
    checks := 0;
    while now < deadline
      invariant now == CheckTime(start, interval, overrun, checks)
      invariant now >= start + checks * interval
      invariant checks > 0 ==> start + (checks - 1) * interval < deadline
      invariant forall k | 0 <= k < checks :: CheckTime(start, interval, overrun, k) < deadline
      invariant forall k | 0 <= k < checks :: !check(CheckTime(start, interval, overrun, k))
      decreases deadline - now
    {
      checks := checks + 1;
      if check(now) {
        return true, checks;
      }
      now := now + interval + overrun(checks);
      assert checks * interval == (checks - 1) * interval + interval;
    }
    return false, checks;
  }
}
