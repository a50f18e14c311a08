// How a daemon of ForwardProtocol gets from start-up to its end: what the SSH gate decides, what a
// start-up failure leads to, and that from every state start-up can still be wound up and a signal can
// still take the process down (launcher/mac/main.go:1337-1519).

module DaemonLifetime {
  import opened Text
  import opened ForwardSpecs
  import opened ForwardService
  import opened Listeners
  import opened StateFile
  import opened ForwardProtocol

  // ----- the SSH gate -----

  predicate PassesGate(s: State, a: Action) {
    s.main.Gate? && a.MainMoves? && a.choice.ok
  }

  /** Some step of the run is the SSH gate being passed. */
  predicate GatePassed(cfg: Config, s: State, actions: seq<Action>)
    requires Run(cfg, s, actions).Some?
    decreases |actions|
  {
    actions != [] && (PassesGate(s, actions[0]) || GatePassed(cfg, Apply(cfg, s, actions[0]).value, actions[1..]))
  }

  /** Nothing has been published, and start-up is not about to. */
  ghost predicate Unpublished(s: State) {
    s.published == None && !s.ready && !s.main.WantPublish? && !s.main.InPublish?
  }

  lemma UnpublishedStep(cfg: Config, s: State, a: Action)
    requires Inv(cfg, s) && Unpublished(s) && Apply(cfg, s, a).Some? && !PassesGate(s, a)
    ensures Unpublished(Apply(cfg, s, a).value)
  {
    hide LogOk, Tidy, States, Serves, FlagsOk, CanBind;
    match a
    case HandlerMoves(i, c) => UnpublishedServe(cfg, s, i, c);
    case _ =>
  }

  lemma UnpublishedServe(cfg: Config, s: State, i: nat, c: Choice)
    requires Inv(cfg, s) && !s.exited && Unpublished(s) && i < |s.handlers| && HandlerStep(s, i, c).Some?
    ensures Unpublished(HandlerStep(s, i, c).value)
  {
    hide LogOk, Tidy, States, Serves, FlagsOk, CanBind, Decide, SaveStep, MainOk;
  }

  lemma {:induction false} UnpublishedRun(cfg: Config, s: State, actions: seq<Action>)
    requires DistinctNames(cfg.specs) && Inv(cfg, s) && Unpublished(s)
    requires Run(cfg, s, actions).Some? && !GatePassed(cfg, s, actions)
    ensures Unpublished(Run(cfg, s, actions).value)
    decreases |actions|
  {
    hide Inv, Apply, Unpublished, PassesGate;
    if actions == [] {
    } else {
      UnpublishedStep(cfg, s, actions[0]);
      StepKeepsInv(cfg, s, actions[0]);
      UnpublishedRun(cfg, Apply(cfg, s, actions[0]).value, actions[1..]);
    }
  }

  /** Without a passed SSH gate, vm-state.json is never published and the service never opens. */
  lemma OnlyTheGatePublishes(cfg: Config, actions: seq<Action>, s: State)
    requires DistinctNames(cfg.specs) && Run(cfg, BEGIN, actions) == Some(s)
    ensures s.published.Some? || s.ready ==> GatePassed(cfg, BEGIN, actions)
  {
    hide Apply, Inv;
    BeginInv(cfg);
    if !GatePassed(cfg, BEGIN, actions) { UnpublishedRun(cfg, BEGIN, actions); }
  }

  /** A failed gate leaves every start-up forward in place and the daemon watching its VM. */
  lemma FailedGateKeepsForwards(cfg: Config, s: State, c: Choice)
    requires Inv(cfg, s) && !s.exited && s.main.Gate? && !c.ok
    ensures
      var t := Apply(cfg, s, MainMoves(c));
      && t.Some? && t.value.main == Watching && t.value.registry == s.registry && t.value.sockets == s.sockets
      && (Unpublished(s) ==> Unpublished(t.value))
  {
    hide LogOk, Tidy, States, Serves, FlagsOk;
  }

  // ----- start-up failures -----

  /** runVMDaemon is on its way out. */
  predicate Leaving(main: MainPc) { main.WantClose? || main.InClose? || main == Returned }

  /** A start-up forward that cannot be bound, or a publication that fails at some step. */
  ghost predicate StartupFails(cfg: Config, s: State, c: Choice) {
    || (&& s.main.Binding? && s.main.next < |cfg.specs|
        && !CanBind(s, "127.0.0.1", cfg.specs[s.main.next].hostPort, c))
    || (s.section.Publishing? && !c.ok && !s.section.publish.Opening?)
  }

  /** Such a failure ends the daemon: from then on it is on its way out, in every continuation. */
  lemma FailedStartLeaves(cfg: Config, s: State, c: Choice, rest: seq<Action>)
    requires DistinctNames(cfg.specs) && Inv(cfg, s) && !s.exited && StartupFails(cfg, s, c)
    requires Run(cfg, s, [MainMoves(c)] + rest).Some?
    ensures Leaving(Run(cfg, s, [MainMoves(c)] + rest).value.main)
  {
    hide LogOk, SectionOk, MainOk, FlagsOk, CanBind;
    assert ([MainMoves(c)] + rest)[1..] == rest;
    var t := Apply(cfg, s, MainMoves(c)).value;
    assert Leaving(t.main);
    LeavingRun(cfg, t, rest);
  }

  lemma LeavingStep(cfg: Config, s: State, a: Action)
    requires Leaving(s.main) && Apply(cfg, s, a).Some?
    ensures Leaving(Apply(cfg, s, a).value.main)
  {
    hide States, CanBind, ServeStep;
    if a.HandlerMoves? { HandlerLeavesMain(s, a.handler, a.choice); }
  }

  lemma {:induction false} LeavingRun(cfg: Config, s: State, actions: seq<Action>)
    requires Leaving(s.main) && Run(cfg, s, actions).Some?
    ensures Leaving(Run(cfg, s, actions).value.main)
    decreases |actions|
  {
    hide Apply, Leaving;
    if actions == [] {
    } else {
      LeavingStep(cfg, s, actions[0]);
      LeavingRun(cfg, Apply(cfg, s, actions[0]).value, actions[1..]);
    }
  }

  // ----- the end can always be reached -----

  function MainRank(main: MainPc): nat {
    match main
    case Holding(_, _, _) => 10 case Binding(_, _) => 9 case Gate(_) => 8 case WantPublish(_) => 7
    case InPublish => 6 case Watching => 5
    case WantClose(last) => if last then 2 else 4
    case InClose(last) => if last then 1 else 3
    case Returned => 0
  }

  function SignalRank(signal: SignalPc): nat {
    match signal case Quiet => 3 case Asking => 2 case InSignalClose => 1 case PoweringOff => 0
  }

  lemma HolderStep(cfg: Config, s: State) returns (a: Action)
    requires Inv(cfg, s) && !s.exited && s.section != Free
    ensures ByHolder(s, a) && Apply(cfg, s, a).Some?
    ensures
      var t := Apply(cfg, s, a).value;
      && LockRank(t) < LockRank(s) && !t.exited
      && MainRank(t.main) <= MainRank(s.main) && SignalRank(t.signal) <= SignalRank(s.signal)
  {
    HolderMakesProgress(cfg, s);
    a :| ByHolder(s, a) && Apply(cfg, s, a).Some?;
    HolderStepsDown(cfg, s, a);
  }

  lemma HolderStepsDown(cfg: Config, s: State, a: Action)
    requires Inv(cfg, s) && !s.exited && ByHolder(s, a) && Apply(cfg, s, a).Some?
    ensures
      var t := Apply(cfg, s, a).value;
      !t.exited && MainRank(t.main) <= MainRank(s.main) && SignalRank(t.signal) <= SignalRank(s.signal)
  {
    hide LogOk, SectionOk, MainOk, FlagsOk, States, ServeStep;
    if a.HandlerMoves? { HandlerLeavesMain(s, a.handler, a.choice); }
  }

  /** With the lock free, start-up can take a step towards its end. */
  lemma MainStepsDown(cfg: Config, s: State) returns (a: Action)
    requires Inv(cfg, s) && !s.exited && s.section == Free && s.main != Returned
    ensures Apply(cfg, s, a).Some?
    ensures
      var t := Apply(cfg, s, a).value;
      !t.exited && MainRank(t.main) < MainRank(s.main)
  {
    hide LogOk, SectionOk, MainOk, FlagsOk, States;
    a := MainMoves(Choice(s.main.Watching?, 0, ""));
  }

  /** From every reachable state runVMDaemon can still return, whatever the others were doing. */
  lemma {:induction false} CanReturn(cfg: Config, s: State) returns (actions: seq<Action>)
    requires DistinctNames(cfg.specs) && Inv(cfg, s) && !s.exited
    ensures Run(cfg, s, actions).Some? && Run(cfg, s, actions).value.main == Returned
    ensures !Run(cfg, s, actions).value.exited
    decreases MainRank(s.main), LockRank(s)
  {
    hide Apply, Inv, MainRank, LockRank, ByHolder;
    if s.main == Returned {
      actions := [];
    } else {
      var a: Action;
      if s.section == Free { a := MainStepsDown(cfg, s); } else { a := HolderStep(cfg, s); }
      StepKeepsInv(cfg, s, a);
      var rest := CanReturn(cfg, Apply(cfg, s, a).value);
      actions := [a] + rest;
      assert actions[1..] == rest;
    }
  }

  lemma SignalStepsDown(cfg: Config, s: State) returns (a: Action)
    requires Inv(cfg, s) && !s.exited && s.section == Free && s.signal != PoweringOff
    ensures Apply(cfg, s, a).Some?
    ensures
      var t := Apply(cfg, s, a).value;
      !t.exited && SignalRank(t.signal) < SignalRank(s.signal)
  {
    hide LogOk, SectionOk, MainOk, FlagsOk, States;
    a := SignalMoves(Choice(true, 0, ""));
  }

  /** From every reachable state a stop signal can still take the process down. */
  lemma {:induction false} CanExit(cfg: Config, s: State) returns (actions: seq<Action>)
    requires DistinctNames(cfg.specs) && Inv(cfg, s) && !s.exited
    ensures Run(cfg, s, actions).Some? && Run(cfg, s, actions).value.exited
    decreases SignalRank(s.signal), LockRank(s)
  {
    if s.signal == PoweringOff {
      var a := SignalMoves(Choice(true, 0, ""));
      actions := [a];
      assert actions[1..] == [];
    } else {
      hide Apply, Inv, SignalRank, LockRank, ByHolder;
      var a: Action;
      if s.section == Free { a := SignalStepsDown(cfg, s); } else { a := HolderStep(cfg, s); }
      StepKeepsInv(cfg, s, a);
      var rest := CanExit(cfg, Apply(cfg, s, a).value);
      actions := [a] + rest;
      assert actions[1..] == rest;
    }
  }

  // ----- every request can be answered -----

  function HandlerRank(pc: HandlerPc): nat {
    match pc case Waiting(_) => 2 case Inside => 1 case Done(_, _) => 0
  }

  /** A step of the lock's holder brings no handler further from its answer, and its own one closer. */
  lemma HolderServes(cfg: Config, s: State, a: Action, i: nat)
    requires Inv(cfg, s) && !s.exited && ByHolder(s, a) && Apply(cfg, s, a).Some? && i < |s.handlers|
    ensures
      var t := Apply(cfg, s, a).value;
      i < |t.handlers| && HandlerRank(t.handlers[i]) <= HandlerRank(s.handlers[i])
  {
    hide LogOk, SectionOk, MainOk, FlagsOk, States, ServeStep;
    if a.HandlerMoves? {
      OthersUntouched(s, a.handler, a.choice);
      ServingMovesOne(s, a.choice);
    }
  }

  lemma {:induction false} CanAnswer(cfg: Config, s: State, i: nat) returns (actions: seq<Action>)
    requires DistinctNames(cfg.specs) && Inv(cfg, s) && !s.exited && i < |s.handlers|
    ensures Run(cfg, s, actions).Some?
    ensures
      var t := Run(cfg, s, actions).value;
      !t.exited && i < |t.handlers| && t.handlers[i].Done?
    decreases HandlerRank(s.handlers[i]), LockRank(s)
  {
    if s.handlers[i].Done? {
      actions := [];
    } else {
      var a: Action;
      if s.section == Free {
        a := HandlerMoves(i, Choice(true, 0, ""));
        Enters(cfg, s, i);
      } else {
        a := HolderStep(cfg, s);
        HolderServes(cfg, s, a, i);
      }
      hide Apply, Inv, LockRank, ByHolder;
      StepKeepsInv(cfg, s, a);
      var rest := CanAnswer(cfg, Apply(cfg, s, a).value, i);
      actions := [a] + rest;
      assert actions[1..] == rest;
    }
  }

  lemma Enters(cfg: Config, s: State, i: nat)
    requires Inv(cfg, s) && !s.exited && s.section == Free && i < |s.handlers| && !s.handlers[i].Done?
    ensures
      var t := Apply(cfg, s, HandlerMoves(i, Choice(true, 0, "")));
      t.Some? && !t.value.exited && i < |t.value.handlers| && t.value.handlers[i].Inside? && s.handlers[i].Waiting?
  {
    hide LogOk, SectionOk, MainOk, FlagsOk;
  }

  /** A request can arrive in every reachable state, start-up and shutdown included, and be answered. */
  lemma EveryRequestCanBeAnswered(cfg: Config, s: State, request: Request) returns (rest: seq<Action>)
    requires DistinctNames(cfg.specs) && Reachable(cfg, s) && !s.exited
    ensures Run(cfg, s, [Arrive(request)] + rest).Some?
    ensures
      var t := Run(cfg, s, [Arrive(request)] + rest).value;
      !t.exited && |s.handlers| < |t.handlers| && t.handlers[|s.handlers|].Done?
  {
    ReachableInv(cfg, s);
    StepKeepsInv(cfg, s, Arrive(request));
    hide Inv;
    var t := Apply(cfg, s, Arrive(request)).value;
    rest := CanAnswer(cfg, t, |s.handlers|);
    assert ([Arrive(request)] + rest)[1..] == rest;
  }

  // ----- the end of the daemon -----

  /**
   * The daemon can always end, by its VM stopping and by a signal, and either way every listener it
   * ever bound is closed.
   */
  lemma DaemonCanEnd(cfg: Config, s: State) returns (returning: seq<Action>, exiting: seq<Action>)
    requires DistinctNames(cfg.specs) && Reachable(cfg, s) && !s.exited
    ensures Run(cfg, s, returning).Some? && Run(cfg, s, exiting).Some?
    ensures
      var t, u := Run(cfg, s, returning).value, Run(cfg, s, exiting).value;
      t.main == Returned && u.exited && t.sockets == {} && u.sockets == {}
  {
    hide Apply, Inv;
    ReachableInv(cfg, s);
    returning := CanReturn(cfg, s);
    exiting := CanExit(cfg, s);
    RunKeepsInv(cfg, s, returning);
    RunKeepsInv(cfg, s, exiting);
    EndedIsClosed(cfg, Run(cfg, s, returning).value);
    EndedIsClosed(cfg, Run(cfg, s, exiting).value);
  }

  lemma EndedIsClosed(cfg: Config, s: State)
    requires Inv(cfg, s) && (s.main == Returned || s.exited)
    ensures s.sockets == {}
  {
    hide LogOk, LockOk, SectionOk, FlagsOk;
  }
}
