// What clients of the live-forward service can rely on while start-up, signals and other clients
// interleave with them: what repeating a request does over the history of any reachable state of
// ForwardProtocol, and what one request has done to registry, listeners and vm-state.json by the time
// it is answered (docs/requirements.md, "Networking"; launcher/mac/forward_commands.go:100-161).

module ForwardRequests {
  import opened Text
  import opened ForwardSpecs
  import opened ForwardService
  import opened Listeners
  import opened StateFile
  import opened ForwardProtocol

  // ----- what a history of requests promises -----

  /** Two requests of a reachable state's history, the second one taken up later. */
  ghost predicate BothAnswered(s: State, k: nat, l: nat, kind: string) {
    && k < l < |s.log| && s.log[k].event.Requested? && s.log[l].event.Requested?
    && s.log[k].event.request.request == kind && s.log[l].event.request.request == kind
  }

  /**
   * Adding a forward again: whatever other requests come between a successful add and a later add for
   * the same name, as long as nothing removes that name the later one changes nothing, and it succeeds
   * exactly when it asks for the same settings. It then reports the same mapping for the name.
   */
  lemma AddIsIdempotent(cfg: Config, s: State, k: nat, l: nat)
    requires DistinctNames(cfg.specs) && Reachable(cfg, s) && BothAnswered(s, k, l, "forward-add")
    requires s.log[k].event.response.Forwards?
    requires WantedSpec(s.log[l].event.request).name == WantedSpec(s.log[k].event.request).name
    requires forall j | k < j < l :: !CanDrop(s.log[j].event, WantedSpec(s.log[k].event.request).name)
    ensures
      var first, again := s.log[k].event, s.log[l].event;
      && s.log[l].after == s.log[l - 1].after
      && (again.response.Forwards? <==>
            && again.request.guestPort == first.request.guestPort && again.request.hostPort == first.request.hostPort
            && RequestedAddress(again.request.hostIP) == RequestedAddress(first.request.hostIP))
      && (again.response.Forwards? ==>
            && again.response.forwards == States(s.log[l].after.registry)
            && var name := WantedSpec(first.request).name;
               name in again.response.forwards && name in first.response.forwards
               && again.response.forwards[name] == first.response.forwards[name])
  {
    LogIsLegal(cfg, s);
    var name := WantedSpec(s.log[k].event.request).name;
    HappenedAt(s.log, k);
    HappenedAt(s.log, l);
    ForwardsPersist(s.log, k, l, name);
    ReadyPersists(s.log, k, l);
    AddTwice(Current(s.log[..k]).registry, s.log[k].event.request, s.log[k].after.registry, s.log[k].event.response,
             s.log[l - 1].after.registry, s.log[l].event.request, s.log[l].after.registry, s.log[l].event.response);
  }

  /**
   * Adding a start-up forward again: while the service is ready, and as long as nothing removed it, an
   * add for its name changes nothing and succeeds exactly when it asks for the spec that start-up was
   * given, on 127.0.0.1. It then reports the mapping that start-up registered.
   */
  lemma AddRepeatsStartup(cfg: Config, s: State, k: nat, l: nat) returns (spec: ForwardSpec)
    requires WellFormedList(cfg.specs) && Reachable(cfg, s) && k < l < |s.log|
    requires s.log[k].event.Registered? && s.log[l].event.Requested? && s.log[l].event.request.request == "forward-add"
    requires WantedSpec(s.log[l].event.request).name == s.log[k].event.forwarder.name
    requires forall j | k < j < l :: !CanDrop(s.log[j].event, s.log[k].event.forwarder.name)
    ensures spec in cfg.specs && Honours(s.log[k].event.forwarder, spec)
    ensures
      var f, again := s.log[k].event.forwarder, s.log[l].event;
      && s.log[l].after == s.log[l - 1].after
      && (again.response.Forwards? <==>
            && s.log[l].after.ready && WantedSpec(again.request) == spec
            && RequestedAddress(again.request.hostIP) == Some("127.0.0.1"))
      && (again.response.Forwards? ==>
            && again.response.forwards == States(s.log[l].after.registry)
            && f.name in again.response.forwards && again.response.forwards[f.name] == StateOf(f))
  {
    assert WellFormedList(cfg.specs) ==> DistinctNames(cfg.specs);
    var f, again := s.log[k].event.forwarder, s.log[l].event;
    spec := StartupSpec(cfg, s, k);
    hide *;
    LogIsLegal(cfg, s);
    RegisteredEnters(s.log, k);
    ForwardsPersist(s.log, k, l, f.name);
    HappenedAt(s.log, l);
    AddFinds(s.log[l - 1].after, again, s.log[l].after, f, spec);
  }

  lemma RegisteredEnters(log: seq<Entry>, k: nat)
    requires Legal(log) && k < |log| && log[k].event.Registered?
    ensures
      var f := log[k].event.forwarder;
      f.name in log[k].after.registry && log[k].after.registry[f.name] == f
  {
    HappenedAt(log, k);
    hide Serves;
  }

  lemma StartupSpec(cfg: Config, s: State, k: nat) returns (spec: ForwardSpec)
    requires WellFormedList(cfg.specs) && Reachable(cfg, s) && k < |s.log| && s.log[k].event.Registered?
    ensures spec in cfg.specs && ValidSpec(spec) && Honours(s.log[k].event.forwarder, spec)
  {
    hide Honours, ValidSpec, Reachable;
    OnlySpecsRegister(cfg, s);
    var i :| 0 <= i < |cfg.specs| && Honours(s.log[k].event.forwarder, cfg.specs[i]);
    spec := cfg.specs[i];
  }

  /** An add on a registry that holds a start-up forwarder under the name. */
  lemma AddFinds(before: Service, event: Event, after: Service, f: Forwarder, spec: ForwardSpec)
    requires Happens(before, event, after) && event.Requested? && event.request.request == "forward-add"
    requires ValidSpec(spec) && Honours(f, spec) && WantedSpec(event.request).name == f.name
    requires f.name in before.registry && before.registry[f.name] == f
    ensures after == before
    ensures event.response.Forwards? <==>
      after.ready && WantedSpec(event.request) == spec && RequestedAddress(event.request.hostIP) == Some("127.0.0.1")
    ensures event.response.Forwards? ==>
      && event.response.forwards == States(after.registry)
      && f.name in event.response.forwards && event.response.forwards[f.name] == StateOf(f)
  {
    hide TrimSpace, AddressText, ValidName;
  }

  /** The forwarders that a history registers at start-up are those of the specs. */
  ghost predicate StartupEvents(cfg: Config, log: seq<Entry>) {
    forall k | 0 <= k < |log| && log[k].event.Registered? ::
      exists i :: 0 <= i < |cfg.specs| && Honours(log[k].event.forwarder, cfg.specs[i])
  }

  lemma StartupEventsStep(cfg: Config, s: State, a: Action)
    requires Inv(cfg, s) && StartupEvents(cfg, s.log) && Apply(cfg, s, a).Some?
    ensures StartupEvents(cfg, Apply(cfg, s, a).value.log)
  {
    hide LogOk, LockOk, SectionOk, FlagsOk, Honours, ServeStep, PublishStep, CloseStep, States;
    match a
    case HandlerMoves(i, c) =>
      if s.handlers[i].Inside? && s.section.handler < |s.handlers| { ServingLogs(s, c); }
    case MainMoves(c) =>
      if s.section.Publishing? { PublishingLogs(cfg, s, c); }
      if s.section.ClosingAll? { ClosingLogs(s, c); }
    case SignalMoves(c) =>
      if s.section.ClosingAll? { ClosingLogs(s, c); }
    case _ =>
  }

  lemma {:induction false} StartupEventsRun(cfg: Config, s: State, actions: seq<Action>)
    requires DistinctNames(cfg.specs) && Inv(cfg, s) && StartupEvents(cfg, s.log) && Run(cfg, s, actions).Some?
    ensures StartupEvents(cfg, Run(cfg, s, actions).value.log)
    decreases |actions|
  {
    hide Inv, Apply, StartupEvents;
    if actions == [] {
    } else {
      StartupEventsStep(cfg, s, actions[0]);
      StepKeepsInv(cfg, s, actions[0]);
      StartupEventsRun(cfg, Apply(cfg, s, actions[0]).value, actions[1..]);
    }
  }

  lemma OnlySpecsRegister(cfg: Config, s: State)
    requires DistinctNames(cfg.specs) && Reachable(cfg, s)
    ensures StartupEvents(cfg, s.log)
  {
    hide Apply;
    var actions :| Run(cfg, BEGIN, actions) == Some(s);
    BeginInv(cfg);
    StartupEventsRun(cfg, BEGIN, actions);
  }

  /** One add of a name, and another one later that finds the same forwarder under it. */
  lemma AddTwice(r0: Registry, first: Request, r1: Registry, response: Response,
                 r2: Registry, again: Request, r3: Registry, answer: Response)
    requires first.request == again.request == "forward-add"
    requires Serves(true, r0, first, r1, response) && response.Forwards? && Serves(true, r2, again, r3, answer)
    requires WantedSpec(again).name == WantedSpec(first).name
    requires WantedSpec(first).name in r1 ==> WantedSpec(first).name in r2 && r2[WantedSpec(first).name] == r1[WantedSpec(first).name]
    ensures Admissible(first) && WantedSpec(first).name in r1 && SameSettings(r1[WantedSpec(first).name], first)
    ensures response == Forwards(States(r1)) && r3 == r2
    ensures answer.Forwards? <==>
      && again.guestPort == first.guestPort && again.hostPort == first.hostPort
      && RequestedAddress(again.hostIP) == RequestedAddress(first.hostIP)
    ensures answer.Forwards? ==> answer.forwards == States(r3)
  {
    hide TrimSpace, AddressText;
  }

  /**
   * Removing a forward again: after a successful remove, as long as nothing adds the name and the
   * service is not shut down, a later remove of that name succeeds and changes nothing.
   */
  lemma RemoveIsIdempotent(cfg: Config, s: State, k: nat, l: nat)
    requires DistinctNames(cfg.specs) && Reachable(cfg, s) && BothAnswered(s, k, l, "forward-remove")
    requires s.log[k].event.response.Forwards?
    requires s.log[l].event.request.name == s.log[k].event.request.name
    requires forall j | k < j < l :: !CanEnter(s.log[j].event, s.log[k].event.request.name) && !s.log[j].event.ClosedAll?
    ensures s.log[l].after == s.log[l - 1].after && s.log[k].event.request.name !in s.log[l].after.registry
    ensures s.log[l].event.response == Forwards(States(s.log[l].after.registry))
  {
    LogIsLegal(cfg, s);
    HappenedAt(s.log, k);
    HappenedAt(s.log, l);
    ForwardsPersist(s.log, k, l, s.log[k].event.request.name);
    ReadyPersists(s.log, k, l);
  }

  /**
   * On the socket, add trims the name and remove does not. A remove that is given the name text of an
   * earlier successful add therefore removes its forward only if that text is trimmed; otherwise it
   * succeeds and changes nothing. (The command line trims both.)
   */
  lemma RemoveByTheTextOfAnAdd(cfg: Config, s: State, k: nat, l: nat)
    requires WellFormedList(cfg.specs) && Reachable(cfg, s) && k < l < |s.log|
    requires s.log[k].event.Requested? && s.log[k].event.request.request == "forward-add" && s.log[k].event.response.Forwards?
    requires s.log[l].event.Requested? && s.log[l].event.request.request == "forward-remove"
    requires s.log[l].event.request.name == s.log[k].event.request.name
    requires forall j | k < j < l :: !CanDrop(s.log[j].event, TrimSpace(s.log[k].event.request.name))
    ensures
      var text := s.log[k].event.request.name;
      var before, after := s.log[l - 1].after, s.log[l].after;
      && TrimSpace(text) in before.registry
      && (if TrimSpace(text) != text then s.log[l].event.response.Forwards? && after == before
          else s.log[l].event.response.Forwards? ==> after == before.(registry := before.registry - {text}))
  {
    hide Inv, Legal, StartupEvents, AddEffect, RemoveEffect;
    LogIsLegal(cfg, s);
    OnlySpecsRegister(cfg, s);
    TextOfAnAdd(cfg, s.log, k, l, s.log[k].event.request.name);
    hide *;
    RemoveTakes(s.log[l - 1].after, s.log[l].event, s.log[l].after);
  }

  lemma TextOfAnAdd(cfg: Config, log: seq<Entry>, k: nat, l: nat, text: string)
    requires WellFormedList(cfg.specs) && Legal(log) && StartupEvents(cfg, log) && k < l < |log|
    requires log[k].event.Requested? && log[k].event.request.request == "forward-add" && log[k].event.response.Forwards?
    requires log[k].event.request.name == text
    requires forall j | k < j < l :: !CanDrop(log[j].event, TrimSpace(text))
    ensures log[l - 1].after.ready && TrimSpace(text) in log[l - 1].after.registry
    ensures TrimSpace(text) != text ==> text !in log[l - 1].after.registry
    ensures Happens(log[l - 1].after, log[l].event, log[l].after)
  {
    hide *;
    HappenedAt(log, k);
    AddEnters(Current(log[..k]), log[k].event, log[k].after);
    StillReady(log, k, l, TrimSpace(text));
    ForwardsPersist(log, k, l, TrimSpace(text));
    NamesAreTrimmed(cfg, log, l - 1, text);
    HappenedAt(log, l);
  }

  lemma StillReady(log: seq<Entry>, k: nat, l: nat, name: string)
    requires Legal(log) && k < l <= |log| && log[k].after.ready
    requires forall j | k < j < l :: !CanDrop(log[j].event, name)
    ensures log[l - 1].after.ready
  {
    hide Legal;
    ReadyPersists(log, k, l);
  }

  lemma AddEnters(before: Service, event: Event, after: Service)
    requires Happens(before, event, after) && event.Requested? && event.request.request == "forward-add"
    requires event.response.Forwards?
    ensures after.ready && TrimSpace(event.request.name) in after.registry
  {
    hide TrimSpace, AddressText, ValidSpec;
  }

  lemma RemoveTakes(before: Service, event: Event, after: Service)
    requires Happens(before, event, after) && event.Requested? && event.request.request == "forward-remove" && before.ready
    ensures event.request.name !in before.registry ==> event.response.Forwards? && after == before
    ensures event.request.name in before.registry && event.response.Forwards? ==>
            after == before.(registry := before.registry - {event.request.name})
  {
    hide States;
    if event.request.name in before.registry && after.registry == before.registry {
      assert event.request.name !in before.registry - {event.request.name};
    }
  }

  /** No registered name has white space around it. */
  lemma {:induction false} NamesAreTrimmed(cfg: Config, log: seq<Entry>, k: nat, name: string)
    requires WellFormedList(cfg.specs) && Legal(log) && StartupEvents(cfg, log) && k < |log|
    ensures name in log[k].after.registry ==> TrimSpace(name) == name
  {
    hide Happens, StartupEvents;
    HappenedAt(log, k);
    EventEntersTrimmed(cfg, log, k, name);
    if k == 0 {
    } else {
      NamesAreTrimmed(cfg, log, k - 1, name);
    }
  }

  lemma EventEntersTrimmed(cfg: Config, log: seq<Entry>, k: nat, name: string)
    requires WellFormedList(cfg.specs) && Legal(log) && StartupEvents(cfg, log) && k < |log|
    ensures name in log[k].after.registry && name !in Current(log[..k]).registry ==> TrimSpace(name) == name
  {
    HappenedAt(log, k);
    hide TrimSpace, Legal, AddressText;
    var event := log[k].event;
    if event.Registered? && event.forwarder.name == name {
      var i :| 0 <= i < |cfg.specs| && Honours(event.forwarder, cfg.specs[i]);
      ValidNameIsTrimmed(cfg.specs[i].name);
    }
    if event.Requested? && Admissible(event.request) {
      ValidNameIsTrimmed(WantedSpec(event.request).name);
    }
  }

  /** A forward stays as it is, and a name stays free, until an event that addresses that name. */
  lemma OtherForwardsPreserved(cfg: Config, s: State, k: nat, l: nat, name: string)
    requires DistinctNames(cfg.specs) && Reachable(cfg, s) && k < l < |s.log|
    requires forall j | k < j <= l :: !CanDrop(s.log[j].event, name) && !CanEnter(s.log[j].event, name)
    ensures name in s.log[l].after.registry <==> name in s.log[k].after.registry
    ensures name in s.log[k].after.registry ==> s.log[l].after.registry[name] == s.log[k].after.registry[name]
  {
    LogIsLegal(cfg, s);
    ForwardsPersist(s.log, k, l + 1, name);
  }

  lemma LogIsLegal(cfg: Config, s: State)
    requires DistinctNames(cfg.specs) && Reachable(cfg, s)
    ensures Legal(s.log)
  {
    ReachableInv(cfg, s);
    hide Legal;
  }

  lemma HappenedAt(log: seq<Entry>, k: nat)
    requires Legal(log) && k < |log|
    ensures Happens(Current(log[..k]), log[k].event, log[k].after)
    ensures k > 0 ==> Current(log[..k]) == log[k - 1].after
  {
  }

  // ----- one request, from taking the lock to the response -----

  /** The bound listeners but for one that start-up has bound and not registered yet. */
  function ServiceSockets(s: State): set<Forwarder> {
    s.sockets - MainHeld(s.main)
  }

  /** Registry, listeners and file are as they were. */
  ghost predicate SameWorld(s: State, t: State) {
    t.registry == s.registry && t.published == s.published && ServiceSockets(t) == ServiceSockets(s)
  }

  /** A new forwarder for the request is registered, bound and published. */
  ghost predicate Added(cfg: Config, s: State, t: State, request: Request, f: Forwarder) {
    && AddStarted(s.registry, request, f) && f !in ServiceSockets(s)
    && t.registry == s.registry[f.name := f] && ServiceSockets(t) == ServiceSockets(s) + {f}
    && t.published == Some(WithForwards(cfg.base, t.registry))
  }

  /** The forwarder the request names is unregistered, closed and no longer published. */
  ghost predicate Removed(cfg: Config, s: State, t: State, request: Request) {
    && request.request == "forward-remove" && request.name in s.registry
    && t.registry == s.registry - {request.name}
    && ServiceSockets(t) == ServiceSockets(s) - {s.registry[request.name]}
    && t.published == Some(WithForwards(cfg.base, t.registry))
  }

  /** The step in which Close reports an error for the forwarder that handler i has just removed. */
  predicate CloseFailsNow(s: State, a: Action, i: nat) {
    && s.section.Serving? && s.section.handler == i && s.section.pc.Retiring?
    && a.HandlerMoves? && a.handler == i && !a.choice.ok
  }

  predicate CloseFails(cfg: Config, s: State, actions: seq<Action>, i: nat)
    requires Run(cfg, s, actions).Some?
    decreases |actions|
  {
    actions != [] && (CloseFailsNow(s, actions[0], i) || CloseFails(cfg, Apply(cfg, s, actions[0]).value, actions[1..], i))
  }

  /** How far handler i has come with its request since it took the lock in state s0. */
  ghost predicate Underway(cfg: Config, s0: State, s: State, i: nat, closeFailed: bool) {
    && s0.section.Serving? && s.section.Serving? && s0.section.handler == s.section.handler == i
    && s.section.request == s0.section.request
    && (closeFailed ==> s.section.pc.Answering?)
    && match s.section.pc
       case Checking => SameWorld(s0, s)
       case Starting(_, _) => SameWorld(s0, s)
       case Recording(f) => Bound(s0, s, f) && s.registry == s0.registry
       case SavingAdd(f, _) => Bound(s0, s, f) && AddStarted(s0.registry, s0.section.request, f) && s.registry == s0.registry[f.name := f]
       case Withdrawing(f) => Bound(s0, s, f) && s.registry == s0.registry
       case SavingRemove(f, _) =>
         && RemoveBegun(s0.registry, s0.section.request, f, s.registry)
         && s.published == s0.published && ServiceSockets(s) == ServiceSockets(s0)
       case Retiring(f) =>
         RemoveBegun(s0.registry, s0.section.request, f, s.registry) && ServiceSockets(s) == ServiceSockets(s0)
       case Answering(None) => !closeFailed && Changed(cfg, s0, s)
       case Answering(Some(_)) => if closeFailed then Removed(cfg, s0, s, s0.section.request) else SameWorld(s0, s)
  }

  ghost predicate Bound(s0: State, s: State, f: Forwarder) {
    s.published == s0.published && f !in ServiceSockets(s0) && ServiceSockets(s) == ServiceSockets(s0) + {f}
  }

  /** What a successful request may have done. */
  ghost predicate Changed(cfg: Config, s: State, t: State)
    requires s.section.Serving?
  {
    || SameWorld(s, t)
    || (exists f :: Added(cfg, s, t, s.section.request, f))
    || Removed(cfg, s, t, s.section.request)
  }

  lemma ReadyHoldsNothing(cfg: Config, s: State)
    requires Inv(cfg, s) && s.ready
    ensures MainHeld(s.main) == {} && ServiceSockets(s) == s.sockets
  {
    hide LogOk, LockOk, SectionOk, FlagsOk;
  }

  ghost predicate UnderwayAt(cfg: Config, s0: State, s: State, i: nat) {
    AtServing(cfg, s) && s.section.handler < |s.handlers| && Underway(cfg, s0, s, i, false)
  }

  lemma UnderwayChecking(cfg: Config, s0: State, s: State, i: nat, c: Choice)
    requires UnderwayAt(cfg, s0, s, i) && s.section.pc.Checking?
    ensures Underway(cfg, s0, ServeStep(s, c), i, false)
  {
    hide LogOk, Tidy, States, Decide, AddAdmitted, Serves;
    if s.ready {
      DecideServes(s.registry, s.section.request);
      if Decide(s.registry, s.section.request).SavingRemove? {
        RemovedKeepsName(s.registry, s.sockets, s.started, s.section.request.name);
      }
    }
  }

  lemma FreshId(registry: Registry, sockets: set<Forwarder>, inFlight: set<Forwarder>, started: nat, f: Forwarder)
    requires Tidy(registry, sockets, inFlight, started) && f.id == started
    ensures f !in sockets
  {
  }

  lemma StartingIsTidy(cfg: Config, s: State)
    requires AtServing(cfg, s) && s.section.pc.Starting?
    ensures s.ready && Tidy(s.registry, s.sockets, {}, s.started)
  {
    hide LogOk, LockOk, MainOk, FlagsOk, Tidy;
  }

  lemma UnderwayStarting(cfg: Config, s0: State, s: State, i: nat, c: Choice)
    requires UnderwayAt(cfg, s0, s, i) && s.section.pc.Starting?
    ensures Underway(cfg, s0, ServeStep(s, c), i, false)
  {
    StartingIsTidy(cfg, s);
    ReadyHoldsNothing(cfg, s);
    hide Inv, Tidy, MainHeld, CanBind, AddStarted, RemoveBegun, Changed, Removed, SameWorld, ServiceSockets, Bound;
    var spec, t := s.section.pc.spec, ServeStep(s, c);
    var f := Forwarder(s.started, spec.name, s.section.pc.hostIP, spec.hostPort, spec.guestPort, c.port);
    FreshId(s.registry, s.sockets, {}, s.started, f);
    NowBound(s0, s, t, f);
  }

  lemma NowBound(s0: State, s: State, t: State, f: Forwarder)
    requires SameWorld(s0, s) && t.main == s.main && t.registry == s.registry && t.published == s.published
    requires MainHeld(s.main) == {} && f !in s.sockets
    ensures t.sockets == s.sockets + {f} ==> Bound(s0, t, f) && t.registry == s0.registry
    ensures t.sockets == s.sockets ==> SameWorld(s0, t)
  {
    hide MainHeld;
  }

  lemma UnderwaySavingAdd(cfg: Config, s0: State, s: State, i: nat, c: Choice)
    requires UnderwayAt(cfg, s0, s, i) && s.section.pc.SavingAdd?
    ensures Underway(cfg, s0, ServeStep(s, c), i, false)
  {
    hide LogOk, Tidy, States, LockOk, MainOk, AddStarted, SaveStep, WithForwards, SaveOk;
    var f := s.section.pc.added;
    SaveResultOk(cfg, s, s.section.pc.save, c.ok);
    StartedName(s0.registry, s0.section.request, f);
    assert s.registry - {f.name} == s0.registry;
    if ServeStep(s, c).section.pc.Answering? {
      assert Added(cfg, s0, ServeStep(s, c), s0.section.request, f);
    }
  }

  lemma UnderwayWithdrawing(cfg: Config, s0: State, s: State, i: nat, c: Choice)
    requires UnderwayAt(cfg, s0, s, i) && s.section.pc.Withdrawing?
    ensures Underway(cfg, s0, ServeStep(s, c), i, false)
  {
    EndingFacts(cfg, s);
    ReadyHoldsNothing(cfg, s);
    hide Inv, States, MainHeld, AddStarted, RemoveBegun, Changed, Removed, SameWorld, Bound, ServiceSockets;
    NowClosed(s0, s, ServeStep(s, c), s.section.pc.withdrawn);
  }

  lemma NowClosed(s0: State, s: State, t: State, f: Forwarder)
    requires Bound(s0, s, f) && s.registry == s0.registry && MainHeld(s.main) == {}
    requires t.main == s.main && t.registry == s.registry && t.published == s.published && t.sockets == s.sockets - {f}
    ensures SameWorld(s0, t)
  {
    hide MainHeld;
  }

  /** Before the last step of an update the file stands for the registry as it is. */
  lemma EndingFacts(cfg: Config, s: State)
    requires AtServing(cfg, s) && (s.section.pc.Withdrawing? || s.section.pc.Retiring?)
    ensures s.ready && s.published == Some(WithForwards(cfg.base, s.registry))
  {
    hide LogOk, LockOk, MainOk, Tidy, AddStarted, RemoveBegun, WithForwards, Serves;
  }

  lemma UnderwaySavingRemove(cfg: Config, s0: State, s: State, i: nat, c: Choice)
    requires UnderwayAt(cfg, s0, s, i) && s.section.pc.SavingRemove?
    ensures Underway(cfg, s0, ServeStep(s, c), i, false)
  {
    hide LogOk, Tidy, States, LockOk, MainOk, FlagsOk, SaveStep, WithForwards, SaveOk;
    assert s.registry[s0.section.request.name := s.section.pc.removed] == s0.registry;
  }

  lemma UnderwayRetiring(cfg: Config, s0: State, s: State, i: nat, c: Choice)
    requires UnderwayAt(cfg, s0, s, i) && s.section.pc.Retiring?
    ensures Underway(cfg, s0, ServeStep(s, c), i, !c.ok)
  {
    EndingFacts(cfg, s);
    ReadyHoldsNothing(cfg, s);
    hide Inv, States, MainHeld, AddStarted, WithForwards, SameWorld, Bound;
  }

  /** A step of the handler itself. */
  lemma UnderwayServing(cfg: Config, s0: State, s: State, i: nat, c: Choice, closeFailed: bool)
    requires AtServing(cfg, s) && s.section.handler < |s.handlers|
    requires Underway(cfg, s0, s, i, closeFailed) && !s.section.pc.Answering?
    ensures Underway(cfg, s0, ServeStep(s, c), i, closeFailed || CloseFailsNow(s, HandlerMoves(i, c), i))
  {
    match s.section.pc
    case Checking => hide *; UnderwayChecking(cfg, s0, s, i, c);
    case Starting(_, _) => hide *; UnderwayStarting(cfg, s0, s, i, c);
    case Recording(f) =>
      hide LogOk, Tidy, States, LockOk, MainOk, FlagsOk, AddStarted;
    case SavingAdd(_, _) => UnderwaySavingAdd(cfg, s0, s, i, c);
    case Withdrawing(_) => UnderwayWithdrawing(cfg, s0, s, i, c);
    case SavingRemove(_, _) => UnderwaySavingRemove(cfg, s0, s, i, c);
    case Retiring(_) => UnderwayRetiring(cfg, s0, s, i, c);
  }

  /** A step of anyone else: start-up may bind a listener, but nothing the service has changes. */
  lemma UnderwayOthers(cfg: Config, s0: State, s: State, i: nat, a: Action, closeFailed: bool)
    requires AtServing(cfg, s) && Underway(cfg, s0, s, i, closeFailed) && Apply(cfg, s, a).Some?
    requires !a.HandlerMoves? && !Apply(cfg, s, a).value.exited
    ensures Underway(cfg, s0, Apply(cfg, s, a).value, i, closeFailed)
  {
    var t := Apply(cfg, s, a).value;
    OthersKeepService(cfg, s, a);
    hide *;
    UnderwayMoved(cfg, s0, s, t, i, closeFailed);
  }

  lemma OthersKeepService(cfg: Config, s: State, a: Action)
    requires AtServing(cfg, s) && Apply(cfg, s, a).Some? && !a.HandlerMoves? && !Apply(cfg, s, a).value.exited
    ensures
      var t := Apply(cfg, s, a).value;
      t.section == s.section && SameWorld(s, t)
  {
    hide LogOk, States, Serves, AddressText, WithForwards, EndpointFree, OnlyEarlierNames, NamesOk, EndpointsDistinct, BoundOk;
    if a.MainMoves? && s.main.Binding? {
      assert s.section.pc.Checking? || s.section.pc.Answering?;
      assert Tidy(s.registry, s.sockets, {}, s.started);
    }
  }

  lemma UnderwayMoved(cfg: Config, s0: State, s: State, t: State, i: nat, closeFailed: bool)
    requires Underway(cfg, s0, s, i, closeFailed) && t.section == s.section && SameWorld(s, t)
    ensures Underway(cfg, s0, t, i, closeFailed)
  {
    hide AddStarted, RemoveBegun, States, ServiceSockets, WithForwards;
    if s.section.pc == Answering(None) && !SameWorld(s0, s) && !Removed(cfg, s0, s, s0.section.request) {
      var f :| Added(cfg, s0, s, s0.section.request, f);
      assert Added(cfg, s0, t, s0.section.request, f);
    }
  }

  lemma UnderwayStep(cfg: Config, s0: State, s: State, i: nat, a: Action, closeFailed: bool)
    requires AtServing(cfg, s) && Underway(cfg, s0, s, i, closeFailed) && Apply(cfg, s, a).Some?
    requires
      var t := Apply(cfg, s, a).value;
      !t.exited && i < |t.handlers| && t.handlers[i].Inside?
    ensures Underway(cfg, s0, Apply(cfg, s, a).value, i, closeFailed || CloseFailsNow(s, a, i))
  {
    hide LogOk, Tidy, States, Serves, WithForwards, SectionOk, MainOk, FlagsOk, Underway, ServeStep;
    HolderIs(cfg, s0, s, i, closeFailed);
    if a.HandlerMoves? {
      assert a.handler == i && s.handlers[i].Inside?;
      AnsweringLeaves(s, a.choice);
      UnderwayServing(cfg, s0, s, i, a.choice, closeFailed);
    } else {
      UnderwayOthers(cfg, s0, s, i, a, closeFailed);
    }
  }

  lemma HolderIs(cfg: Config, s0: State, s: State, i: nat, closeFailed: bool)
    requires AtServing(cfg, s) && Underway(cfg, s0, s, i, closeFailed)
    ensures s.section.handler == i < |s.handlers| && s.handlers[i].Inside?
  {
    hide LogOk, SectionOk, MainOk, FlagsOk;
  }

  lemma AnsweringLeaves(s: State, c: Choice)
    requires s.section.Serving? && s.section.handler < |s.handlers|
    ensures
      var t, i := ServeStep(s, c), s.section.handler;
      if s.section.pc.Answering? then
        SameWorld(s, t) && t.handlers[i].Done? && t.handlers[i].response == Answer(s.section.pc.err, s.registry)
      else t.handlers == s.handlers
  {
    hide States, Decide, SaveStep, CanBind;
  }

  lemma {:induction false} DoneStaysDoneOverRuns(cfg: Config, s: State, actions: seq<Action>, i: nat)
    requires Run(cfg, s, actions).Some? && i < |s.handlers| && s.handlers[i].Done?
    ensures
      var t := Run(cfg, s, actions).value;
      i < |t.handlers| && t.handlers[i].Done?
    decreases |actions|
  {
    hide Apply;
    if actions == [] {
    } else {
      DoneStaysDone(cfg, s, actions[0]);
      DoneStaysDoneOverRuns(cfg, Apply(cfg, s, actions[0]).value, actions[1..], i);
    }
  }

  lemma InsideStaysOrDone(cfg: Config, s: State, a: Action, i: nat)
    requires Apply(cfg, s, a).Some? && i < |s.handlers| && s.handlers[i].Inside?
    ensures
      var t := Apply(cfg, s, a).value;
      i < |t.handlers| && !t.handlers[i].Waiting?
  {
    hide Decide, SaveStep, States;
    if a.HandlerMoves? && a.handler != i {
      OthersUntouched(s, a.handler, a.choice);
    }
  }

  lemma {:induction false} UnderwayRun(cfg: Config, s0: State, s: State, i: nat, actions: seq<Action>, closeFailed: bool)
    requires DistinctNames(cfg.specs) && AtServing(cfg, s) && Underway(cfg, s0, s, i, closeFailed)
    requires Run(cfg, s, actions).Some?
    requires
      var u := Run(cfg, s, actions).value;
      !u.exited && i < |u.handlers| && u.handlers[i].Inside?
    ensures
      var u := Run(cfg, s, actions).value;
      AtServing(cfg, u) && Underway(cfg, s0, u, i, closeFailed || CloseFails(cfg, s, actions, i))
    decreases |actions|
  {
    hide Inv, Apply, Underway, CloseFailsNow;
    if actions == [] {
    } else {
      var a, rest := actions[0], actions[1..];
      var t := Apply(cfg, s, a).value;
      HolderIs(cfg, s0, s, i, closeFailed);
      InsideStaysOrDone(cfg, s, a, i);
      if t.handlers[i].Done? { DoneStaysDoneOverRuns(cfg, t, rest, i); }
      StepKeepsInv(cfg, s, a);
      if t.exited { RunFromExited(cfg, t, rest); }
      InsideMeansServing(cfg, t, i);
      UnderwayStep(cfg, s0, s, i, a, closeFailed);
      UnderwayRun(cfg, s0, t, i, rest, closeFailed || CloseFailsNow(s, a, i));
    }
  }

  lemma RunFromExited(cfg: Config, s: State, actions: seq<Action>)
    requires Run(cfg, s, actions).Some? && s.exited
    ensures Run(cfg, s, actions).value.exited
  {
  }

  lemma InsideMeansServing(cfg: Config, s: State, i: nat)
    requires Inv(cfg, s) && !s.exited && i < |s.handlers| && s.handlers[i].Inside?
    ensures AtServing(cfg, s)
  {
    hide LogOk, SectionOk, MainOk, FlagsOk;
  }

  lemma StartsUnderway(cfg: Config, s: State, i: nat)
    requires Inv(cfg, s) && !s.exited && s.section.Serving? && s.section.handler == i && s.section.pc == Checking
    ensures AtServing(cfg, s) && Underway(cfg, s, s, i, false)
  {
    hide Inv;
  }

  /** How the world differs once handler i has answered the request it took up in state s. */
  ghost predicate Outcome(cfg: Config, s: State, t: State, i: nat, closeFailed: bool)
    requires s.section.Serving? && i < |t.handlers| && t.handlers[i].Done?
  {
    match t.handlers[i].response
    case Failure(_) => if closeFailed then Removed(cfg, s, t, s.section.request) else SameWorld(s, t)
    case Forwards(states) => !closeFailed && states == States(t.registry) && Changed(cfg, s, t)
  }

  lemma Answered(cfg: Config, s: State, u: State, i: nat, c: Choice, t: State, closeFailed: bool)
    requires AtServing(cfg, u) && Underway(cfg, s, u, i, closeFailed) && i < |u.handlers|
    requires HandlerStep(u, i, c) == Some(t) && i < |t.handlers| && t.handlers[i].Done?
    ensures Outcome(cfg, s, t, i, closeFailed)
  {
    HolderIs(cfg, s, u, i, closeFailed);
    hide Inv, Decide, ServeStep, SaveStep, States, AddStarted, WithForwards, Underway;
    AnsweringLeaves(u, c);
    AnswerIsOutcome(cfg, s, u, t, i, closeFailed);
  }

  lemma AnswerIsOutcome(cfg: Config, s: State, u: State, t: State, i: nat, closeFailed: bool)
    requires Underway(cfg, s, u, i, closeFailed) && u.section.pc.Answering? && SameWorld(u, t)
    requires i < |t.handlers| && t.handlers[i].Done? && t.handlers[i].response == Answer(u.section.pc.err, u.registry)
    ensures Outcome(cfg, s, t, i, closeFailed)
  {
    hide AddStarted, States, ServiceSockets, WithForwards;
    if Changed(cfg, s, u) && !SameWorld(s, u) && !Removed(cfg, s, u, s.section.request) {
      var f :| Added(cfg, s, u, s.section.request, f);
      assert Added(cfg, s, t, s.section.request, f);
    }
  }

  lemma FailureIsSameOrRemoved(cfg: Config, s: State, t: State, i: nat, closeFailed: bool)
    requires s.section.Serving? && i < |t.handlers| && t.handlers[i].Done? && Outcome(cfg, s, t, i, closeFailed)
    ensures t.handlers[i].response.Failure? ==> (SameWorld(s, t) <==> !closeFailed)
  {
    hide States, ServiceSockets, WithForwards;
    if Removed(cfg, s, t, s.section.request) { assert s.section.request.name !in t.registry; }
  }

  /**
   * What one request did to the service by the time it is answered, whatever other parties did in the
   * meantime: `s` is the state in which its handler has just taken the lock, `u` the one before its
   * last step. A failed request left registry, listeners and file as they were, unless it is a remove
   * that was saved and whose Close then reported an error: that one has removed its forward all the
   * same. A request answered with mappings left things as they were, added its forward or removed it.
   */
  lemma RequestOutcome(cfg: Config, s: State, i: nat, actions: seq<Action>, u: State, c: Choice, t: State)
    requires DistinctNames(cfg.specs) && Reachable(cfg, s) && !s.exited
    requires s.section.Serving? && s.section.handler == i && s.section.pc == Checking
    requires Run(cfg, s, actions) == Some(u) && !u.exited && i < |u.handlers| && u.handlers[i].Inside?
    requires HandlerStep(u, i, c) == Some(t) && i < |t.handlers| && t.handlers[i].Done?
    ensures Outcome(cfg, s, t, i, CloseFails(cfg, s, actions, i))
    ensures t.handlers[i].response.Failure? ==> (SameWorld(s, t) <==> !CloseFails(cfg, s, actions, i))
  {
    ReachableInv(cfg, s);
    hide *;
    StartsUnderway(cfg, s, i);
    UnderwayRun(cfg, s, s, i, actions, false);
    Answered(cfg, s, u, i, c, t, CloseFails(cfg, s, actions, i));
    FailureIsSameOrRemoved(cfg, s, t, i, CloseFails(cfg, s, actions, i));
  }

  function Handle(i: nat, ok: bool): Action { HandlerMoves(i, Choice(ok, 0, "")) }

  /** The steps of one handler that removes a forward, saves that, and then sees Close fail. */
  function FailingRemove(i: nat, request: Request): seq<Action> {
    [Arrive(request)] + Handles(i, STEPS_BEFORE_RENAME + 4) + [Handle(i, false), Handle(i, true)]
  }

  function Handles(i: nat, n: nat): seq<Action> {
    if n == 0 then [] else Handles(i, n - 1) + [Handle(i, true)]
  }

  lemma OneMore(cfg: Config, s: State, done: seq<Action>, t: State, a: Action, u: State)
    requires Run(cfg, s, done) == Some(t) && Apply(cfg, t, a) == Some(u)
    ensures Run(cfg, s, done + [a]) == Some(u)
  {
    RunExtends(cfg, s, done, a);
  }

  lemma RemoveTakesTheLock(cfg: Config, s: State, request: Request)
    requires !s.exited && s.ready && s.section == Free && request.request == "forward-remove" && request.name in s.registry
    ensures
      var i, f := |s.handlers|, s.registry[request.name];
      Run(cfg, s, [Arrive(request)] + Handles(i, 2)) == Some(s.(
        section := Serving(i, request, SavingRemove(f, Reading)), registry := s.registry - {request.name},
        handlers := s.handlers + [Inside]))
  {
    hide Run, Handles;
    var i := |s.handlers|;
    var s1 := s.(handlers := s.handlers + [Waiting(request)]);
    var s2 := s.(section := Serving(i, request, Checking), handlers := s.handlers + [Inside]);
    assert Run(cfg, s, []) == Some(s) by { RunNothing(cfg, s); }
    OneMore(cfg, s, [], s, Arrive(request), s1);
    assert [] + [Arrive(request)] == [Arrive(request)] && s1.handlers[i := Inside] == s2.handlers;
    OneMore(cfg, s, [Arrive(request)], s1, Handle(i, true), s2);
    assert [Arrive(request)] + [Handle(i, true)] == [Arrive(request), Handle(i, true)];
    var s3 := s2.(section := Serving(i, request, SavingRemove(s.registry[request.name], Reading)), registry := s.registry - {request.name});
    OneMore(cfg, s, [Arrive(request), Handle(i, true)], s2, Handle(i, true), s3);
    HandlesTwo(i);
    assert [Arrive(request)] + Handles(i, 2) == [Arrive(request), Handle(i, true)] + [Handle(i, true)];
  }

  lemma RunNothing(cfg: Config, s: State)
    ensures Run(cfg, s, []) == Some(s)
  {
  }

  lemma HandlesTwo(i: nat)
    ensures Handles(i, 2) == [Handle(i, true), Handle(i, true)]
  {
    assert Handles(i, 1) == [Handle(i, true)];
  }

  lemma SavingGoesOn(cfg: Config, s: State, i: nat, next: SavePc)
    requires !s.exited && i < |s.handlers| && s.handlers[i].Inside? && s.section.Serving? && s.section.handler == i
    requires s.section.pc.SavingRemove? && SaveStep(s.section.pc.save, s.published, s.registry, true) == SaveGoesOn(next)
    ensures Apply(cfg, s, Handle(i, true)) == Some(s.(section := Serving(i, s.section.request, SavingRemove(s.section.pc.removed, next))))
  {
    hide SaveStep;
  }

  lemma {:induction false} RemoveIsSaved(cfg: Config, s: State, request: Request, w: State, k: nat)
    requires !s.exited && s.ready && s.section == Free && request.request == "forward-remove" && request.name in s.registry
    requires s.published == Some(WithForwards(cfg.base, s.registry)) && k <= STEPS_BEFORE_RENAME
    requires w == s.(registry := s.registry - {request.name}, handlers := s.handlers + [Inside])
    ensures
      Run(cfg, s, [Arrive(request)] + Handles(|s.handlers|, 3 + k)) == Some(w.(section :=
        Serving(|s.handlers|, request, SavingRemove(s.registry[request.name], Writing(WithForwards(cfg.base, w.registry), STEPS_BEFORE_RENAME - k)))))
    decreases k
  {
    var i, f, data := |s.handlers|, s.registry[request.name], WithForwards(cfg.base, w.registry);
    assert WithForwards(s.published.value, w.registry) == data;
    if k == 0 { RemoveTakesTheLock(cfg, s, request); } else { RemoveIsSaved(cfg, s, request, w, k - 1); }
    hide Run, Apply, States, WithForwards;
    var before := w.(section := Serving(i, request, SavingRemove(f, if k == 0 then Reading else Writing(data, STEPS_BEFORE_RENAME - (k - 1)))));
    var after := Writing(data, STEPS_BEFORE_RENAME - k);
    SavingGoesOn(cfg, before, i, after);
    OneMore(cfg, s, [Arrive(request)] + Handles(i, 2 + k), before, Handle(i, true),
            w.(section := Serving(i, request, SavingRemove(f, after))));
    assert [Arrive(request)] + Handles(i, 3 + k) == [Arrive(request)] + Handles(i, 2 + k) + [Handle(i, true)];
  }

  /** Wherever the service is ready and idle, such a run is possible for every registered name. */
  lemma RemoveCanFailCommitted(cfg: Config, s: State, request: Request) returns (t: State)
    requires DistinctNames(cfg.specs) && Reachable(cfg, s) && !s.exited && s.ready && s.section == Free
    requires request.request == "forward-remove" && request.name in s.registry
    ensures Run(cfg, s, FailingRemove(|s.handlers|, request)) == Some(t) && t.section == Free
    ensures |t.handlers| == |s.handlers| + 1 && t.handlers[|s.handlers|].Done? && t.handlers[|s.handlers|].response.Failure?
    ensures t.registry == s.registry - {request.name} && t.sockets == s.sockets - {s.registry[request.name]}
    ensures t.published == Some(WithForwards(cfg.base, t.registry))
  {
    assert s.published == Some(WithForwards(cfg.base, s.registry)) by { PublishedStateIsCurrent(cfg, s); }
    var i, f := |s.handlers|, s.registry[request.name];
    var w := s.(registry := s.registry - {request.name}, handlers := s.handlers + [Inside]);
    var data := WithForwards(cfg.base, w.registry);
    RemoveIsSaved(cfg, s, request, w, STEPS_BEFORE_RENAME);
    hide Run, States, WithForwards, Decide, Reachable;
    t := w.(section := Serving(i, request, SavingRemove(f, Writing(data, 0))));
    var u := w.(section := Serving(i, request, Retiring(f)), published := Some(data));
    var done := [Arrive(request)] + Handles(i, STEPS_BEFORE_RENAME + 3);
    OneMore(cfg, s, done, t, Handle(i, true), u);
    var v := u.(section := Serving(i, request, Answering(Some("cannot close listener"))), sockets := s.sockets - {f});
    OneMore(cfg, s, done + [Handle(i, true)], u, Handle(i, false), v);
    t := ServeStep(v, Choice(true, 0, ""));
    OneMore(cfg, s, done + [Handle(i, true)] + [Handle(i, false)], v, Handle(i, true), t);
    assert FailingRemove(i, request) == done + [Handle(i, true)] + [Handle(i, false)] + [Handle(i, true)];
  }

  /** The steps of one handler that adds a forward when the operating system offers it this port. */
  function SucceedingAdd(i: nat, request: Request, port: int): seq<Action> {
    [Arrive(request)] + Offers(i, STEPS_BEFORE_RENAME + 7, port)
  }

  function Offers(i: nat, n: nat, port: int): seq<Action> {
    if n == 0 then [] else Offers(i, n - 1, port) + [HandlerMoves(i, Choice(true, port, ""))]
  }

  /** A new name, and a port on offer that the request accepts and nobody has. */
  ghost predicate CanAdd(registry: Registry, sockets: set<Forwarder>, request: Request, port: int) {
    && request.request == "forward-add" && Admissible(request) && WantedSpec(request).name !in registry
    && port != 0 && (request.hostPort == 0 || request.hostPort == port)
    && forall f | f in sockets :: !(f.hostIP == RequestedAddress(request.hostIP).value && f.port == port)
  }

  function Wanted(id: nat, request: Request, port: int): Forwarder
    requires Admissible(request)
  {
    Forwarder(id, WantedSpec(request).name, RequestedAddress(request.hostIP).value, request.hostPort, request.guestPort, port)
  }

  /** The state after the request has arrived and its handler has taken n steps. */
  ghost predicate AfterOffers(cfg: Config, s: State, request: Request, i: nat, n: nat, port: int, t: State) {
    Run(cfg, s, [Arrive(request)] + Offers(i, n, port)) == Some(t)
  }

  /** One more step of the handler, on offer of the port. */
  lemma NextOffer(cfg: Config, s: State, request: Request, i: nat, n: nat, port: int, t: State, u: State)
    requires AfterOffers(cfg, s, request, i, n, port, t)
    requires Apply(cfg, t, HandlerMoves(i, Choice(true, port, ""))) == Some(u)
    ensures AfterOffers(cfg, s, request, i, n + 1, port, u)
  {
    hide Run, Apply;
    var a := HandlerMoves(i, Choice(true, port, ""));
    OneMore(cfg, s, [Arrive(request)] + Offers(i, n, port), t, a, u);
    assert [Arrive(request)] + Offers(i, n + 1, port) == [Arrive(request)] + Offers(i, n, port) + [a];
  }

  lemma TakesTheLock(cfg: Config, s: State, request: Request, port: int)
    requires !s.exited && s.section == Free
    ensures
      var i := |s.handlers|;
      AfterOffers(cfg, s, request, i, 1, port, s.(section := Serving(i, request, Checking), handlers := s.handlers + [Inside]))
  {
    var i := |s.handlers|;
    var s1 := s.(handlers := s.handlers + [Waiting(request)]);
    RunNothing(cfg, s);
    hide Run;
    OneMore(cfg, s, [], s, Arrive(request), s1);
    assert [] + [Arrive(request)] == [Arrive(request)] && s1.handlers[i := Inside] == s.handlers + [Inside];
    assert [Arrive(request)] + Offers(i, 0, port) == [Arrive(request)];
    NextOffer(cfg, s, request, i, 0, port, s1, s.(section := Serving(i, request, Checking), handlers := s.handlers + [Inside]));
  }

  lemma DecidesToStart(cfg: Config, s: State, i: nat, port: int)
    requires !s.exited && i < |s.handlers| && s.handlers[i].Inside? && s.section.Serving? && s.section.handler == i
    requires s.section.pc == Checking && s.ready && CanAdd(s.registry, s.sockets, s.section.request, port)
    ensures
      var request := s.section.request;
      Apply(cfg, s, HandlerMoves(i, Choice(true, port, ""))) == Some(s.(section :=
        Serving(i, request, Starting(WantedSpec(request), RequestedAddress(request.hostIP).value))))
  {
    DecideServes(s.registry, s.section.request);
    hide Decide, PortGranted, EndpointFree, RequestedAddress, TrimSpace, ValidSpec, States, Serves;
  }

  lemma StartsListening(cfg: Config, s: State, i: nat, port: int)
    requires !s.exited && i < |s.handlers| && s.handlers[i].Inside? && s.section.Serving? && s.section.handler == i
    requires CanAdd(s.registry, s.sockets, s.section.request, port)
    requires s.section.pc == Starting(WantedSpec(s.section.request), RequestedAddress(s.section.request.hostIP).value)
    ensures
      var f := Wanted(s.started, s.section.request, port);
      Apply(cfg, s, HandlerMoves(i, Choice(true, port, ""))) == Some(s.(
        section := Serving(i, s.section.request, Recording(f)), sockets := s.sockets + {f}, started := s.started + 1))
  {
    hide Decide, RequestedAddress, TrimSpace, ValidSpec, States;
  }

  lemma AddDecides(cfg: Config, s: State, request: Request, port: int, t: State)
    requires !s.exited && s.ready && s.section == Free && CanAdd(s.registry, s.sockets, request, port)
    requires t == s.(handlers := s.handlers + [Inside], section :=
      Serving(|s.handlers|, request, Starting(WantedSpec(request), RequestedAddress(request.hostIP).value)))
    ensures AfterOffers(cfg, s, request, |s.handlers|, 2, port, t)
  {
    var s2 := s.(section := Serving(|s.handlers|, request, Checking), handlers := s.handlers + [Inside]);
    hide AfterOffers, Apply, CanAdd, Admissible, RequestedAddress, WantedSpec;
    TakesTheLock(cfg, s, request, port);
    DecidesToStart(cfg, s2, |s.handlers|, port);
    NextOffer(cfg, s, request, |s.handlers|, 1, port, s2, t);
  }

  lemma AddBinds(cfg: Config, s: State, request: Request, port: int, t: State)
    requires !s.exited && s.ready && s.section == Free && CanAdd(s.registry, s.sockets, request, port)
    requires
      var f := Wanted(s.started, request, port);
      t == s.(sockets := s.sockets + {f}, started := s.started + 1, handlers := s.handlers + [Inside],
              section := Serving(|s.handlers|, request, Recording(f)))
    ensures AfterOffers(cfg, s, request, |s.handlers|, 3, port, t)
  {
    var s3 := s.(handlers := s.handlers + [Inside], section :=
      Serving(|s.handlers|, request, Starting(WantedSpec(request), RequestedAddress(request.hostIP).value)));
    hide AfterOffers, Apply, CanAdd, Admissible, RequestedAddress, WantedSpec;
    AddDecides(cfg, s, request, port, s3);
    StartsListening(cfg, s3, |s.handlers|, port);
    NextOffer(cfg, s, request, |s.handlers|, 2, port, s3, t);
  }

  lemma AddRegisters(cfg: Config, s: State, request: Request, port: int)
    requires !s.exited && s.ready && s.section == Free && CanAdd(s.registry, s.sockets, request, port)
    ensures AfterOffers(cfg, s, request, |s.handlers|, 4, port, SavingNew(s, request, Wanted(s.started, request, port), Reading))
  {
    var f := Wanted(s.started, request, port);
    var t := SavingNew(s, request, f, Reading);
    var bound := t.(registry := s.registry, section := Serving(|s.handlers|, request, Recording(f)));
    hide AfterOffers, Apply, CanAdd, Admissible, RequestedAddress, WantedSpec;
    AddBinds(cfg, s, request, port, bound);
    AddRecords(cfg, bound, |s.handlers|, port);
    NextOffer(cfg, s, request, |s.handlers|, 3, port, bound, t);
  }

  /** The handler of the request is saving the registry with the new forwarder in it. */
  function SavingNew(s: State, request: Request, f: Forwarder, save: SavePc): State {
    s.(sockets := s.sockets + {f}, started := s.started + 1, handlers := s.handlers + [Inside],
       registry := s.registry[f.name := f], section := Serving(|s.handlers|, request, SavingAdd(f, save)))
  }

  lemma SavingNewGoesOn(cfg: Config, s: State, request: Request, f: Forwarder, save: SavePc, next: SavePc, port: int)
    requires !s.exited && SaveStep(save, s.published, s.registry[f.name := f], true) == SaveGoesOn(next)
    ensures Apply(cfg, SavingNew(s, request, f, save), HandlerMoves(|s.handlers|, Choice(true, port, "")))
         == Some(SavingNew(s, request, f, next))
  {
    hide SaveStep;
  }

  lemma SaveAdvances(base: Document, published: Option<Document>, registry: Registry, before: Registry, k: nat)
    requires published == Some(WithForwards(base, before)) && k <= STEPS_BEFORE_RENAME
    ensures
      var data := WithForwards(base, registry);
      SaveStep(if k == 0 then Reading else Writing(data, STEPS_BEFORE_RENAME - (k - 1)), published, registry, true)
        == SaveGoesOn(Writing(data, STEPS_BEFORE_RENAME - k))
  {
    hide States;
    assert WithForwards(published.value, registry) == WithForwards(base, registry);
  }

  lemma AddRecords(cfg: Config, s: State, i: nat, port: int)
    requires !s.exited && i < |s.handlers| && s.handlers[i].Inside? && s.section.Serving? && s.section.handler == i
    requires s.section.pc.Recording?
    ensures
      var f := s.section.pc.started;
      Apply(cfg, s, HandlerMoves(i, Choice(true, port, ""))) ==
        Some(s.(section := Serving(i, s.section.request, SavingAdd(f, Reading)), registry := s.registry[f.name := f]))
  {
    hide SaveStep;
  }

  lemma {:induction false} AddIsSaved(cfg: Config, s: State, request: Request, port: int, k: nat)
    requires !s.exited && s.ready && s.section == Free && CanAdd(s.registry, s.sockets, request, port)
    requires s.published == Some(WithForwards(cfg.base, s.registry)) && k <= STEPS_BEFORE_RENAME
    ensures
      var f := Wanted(s.started, request, port);
      var data := WithForwards(cfg.base, s.registry[f.name := f]);
      AfterOffers(cfg, s, request, |s.handlers|, 5 + k, port,
                  SavingNew(s, request, f, Writing(data, STEPS_BEFORE_RENAME - k)))
    decreases k
  {
    var f := Wanted(s.started, request, port);
    var data := WithForwards(cfg.base, s.registry[f.name := f]);
    var save := if k == 0 then Reading else Writing(data, STEPS_BEFORE_RENAME - (k - 1));
    var next := Writing(data, STEPS_BEFORE_RENAME - k);
    hide AfterOffers, Apply, WithForwards, CanAdd, Admissible, SavingNew, Wanted, SaveStep;
    if k == 0 {
      AddRegisters(cfg, s, request, port);
    } else {
      AddIsSaved(cfg, s, request, port, k - 1);
    }
    SaveAdvances(cfg.base, s.published, s.registry[f.name := f], s.registry, k);
    SavingNewGoesOn(cfg, s, request, f, save, next, port);
    NextOffer(cfg, s, request, |s.handlers|, 4 + k, port, SavingNew(s, request, f, save), SavingNew(s, request, f, next));
  }

  lemma SavingNewCommits(cfg: Config, s: State, request: Request, f: Forwarder, data: Document, port: int) returns (t: State)
    requires !s.exited
    ensures
      var saving, a := SavingNew(s, request, f, Writing(data, 0)), HandlerMoves(|s.handlers|, Choice(true, port, ""));
      && Apply(cfg, saving, a) == Some(saving.(section := Serving(|s.handlers|, request, Answering(None)), published := Some(data)))
      && Apply(cfg, Apply(cfg, saving, a).value, a) == Some(t)
    ensures t.section == Free && t.handlers == s.handlers + [Done(request, Forwards(States(t.registry)))]
    ensures t.registry == s.registry[f.name := f] && t.sockets == s.sockets + {f} && t.published == Some(data)
  {
    hide States;
    var saving := SavingNew(s, request, f, Writing(data, 0));
    var answering := saving.(section := Serving(|s.handlers|, request, Answering(None)), published := Some(data));
    t := ServeStep(answering, Choice(true, port, ""));
  }

  lemma OffersAreTheAdd(cfg: Config, s: State, request: Request, i: nat, port: int, t: State)
    requires AfterOffers(cfg, s, request, i, STEPS_BEFORE_RENAME + 7, port, t)
    ensures Run(cfg, s, SucceedingAdd(i, request, port)) == Some(t)
  {
    hide Run;
  }

  /**
   * Wherever the service is ready and idle, every admissible add of a new name can succeed with every
   * free port that it accepts: the forward is then bound, registered, published and reported.
   */
  lemma AddCanSucceed(cfg: Config, s: State, request: Request, port: int) returns (t: State)
    requires DistinctNames(cfg.specs) && Reachable(cfg, s) && !s.exited && s.ready && s.section == Free
    requires CanAdd(s.registry, s.sockets, request, port)
    ensures Run(cfg, s, SucceedingAdd(|s.handlers|, request, port)) == Some(t) && t.section == Free
    ensures |t.handlers| == |s.handlers| + 1 && t.handlers[|s.handlers|] == Done(request, Forwards(States(t.registry)))
    ensures
      var f := Wanted(s.started, request, port);
      t.registry == s.registry[f.name := f] && t.sockets == s.sockets + {f}
      && t.published == Some(WithForwards(cfg.base, t.registry))
  {
    assert s.published == Some(WithForwards(cfg.base, s.registry)) by { PublishedStateIsCurrent(cfg, s); }
    var i, f := |s.handlers|, Wanted(s.started, request, port);
    var data := WithForwards(cfg.base, s.registry[f.name := f]);
    hide AfterOffers, Apply, States, WithForwards, Reachable, CanAdd, Admissible, SavingNew, Wanted;
    AddIsSaved(cfg, s, request, port, STEPS_BEFORE_RENAME);
    t := SavingNewCommits(cfg, s, request, f, data, port);
    var saving, a := SavingNew(s, request, f, Writing(data, 0)), HandlerMoves(i, Choice(true, port, ""));
    NextOffer(cfg, s, request, i, 5 + STEPS_BEFORE_RENAME, port, saving, Apply(cfg, saving, a).value);
    NextOffer(cfg, s, request, i, 6 + STEPS_BEFORE_RENAME, port, Apply(cfg, saving, a).value, t);
    OffersAreTheAdd(cfg, s, request, i, port, t);
  }

  /** Start-up after its last forward, when the gate lets it publish and every step succeeds. */
  lemma PublishingOpens(cfg: Config, s: State) returns (t: State)
    requires Reachable(cfg, s) && !s.exited && s.main.Gate? && s.section == Free && !s.stopping
    ensures Reachable(cfg, t) && t.ready && t.section == Free && !t.exited && t.registry == s.registry
  {
    hide Run, States;
    var a := MainMoves(Choice(true, 0, ""));
    t := s;
    for k := 0 to STEPS_BEFORE_RENAME + 4
      invariant Reachable(cfg, t) && !t.exited && !t.stopping && t.registry == s.registry
      invariant if k == 0 then t.main.Gate? && t.section == Free
                else if k == 1 then t.main.WantPublish? && t.section == Free
                else t.main.InPublish? && t.section.Publishing?
      invariant k == 2 ==> t.section.publish.RuntimeFile?
      invariant 2 < k <= STEPS_BEFORE_RENAME + 3 ==>
        t.section.publish.StateFileWrite? && t.section.publish.left == STEPS_BEFORE_RENAME + 3 - k
      invariant k > STEPS_BEFORE_RENAME + 3 ==> t.section.publish.Opening?
    {
      StepIsReachable(cfg, t, a);
      t := Apply(cfg, t, a).value;
    }
    StepIsReachable(cfg, t, a);
    t := Apply(cfg, t, a).value;
  }

  /** A daemon that has opened its service with one forward, and a remove that fails after removing it. */
  lemma FailedRemoveExample() returns (cfg: Config, s: State, t: State)
    ensures DistinctNames(cfg.specs) && Reachable(cfg, s) && s.ready && s.section == Free && "web" in s.registry
    ensures Run(cfg, s, FailingRemove(|s.handlers|, Request("forward-remove", "web", 0, 0, Unset))) == Some(t)
    ensures |s.handlers| < |t.handlers| && t.handlers[|s.handlers|].Done? && t.handlers[|s.handlers|].response.Failure?
    ensures "web" !in t.registry && t.published == Some(WithForwards(cfg.base, t.registry))
  {
    hide Run, AddressText, States, WithForwards;
    cfg := Config([ForwardSpec("web", 80, 8080)], map[]);
    var a := MainMoves(Choice(true, 8080, ""));
    BeginIsReachable(cfg);
    StepIsReachable(cfg, BEGIN, a);
    var s1 := Apply(cfg, BEGIN, a).value;
    StepIsReachable(cfg, s1, a);
    var s2 := Apply(cfg, s1, a).value;
    StepIsReachable(cfg, s2, a);
    var s3 := Apply(cfg, s2, a).value;
    assert "web" in s3.registry;
    hide *;
    s := PublishingOpens(cfg, s3);
    t := RemoveCanFailCommitted(cfg, s, Request("forward-remove", "web", 0, 0, Unset));
  }
}
