// The live-forward protocol as a transition system: the start-up goroutine of runVMDaemon, the signal
// handler and any number of control-socket handlers share the registry, the two readiness flags, the
// bound listeners and vm-state.json (launcher/mac/forward_commands.go, launcher/mac/forwarding.go,
// launcher/mac/main.go:1328-1519). One action is one step another party can observe, every operation
// that can fail does so by choice, and the registry lock is the `section` field: it says who holds the
// lock and how far the holder has got.

module ForwardProtocol {
  import opened Text
  import opened ForwardSpecs
  import opened ForwardService
  import opened Listeners
  import opened StateFile

  // ----- state -----

  /** The specs the daemon was started with, and what it writes to vm-state.json besides `forwards`. */
  datatype Config = Config(specs: seq<ForwardSpec>, base: Document)

  /** saveForwardState and writeVMState: read and encode, then create, write, chmod and close a temporary file, then rename. */
  datatype SavePc = Reading | Writing(data: Document, left: nat)

  const STEPS_BEFORE_RENAME := 4

  datatype ServingPc =
    | Checking
    | Starting(spec: ForwardSpec, hostIP: string)
    | Recording(started: Forwarder)
    | SavingAdd(added: Forwarder, save: SavePc)
    | Withdrawing(withdrawn: Forwarder)
    | SavingRemove(removed: Forwarder, save: SavePc)
    | Retiring(retired: Forwarder)
    | Answering(err: Option<string>)

  datatype PublishPc = RuntimeFile | StateFileWrite(data: Document, left: nat) | Opening

  /** The registry lock and the program counter of its holder. */
  datatype Section =
    | Free
    | Serving(handler: nat, request: Request, pc: ServingPc)
    | Publishing(states: map<string, ForwardState>, publish: PublishPc)
    | ClosingAll(bySignal: bool, closed: Option<string>)

  datatype MainPc =
    | Binding(next: nat, states: map<string, ForwardState>)
    | Holding(next: nat, states: map<string, ForwardState>, held: Forwarder)
    | Gate(states: map<string, ForwardState>)
    | WantPublish(states: map<string, ForwardState>)
    | InPublish
    | Watching
    | WantClose(last: bool)
    | InClose(last: bool)
    | Returned

  datatype SignalPc = Quiet | Asking | InSignalClose | PoweringOff

  datatype HandlerPc = Waiting(request: Request) | Inside | Done(request: Request, response: Response)

  datatype State = State(
    section: Section,
    registry: Registry,
    ready: bool,
    stopping: bool,
    sockets: set<Forwarder>,
    started: nat,
    published: Option<Document>,
    main: MainPc,
    signal: SignalPc,
    handlers: seq<HandlerPc>,
    exited: bool,
    log: seq<Entry>)

  /** The daemon when its forwarding phase begins: `start` has removed the stale vm-state.json. */
  const BEGIN := State(Free, map[], false, false, {}, 0, None, Binding(0, map[]), Quiet, [], false, [])

  // ----- steps -----

  /** What chance decides in one step: success, the port on offer, the map key visited next. */
  datatype Choice = Choice(ok: bool, port: int, name: string)

  datatype Action =
    | Arrive(request: Request)
    | HandlerMoves(handler: nat, choice: Choice)
    | MainMoves(choice: Choice)
    | SignalMoves(choice: Choice)

  function WithForwards(document: Document, registry: Registry): Document {
    document["forwards" := Forwarded(States(registry))]
  }

  datatype SaveResult = SaveFails | SaveGoesOn(next: SavePc) | SaveCommits(data: Document)

  function SaveStep(save: SavePc, published: Option<Document>, registry: Registry, ok: bool): SaveResult {
    if !ok then SaveFails
    else match save
      case Reading =>
        if published.None? then SaveFails
        else SaveGoesOn(Writing(WithForwards(published.value, registry), STEPS_BEFORE_RENAME))
      case Writing(data, left) => if left == 0 then SaveCommits(data) else SaveGoesOn(Writing(data, left - 1))
  }

  /** What updateForward decides before it changes anything. */
  function Decide(registry: Registry, request: Request): ServingPc {
    if request.request == "forward-list" then Answering(None)
    else if request.request == "forward-add" then
      match ParseForwardSpec(FormatForward(request.name, request.guestPort, request.hostPort))
      case Err(e) => Answering(Some(e))
      case Ok(spec) =>
        match RequestedAddress(request.hostIP)
        case None => Answering(Some("host IP must be a loopback IP address"))
        case Some(hostIP) =>
          if spec.name !in registry then Starting(spec, hostIP)
          else
            var existing := registry[spec.name];
            if existing.guestPort == spec.guestPort && existing.requestedPort == spec.hostPort && existing.hostIP == hostIP
            then Answering(None)
            else Answering(Some("forward has different settings; remove it before adding a replacement"))
    else if request.request == "forward-remove" then
      if request.name in registry then SavingRemove(registry[request.name], Reading) else Answering(None)
    else Answering(Some("unknown forward request"))
  }

  function CanBind(s: State, hostIP: string, requested: int, c: Choice): bool {
    c.ok && PortGranted(requested, c.port) && EndpointFree(s.sockets, hostIP, c.port)
  }

  function ServiceOf(s: State): Service {
    Service(s.ready, s.stopping, s.registry)
  }

  /** Releasing the lock, with the event that took effect while it was held. */
  function Release(s: State, event: Event): State {
    s.(section := Free, log := s.log + [Entry(event, ServiceOf(s))])
  }

  function ServeStep(s: State, c: Choice): State
    requires s.section.Serving? && s.section.handler < |s.handlers|
  {
    var i, request := s.section.handler, s.section.request;
    match s.section.pc
    case Checking =>
      if !s.ready then s.(section := Serving(i, request, Answering(Some("VM is not ready"))))
      else
        var pc := Decide(s.registry, request);
        s.(section := Serving(i, request, pc),
           registry := if pc.SavingRemove? then s.registry - {request.name} else s.registry)
    case Starting(spec, hostIP) =>
      if CanBind(s, hostIP, spec.hostPort, c) then
        var f := Forwarder(s.started, spec.name, hostIP, spec.hostPort, spec.guestPort, c.port);
        s.(section := Serving(i, request, Recording(f)), sockets := s.sockets + {f}, started := s.started + 1)
      else s.(section := Serving(i, request, Answering(Some("failed to listen"))))
    case Recording(f) =>
      s.(section := Serving(i, request, SavingAdd(f, Reading)), registry := s.registry[f.name := f])
    case SavingAdd(f, save) =>
      (match SaveStep(save, s.published, s.registry, c.ok)
       case SaveFails => s.(section := Serving(i, request, Withdrawing(f)), registry := s.registry - {f.name})
       case SaveGoesOn(next) => s.(section := Serving(i, request, SavingAdd(f, next)))
       case SaveCommits(data) => s.(section := Serving(i, request, Answering(None)), published := Some(data)))
    case Withdrawing(f) =>
      s.(section := Serving(i, request, Answering(Some("cannot save VM state"))), sockets := s.sockets - {f})
    case SavingRemove(f, save) =>
      (match SaveStep(save, s.published, s.registry, c.ok)
       case SaveFails =>
         s.(section := Serving(i, request, Answering(Some("cannot save VM state"))), registry := s.registry[request.name := f])
       case SaveGoesOn(next) => s.(section := Serving(i, request, SavingRemove(f, next)))
       case SaveCommits(data) => s.(section := Serving(i, request, Retiring(f)), published := Some(data)))
    case Retiring(f) =>
      s.(section := Serving(i, request, Answering(if c.ok then None else Some("cannot close listener"))),
         sockets := s.sockets - {f})
    case Answering(err) =>
      var response := Answer(err, s.registry);
      Release(s, Requested(i, request, response)).(handlers := s.handlers[i := Done(request, response)])
  }

  /** closeForwarders once the lock is held: close and delete one forwarder after the other, then release. */
  function CloseStep(s: State, c: Choice): Option<State>
    requires s.section.ClosingAll?
  {
    match s.section.closed
    case Some(name) => Some(s.(registry := s.registry - {name}, section := s.section.(closed := None)))
    case None =>
      if s.registry == map[] then
        Some(if s.section.bySignal then Release(s, ClosedAll).(signal := PoweringOff)
             else Release(s, ClosedAll).(main := if s.main == InClose(true) then Returned else WantClose(true)))
      else if c.name in s.registry then
        Some(s.(sockets := s.sockets - {s.registry[c.name]}, section := s.section.(closed := Some(c.name))))
      else None
  }

  function EnterClose(s: State, bySignal: bool): State {
    s.(section := ClosingAll(bySignal, None), ready := false, stopping := true)
  }

  function PublishStep(cfg: Config, s: State, c: Choice): State
    requires s.section.Publishing?
  {
    var states := s.section.states;
    if !c.ok && !s.section.publish.Opening? then s.(section := Free, main := WantClose(true))
    else match s.section.publish
      case RuntimeFile =>
        s.(section := Publishing(states, StateFileWrite(cfg.base["forwards" := Forwarded(states)], STEPS_BEFORE_RENAME)))
      case StateFileWrite(data, left) =>
        if left > 0 then s.(section := Publishing(states, StateFileWrite(data, left - 1)))
        else s.(section := Publishing(states, Opening), published := Some(data))
      case Opening => Release(s.(ready := !s.stopping), Opened).(main := Watching)
  }

  function MainStep(cfg: Config, s: State, c: Choice): Option<State> {
    match s.main
    case Binding(next, states) =>
      if next >= |cfg.specs| then Some(s.(main := Gate(states)))
      else
        var spec, hostIP := cfg.specs[next], "127.0.0.1";
        if CanBind(s, hostIP, spec.hostPort, c) then
          var f := Forwarder(s.started, spec.name, hostIP, spec.hostPort, spec.guestPort, c.port);
          Some(s.(main := Holding(next, states, f), sockets := s.sockets + {f}, started := s.started + 1))
        else Some(s.(main := WantClose(false)))
    case Holding(next, states, f) =>
      if s.section != Free then None
      else Some(Release(s.(registry := s.registry[f.name := f]), Registered(f))
                .(main := Binding(next + 1, states[f.name := StateOf(f)])))
    case Gate(states) => Some(s.(main := if c.ok then WantPublish(states) else Watching))
    case WantPublish(states) =>
      if s.section != Free then None
      else Some(s.(main := InPublish, section := Publishing(states, RuntimeFile)))
    case InPublish => if s.section.Publishing? then Some(PublishStep(cfg, s, c)) else None
    case Watching => if c.ok then Some(s.(main := WantClose(true))) else None
    case WantClose(last) =>
      if s.section != Free then None else Some(EnterClose(s, false).(main := InClose(last)))
    case InClose(last) =>
      if s.section.ClosingAll? && !s.section.bySignal then CloseStep(s, c) else None
    case Returned => None
  }

  function SignalStep(s: State, c: Choice): Option<State> {
    match s.signal
    case Quiet => Some(s.(signal := Asking))
    case Asking =>
      if s.section != Free then None else Some(EnterClose(s, true).(signal := InSignalClose))
    case InSignalClose =>
      if s.section.ClosingAll? && s.section.bySignal then CloseStep(s, c) else None
    case PoweringOff => Some(s.(exited := true, sockets := {}))
  }

  function HandlerStep(s: State, i: nat, c: Choice): Option<State>
    requires i < |s.handlers|
  {
    match s.handlers[i]
    case Waiting(request) =>
      if s.section != Free then None
      else Some(s.(section := Serving(i, request, Checking), handlers := s.handlers[i := Inside]))
    case Inside => if s.section.Serving? && s.section.handler == i then Some(ServeStep(s, c)) else None
    case Done(_, _) => None
  }

  /** The state after an action, or None when the action is not possible. After os.Exit nothing is. */
  function Apply(cfg: Config, s: State, a: Action): Option<State> {
    if s.exited then None
    else match a
      case Arrive(request) => Some(s.(handlers := s.handlers + [Waiting(request)]))
      case HandlerMoves(i, c) => if i < |s.handlers| then HandlerStep(s, i, c) else None
      case MainMoves(c) => MainStep(cfg, s, c)
      case SignalMoves(c) => SignalStep(s, c)
  }

  function Run(cfg: Config, s: State, actions: seq<Action>): Option<State>
    decreases |actions|
  {
    if actions == [] then Some(s)
    else match Apply(cfg, s, actions[0])
      case None => None
      case Some(next) => Run(cfg, next, actions[1..])
  }

  ghost predicate Reachable(cfg: Config, s: State) {
    exists actions :: Run(cfg, BEGIN, actions) == Some(s)
  }

  // ----- the invariant -----

  function MainHeld(main: MainPc): set<Forwarder> {
    match main
    case Holding(_, _, f) => {f}
    case _ => {}
  }

  /** The registry as the lock's last release left it. */
  function Settled(s: State): Registry {
    Current(s.log).registry
  }

  ghost predicate LockOk(s: State) {
    && (forall i | 0 <= i < |s.handlers| :: s.handlers[i].Inside? <==> s.section.Serving? && s.section.handler == i)
    && (s.section.Serving? ==> s.section.handler < |s.handlers|)
    && (s.main.InPublish? <==> s.section.Publishing?)
    && (s.main.InClose? <==> s.section.ClosingAll? && !s.section.bySignal)
    && (s.signal.InSignalClose? <==> s.section.ClosingAll? && s.section.bySignal)
  }

  /** An admissible add for a name that is not registered. */
  ghost predicate AddAdmitted(before: Registry, request: Request, spec: ForwardSpec, hostIP: string) {
    && request.request == "forward-add" && Admissible(request)
    && spec == WantedSpec(request) && Some(hostIP) == RequestedAddress(request.hostIP)
    && NormalLoopback(hostIP) && spec.name !in before
  }

  /** A forwarder that was started for such an add. */
  ghost predicate AddStarted(before: Registry, request: Request, f: Forwarder) {
    && request.request == "forward-add" && Admissible(request) && WantedSpec(request).name !in before
    && f.name == WantedSpec(request).name && SameSettings(f, request) && PortGranted(request.hostPort, f.port)
  }

  ghost predicate RemoveBegun(before: Registry, request: Request, f: Forwarder, registry: Registry) {
    && request.request == "forward-remove" && request.name in before && before[request.name] == f
    && f.name == request.name && registry == before - {request.name}
  }

  ghost predicate SaveOk(cfg: Config, save: SavePc, registry: Registry) {
    save.Writing? ==> save.data == WithForwards(cfg.base, registry)
  }

  ghost predicate ServingOk(cfg: Config, s: State, request: Request, pc: ServingPc) {
    var before := Settled(s);
    && (pc.Checking? || pc.Answering? || s.ready)
    && match pc
       case Checking => s.registry == before && Tidy(s.registry, s.sockets, MainHeld(s.main), s.started)
       case Starting(spec, hostIP) =>
         && s.registry == before && Tidy(s.registry, s.sockets, {}, s.started)
         && AddAdmitted(before, request, spec, hostIP)
       case Recording(f) =>
         && s.registry == before && Tidy(s.registry, s.sockets, {f}, s.started) && AddStarted(before, request, f)
       case SavingAdd(f, save) =>
         && s.registry == before[f.name := f] && Tidy(s.registry, s.sockets, {}, s.started)
         && AddStarted(before, request, f) && SaveOk(cfg, save, s.registry)
       case Withdrawing(f) =>
         && s.registry == before && Tidy(s.registry, s.sockets, {f}, s.started) && AddStarted(before, request, f)
       case SavingRemove(f, save) =>
         && RemoveBegun(before, request, f, s.registry) && Tidy(s.registry, s.sockets, {f}, s.started)
         && SaveOk(cfg, save, s.registry)
       case Retiring(f) =>
         RemoveBegun(before, request, f, s.registry) && Tidy(s.registry, s.sockets, {f}, s.started)
       case Answering(err) =>
         && Serves(s.ready, before, request, s.registry, Answer(err, s.registry))
         && Tidy(s.registry, s.sockets, MainHeld(s.main), s.started)
  }

  ghost predicate SectionOk(cfg: Config, s: State) {
    match s.section
    case Free =>
      Current(s.log) == ServiceOf(s) && Tidy(s.registry, s.sockets, MainHeld(s.main), s.started)
    case Serving(_, request, pc) =>
      && Current(s.log).ready == s.ready && Current(s.log).stopping == s.stopping
      && ServingOk(cfg, s, request, pc)
    case Publishing(states, publish) =>
      && Current(s.log) == ServiceOf(s) && Tidy(s.registry, s.sockets, {}, s.started)
      && (!s.stopping ==> states == States(s.registry))
      && (publish.StateFileWrite? ==> publish.data == cfg.base["forwards" := Forwarded(states)])
      && (publish.Opening? ==> s.published == Some(cfg.base["forwards" := Forwarded(states)]))
    case ClosingAll(_, None) =>
      Tidy(s.registry, s.sockets, MainHeld(s.main), s.started)
    case ClosingAll(_, Some(name)) =>
      name in s.registry && Tidy(s.registry - {name}, s.sockets, MainHeld(s.main), s.started)
  }

  ghost predicate OnlyEarlierNames(cfg: Config, registry: Registry, next: nat) {
    forall name | name in registry :: exists j :: 0 <= j < next && j < |cfg.specs| && cfg.specs[j].name == name
  }

  ghost predicate MainOk(cfg: Config, s: State) {
    match s.main
    case Binding(next, states) =>
      && !s.ready && next <= |cfg.specs| && OnlyEarlierNames(cfg, s.registry, next)
      && (!s.stopping ==> states == States(s.registry))
    case Holding(next, states, f) =>
      && !s.ready && next < |cfg.specs| && OnlyEarlierNames(cfg, s.registry, next)
      && Honours(f, cfg.specs[next])
      && (!s.stopping ==> states == States(s.registry))
    case Gate(states) => !s.ready && (!s.stopping ==> states == States(s.registry))
    case WantPublish(states) => !s.ready && (!s.stopping ==> states == States(s.registry))
    case InPublish => !s.ready
    case InClose(_) => !s.ready
    case Returned => s.stopping && s.registry == map[] && s.sockets == {}
    case _ => true
  }

  /** The registry vm-state.json stands for: while a change is being saved, the one before the change. */
  function Represented(s: State): Registry {
    if s.section.Serving? && (s.section.pc.SavingAdd? || s.section.pc.SavingRemove?) then Settled(s) else s.registry
  }

  ghost predicate FlagsOk(cfg: Config, s: State) {
    && (s.stopping ==> !s.ready)
    && (s.signal.PoweringOff? || s.section.ClosingAll? ==> s.stopping)
    && (s.ready ==> s.published == Some(WithForwards(cfg.base, Represented(s))))
  }

  ghost predicate IsAnswer(event: Event, i: nat) {
    event.Requested? && event.handler == i
  }

  /** The log is a legal history, and answers every finished request exactly once and no other. */
  ghost predicate LogOk(log: seq<Entry>, handlers: seq<HandlerPc>) {
    && Legal(log)
    && (forall k | 0 <= k < |log| && log[k].event.Requested? ::
          && log[k].event.handler < |handlers|
          && handlers[log[k].event.handler] == Done(log[k].event.request, log[k].event.response))
    && (forall i | 0 <= i < |handlers| && handlers[i].Done? ::
          exists k :: 0 <= k < |log| && IsAnswer(log[k].event, i))
    && (forall k, l | 0 <= k < l < |log| && log[k].event.Requested? && log[l].event.Requested? ::
          log[k].event.handler != log[l].event.handler)
  }

  ghost predicate Inv(cfg: Config, s: State) {
    && LogOk(s.log, s.handlers)
    && if s.exited then s.stopping && !s.ready && s.sockets == {}
       else LockOk(s) && SectionOk(cfg, s) && MainOk(cfg, s) && FlagsOk(cfg, s)
  }

  // ----- every step keeps the invariant -----

  lemma LogUnanswered(log: seq<Entry>, handlers: seq<HandlerPc>, i: nat, pc: HandlerPc)
    requires LogOk(log, handlers) && i <= |handlers| && !pc.Done?
    requires i < |handlers| ==> !handlers[i].Done?
    ensures LogOk(log, if i < |handlers| then handlers[i := pc] else handlers + [pc])
  {
    hide Legal;
  }

  lemma LogInternal(log: seq<Entry>, handlers: seq<HandlerPc>, entry: Entry)
    requires LogOk(log, handlers) && !entry.event.Requested? && Happens(Current(log), entry.event, entry.after)
    ensures LogOk(log + [entry], handlers) && Current(log + [entry]) == entry.after
  {
    LegalAppend(log, entry);
    hide Legal, Happens, Current;
    var longer := log + [entry];
    forall i | 0 <= i < |handlers| && handlers[i].Done? ensures exists k :: 0 <= k < |longer| && IsAnswer(longer[k].event, i) {
      var k :| 0 <= k < |log| && IsAnswer(log[k].event, i);
      assert IsAnswer(longer[k].event, i);
    }
  }

  lemma LogAnswered(log: seq<Entry>, handlers: seq<HandlerPc>, entry: Entry)
    requires LogOk(log, handlers) && Happens(Current(log), entry.event, entry.after)
    requires entry.event.Requested? && entry.event.handler < |handlers| && !handlers[entry.event.handler].Done?
    ensures
      var answered := handlers[entry.event.handler := Done(entry.event.request, entry.event.response)];
      LogOk(log + [entry], answered) && Current(log + [entry]) == entry.after
  {
    LegalAppend(log, entry);
    hide Legal, Happens, Current;
    var longer := log + [entry];
    var h := entry.event.handler;
    var answered := handlers[h := Done(entry.event.request, entry.event.response)];
    forall i | 0 <= i < |answered| && answered[i].Done? ensures exists k :: 0 <= k < |longer| && IsAnswer(longer[k].event, i) {
      if i == h {
        assert IsAnswer(longer[|log|].event, i);
      } else {
        var k :| 0 <= k < |log| && IsAnswer(log[k].event, i);
        assert IsAnswer(longer[k].event, i);
      }
    }
  }

  lemma ArriveStep(cfg: Config, s: State, request: Request)
    requires Inv(cfg, s) && !s.exited
    ensures Inv(cfg, s.(handlers := s.handlers + [Waiting(request)]))
  {
    hide LogOk, Tidy, Serves, States;
    LogUnanswered(s.log, s.handlers, |s.handlers|, Waiting(request));
  }

  lemma EnterStep(cfg: Config, s: State, i: nat, c: Choice)
    requires Inv(cfg, s) && !s.exited && i < |s.handlers| && s.handlers[i].Waiting?
    requires HandlerStep(s, i, c).Some?
    ensures Inv(cfg, HandlerStep(s, i, c).value)
  {
    hide LogOk, Tidy, Serves, States;
    LogUnanswered(s.log, s.handlers, i, Inside);
  }

  /** The holder of the lock at a given program counter, and the step it takes. */
  ghost predicate AtServing(cfg: Config, s: State) {
    Inv(cfg, s) && !s.exited && s.section.Serving?
  }

  /** The code's decision, taken from formatted and parsed text, is the one the sequential machine asks for. */
  lemma DecideServes(registry: Registry, request: Request)
    ensures
      match Decide(registry, request)
      case Answering(err) => Serves(true, registry, request, registry, Answer(err, registry))
      case Starting(spec, hostIP) => AddAdmitted(registry, request, spec, hostIP)
      case SavingRemove(f, save) =>
        request.request == "forward-remove" && request.name in registry && f == registry[request.name] && save == Reading
      case _ => false
    ensures Decide(registry, request).Starting? <==>
      request.request == "forward-add" && Admissible(request) && WantedSpec(request).name !in registry
    ensures Decide(registry, request).SavingRemove? <==>
      request.request == "forward-remove" && request.name in registry
  {
    hide ParseForwardSpec, FormatForward, TrimSpace, ValidSpec, NormalLoopback, AddressText;
    FormatThenParse(request.name, request.guestPort, request.hostPort);
    AddressIsNormal(request.hostIP);
  }

  lemma ServeChecking(cfg: Config, s: State, c: Choice)
    requires AtServing(cfg, s) && s.section.pc == Checking
    ensures Inv(cfg, ServeStep(s, c))
  {
    hide LogOk, Tidy, Decide, States, AddEffect, RemoveEffect, AddAdmitted;
    var request := s.section.request;
    if s.ready {
      DecideServes(s.registry, request);
      if Decide(s.registry, request).SavingRemove? {
        Unregister(s.registry, s.sockets, s.started, request.name);
        RemovedKeepsName(s.registry, s.sockets, s.started, request.name);
      }
    }
  }

  lemma RemovedKeepsName(registry: Registry, sockets: set<Forwarder>, started: nat, name: string)
    requires Tidy(registry, sockets, {}, started) && name in registry
    ensures registry[name].name == name
  {
  }

  lemma ServeStarting(cfg: Config, s: State, c: Choice)
    requires AtServing(cfg, s) && s.section.pc.Starting?
    ensures Inv(cfg, ServeStep(s, c))
  {
    hide LogOk, Tidy, Decide, States, EndpointFree, NormalLoopback, PortGranted, RequestedAddress, Admissible, WantedSpec;
    var spec, hostIP := s.section.pc.spec, s.section.pc.hostIP;
    if CanBind(s, hostIP, spec.hostPort, c) {
      var f := Forwarder(s.started, spec.name, hostIP, spec.hostPort, spec.guestPort, c.port);
      StartedIsAdmitted(s.registry, s.section.request, spec, hostIP, f);
      Bind(s.registry, s.sockets, s.started, f);
    }
  }

  lemma StartedIsAdmitted(before: Registry, request: Request, spec: ForwardSpec, hostIP: string, f: Forwarder)
    requires AddAdmitted(before, request, spec, hostIP)
    requires f.name == spec.name && f.hostIP == hostIP && f.guestPort == spec.guestPort
    requires f.requestedPort == spec.hostPort && PortGranted(spec.hostPort, f.port)
    ensures AddStarted(before, request, f) && BoundOk(f)
  {
    hide TrimSpace, NormalLoopback, ValidSpec, AddressText;
  }

  lemma ServeRecording(cfg: Config, s: State, c: Choice)
    requires AtServing(cfg, s) && s.section.pc.Recording?
    ensures Inv(cfg, ServeStep(s, c))
  {
    hide LogOk, Tidy, States, Admissible, PortGranted;
    Register(s.registry, s.sockets, s.started, s.section.pc.started);
  }

  lemma SaveResultOk(cfg: Config, s: State, save: SavePc, ok: bool)
    requires SaveOk(cfg, save, s.registry) && s.published == Some(WithForwards(cfg.base, Settled(s)))
    ensures
      match SaveStep(save, s.published, s.registry, ok)
      case SaveGoesOn(next) => SaveOk(cfg, next, s.registry)
      case SaveCommits(data) => data == WithForwards(cfg.base, s.registry)
      case SaveFails => true
  {
    hide States;
  }

  lemma AddCommits(before: Registry, request: Request, f: Forwarder, registry: Registry)
    requires AddStarted(before, request, f) && registry == before[f.name := f]
    ensures Serves(true, before, request, registry, Answer(None, registry))
    ensures Serves(true, before, request, before, Answer(Some("cannot save VM state"), before))
  {
    hide TrimSpace, ValidSpec, RequestedAddress;
  }

  lemma ServeSavingAdd(cfg: Config, s: State, c: Choice)
    requires AtServing(cfg, s) && s.section.pc.SavingAdd?
    ensures Inv(cfg, ServeStep(s, c))
  {
    hide LogOk, Tidy, States, Serves, AddStarted, SaveStep, WithForwards, SaveOk;
    var f := s.section.pc.added;
    SaveResultOk(cfg, s, s.section.pc.save, c.ok);
    StartedName(Settled(s), s.section.request, f);
    AddCommits(Settled(s), s.section.request, f, s.registry);
    Unregister(s.registry, s.sockets, s.started, f.name);
    assert s.registry - {f.name} == Settled(s);
  }

  lemma StartedName(before: Registry, request: Request, f: Forwarder)
    requires AddStarted(before, request, f)
    ensures f.name !in before
  {
  }

  lemma ServeWithdrawing(cfg: Config, s: State, c: Choice)
    requires AtServing(cfg, s) && s.section.pc.Withdrawing?
    ensures Inv(cfg, ServeStep(s, c))
  {
    hide LogOk, Tidy, States, Serves, AddStarted, WithForwards;
    var f := s.section.pc.withdrawn;
    AddCommits(Settled(s), s.section.request, f, Settled(s)[f.name := f]);
    CloseInFlight(s.registry, s.sockets, s.started, f);
  }

  lemma RemoveCommits(before: Registry, request: Request, f: Forwarder, registry: Registry)
    requires RemoveBegun(before, request, f, registry)
    ensures forall err :: Serves(true, before, request, registry, Answer(err, registry))
    ensures registry[request.name := f] == before
    ensures Serves(true, before, request, before, Answer(Some("cannot save VM state"), before))
  {
    hide States;
  }

  lemma ServeSavingRemove(cfg: Config, s: State, c: Choice)
    requires AtServing(cfg, s) && s.section.pc.SavingRemove?
    ensures Inv(cfg, ServeStep(s, c))
  {
    hide LogOk, Tidy, States, Serves, SaveStep, WithForwards, SaveOk;
    var f := s.section.pc.removed;
    SaveResultOk(cfg, s, s.section.pc.save, c.ok);
    RemoveCommits(Settled(s), s.section.request, f, s.registry);
    Register(s.registry, s.sockets, s.started, f);
  }

  lemma ServeRetiring(cfg: Config, s: State, c: Choice)
    requires AtServing(cfg, s) && s.section.pc.Retiring?
    ensures Inv(cfg, ServeStep(s, c))
  {
    hide LogOk, Tidy, States, Serves, WithForwards;
    var f := s.section.pc.retired;
    RemoveCommits(Settled(s), s.section.request, f, s.registry);
    CloseInFlight(s.registry, s.sockets, s.started, f);
  }

  lemma ServeAnswering(cfg: Config, s: State, c: Choice)
    requires AtServing(cfg, s) && s.section.pc.Answering?
    ensures Inv(cfg, ServeStep(s, c))
  {
    hide LogOk, Tidy, States, Serves, WithForwards;
    var i, request := s.section.handler, s.section.request;
    var response := Answer(s.section.pc.err, s.registry);
    assert s.handlers[i].Inside?;
    LogAnswered(s.log, s.handlers, Entry(Requested(i, request, response), ServiceOf(s)));
  }

  lemma HandlerKeepsInv(cfg: Config, s: State, i: nat, c: Choice)
    requires Inv(cfg, s) && !s.exited && i < |s.handlers| && HandlerStep(s, i, c).Some?
    ensures Inv(cfg, HandlerStep(s, i, c).value)
  {
    hide Inv, ServeStep;
    if s.handlers[i].Waiting? {
      EnterStep(cfg, s, i, c);
    } else {
      assert AtServing(cfg, s);
      match s.section.pc
      case Checking => ServeChecking(cfg, s, c);
      case Starting(_, _) => ServeStarting(cfg, s, c);
      case Recording(_) => ServeRecording(cfg, s, c);
      case SavingAdd(_, _) => ServeSavingAdd(cfg, s, c);
      case Withdrawing(_) => ServeWithdrawing(cfg, s, c);
      case SavingRemove(_, _) => ServeSavingRemove(cfg, s, c);
      case Retiring(_) => ServeRetiring(cfg, s, c);
      case Answering(_) => ServeAnswering(cfg, s, c);
    }
  }

  ghost predicate AtMain(cfg: Config, s: State) {
    Inv(cfg, s) && !s.exited && DistinctNames(cfg.specs)
  }

  lemma NextNameIsNew(cfg: Config, registry: Registry, next: nat)
    requires DistinctNames(cfg.specs) && next < |cfg.specs| && OnlyEarlierNames(cfg, registry, next)
    ensures cfg.specs[next].name !in registry
  {
  }

  lemma OneMoreName(cfg: Config, registry: Registry, next: nat, f: Forwarder)
    requires next < |cfg.specs| && OnlyEarlierNames(cfg, registry, next) && f.name == cfg.specs[next].name
    ensures OnlyEarlierNames(cfg, registry[f.name := f], next + 1)
  {
  }

  lemma ShrunkNames(cfg: Config, registry: Registry, next: nat, name: string)
    requires OnlyEarlierNames(cfg, registry, next)
    ensures OnlyEarlierNames(cfg, registry - {name}, next)
  {
  }

  /** A forwarder whose Close has been called but that is still registered does not get in the way of a new one. */
  lemma BindWhileClosing(registry: Registry, name: string, sockets: set<Forwarder>, started: nat, f: Forwarder)
    requires Tidy(registry - {name}, sockets, {}, started) && f.name !in registry
    requires f.id == started && BoundOk(f) && EndpointFree(sockets, f.hostIP, f.port)
    ensures Tidy(registry - {name}, sockets + {f}, {f}, started + 1)
  {
    Bind(registry - {name}, sockets, started, f);
  }

  lemma MainBinding(cfg: Config, s: State, c: Choice)
    requires AtMain(cfg, s) && s.main.Binding? && MainStep(cfg, s, c).Some?
    ensures Inv(cfg, MainStep(cfg, s, c).value)
  {
    hide LogOk, Tidy, States, Serves, OnlyEarlierNames, AddressText, NormalLoopback, EndpointFree, WithForwards;
    var next := s.main.next;
    if next < |cfg.specs| && CanBind(s, "127.0.0.1", cfg.specs[next].hostPort, c) {
      var spec := cfg.specs[next];
      var f := Forwarder(s.started, spec.name, "127.0.0.1", spec.hostPort, spec.guestPort, c.port);
      AddressIsNormal(Unset);
      NextNameIsNew(cfg, s.registry, next);
      match s.section
      case ClosingAll(_, Some(name)) => BindWhileClosing(s.registry, name, s.sockets, s.started, f);
      case _ => Bind(s.registry, s.sockets, s.started, f);
    }
  }

  lemma MainHolding(cfg: Config, s: State, c: Choice)
    requires AtMain(cfg, s) && s.main.Holding? && MainStep(cfg, s, c).Some?
    ensures Inv(cfg, MainStep(cfg, s, c).value)
  {
    hide LogOk, Tidy, Serves, OnlyEarlierNames, WithForwards;
    var f := s.main.held;
    NextNameIsNew(cfg, s.registry, s.main.next);
    OneMoreName(cfg, s.registry, s.main.next, f);
    Register(s.registry, s.sockets, s.started, f);
    LogInternal(s.log, s.handlers, Entry(Registered(f), ServiceOf(s.(registry := s.registry[f.name := f]))));
    StatesExtend(s.registry, f);
  }

  lemma MainPublishing(cfg: Config, s: State, c: Choice)
    requires AtMain(cfg, s) && s.section.Publishing?
    ensures Inv(cfg, PublishStep(cfg, s, c))
  {
    hide LogOk, Tidy, States, Serves;
    if s.section.publish.Opening? {
      LogInternal(s.log, s.handlers, Entry(Opened, ServiceOf(s.(ready := !s.stopping))));
    }
  }

  lemma ClosingStep(cfg: Config, s: State, c: Choice)
    requires Inv(cfg, s) && !s.exited && s.section.ClosingAll? && CloseStep(s, c).Some?
    ensures Inv(cfg, CloseStep(s, c).value)
  {
    hide LogOk, Tidy, States, Serves, WithForwards, OnlyEarlierNames;
    match s.section.closed
    case Some(name) =>
      if s.main.Binding? || s.main.Holding? { ShrunkNames(cfg, s.registry, s.main.next, name); }
    case None =>
      if s.registry == map[] {
        LogInternal(s.log, s.handlers, Entry(ClosedAll, ServiceOf(s)));
        if s.main.InClose? { NothingHeld(s.sockets, s.started); }
      } else {
        CloseRegistered(s.registry, s.sockets, MainHeld(s.main), s.started, c.name);
      }
  }

  lemma EnteringClose(cfg: Config, s: State, bySignal: bool)
    requires Inv(cfg, s) && !s.exited && s.section == Free
    requires if bySignal then s.signal == Asking else s.main.WantClose?
    ensures
      var t := EnterClose(s, bySignal);
      Inv(cfg, if bySignal then t.(signal := InSignalClose) else t.(main := InClose(s.main.last)))
  {
    hide LogOk, Tidy, States, Serves, WithForwards, OnlyEarlierNames;
  }

  lemma MainKeepsInv(cfg: Config, s: State, c: Choice)
    requires AtMain(cfg, s) && MainStep(cfg, s, c).Some?
    ensures Inv(cfg, MainStep(cfg, s, c).value)
  {
    hide LogOk, Tidy, States, Serves, WithForwards, OnlyEarlierNames, PublishStep, CloseStep, Honours;
    match s.main
    case Binding(_, _) => MainBinding(cfg, s, c);
    case Holding(_, _, _) => MainHolding(cfg, s, c);
    case InPublish => MainPublishing(cfg, s, c);
    case WantClose(_) => EnteringClose(cfg, s, false);
    case InClose(_) => ClosingStep(cfg, s, c);
    case _ =>
  }

  lemma SignalKeepsInv(cfg: Config, s: State, c: Choice)
    requires Inv(cfg, s) && !s.exited && SignalStep(s, c).Some?
    ensures Inv(cfg, SignalStep(s, c).value)
  {
    hide LogOk, Tidy, States, Serves, WithForwards, OnlyEarlierNames, CloseStep;
    match s.signal
    case Asking => EnteringClose(cfg, s, true);
    case InSignalClose => ClosingStep(cfg, s, c);
    case _ =>
  }

  lemma StepKeepsInv(cfg: Config, s: State, a: Action)
    requires DistinctNames(cfg.specs) && Inv(cfg, s) && Apply(cfg, s, a).Some?
    ensures Inv(cfg, Apply(cfg, s, a).value)
  {
    hide Inv, HandlerStep, MainStep, SignalStep;
    match a
    case Arrive(request) => ArriveStep(cfg, s, request);
    case HandlerMoves(i, c) => HandlerKeepsInv(cfg, s, i, c);
    case MainMoves(c) => MainKeepsInv(cfg, s, c);
    case SignalMoves(c) => SignalKeepsInv(cfg, s, c);
  }

  lemma BeginInv(cfg: Config)
    ensures Inv(cfg, BEGIN)
  {
  }

  lemma {:induction false} RunKeepsInv(cfg: Config, s: State, actions: seq<Action>)
    requires DistinctNames(cfg.specs) && Inv(cfg, s) && Run(cfg, s, actions).Some?
    ensures Inv(cfg, Run(cfg, s, actions).value)
    decreases |actions|
  {
    hide Inv, Apply;
    if actions == [] {
    } else {
      StepKeepsInv(cfg, s, actions[0]);
      RunKeepsInv(cfg, Apply(cfg, s, actions[0]).value, actions[1..]);
    }
  }

  lemma ReachableInv(cfg: Config, s: State)
    requires DistinctNames(cfg.specs) && Reachable(cfg, s)
    ensures Inv(cfg, s)
  {
    hide Inv, Apply;
    var actions :| Run(cfg, BEGIN, actions) == Some(s);
    BeginInv(cfg);
    RunKeepsInv(cfg, BEGIN, actions);
  }

  // ----- what holds in every reachable state -----

  /**
   * Whenever the service is ready and the lock is free, vm-state.json carries exactly the live
   * mappings, and every other key is what start-up wrote.
   */
  lemma PublishedStateIsCurrent(cfg: Config, s: State)
    requires DistinctNames(cfg.specs) && Reachable(cfg, s) && s.ready && s.section == Free
    ensures s.published == Some(cfg.base["forwards" := Forwarded(States(s.registry))])
  {
    ReachableInv(cfg, s);
  }

  /**
   * Whenever the lock is free, the bound listeners are those of the registry and at most one that
   * start-up has not registered yet.
   */
  lemma ListenersAreConserved(cfg: Config, s: State)
    requires DistinctNames(cfg.specs) && Reachable(cfg, s) && s.section == Free && !s.exited
    ensures s.sockets == s.registry.Values + MainHeld(s.main)
    ensures s.registry.Values !! MainHeld(s.main)
  {
    ReachableInv(cfg, s);
    hide BoundOk, LogOk, NamesOk;
  }

  /** When runVMDaemon has returned, or the process has exited, every listener ever bound is closed. */
  lemma NothingOutlivesTheDaemon(cfg: Config, s: State)
    requires DistinctNames(cfg.specs) && Reachable(cfg, s) && (s.main == Returned || s.exited)
    ensures s.sockets == {} && !s.ready
  {
    ReachableInv(cfg, s);
  }

  ghost predicate SocketsOk(sockets: set<Forwarder>) {
    EndpointsDistinct(sockets) && forall f | f in sockets :: BoundOk(f)
  }

  /**
   * In every reachable state, in the middle of a critical section too, live listeners have pairwise
   * distinct endpoints on normal-form loopback addresses, a requested nonzero port is the bound one,
   * and port zero became a nonzero one.
   */
  lemma LiveListenersAreSound(cfg: Config, s: State)
    requires DistinctNames(cfg.specs) && Reachable(cfg, s)
    ensures forall f | f in s.sockets ::
      f.port != 0 && (f.requestedPort != 0 ==> f.port == f.requestedPort) && NormalLoopback(f.hostIP)
    ensures forall f, g | f in s.sockets && g in s.sockets && f != g :: f.hostIP != g.hostIP || f.port != g.port
  {
    ReachableInv(cfg, s);
    assert SocketsOk(s.sockets) by {
      hide LogOk, LockOk, SectionOk, MainOk, FlagsOk, SocketsOk;
      if s.exited { NoSockets(); } else { SectionSockets(cfg, s); }
    }
    hide Inv, NormalLoopback;
  }

  lemma SectionSockets(cfg: Config, s: State)
    requires SectionOk(cfg, s)
    ensures SocketsOk(s.sockets)
  {
    hide Tidy, ServingOk, States, SocketsOk;
    forall registry, inFlight | Tidy(registry, s.sockets, inFlight, s.started) ensures SocketsOk(s.sockets) {
      TidySockets(registry, s.sockets, inFlight, s.started);
    }
    if s.section.Serving? { ServingSockets(cfg, s, s.section.request, s.section.pc); }
  }

  lemma ServingSockets(cfg: Config, s: State, request: Request, pc: ServingPc)
    requires ServingOk(cfg, s, request, pc)
    ensures SocketsOk(s.sockets)
  {
    hide Tidy, AddAdmitted, AddStarted, RemoveBegun, SaveOk, Serves, States, SocketsOk, Settled;
    forall registry, inFlight | Tidy(registry, s.sockets, inFlight, s.started) ensures SocketsOk(s.sockets) {
      TidySockets(registry, s.sockets, inFlight, s.started);
    }
  }

  lemma TidySockets(registry: Registry, sockets: set<Forwarder>, inFlight: set<Forwarder>, started: nat)
    requires Tidy(registry, sockets, inFlight, started)
    ensures SocketsOk(sockets)
  {
    hide BoundOk, EndpointsDistinct, NamesOk;
  }

  lemma NoSockets()
    ensures SocketsOk({})
  {
  }

  // ----- the service refines the sequential machine -----

  /**
   * The concurrent service is a sequential one: the log is a legal history of the sequential machine,
   * it ends in the current state whenever the lock is free, and it holds each finished request once,
   * with the response that request got.
   */
  lemma ServiceIsSequential(cfg: Config, s: State)
    requires DistinctNames(cfg.specs) && Reachable(cfg, s) && !s.exited
    ensures Legal(s.log)
    ensures s.section == Free ==> Current(s.log) == Service(s.ready, s.stopping, s.registry)
    ensures forall i | 0 <= i < |s.handlers| && s.handlers[i].Done? ::
      exists k :: 0 <= k < |s.log| && s.log[k].event == Requested(i, s.handlers[i].request, s.handlers[i].response)
    ensures forall k, l | 0 <= k < l < |s.log| && s.log[k].event.Requested? && s.log[l].event.Requested? ::
      s.log[k].event.handler != s.log[l].event.handler
  {
    ReachableInv(cfg, s);
    hide Legal, Current;
    forall i | 0 <= i < |s.handlers| && s.handlers[i].Done?
      ensures exists k :: 0 <= k < |s.log| && s.log[k].event == Requested(i, s.handlers[i].request, s.handlers[i].response)
    {
      var k :| 0 <= k < |s.log| && IsAnswer(s.log[k].event, i);
      assert s.log[k].event == Requested(i, s.handlers[i].request, s.handlers[i].response);
    }
  }

  /** The step takes handler i from holding the lock to its response, which is the one logged. */
  ghost predicate Finishes(s: State, a: Action, t: State, i: nat, request: Request, response: Response) {
    && a.HandlerMoves? && a.handler == i && i < |s.handlers| && i < |t.handlers|
    && s.handlers[i].Inside? && t.handlers[i] == Done(request, response)
  }

  ghost predicate LogGrows(s: State, a: Action, t: State) {
    || t.log == s.log
    || (exists entry :: t.log == s.log + [entry] && (entry.event.Requested? ==>
          Finishes(s, a, t, entry.event.handler, entry.event.request, entry.event.response)))
  }

  /** The history only grows, and a request enters it between its arrival and its response. */
  lemma RequestsTakeEffectWhilePending(cfg: Config, s: State, a: Action)
    requires Apply(cfg, s, a).Some?
    ensures LogGrows(s, a, Apply(cfg, s, a).value)
  {
    hide ServeStep, PublishStep, CloseStep;
    var t := Apply(cfg, s, a).value;
    match a
    case HandlerMoves(i, c) =>
      if s.handlers[i].Inside? {
        ServingLogs(s, c);
        if t.log != s.log {
          var entry := t.log[|s.log|];
          assert t.log == s.log + [entry];
        }
      }
    case MainMoves(c) =>
      if s.section.Publishing? { PublishingLogs(cfg, s, c); }
      if s.section.ClosingAll? { ClosingLogs(s, c); }
      if s.main.Holding? {
        assert t.log == s.log + [t.log[|s.log|]];
      }
    case SignalMoves(c) =>
      if s.section.ClosingAll? { ClosingLogs(s, c); }
    case _ =>
  }

  lemma ServingLogs(s: State, c: Choice)
    requires s.section.Serving? && s.section.handler < |s.handlers|
    ensures
      var t, i := ServeStep(s, c), s.section.handler;
      t.log == s.log || exists response ::
        t.log == s.log + [Entry(Requested(i, s.section.request, response), ServiceOf(s))]
        && t.handlers == s.handlers[i := Done(s.section.request, response)]
  {
    hide Decide, SaveStep, States, CanBind;
    match s.section.pc
    case Answering(err) =>
      var response := Answer(err, s.registry);
      assert ServeStep(s, c).log == s.log + [Entry(Requested(s.section.handler, s.section.request, response), ServiceOf(s))];
    case _ => assert ServeStep(s, c).log == s.log;
  }

  lemma PublishingLogs(cfg: Config, s: State, c: Choice)
    requires s.section.Publishing?
    ensures
      var t := PublishStep(cfg, s, c);
      t.log == s.log || exists after :: t.log == s.log + [Entry(Opened, after)]
  {
  }

  lemma ClosingLogs(s: State, c: Choice)
    requires s.section.ClosingAll?
    ensures CloseStep(s, c).Some? ==>
      var t := CloseStep(s, c).value;
      t.log == s.log || exists after :: t.log == s.log + [Entry(ClosedAll, after)]
  {
  }

  // ----- shutdown -----

  /** Once closeForwarders has begun, no handler can change registry, listeners or file, and it can only fail. */
  lemma StoppedHandlerOnlyFails(cfg: Config, s: State, i: nat, c: Choice)
    requires Inv(cfg, s) && !s.exited && s.stopping && i < |s.handlers| && HandlerStep(s, i, c).Some?
    ensures
      var t := HandlerStep(s, i, c).value;
      && t.registry == s.registry && t.sockets == s.sockets && t.published == s.published
      && t.stopping && (t.handlers[i].Done? ==> t.handlers[i].response.Failure?)
  {
    hide LogOk, Tidy, States, MainOk, AddEffect, RemoveEffect;
  }

  ghost predicate OnlyFailuresSince(s: State, t: State) {
    && |s.handlers| <= |t.handlers|
    && forall i | 0 <= i < |t.handlers| && t.handlers[i].Done? ::
         if i < |s.handlers| && s.handlers[i].Done? then t.handlers[i] == s.handlers[i]
         else t.handlers[i].response.Failure?
  }

  lemma StoppedStep(cfg: Config, s: State, a: Action)
    requires DistinctNames(cfg.specs) && Inv(cfg, s) && s.stopping && Apply(cfg, s, a).Some?
    ensures
      var t := Apply(cfg, s, a).value;
      t.stopping && OnlyFailuresSince(s, t)
  {
    hide LogOk, LockOk, SectionOk, MainOk, FlagsOk;
    match a
    case HandlerMoves(i, c) =>
      StoppedHandlerOnlyFails(cfg, s, i, c);
      hide Inv;
      OthersUntouched(s, i, c);
    case _ => hide Inv;
  }

  lemma OthersUntouched(s: State, i: nat, c: Choice)
    requires i < |s.handlers| && HandlerStep(s, i, c).Some?
    ensures
      var t := HandlerStep(s, i, c).value;
      |t.handlers| == |s.handlers| && forall j | 0 <= j < |s.handlers| && j != i :: t.handlers[j] == s.handlers[j]
  {
    hide ServeStep;
    if s.handlers[i].Inside? { ServingMovesOne(s, c); }
  }

  lemma ServingMovesOne(s: State, c: Choice)
    requires s.section.Serving? && s.section.handler < |s.handlers|
    ensures
      var i, t := s.section.handler, ServeStep(s, c);
      && |t.handlers| == |s.handlers| && (s.handlers[i].Inside? ==> !t.handlers[i].Waiting?)
      && forall j | 0 <= j < |s.handlers| && j != i :: t.handlers[j] == s.handlers[j]
  {
    hide Decide, SaveStep, States, CanBind, WithForwards, ServiceOf;
    match s.section.pc
    case Answering(_) =>
    case _ => assert ServeStep(s, c).handlers == s.handlers;
  }

  lemma DoneStaysDone(cfg: Config, s: State, a: Action)
    requires Apply(cfg, s, a).Some?
    ensures
      var t := Apply(cfg, s, a).value;
      |s.handlers| <= |t.handlers| &&
      forall i | 0 <= i < |s.handlers| && s.handlers[i].Done? :: t.handlers[i] == s.handlers[i]
  {
    hide Decide, SaveStep, ServeStep;
    if a.HandlerMoves? {
      OthersUntouched(s, a.handler, a.choice);
    }
  }

  lemma StoppedIsNotReady(cfg: Config, s: State)
    requires Inv(cfg, s) && s.stopping
    ensures !s.ready
  {
    hide LogOk, LockOk, SectionOk, MainOk;
  }

  /**
   * Shutdown is final, wherever in start-up it lands: after closeForwarders has begun the service is
   * never ready again and every request that finishes later fails.
   */
  lemma {:induction false} ShutdownIsFinal(cfg: Config, s: State, actions: seq<Action>)
    requires DistinctNames(cfg.specs) && Inv(cfg, s) && s.stopping && Run(cfg, s, actions).Some?
    ensures
      var t := Run(cfg, s, actions).value;
      t.stopping && !t.ready && OnlyFailuresSince(s, t)
    decreases |actions|
  {
    hide Inv, Apply;
    StoppedIsNotReady(cfg, s);
    if actions == [] {
    } else {
      var next := Apply(cfg, s, actions[0]).value;
      StoppedStep(cfg, s, actions[0]);
      StepKeepsInv(cfg, s, actions[0]);
      ShutdownIsFinal(cfg, next, actions[1..]);
      DoneStaysDone(cfg, s, actions[0]);
    }
  }

  /** The forwarders that the log registers after its last ClosedAll. */
  function RegisteredSinceClose(log: seq<Entry>): Registry {
    if log == [] then map[]
    else
      var earlier := RegisteredSinceClose(log[..|log| - 1]);
      match log[|log| - 1].event
      case Registered(f) => earlier[f.name := f]
      case ClosedAll => map[]
      case _ => earlier
  }

  lemma {:induction false} StoppedHistory(log: seq<Entry>)
    requires Legal(log) && Current(log).stopping
    ensures !Current(log).ready && Current(log).registry == RegisteredSinceClose(log)
  {
    hide States, AddEffect, RemoveEffect;
    if log == [] {
    } else {
      var earlier := log[..|log| - 1];
      forall k | 0 <= k < |earlier| ensures Happens(Current(earlier[..k]), earlier[k].event, earlier[k].after) {
        assert earlier[..k] == log[..k];
      }
      assert Happens(Current(log[..|log| - 1]), log[|log| - 1].event, log[|log| - 1].after);
      if Current(earlier).stopping {
        StoppedHistory(earlier);
      }
    }
  }

  /**
   * What is left in the registry after shutdown began: exactly what start-up registered after the
   * last closeForwarders, so it is empty if and only if start-up registered nothing since.
   */
  lemma StoppedRegistryIsLateStartup(cfg: Config, s: State)
    requires DistinctNames(cfg.specs) && Reachable(cfg, s) && s.stopping && s.section == Free && !s.exited
    ensures s.registry == RegisteredSinceClose(s.log)
  {
    ReachableInv(cfg, s);
    hide LogOk, LockOk, MainOk, FlagsOk, Tidy;
    assert Legal(s.log) by { LegalOf(s); }
    StoppedHistory(s.log);
  }

  lemma LegalOf(s: State)
    requires LogOk(s.log, s.handlers)
    ensures Legal(s.log)
  {
    hide Legal;
  }

  lemma {:induction false} RunExtends(cfg: Config, s: State, actions: seq<Action>, a: Action)
    requires Run(cfg, s, actions).Some?
    ensures Run(cfg, s, actions + [a]) == Apply(cfg, Run(cfg, s, actions).value, a)
    decreases |actions|
  {
    hide Apply;
    if actions == [] {
      var after := Apply(cfg, s, a);
      assert [a][1..] == [];
    } else {
      RunExtends(cfg, Apply(cfg, s, actions[0]).value, actions[1..], a);
      assert (actions + [a])[1..] == actions[1..] + [a];
    }
  }

  lemma StepIsReachable(cfg: Config, s: State, a: Action)
    requires Reachable(cfg, s) && Apply(cfg, s, a).Some?
    ensures Reachable(cfg, Apply(cfg, s, a).value)
  {
    hide Apply;
    var actions :| Run(cfg, BEGIN, actions) == Some(s);
    RunExtends(cfg, BEGIN, actions, a);
    assert Run(cfg, BEGIN, actions + [a]) == Some(Apply(cfg, s, a).value);
  }

  lemma BeginIsReachable(cfg: Config)
    ensures Reachable(cfg, BEGIN)
  {
    assert Run(cfg, BEGIN, []) == Some(BEGIN);
  }

  /** It need not be empty: a signal can land between binding a start-up forward and registering it. */
  lemma SignalDuringStartup() returns (cfg: Config, s: State)
    ensures DistinctNames(cfg.specs) && Reachable(cfg, s)
    ensures s.stopping && s.section == Free && !s.exited && s.registry != map[]
  {
    hide Run;
    cfg := Config([ForwardSpec("web", 80, 8080)], map[]);
    var c := Choice(true, 8080, "");
    BeginIsReachable(cfg);
    s := Apply(cfg, BEGIN, MainMoves(c)).value;
    StepIsReachable(cfg, BEGIN, MainMoves(c));
    for i := 0 to 3
      invariant Reachable(cfg, s) && !s.exited && s.main.Holding? && s.registry == map[]
      invariant s.signal == if i == 0 then Quiet else if i == 1 then Asking else if i == 2 then InSignalClose else PoweringOff
      invariant s.section == if i == 2 then ClosingAll(true, None) else Free
      invariant i >= 2 ==> s.stopping
    {
      StepIsReachable(cfg, s, SignalMoves(c));
      s := Apply(cfg, s, SignalMoves(c)).value;
    }
    StepIsReachable(cfg, s, MainMoves(c));
    var name := s.main.held.name;
    s := Apply(cfg, s, MainMoves(c)).value;
    assert name in s.registry;
  }

  /** Start-up still has a forward to register: one in hand, or one left on the list. */
  predicate StartupPending(cfg: Config, main: MainPc) {
    main.Holding? || (main.Binding? && main.next < |cfg.specs|)
  }

  /** Whatever happens from here on, no forward is registered whenever the lock is free. */
  ghost predicate StaysEmpty(cfg: Config, s: State) {
    forall actions | Run(cfg, s, actions).Some? ::
      var t := Run(cfg, s, actions).value;
      t.section == Free && !t.exited ==> t.registry == map[]
  }

  /**
   * When shutdown leaves the registry empty for good: exactly when it is empty and start-up has no
   * forward left to register, which can be checked when closeForwarders releases the lock.
   */
  lemma StaysEmptyIffStartupIsDone(cfg: Config, s: State)
    requires DistinctNames(cfg.specs) && Reachable(cfg, s) && s.stopping && s.section == Free && !s.exited
    ensures StaysEmpty(cfg, s) <==> s.registry == map[] && !StartupPending(cfg, s.main)
    ensures StaysEmpty(cfg, s) ==> forall actions | Run(cfg, s, actions).Some? :: Run(cfg, s, actions).value.registry == map[]
  {
    hide Apply, Inv, StartupPending;
    ReachableInv(cfg, s);
    if s.registry == map[] && !StartupPending(cfg, s.main) {
      forall actions | Run(cfg, s, actions).Some? ensures Run(cfg, s, actions).value.registry == map[] {
        EmptyRun(cfg, s, actions);
      }
    } else {
      var actions := RegistryFills(cfg, s);
      var t := Run(cfg, s, actions).value;
      assert t.registry != map[];
    }
  }

  lemma EmptyStep(cfg: Config, s: State, a: Action)
    requires Inv(cfg, s) && s.stopping && s.registry == map[] && !StartupPending(cfg, s.main) && Apply(cfg, s, a).Some?
    ensures
      var t := Apply(cfg, s, a).value;
      t.registry == map[] && !StartupPending(cfg, t.main)
  {
    hide LogOk, Tidy, States, Serves, WithForwards, FlagsOk, ServeStep;
    match a
    case HandlerMoves(i, c) =>
      StoppedHandlerOnlyFails(cfg, s, i, c);
      HandlerLeavesMain(s, i, c);
    case _ =>
  }

  lemma HandlerLeavesMain(s: State, i: nat, c: Choice)
    requires i < |s.handlers| && HandlerStep(s, i, c).Some?
    ensures
      var t := HandlerStep(s, i, c).value;
      t.main == s.main && t.signal == s.signal && t.exited == s.exited
  {
    hide Decide, SaveStep, States, CanBind, WithForwards;
  }

  lemma {:induction false} EmptyRun(cfg: Config, s: State, actions: seq<Action>)
    requires DistinctNames(cfg.specs) && Inv(cfg, s) && s.stopping && s.registry == map[] && !StartupPending(cfg, s.main)
    requires Run(cfg, s, actions).Some?
    ensures Run(cfg, s, actions).value.registry == map[]
    decreases |actions|
  {
    hide Inv, Apply, StartupPending;
    if actions == [] {
    } else {
      EmptyStep(cfg, s, actions[0]);
      StoppedStep(cfg, s, actions[0]);
      StepKeepsInv(cfg, s, actions[0]);
      EmptyRun(cfg, Apply(cfg, s, actions[0]).value, actions[1..]);
    }
  }

  /** Otherwise at most two steps of start-up register a forward, signal or no signal. */
  lemma RegistryFills(cfg: Config, s: State) returns (actions: seq<Action>)
    requires DistinctNames(cfg.specs) && Reachable(cfg, s) && s.section == Free && !s.exited
    requires s.registry != map[] || StartupPending(cfg, s.main)
    ensures Run(cfg, s, actions).Some? && |actions| <= 2
    ensures
      var t := Run(cfg, s, actions).value;
      t.section == Free && !t.exited && t.registry != map[]
  {
    ListenersAreConserved(cfg, s);
    hide AddressText, States, ServiceOf;
    if s.registry != map[] {
      actions := [];
    } else if s.main.Holding? {
      var a := MainMoves(Choice(true, 0, ""));
      actions := [a];
      HoldingRegisters(cfg, s, a);
      assert [a][1..] == [];
    } else {
      var requested := cfg.specs[s.main.next].hostPort;
      var a := MainMoves(Choice(true, if requested == 0 then 1 else requested, ""));
      actions := [a, a];
      assert s.sockets == {};
      var t := Apply(cfg, s, a).value;
      HoldingRegisters(cfg, t, a);
      assert [a, a][1..] == [a] && [a][1..] == [];
      assert Run(cfg, t, [a]) == Apply(cfg, t, a);
    }
  }

  lemma HoldingRegisters(cfg: Config, s: State, a: Action)
    requires a.MainMoves? && s.main.Holding? && s.section == Free && !s.exited
    ensures
      var t := Apply(cfg, s, a);
      t.Some? && t.value.section == Free && !t.value.exited && t.value.registry != map[]
  {
    hide States;
    var f := s.main.held;
    assert f.name in s.registry[f.name := f];
  }

  /** Distinct start-up names are needed: with a repeated one, a listener is lost from the registry while still bound. */
  lemma RepeatedNameLosesAListener() returns (cfg: Config, s: State)
    ensures !DistinctNames(cfg.specs) && Reachable(cfg, s)
    ensures s.section == Free && MainHeld(s.main) == {} && exists f :: f in s.sockets && f !in s.registry.Values
  {
    hide Run, AddressText;
    cfg := Config([ForwardSpec("web", 80, 8080), ForwardSpec("web", 81, 8081)], map[]);
    assert cfg.specs[0].name == cfg.specs[1].name;
    BeginIsReachable(cfg);
    var first, second := MainMoves(Choice(true, 8080, "")), MainMoves(Choice(true, 8081, ""));
    var s1 := Apply(cfg, BEGIN, first).value;
    StepIsReachable(cfg, BEGIN, first);
    var s2 := Apply(cfg, s1, first).value;
    StepIsReachable(cfg, s1, first);
    var f := s1.main.held;
    assert s2.sockets == {f};
    var s3 := Apply(cfg, s2, second).value;
    StepIsReachable(cfg, s2, second);
    s := Apply(cfg, s3, second).value;
    StepIsReachable(cfg, s3, second);
    assert s.registry == map["web" := s3.main.held];
    assert f in s.sockets && f !in s.registry.Values;
  }

  // ----- the lock is always released -----

  function SaveRank(save: SavePc): nat {
    match save
    case Reading => STEPS_BEFORE_RENAME + 2
    case Writing(_, left) => left + 1
  }

  function ServingRank(pc: ServingPc): nat {
    match pc
    case Checking => 14
    case Starting(_, _) => 13
    case Recording(_) => 12
    case SavingAdd(_, save) => 3 + SaveRank(save)
    case SavingRemove(_, save) => 3 + SaveRank(save)
    case Withdrawing(_) => 2
    case Retiring(_) => 2
    case Answering(_) => 1
  }

  /** How many steps the holder of the lock can still take before it releases it; zero when the lock is free. */
  function LockRank(s: State): nat {
    match s.section
    case Free => 0
    case Serving(_, _, pc) => ServingRank(pc)
    case Publishing(_, RuntimeFile) => STEPS_BEFORE_RENAME + 4
    case Publishing(_, StateFileWrite(_, left)) => left + 2
    case Publishing(_, Opening) => 1
    case ClosingAll(_, None) => 2 * |s.registry| + 1
    case ClosingAll(_, Some(_)) => 2 * |s.registry|
  }

  ghost predicate ByHolder(s: State, a: Action) {
    match s.section
    case Free => false
    case Serving(i, _, _) => a.HandlerMoves? && a.handler == i
    case Publishing(_, _) => a.MainMoves?
    case ClosingAll(bySignal, _) => if bySignal then a.SignalMoves? else a.MainMoves?
  }

  /**
   * The lock is always released: its holder never waits for anyone, and each of its steps brings the
   * release closer, however saves, binds and closes turn out.
   */
  lemma HolderMakesProgress(cfg: Config, s: State)
    requires Inv(cfg, s) && !s.exited && s.section != Free
    ensures exists a :: ByHolder(s, a) && Apply(cfg, s, a).Some?
    ensures forall a | ByHolder(s, a) && Apply(cfg, s, a).Some? :: LockRank(Apply(cfg, s, a).value) < LockRank(s)
  {
    hide LogOk, MainOk, FlagsOk, ServeStep, CloseStep, PublishStep, SectionOk;
    match s.section
    case Serving(i, request, pc) =>
      assert s.handlers[i].Inside?;
      assert ByHolder(s, HandlerMoves(i, Choice(true, 0, ""))) && Apply(cfg, s, HandlerMoves(i, Choice(true, 0, ""))).Some?;
      forall a | ByHolder(s, a) && Apply(cfg, s, a).Some? ensures LockRank(Apply(cfg, s, a).value) < LockRank(s) {
        ServingDescends(s, a.choice);
      }
    case Publishing(_, _) =>
      assert ByHolder(s, MainMoves(Choice(true, 0, ""))) && Apply(cfg, s, MainMoves(Choice(true, 0, ""))).Some?;
      forall a | ByHolder(s, a) && Apply(cfg, s, a).Some? ensures LockRank(Apply(cfg, s, a).value) < LockRank(s) {
        PublishingDescends(cfg, s, a.choice);
      }
    case ClosingAll(bySignal, closed) =>
      var name := if s.registry == map[] then "" else var n :| n in s.registry; n;
      var c := Choice(true, 0, name);
      ClosingDescends(cfg, s, c);
      var a := if bySignal then SignalMoves(c) else MainMoves(c);
      assert ByHolder(s, a) && Apply(cfg, s, a).Some?;
      forall b | ByHolder(s, b) && Apply(cfg, s, b).Some? ensures LockRank(Apply(cfg, s, b).value) < LockRank(s) {
        ClosingDescends(cfg, s, b.choice);
      }
  }

  lemma ServingDescends(s: State, c: Choice)
    requires s.section.Serving? && s.section.handler < |s.handlers|
    ensures LockRank(ServeStep(s, c)) < LockRank(s)
  {
    hide EndpointFree, States, Decide, SaveStep;
    match s.section.pc
    case SavingAdd(_, _) => SavingDescends(s, c);
    case SavingRemove(_, _) => SavingDescends(s, c);
    case Checking => DecisionDescends(s.registry, s.section.request);
    case _ =>
  }

  lemma SavingDescends(s: State, c: Choice)
    requires s.section.Serving? && s.section.handler < |s.handlers|
    requires s.section.pc.SavingAdd? || s.section.pc.SavingRemove?
    ensures LockRank(ServeStep(s, c)) < LockRank(s)
  {
    hide States, Decide, SaveStep, SaveRank;
    SaveDescends(s.section.pc.save, s.published, s.registry, c.ok);
  }

  lemma DecisionDescends(registry: Registry, request: Request)
    ensures ServingRank(Decide(registry, request)) < ServingRank(Checking)
  {
    hide ParseForwardSpec, FormatForward, RequestedAddress;
  }

  lemma SaveDescends(save: SavePc, published: Option<Document>, registry: Registry, ok: bool)
    ensures SaveRank(save) > 0
    ensures
      var r := SaveStep(save, published, registry, ok);
      r.SaveGoesOn? ==> SaveRank(r.next) < SaveRank(save)
  {
  }

  lemma PublishingDescends(cfg: Config, s: State, c: Choice)
    requires s.section.Publishing?
    ensures LockRank(PublishStep(cfg, s, c)) < LockRank(s)
  {
  }

  lemma ClosingDescends(cfg: Config, s: State, c: Choice)
    requires Inv(cfg, s) && !s.exited && s.section.ClosingAll?
    ensures s.section.closed.Some? || s.registry == map[] || c.name in s.registry ==> CloseStep(s, c).Some?
    ensures CloseStep(s, c).Some? ==> LockRank(CloseStep(s, c).value) < LockRank(s)
  {
    hide LogOk, LockOk, MainOk, FlagsOk, Tidy;
    match s.section.closed
    case Some(name) =>
      assert |s.registry - {name}| == |s.registry| - 1 by {
        assert (s.registry - {name}).Keys == s.registry.Keys - {name};
        assert |s.registry.Keys - {name}| == |s.registry.Keys| - 1;
      }
    case None =>
      if s.registry != map[] {
        assert |s.registry| > 0;
      }
  }
}
