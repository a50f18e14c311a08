// What the live-forward service promises, as a sequential machine over the registry: the requests
// `forward-add`, `forward-remove` and `forward-list` of the control socket, and the three things the
// daemon itself does to the registry (docs/requirements.md, "Networking").

module ForwardService {
  import opened Text
  import opened ForwardSpecs

  // ----- addresses -----

  type Octet = n: nat | n < 256

  /** What the code asks of a net.IP: whether it is a loopback address and, if so, its String(). */
  datatype Address = Loopback4(b: Octet, c: Octet, d: Octet) | Loopback6 | NotLoopback

  function AddressText(address: Address): string
    requires address != NotLoopback
  {
    match address
    case Loopback4(b, c, d) => "127." + FormatInt(b) + "." + FormatInt(c) + "." + FormatInt(d)
    case Loopback6 => "::1"
  }

  /** The text is the dotted form of 127.b.c.d, without leading zeros. */
  ghost predicate Dotted(text: string, b: Octet, c: Octet, d: Octet) {
    Split(text, '.') == ["127", FormatInt(b), FormatInt(c), FormatInt(d)]
  }

  /** A loopback address in normal form: 127.b.c.d or ::1. */
  ghost predicate NormalLoopback(text: string) {
    text == "::1" || exists b: Octet, c: Octet, d: Octet :: Dotted(text, b, c, d)
  }

  const LOCALHOST := Loopback4(0, 0, 1)

  /** The host_ip field of a request as net.ParseIP sees it. */
  datatype HostIP = Unset | Unparsable | Parsed(address: Address)

  /** The address a request asks for, when it is admissible: the empty field means 127.0.0.1. */
  function RequestedAddress(hostIP: HostIP): Option<string> {
    match hostIP
    case Unset => Some(AddressText(LOCALHOST))
    case Unparsable => None
    case Parsed(address) => if address == NotLoopback then None else Some(AddressText(address))
  }

  lemma JoinFour(a: string, b: string, c: string, d: string)
    ensures Join([a, b, c, d], ".") == a + "." + b + "." + c + "." + d
  {
    var parts := [a, b, c, d];
    assert parts[1..] == [b, c, d] && [b, c, d][1..] == [c, d] && [c, d][1..] == [d];
    assert Join([c, d], ".") == c + "." + d;
    assert Join([b, c, d], ".") == b + "." + (c + "." + d);
  }

  lemma AddressTextIsDotted(b: Octet, c: Octet, d: Octet)
    ensures Dotted(AddressText(Loopback4(b, c, d)), b, c, d)
  {
    hide FormatInt, Join, Split;
    var x, y, z := FormatInt(b), FormatInt(c), FormatInt(d);
    FormatHasNoSpaceOrSeparator(b);
    FormatHasNoSpaceOrSeparator(c);
    FormatHasNoSpaceOrSeparator(d);
    SplitJoin(["127", x, y, z], '.');
    JoinFour("127", x, y, z);
    assert "127." == "127" + ".";
  }

  lemma LocalhostText()
    ensures AddressText(LOCALHOST) == "127.0.0.1"
  {
    assert FormatInt(0) == "0" && FormatInt(1) == "1";
    assert "127." + "0" + "." + "0" + "." + "1" == "127.0.0.1";
  }

  /**
   * What a request for an address gets: 127.0.0.1 when it names none, a loopback address in normal
   * form when it names one, and nothing otherwise. Different addresses have different texts.
   */
  lemma RequestedAddresses(hostIP: HostIP)
    ensures RequestedAddress(hostIP).Some? <==> hostIP == Unset || (hostIP.Parsed? && hostIP.address != NotLoopback)
    ensures RequestedAddress(Unset) == Some("127.0.0.1")
    ensures hostIP == Parsed(Loopback6) ==> RequestedAddress(hostIP) == Some("::1")
    ensures hostIP.Parsed? && hostIP.address.Loopback4? ==>
      var a := hostIP.address;
      RequestedAddress(hostIP).Some? && Dotted(RequestedAddress(hostIP).value, a.b, a.c, a.d)
  {
    hide FormatInt;
    LocalhostText();
    if hostIP.Parsed? && hostIP.address.Loopback4? {
      AddressTextIsDotted(hostIP.address.b, hostIP.address.c, hostIP.address.d);
    }
  }

  lemma AddressTextsDiffer(a: Address, b: Address)
    requires a != NotLoopback && b != NotLoopback && AddressText(a) == AddressText(b)
    ensures a == b
  {
    hide FormatInt;
    if a.Loopback4? { AddressTextIsDotted(a.b, a.c, a.d); FormatIntInjective(a); }
    if b.Loopback4? { AddressTextIsDotted(b.b, b.c, b.d); FormatIntInjective(b); }
    SplitCount("::1", '.');
  }

  lemma FormatIntInjective(a: Address)
    ensures a.Loopback4? ==>
      Atoi(FormatInt(a.b)) == Some(a.b) && Atoi(FormatInt(a.c)) == Some(a.c) && Atoi(FormatInt(a.d)) == Some(a.d)
  {
    if a.Loopback4? {
      AtoiFormat(a.b);
      AtoiFormat(a.c);
      AtoiFormat(a.d);
    }
  }

  lemma AddressIsNormal(hostIP: HostIP)
    ensures RequestedAddress(hostIP).Some? ==> NormalLoopback(RequestedAddress(hostIP).value)
    ensures NormalLoopback("127.0.0.1") && AddressText(LOCALHOST) == "127.0.0.1"
  {
    hide FormatInt, Dotted;
    RequestedAddresses(hostIP);
    LocalhostText();
    AddressTextIsDotted(0, 0, 1);
  }

  // ----- forwarders and requests -----

  /** A started LoopbackForwarder: the settings it was asked for and the port its listener got. */
  datatype Forwarder = Forwarder(id: nat, name: string, hostIP: string, requestedPort: int, guestPort: int, port: int)

  /** A start-up forwarder: the spec's settings, on 127.0.0.1. */
  ghost predicate Honours(f: Forwarder, spec: ForwardSpec) {
    && f.name == spec.name && f.guestPort == spec.guestPort && f.requestedPort == spec.hostPort
    && f.hostIP == "127.0.0.1"
  }

  type Registry = map<string, Forwarder>

  datatype ForwardState = ForwardState(hostIP: string, guestPort: int, hostPort: int)

  function StateOf(f: Forwarder): ForwardState {
    ForwardState(f.hostIP, f.guestPort, f.port)
  }

  /** forwardStatesLocked */
  function States(registry: Registry): (states: map<string, ForwardState>)
    ensures states.Keys == registry.Keys
  {
    map name | name in registry :: StateOf(registry[name])
  }

  lemma StatesExtend(registry: Registry, f: Forwarder)
    ensures States(registry[f.name := f]) == States(registry)[f.name := StateOf(f)]
  {
  }

  datatype Request = Request(request: string, name: string, guestPort: int, hostPort: int, hostIP: HostIP)

  datatype Response = Forwards(forwards: map<string, ForwardState>) | Failure(error: string)

  /** The response handleForwardRequest makes of the error updateForward returned. */
  function Answer(err: Option<string>, registry: Registry): Response {
    match err
    case Some(text) => Failure(text)
    case None => Forwards(States(registry))
  }

  // ----- the sequential machine -----

  function WantedSpec(request: Request): ForwardSpec {
    ForwardSpec(TrimSpace(request.name), request.guestPort, request.hostPort)
  }

  predicate Admissible(request: Request) {
    ValidSpec(WantedSpec(request)) && RequestedAddress(request.hostIP).Some?
  }

  predicate SameSettings(f: Forwarder, request: Request)
    requires Admissible(request)
  {
    && f.guestPort == request.guestPort
    && f.requestedPort == request.hostPort
    && f.hostIP == RequestedAddress(request.hostIP).value
  }

  /** A nonzero requested port is bound exactly; port zero leaves the choice to the operating system. */
  predicate PortGranted(requested: int, got: int) {
    got != 0 && (requested != 0 ==> got == requested)
  }

  ghost predicate Unchanged(before: Registry, after: Registry, response: Response, answered: bool) {
    && after == before
    && (if answered then response == Forwards(States(before)) else response.Failure?)
  }

  ghost predicate AddEffect(before: Registry, request: Request, after: Registry, response: Response) {
    if !Admissible(request) then Unchanged(before, after, response, false)
    else
      var name := WantedSpec(request).name;
      if name in before then Unchanged(before, after, response, SameSettings(before[name], request))
      else
        || Unchanged(before, after, response, false)
        || (exists f: Forwarder ::
              && f.name == name && SameSettings(f, request) && PortGranted(request.hostPort, f.port)
              && after == before[name := f] && response == Forwards(States(after)))
  }

  ghost predicate RemoveEffect(before: Registry, request: Request, after: Registry, response: Response) {
    if request.name !in before then Unchanged(before, after, response, true)
    else
      || Unchanged(before, after, response, false)
      || (after == before - {request.name} && (response == Forwards(States(after)) || response.Failure?))
  }

  /** The effect and the answer of one request on a service that is ready or not. */
  ghost predicate Serves(ready: bool, before: Registry, request: Request, after: Registry, response: Response) {
    if !ready then Unchanged(before, after, response, false)
    else if request.request == "forward-list" then Unchanged(before, after, response, true)
    else if request.request == "forward-add" then AddEffect(before, request, after, response)
    else if request.request == "forward-remove" then RemoveEffect(before, request, after, response)
    else Unchanged(before, after, response, false)
  }

  datatype Service = Service(ready: bool, stopping: bool, registry: Registry)

  datatype Event =
    | Requested(handler: nat, request: Request, response: Response)
    | Registered(forwarder: Forwarder)
    | Opened
    | ClosedAll

  ghost predicate Happens(before: Service, event: Event, after: Service) {
    match event
    case Requested(_, request, response) =>
      && Serves(before.ready, before.registry, request, after.registry, response)
      && after.ready == before.ready && after.stopping == before.stopping
    case Registered(f) => f.name !in before.registry && after == before.(registry := before.registry[f.name := f])
    case Opened => after == before.(ready := !before.stopping)
    case ClosedAll => after == Service(false, true, map[])
  }

  datatype Entry = Entry(event: Event, after: Service)

  const INITIAL := Service(false, false, map[])

  function Current(log: seq<Entry>): Service {
    if log == [] then INITIAL else log[|log| - 1].after
  }

  /** A history of the sequential machine: every event happens in the state its predecessor left. */
  ghost predicate Legal(log: seq<Entry>) {
    forall k | 0 <= k < |log| :: Happens(Current(log[..k]), log[k].event, log[k].after)
  }

  lemma LegalAppend(log: seq<Entry>, entry: Entry)
    requires Legal(log) && Happens(Current(log), entry.event, entry.after)
    ensures Legal(log + [entry]) && Current(log + [entry]) == entry.after
  {
    var longer := log + [entry];
    forall k | 0 <= k < |longer| ensures Happens(Current(longer[..k]), longer[k].event, longer[k].after) {
      if k < |log| {
        assert longer[..k] == log[..k];
        assert Happens(Current(log[..k]), log[k].event, log[k].after);
      } else {
        assert longer[..k] == log;
      }
    }
  }

  /**
   * The mapping under the request's name leads from the requested address, and a nonzero host port
   * that is the requested one unless that was zero, to the requested guest port.
   */
  ghost predicate ReportsMapping(request: Request, forwards: map<string, ForwardState>) {
    && TrimSpace(request.name) in forwards
    && var mapping := forwards[TrimSpace(request.name)];
       && Some(mapping.hostIP) == RequestedAddress(request.hostIP) && mapping.guestPort == request.guestPort
       && mapping.hostPort != 0 && (request.hostPort != 0 ==> mapping.hostPort == request.hostPort)
  }

  /** Every successful add reports its mapping, a repeated one too. */
  lemma AddReportsItsMapping(before: Registry, request: Request, after: Registry, response: Response)
    requires request.request == "forward-add" && Serves(true, before, request, after, response) && response.Forwards?
    requires forall name | name in before :: PortGranted(before[name].requestedPort, before[name].port)
    ensures ReportsMapping(request, response.forwards)
  {
    hide TrimSpace, AddressText, ValidSpec;
  }

  // ----- what a history keeps -----

  /** The event takes the name out of the registry if it is there, or may do so. */
  predicate CanDrop(event: Event, name: string) {
    || event.ClosedAll?
    || (event.Requested? && event.request.request == "forward-remove" && event.request.name == name)
  }

  /** The event puts a forwarder of that name into the registry if there is none, or may do so. */
  predicate CanEnter(event: Event, name: string) {
    || (event.Registered? && event.forwarder.name == name)
    || (event.Requested? && event.request.request == "forward-add" && WantedSpec(event.request).name == name)
  }

  lemma EventKeepsForward(before: Service, event: Event, after: Service, name: string)
    requires Happens(before, event, after)
    ensures !CanDrop(event, name) && name in before.registry ==>
            name in after.registry && after.registry[name] == before.registry[name]
    ensures !CanEnter(event, name) && name !in before.registry ==> name !in after.registry
  {
  }

  lemma {:induction false} ForwardsPersist(log: seq<Entry>, k: nat, l: nat, name: string)
    requires Legal(log) && k < l <= |log|
    ensures (forall j | k < j < l :: !CanDrop(log[j].event, name)) && name in log[k].after.registry ==>
            name in log[l - 1].after.registry && log[l - 1].after.registry[name] == log[k].after.registry[name]
    ensures (forall j | k < j < l :: !CanEnter(log[j].event, name)) && name !in log[k].after.registry ==>
            name !in log[l - 1].after.registry
    decreases l
  {
    hide Happens;
    if l == k + 1 {
    } else {
      ForwardsPersist(log, k, l - 1, name);
      assert log[..l - 1] != [] && Current(log[..l - 1]) == log[l - 2].after;
      EventKeepsForward(log[l - 2].after, log[l - 1].event, log[l - 1].after, name);
    }
  }

  lemma {:induction false} NeverReadyAndStopping(log: seq<Entry>, l: nat)
    requires Legal(log) && l < |log|
    ensures !(log[l].after.ready && log[l].after.stopping)
  {
    hide Serves;
    assert Happens(Current(log[..l]), log[l].event, log[l].after);
    if l == 0 {
    } else {
      NeverReadyAndStopping(log, l - 1);
    }
  }

  lemma {:induction false} ReadyPersists(log: seq<Entry>, k: nat, l: nat)
    requires Legal(log) && k < l <= |log| && log[k].after.ready
    requires forall j | k < j < l :: !log[j].event.ClosedAll?
    ensures log[l - 1].after.ready
    decreases l
  {
    hide Serves;
    if l == k + 1 {
    } else {
      ReadyPersists(log, k, l - 1);
      NeverReadyAndStopping(log, l - 2);
      assert log[..l - 1] != [] && Current(log[..l - 1]) == log[l - 2].after;
      assert Happens(log[l - 2].after, log[l - 1].event, log[l - 1].after);
    }
  }
}
