// The registry of live forwards as the daemon updates it in place (launcher/mac/forward_commands.go,
// launcher/mac/forwarding.go and the start-up loop of runVMDaemon): every method is proved against the
// sequential machine of ForwardService. The lock, and what happens between the steps of a method, are
// the subject of ForwardProtocol; the goroutines behind one forwarder are the subject of
// ForwarderShutdown.

module LiveForwards {
  import opened Text
  import opened ForwardSpecs
  import opened ForwardService
  import opened Listeners
  import opened StateFile

  /** What the operating system does during one request. */
  datatype Luck = Luck(osPort: Option<int>, save: SaveLuck, closeFails: bool)

  /** Everything an update can reach: the registry, the bound listeners and the published file. */
  datatype World = World(registry: Registry, sockets: set<Forwarder>, published: Option<Content>)

  /** The file carries the effective mappings under `forwards`. */
  ghost predicate Publishes(published: Option<Content>, registry: Registry) {
    && published.Some? && published.value.Complete?
    && "forwards" in published.value.document
    && published.value.document["forwards"] == Forwarded(States(registry))
  }

  /** The file was rewritten for the new registry, with every other key as it was. */
  ghost predicate Republished(before: Option<Content>, after: Option<Content>, registry: Registry) {
    && before.Some? && before.value.Complete?
    && after == Some(Complete(before.value.document["forwards" := Forwarded(States(registry))]))
  }

  /**
   * What one update does: the registry and the answer follow the sequential machine; an update that
   * leaves the registry alone leaves listeners and file alone; one that changes it republishes.
   */
  ghost predicate Updated(before: World, request: Request, err: Option<string>, after: World) {
    && Serves(true, before.registry, request, after.registry, Answer(err, after.registry))
    && (if after.registry == before.registry then after == before
        else Republished(before.published, after.published, after.registry))
  }

  /** startForwarder gets a listener: the operating system offers the port that was asked for, and it is free. */
  predicate CanListen(sockets: set<Forwarder>, hostIP: string, requested: int, osPort: Option<int>) {
    osPort.Some? && PortGranted(requested, osPort.value) && EndpointFree(sockets, hostIP, osPort.value)
  }

  /** When an update leaves things as they are because they are already as requested. */
  predicate AlreadySo(registry: Registry, request: Request) {
    || request.request == "forward-list"
    || (&& request.request == "forward-add" && Admissible(request) && WantedSpec(request).name in registry
        && SameSettings(registry[WantedSpec(request).name], request))
    || (request.request == "forward-remove" && request.name !in registry)
  }

  class Daemon {
    var forwarderRegistry: Registry
    var forwardsReady: bool
    var forwardsStopping: bool
    /** The loopback listeners the process holds. */
    var sockets: set<Forwarder>
    var started: nat
    const dir: Directory

    ghost predicate Valid(inFlight: set<Forwarder>)
      reads this
    {
      Tidy(forwarderRegistry, sockets, inFlight, started)
    }

    ghost function View(): World
      reads this, dir
    {
      World(forwarderRegistry, sockets, dir.Published())
    }

    /**
     * When an update changes the registry: an admissible add of a new name for which a listener and the
     * save are to be had, and a remove of a registered name that can be saved.
     */
    ghost predicate TakesEffect(request: Request, luck: Luck)
      reads this, dir
    {
      && CanSave(dir.files, luck.save)
      && if request.request == "forward-add" then
           && Admissible(request) && WantedSpec(request).name !in forwarderRegistry
           && CanListen(sockets, RequestedAddress(request.hostIP).value, request.hostPort, luck.osPort)
         else request.request == "forward-remove" && request.name in forwarderRegistry
    }

    /** When an update reports success. A remove that took effect does not when Close reports an error. */
    ghost predicate Succeeds(request: Request, luck: Luck)
      reads this, dir
    {
      || AlreadySo(forwarderRegistry, request)
      || (TakesEffect(request, luck) && (request.request == "forward-remove" ==> !luck.closeFails))
    }

    constructor (dir: Directory)
      ensures Valid({}) && forwarderRegistry == map[] && !forwardsReady && !forwardsStopping
      ensures this.dir == dir
    {
      forwarderRegistry := map[];
      forwardsReady := false;
      forwardsStopping := false;
      sockets := {};
      started := 0;
      this.dir := dir;
    }

    /** startForwarder: `osPort` is the port the operating system offers, None when it refuses to listen. */
    method StartForwarder(name: string, hostIP: string, hostPort: int, guestPort: int, osPort: Option<int>)
      returns (r: Result<Forwarder>)
      requires Valid({}) && NormalLoopback(hostIP) && name !in forwarderRegistry
      modifies this`sockets, this`started
      ensures r.Ok? <==> CanListen(old(sockets), hostIP, hostPort, osPort)
      ensures r.Ok? ==> Valid({r.value}) && sockets == old(sockets) + {r.value} && r.value !in old(sockets)
      ensures r.Ok? ==> osPort.Some? && r.value == Forwarder(old(started), name, hostIP, hostPort, guestPort, osPort.value)
      ensures r.Err? ==> Valid({}) && sockets == old(sockets)
    {
      hide Tidy, NormalLoopback;
      if !CanListen(sockets, hostIP, hostPort, osPort) {
        return Err("failed to listen");
      }
      var forwarder := Forwarder(started, name, hostIP, hostPort, guestPort, osPort.value);
      Bind(forwarderRegistry, sockets, started, forwarder);
      started := started + 1;
      sockets := sockets + {forwarder};
      return Ok(forwarder);
    }

    /** LoopbackForwarder.Close, which ForwarderShutdown shows to end with the listener closed even when it fails. */
    method CloseForwarder(forwarder: Forwarder, listenerError: bool) returns (err: Option<string>)
      requires Valid({forwarder})
      modifies this`sockets
      ensures Valid({}) && sockets == old(sockets) - {forwarder}
      ensures err.Some? <==> listenerError
    {
      hide Tidy;
      CloseInFlight(forwarderRegistry, sockets, started, forwarder);
      sockets := sockets - {forwarder};
      return if listenerError then Some("cannot close listener") else None;
    }

    method ForwardStatesLocked() returns (states: map<string, ForwardState>)
      ensures states == States(forwarderRegistry)
    {
      states := map[];
      var names := forwarderRegistry.Keys;
      while names != {}
        invariant names <= forwarderRegistry.Keys
        invariant states.Keys == forwarderRegistry.Keys - names
        invariant forall name | name in states :: states[name] == StateOf(forwarderRegistry[name])
        decreases names
      {
        var name :| name in names;
        var forwarder := forwarderRegistry[name];
        states := states[name := ForwardState(forwarder.hostIP, forwarder.guestPort, forwarder.port)];
        names := names - {name};
      }
    }

    method SaveForwards(luck: SaveLuck) returns (err: Option<string>)
      modifies dir
      ensures err.None? <==> old(CanSave(dir.files, luck))
      ensures if err.Some? then dir.Published() == old(dir.Published())
              else Republished(old(dir.Published()), dir.Published(), forwarderRegistry)
    {
      var states := ForwardStatesLocked();
      err := SaveForwardState(dir, states, luck);
    }

    method UpdateForward(request: Request, luck: Luck) returns (err: Option<string>)
      requires Valid({})
      modifies this`forwarderRegistry, this`sockets, this`started, dir
      ensures Valid({}) && Updated(old(View()), request, err, View())
      ensures forwarderRegistry != old(forwarderRegistry) <==> old(TakesEffect(request, luck))
      ensures err.None? <==> old(Succeeds(request, luck))
    {
      hide Tidy, AddEffect, RemoveEffect, Republished;
      if request.request == "forward-list" {
        return None;
      } else if request.request == "forward-add" {
        err := AddForward(request, luck);
      } else if request.request == "forward-remove" {
        err := RemoveForward(request, luck);
      } else {
        return Some("unknown forward request");
      }
    }

    method AddForward(request: Request, luck: Luck) returns (err: Option<string>)
      requires Valid({}) && request.request == "forward-add"
      modifies this`forwarderRegistry, this`sockets, this`started, dir
      ensures Valid({}) && Updated(old(View()), request, err, View())
      ensures forwarderRegistry != old(forwarderRegistry) <==> old(TakesEffect(request, luck))
      ensures err.None? <==> old(Succeeds(request, luck))
    {
      hide ParseForwardSpec, TrimSpace, ValidSpec, FormatForward, AddressText, Tidy, NormalLoopback, PortGranted, EndpointFree, Republished, CanSave, States;
      FormatThenParse(request.name, request.guestPort, request.hostPort);
      var parsed := ParseForwardSpec(FormatForward(request.name, request.guestPort, request.hostPort));
      if parsed.Err? {
        return Some(parsed.error);
      }
      var spec := parsed.value;
      var address := RequestedAddress(request.hostIP);
      if address.None? {
        return Some("host IP must be a loopback IP address");
      }
      var hostIP := address.value;
      if spec.name in forwarderRegistry {
        var existing := forwarderRegistry[spec.name];
        if existing.guestPort == spec.guestPort && existing.requestedPort == spec.hostPort && existing.hostIP == hostIP {
          return None;
        }
        return Some("forward has different settings; remove it before adding a replacement");
      }
      AddressIsNormal(request.hostIP);
      err := LaunchForward(spec, hostIP, luck);
    }

    /** The end of the add branch: start, register and save a new forward, or take everything back. */
    method LaunchForward(spec: ForwardSpec, hostIP: string, luck: Luck) returns (err: Option<string>)
      requires Valid({}) && NormalLoopback(hostIP) && spec.name !in forwarderRegistry
      modifies this`forwarderRegistry, this`sockets, this`started, dir
      ensures Valid({})
      ensures err.None? <==> old(CanListen(sockets, hostIP, spec.hostPort, luck.osPort) && CanSave(dir.files, luck.save))
      ensures err.Some? ==> View() == old(View())
      ensures err.None? ==>
        && luck.osPort.Some? && Republished(old(dir.Published()), dir.Published(), forwarderRegistry)
        && var f := Forwarder(old(started), spec.name, hostIP, spec.hostPort, spec.guestPort, luck.osPort.value);
           forwarderRegistry == old(forwarderRegistry)[spec.name := f]
    {
      hide Tidy, NormalLoopback, PortGranted, EndpointFree, Republished, CanSave, States;
      var outcome := StartForwarder(spec.name, hostIP, spec.hostPort, spec.guestPort, luck.osPort);
      if outcome.Err? {
        return Some(outcome.error);
      }
      var forwarder := outcome.value;
      Register(forwarderRegistry, sockets, started, forwarder);
      forwarderRegistry := forwarderRegistry[spec.name := forwarder];
      err := SaveForwards(luck.save);
      if err.Some? {
        Unregister(forwarderRegistry, sockets, started, spec.name);
        forwarderRegistry := forwarderRegistry - {spec.name};
        var _ := CloseForwarder(forwarder, luck.closeFails);
        assert View() == old(View());
      }
    }

    method RemoveForward(request: Request, luck: Luck) returns (err: Option<string>)
      requires Valid({}) && request.request == "forward-remove"
      modifies this`forwarderRegistry, this`sockets, dir
      ensures Valid({}) && Updated(old(View()), request, err, View())
      ensures forwarderRegistry != old(forwarderRegistry) <==> old(TakesEffect(request, luck))
      ensures err.None? <==> old(Succeeds(request, luck))
    {
      hide Admissible, Tidy;
      if request.name !in forwarderRegistry {
        return None;
      }
      var forwarder := forwarderRegistry[request.name];
      Unregister(forwarderRegistry, sockets, started, request.name);
      forwarderRegistry := forwarderRegistry - {request.name};
      err := SaveForwards(luck.save);
      if err.Some? {
        forwarderRegistry := forwarderRegistry[request.name := forwarder];
        assert View() == old(View());
        return;
      }
      assert request.name !in forwarderRegistry;
      err := CloseForwarder(forwarder, luck.closeFails);
    }

    /**
     * A failed request that changes anything at all is a remove of a registered name whose save
     * succeeds and whose Close then reports an error, and every such remove is one.
     */
    method HandleForwardRequest(request: Request, luck: Luck) returns (response: Response)
      requires Valid({})
      modifies this`forwarderRegistry, this`sockets, this`started, dir
      ensures Valid({})
      ensures Serves(forwardsReady, old(forwarderRegistry), request, forwarderRegistry, response)
      ensures forwarderRegistry == old(forwarderRegistry) ==> View() == old(View())
      ensures forwarderRegistry != old(forwarderRegistry) <==> forwardsReady && old(TakesEffect(request, luck))
      ensures response.Forwards? <==> forwardsReady && old(Succeeds(request, luck))
      ensures request.request == "forward-add" && response.Forwards? ==> ReportsMapping(request, response.forwards)
      ensures response.Failure? && View() != old(View()) <==>
        && forwardsReady && request.request == "forward-remove" && request.name in old(forwarderRegistry)
        && old(CanSave(dir.files, luck.save)) && luck.closeFails
      ensures old(Publishes(dir.Published(), forwarderRegistry)) ==> Publishes(dir.Published(), forwarderRegistry)
    {
      hide Admissible, Tidy, AddEffect, RemoveEffect, ReportsMapping, PortGranted;
      if !forwardsReady {
        return Failure("VM is not ready; wait for a successful start before managing forwards");
      }
      PortsGranted(forwarderRegistry, sockets, {}, started);
      var err := UpdateForward(request, luck);
      if err.Some? {
        return Failure(err.value);
      }
      var states := ForwardStatesLocked();
      if request.request == "forward-add" {
        AddReportsItsMapping(old(forwarderRegistry), request, forwarderRegistry, Forwards(states));
      }
      return Forwards(states);
    }

    method RegisterForwarder(name: string, forwarder: Forwarder)
      requires Valid({forwarder}) && forwarder.name == name
      modifies this`forwarderRegistry
      ensures Valid({}) && forwarderRegistry == old(forwarderRegistry)[name := forwarder]
    {
      hide Tidy;
      Register(forwarderRegistry, sockets, started, forwarder);
      forwarderRegistry := forwarderRegistry[name := forwarder];
    }

    method CloseForwarders()
      requires Valid({})
      modifies this
      ensures Valid({}) && forwarderRegistry == map[] && sockets == {}
      ensures !forwardsReady && forwardsStopping
    {
      hide Tidy;
      forwardsReady := false;
      forwardsStopping := true;
      while forwarderRegistry != map[]
        invariant Valid({}) && !forwardsReady && forwardsStopping
        decreases forwarderRegistry.Keys
      {
        var name :| name in forwarderRegistry;
        CloseRegistered(forwarderRegistry, sockets, {}, started, name);
        sockets := sockets - {forwarderRegistry[name]};
        forwarderRegistry := forwarderRegistry - {name};
      }
      NothingHeld(sockets, started);
    }

    /**
     * The start-up loop of runVMDaemon when no signal arrives: either every forward of the list is
     * live, with the mappings that will be published, or none is. It succeeds exactly when the ports
     * on offer are the ones asked for and pairwise different.
     */
    method StartForwards(specs: seq<ForwardSpec>, osPorts: seq<Option<int>>)
      returns (forwardStates: map<string, ForwardState>, err: Option<string>)
      requires Valid({}) && forwarderRegistry == map[] && DistinctNames(specs) && |osPorts| == |specs|
      modifies this
      ensures Valid({})
      ensures err.Some? ==> forwarderRegistry == map[] && sockets == {}
      ensures err.None? ==> forwardStates == States(forwarderRegistry) && Carries(specs, osPorts, forwarderRegistry)
      ensures err.None? <==> forall i | 0 <= i < |specs| :: PortOnOffer(specs, osPorts, i)
    {
      forwardStates, err := map[], None;
      AddressIsNormal(Unset);
      assert Launched(specs, osPorts, 0, forwarderRegistry, forwardStates);
      hide *;
      for i := 0 to |specs|
        invariant Valid({}) && Launched(specs, osPorts, i, forwarderRegistry, forwardStates)
      {
        var spec := specs[i];
        NextListens(specs, osPorts, i, forwarderRegistry, forwardStates, sockets, started);
        var outcome := StartForwarder(spec.name, "127.0.0.1", spec.hostPort, spec.guestPort, osPorts[i]);
        if outcome.Err? {
          CloseForwarders();
          return forwardStates, Some("cannot bind host port");
        }
        var forwarder := outcome.value;
        NextLaunched(specs, osPorts, i, forwarderRegistry, forwardStates, forwarder);
        RegisterForwarder(spec.name, forwarder);
        forwardStates := forwardStates[spec.name := ForwardState("127.0.0.1", spec.guestPort, forwarder.port)];
      }
      AllLaunched(specs, osPorts, forwarderRegistry, forwardStates);
    }
  }

  /** The i-th port on offer is one the spec accepts, and no earlier forward has it. */
  predicate PortOnOffer(specs: seq<ForwardSpec>, osPorts: seq<Option<int>>, i: nat)
    requires |osPorts| == |specs| && i < |specs|
  {
    && osPorts[i].Some? && PortGranted(specs[i].hostPort, osPorts[i].value)
    && forall j | 0 <= j < i :: osPorts[j] != osPorts[i]
  }

  ghost predicate HonoursOn(f: Forwarder, spec: ForwardSpec, port: Option<int>) {
    Honours(f, spec) && Some(f.port) == port
  }

  /** The registry holds one forwarder per spec, with the spec's settings, and nothing else. */
  ghost predicate Carries(specs: seq<ForwardSpec>, osPorts: seq<Option<int>>, registry: Registry)
    requires |osPorts| == |specs|
  {
    && (forall i | 0 <= i < |specs| ::
          specs[i].name in registry && HonoursOn(registry[specs[i].name], specs[i], osPorts[i]))
    && (forall name | name in registry :: exists i :: 0 <= i < |specs| && specs[i].name == name)
  }

  /** The first n forwards of the list are live. */
  ghost predicate Launched(specs: seq<ForwardSpec>, osPorts: seq<Option<int>>, n: nat, registry: Registry, states: map<string, ForwardState>)
    requires |osPorts| == |specs| && n <= |specs|
  {
    && Carries(specs[..n], osPorts[..n], registry) && states == States(registry)
    && forall i | 0 <= i < n :: PortOnOffer(specs, osPorts, i)
  }

  lemma AllLaunched(specs: seq<ForwardSpec>, osPorts: seq<Option<int>>, registry: Registry, states: map<string, ForwardState>)
    requires |osPorts| == |specs| && Launched(specs, osPorts, |specs|, registry, states)
    ensures Carries(specs, osPorts, registry) && states == States(registry)
    ensures forall i | 0 <= i < |specs| :: PortOnOffer(specs, osPorts, i)
  {
    assert specs[..|specs|] == specs && osPorts[..|specs|] == osPorts;
  }

  /** What the next forward of the list needs to be started. */
  lemma NextListens(specs: seq<ForwardSpec>, osPorts: seq<Option<int>>, i: nat, registry: Registry,
                    states: map<string, ForwardState>, sockets: set<Forwarder>, started: nat)
    requires DistinctNames(specs) && |osPorts| == |specs| && i < |specs|
    requires Launched(specs, osPorts, i, registry, states) && Tidy(registry, sockets, {}, started)
    ensures specs[i].name !in registry
    ensures CanListen(sockets, "127.0.0.1", specs[i].hostPort, osPorts[i]) <==> PortOnOffer(specs, osPorts, i)
  {
    hide AddressText, BoundOk, States;
    forall j | 0 <= j < i
      ensures specs[j].name in registry && HonoursOn(registry[specs[j].name], specs[j], osPorts[j])
      ensures registry[specs[j].name] in sockets
    {
      assert specs[..i][j] == specs[j] && osPorts[..i][j] == osPorts[j];
    }
    forall f | f in sockets ensures exists j :: 0 <= j < i && HonoursOn(f, specs[j], osPorts[j]) {
      assert registry[f.name] == f;
      var j :| 0 <= j < i && specs[..i][j].name == f.name;
      assert HonoursOn(f, specs[j], osPorts[j]);
    }
  }

  lemma NextLaunched(specs: seq<ForwardSpec>, osPorts: seq<Option<int>>, i: nat, registry: Registry,
                     states: map<string, ForwardState>, f: Forwarder)
    requires DistinctNames(specs) && |osPorts| == |specs| && i < |specs|
    requires Launched(specs, osPorts, i, registry, states) && PortOnOffer(specs, osPorts, i)
    requires f == Forwarder(f.id, specs[i].name, "127.0.0.1", specs[i].hostPort, specs[i].guestPort, osPorts[i].value)
    ensures
      Launched(specs, osPorts, i + 1, registry[specs[i].name := f],
               states[specs[i].name := ForwardState("127.0.0.1", specs[i].guestPort, f.port)])
  {
    hide AddressText, Carries, States, DistinctNames;
    StatesExtend(registry, f);
    CarriesExtend(specs, osPorts, i, registry, f);
  }

  lemma CarriesExtend(specs: seq<ForwardSpec>, osPorts: seq<Option<int>>, i: nat, registry: Registry, f: Forwarder)
    requires DistinctNames(specs) && |osPorts| == |specs| && i < |specs|
    requires Carries(specs[..i], osPorts[..i], registry) && HonoursOn(f, specs[i], osPorts[i])
    ensures Carries(specs[..i + 1], osPorts[..i + 1], registry[specs[i].name := f])
  {
    hide HonoursOn;
    var done, spec := specs[..i], specs[i];
    var longer, after := specs[..i + 1], registry[spec.name := f];
    forall j | 0 <= j < |longer|
      ensures longer[j].name in after && HonoursOn(after[longer[j].name], longer[j], osPorts[..i + 1][j])
    {
      if j < i { assert longer[j] == done[j] && osPorts[..i][j] == osPorts[j]; }
    }
    forall name | name in after ensures exists j :: 0 <= j < |longer| && longer[j].name == name {
      if name == spec.name {
        assert longer[i].name == name;
      } else {
        var j :| 0 <= j < i && done[j].name == name;
        assert longer[j].name == name;
      }
    }
  }
}
