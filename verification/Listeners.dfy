// Who holds which loopback listener: the accounting that ties the registry to the table of bound
// sockets, and how binding, registering, unregistering and closing move one listener about.

module Listeners {
  import opened ForwardService

  /** What the operating system and startForwarder guarantee about a bound listener. */
  ghost predicate BoundOk(f: Forwarder) {
    PortGranted(f.requestedPort, f.port) && NormalLoopback(f.hostIP)
  }

  predicate EndpointFree(sockets: set<Forwarder>, hostIP: string, port: int) {
    forall f | f in sockets :: f.hostIP != hostIP || f.port != port
  }

  /** No two listeners share an address and port. */
  ghost predicate EndpointsDistinct(sockets: set<Forwarder>) {
    forall f, g | f in sockets && g in sockets && f != g :: f.hostIP != g.hostIP || f.port != g.port
  }

  /** Every forwarder is registered under its own name. */
  ghost predicate NamesOk(registry: Registry) {
    forall name | name in registry :: registry[name].name == name
  }

  /**
   * The bound listeners are exactly those of the registry and those in flight between binding,
   * registering and closing; they have distinct endpoints, granted ports and loopback addresses.
   */
  ghost predicate Tidy(registry: Registry, sockets: set<Forwarder>, inFlight: set<Forwarder>, started: nat) {
    && NamesOk(registry)
    && (forall f :: f in sockets <==> f in registry.Values || f in inFlight)
    && (forall f | f in inFlight :: f.name !in registry)
    && EndpointsDistinct(sockets)
    && (forall f | f in sockets :: f.id < started && BoundOk(f))
  }

  lemma ValuesInsert(registry: Registry, f: Forwarder)
    requires f.name !in registry
    ensures forall g :: g in registry[f.name := f].Values <==> g in registry.Values || g == f
  {
    var after := registry[f.name := f];
    forall g ensures g in after.Values <==> g in registry.Values || g == f {
      if g in registry.Values {
        var name :| name in registry && registry[name] == g;
        assert name in after && after[name] == g;
      }
      if g == f { assert f.name in after && after[f.name] == f; }
    }
  }

  lemma ValuesRemove(registry: Registry, name: string)
    requires NamesOk(registry) && name in registry
    ensures forall g :: g in (registry - {name}).Values <==> g in registry.Values && g != registry[name]
  {
    var after := registry - {name};
    forall g ensures g in after.Values <==> g in registry.Values && g != registry[name] {
      if g in registry.Values && g != registry[name] {
        var other :| other in registry && registry[other] == g;
        assert other in after && after[other] == g;
      }
    }
  }

  lemma Bind(registry: Registry, sockets: set<Forwarder>, started: nat, f: Forwarder)
    requires Tidy(registry, sockets, {}, started) && f.name !in registry
    requires f.id == started && BoundOk(f) && EndpointFree(sockets, f.hostIP, f.port)
    ensures f !in sockets && Tidy(registry, sockets + {f}, {f}, started + 1)
  {
    hide BoundOk;
  }

  lemma Register(registry: Registry, sockets: set<Forwarder>, started: nat, f: Forwarder)
    requires Tidy(registry, sockets, {f}, started)
    ensures Tidy(registry[f.name := f], sockets, {}, started)
  {
    hide BoundOk;
    ValuesInsert(registry, f);
  }

  lemma Unregister(registry: Registry, sockets: set<Forwarder>, started: nat, name: string)
    requires Tidy(registry, sockets, {}, started) && name in registry
    ensures registry[name] in sockets && Tidy(registry - {name}, sockets, {registry[name]}, started)
  {
    hide BoundOk;
    ValuesRemove(registry, name);
  }

  lemma CloseInFlight(registry: Registry, sockets: set<Forwarder>, started: nat, f: Forwarder)
    requires Tidy(registry, sockets, {f}, started)
    ensures f in sockets && Tidy(registry, sockets - {f}, {}, started)
  {
    hide BoundOk;
    forall name | name in registry ensures registry[name] != f {
      assert registry[name].name == name;
    }
  }

  lemma CloseRegistered(registry: Registry, sockets: set<Forwarder>, inFlight: set<Forwarder>, started: nat, name: string)
    requires Tidy(registry, sockets, inFlight, started) && name in registry
    ensures registry[name].name == name
    ensures Tidy(registry - {name}, sockets - {registry[name]}, inFlight, started)
  {
    hide BoundOk;
    ValuesRemove(registry, name);
    assert registry[name].name == name;
  }

  lemma NothingHeld(sockets: set<Forwarder>, started: nat)
    requires Tidy(map[], sockets, {}, started)
    ensures sockets == {}
  {
    var empty: Registry := map[];
    assert empty.Values == {};
  }

  lemma PortsGranted(registry: Registry, sockets: set<Forwarder>, inFlight: set<Forwarder>, started: nat)
    requires Tidy(registry, sockets, inFlight, started)
    ensures forall name | name in registry :: PortGranted(registry[name].requestedPort, registry[name].port)
  {
    hide PortGranted, NormalLoopback;
    forall name | name in registry ensures BoundOk(registry[name]) {
      assert registry[name] in sockets;
    }
  }

  /** Two forwards that are live at the same time never publish the same address and port. */
  lemma LiveMappingsAreDistinct(registry: Registry, sockets: set<Forwarder>, inFlight: set<Forwarder>, started: nat, a: string, b: string)
    requires Tidy(registry, sockets, inFlight, started) && a in registry && b in registry && a != b
    ensures
      var x, y := States(registry)[a], States(registry)[b];
      x.hostIP != y.hostIP || x.hostPort != y.hostPort
  {
    hide BoundOk;
    assert registry[a].name == a && registry[b].name == b;
    assert registry[a] in sockets && registry[b] in sockets;
  }
}
