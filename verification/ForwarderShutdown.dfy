// The concurrent life of one LoopbackForwarder (launcher/mac/forwarding.go): its accept loop, one
// proxyConnection per client with two copy directions and two context.AfterFunc callbacks, and any
// number of concurrent Close calls, as a transition system. Every goroutine has a program counter,
// and one action is one step that other goroutines can observe. Connections are numbered in the order
// in which their goroutines start.

module ForwarderShutdown {
  import opened Text

  // ----- state -----

  /** acceptLoop. `Holding`: Accept returned a connection; `Counted`: wg.Add(1) done, goroutine not yet started. */
  datatype AcceptPc = Accepting | Failed | Holding | Counted | Leaving | Gone

  datatype ProxyPc =
    | Spawned      // before context.AfterFunc on the client
    | Dialling
    | Dialled      // before context.AfterFunc on the guest
    | Watched      // before the second copy goroutine is started
    | Copying      // io.Copy(clientConn, guestConn)
    | CopyEnded    // before clientConn.Close()
    | Joining      // copyWG.Wait()
    | StopGuest    // deferred calls from here on, last registered first
    | CloseGuest
    | StopClient
    | CloseClient
    | Departing    // before wg.Done()
    | Finished

  /** The goroutine running io.Copy(guestConn, clientConn). */
  datatype CopierPc = Unborn | Reading | ReadEnded | Released | Done

  datatype Socket = Absent | Open | Closed

  /** A context.AfterFunc registration. It runs once the context is cancelled unless stopped before that. */
  datatype Callback = Off | Armed | Ran | Stopped

  datatype Conn = Conn(client: Socket, guest: Socket, pc: ProxyPc, copier: CopierPc,
                       onClient: Callback, onGuest: Callback)

  datatype CloserPc = Arrived | Cancelling | ClosingListener | Draining | Returned(failed: bool)

  /** sync.Once: the index says which Close call runs the function. */
  datatype Once = Fresh | Busy(runner: nat) | Complete

  datatype State = State(
    cancelled: bool,
    listenerOpen: bool,
    closeFailed: bool,
    once: Once,
    counter: int,
    accept: AcceptPc,
    conns: seq<Conn>,
    closers: seq<CloserPc>)

  const NEW_CONN := Conn(Open, Absent, Spawned, Unborn, Off, Off)

  /** The forwarder as startForwarder leaves it. */
  const STARTED := State(false, true, false, Fresh, 1, Accepting, [], [])

  // ----- steps -----

  datatype ConnEvent = Proceed | DialSucceeds | DialFails | CopierProceeds | ClientCallback | GuestCallback

  datatype Action =
    | AcceptConnection
    | AcceptError
    | AcceptSeesClosed
    | AcceptProceeds
    | OnConn(conn: nat, event: ConnEvent)
    | CallClose
    | OnClose(closer: nat, listenerError: bool)

  /** stop() has no effect once the callback has been released by cancellation. */
  function StoppedCallback(callback: Callback, cancelled: bool): Callback {
    if callback == Armed && !cancelled then Stopped else callback
  }

  function ConnStep(c: Conn, event: ConnEvent, cancelled: bool): Option<Conn> {
    match event
    case DialSucceeds => if c.pc == Dialling then Some(c.(pc := Dialled, guest := Open)) else None
    case DialFails => if c.pc == Dialling then Some(c.(pc := StopClient)) else None
    case ClientCallback =>
      if c.onClient == Armed && cancelled then Some(c.(onClient := Ran, client := Closed)) else None
    case GuestCallback =>
      if c.onGuest == Armed && cancelled then Some(c.(onGuest := Ran, guest := Closed)) else None
    case CopierProceeds =>
      (match c.copier
       case Reading => Some(c.(copier := ReadEnded))
       case ReadEnded => Some(c.(copier := Released, guest := Closed))
       case Released => Some(c.(copier := Done))
       case _ => None)
    case Proceed =>
      match c.pc
      case Spawned => Some(c.(pc := Dialling, onClient := Armed))
      case Dialled => Some(c.(pc := Watched, onGuest := Armed))
      case Watched => Some(c.(pc := Copying, copier := Reading))
      case Copying => Some(c.(pc := CopyEnded))
      case CopyEnded => Some(c.(pc := Joining, client := Closed))
      case Joining => if c.copier == Done then Some(c.(pc := StopGuest)) else None
      case StopGuest => Some(c.(pc := CloseGuest, onGuest := StoppedCallback(c.onGuest, cancelled)))
      case CloseGuest => Some(c.(pc := StopClient, guest := Closed))
      case StopClient => Some(c.(pc := CloseClient, onClient := StoppedCallback(c.onClient, cancelled)))
      case CloseClient => Some(c.(pc := Departing, client := Closed))
      case Departing => Some(c.(pc := Finished))
      case _ => None
  }

  function AcceptStep(s: State): Option<State> {
    match s.accept
    case Failed => Some(s.(accept := Accepting))
    case Holding => Some(s.(accept := Counted, counter := s.counter + 1))
    case Counted => Some(s.(accept := Accepting, conns := s.conns + [NEW_CONN]))
    case Leaving => Some(s.(accept := Gone, counter := s.counter - 1))
    case _ => None
  }

  function CloserStep(s: State, k: nat, listenerError: bool): Option<State>
    requires k < |s.closers|
  {
    match s.closers[k]
    case Arrived =>
      (match s.once
       case Fresh => Some(s.(once := Busy(k), closers := s.closers[k := Cancelling]))
       case Busy(_) => None
       case Complete => Some(s.(closers := s.closers[k := Returned(s.closeFailed)])))
    case Cancelling => Some(s.(cancelled := true, closers := s.closers[k := ClosingListener]))
    case ClosingListener =>
      Some(s.(listenerOpen := false, closeFailed := listenerError, closers := s.closers[k := Draining]))
    case Draining =>
      if s.counter == 0
      then Some(s.(once := Complete, closers := s.closers[k := Returned(s.closeFailed)]))
      else None
    case Returned(_) => None
  }

  /** The state after an action, or None when the action is not possible. */
  function Apply(s: State, a: Action): Option<State> {
    match a
    case AcceptConnection =>
      if s.accept == Accepting && s.listenerOpen then Some(s.(accept := Holding)) else None
    case AcceptError =>
      if s.accept == Accepting && s.listenerOpen then Some(s.(accept := Failed)) else None
    case AcceptSeesClosed =>
      if s.accept == Accepting && !s.listenerOpen then Some(s.(accept := Leaving)) else None
    case AcceptProceeds => AcceptStep(s)
    case OnConn(i, event) =>
      if i >= |s.conns| then None
      else (match ConnStep(s.conns[i], event, s.cancelled)
            case None => None
            case Some(c) =>
              Some(s.(conns := s.conns[i := c],
                      counter := s.counter - (if s.conns[i].pc == Departing && c.pc == Finished then 1 else 0))))
    case CallClose => Some(s.(closers := s.closers + [Arrived]))
    case OnClose(k, listenerError) => if k < |s.closers| then CloserStep(s, k, listenerError) else None
  }

  function Run(s: State, actions: seq<Action>): Option<State>
    decreases |actions|
  {
    if actions == [] then Some(s)
    else match Apply(s, actions[0])
      case None => None
      case Some(next) => Run(next, actions[1..])
  }

  ghost predicate Reachable(s: State) {
    exists actions :: Run(STARTED, actions) == Some(s)
  }

  // ----- invariant -----

  function LiveConns(conns: seq<Conn>): nat {
    if conns == [] then 0
    else LiveConns(conns[..|conns| - 1]) + (if conns[|conns| - 1].pc == Finished then 0 else 1)
  }

  function LiveAccept(accept: AcceptPc): nat {
    match accept
    case Gone => 0
    case Counted => 2
    case _ => 1
  }

  predicate Undialled(pc: ProxyPc) { pc == Spawned || pc == Dialling }

  predicate WithGuest(pc: ProxyPc) {
    pc == Copying || pc == CopyEnded || pc == Joining || pc == StopGuest || pc == CloseGuest
  }

  ghost predicate ConnOk(c: Conn) {
    && c.client != Absent
    && (c.onClient == Off <==> c.pc == Spawned)
    && (c.onClient == Ran ==> c.client == Closed)
    && (c.onGuest == Ran ==> c.guest == Closed)
    && (c.guest == Absent ==> c.onGuest == Off && c.copier == Unborn)
    && (Undialled(c.pc) ==> c.guest == Absent)
    && (c.pc == Dialled ==> c.guest != Absent && c.onGuest == Off && c.copier == Unborn)
    && (c.pc == Watched ==> c.guest != Absent && c.onGuest != Off && c.copier == Unborn)
    && (WithGuest(c.pc) ==> c.guest != Absent && c.onGuest != Off && c.copier != Unborn)
    && (c.onGuest == Stopped ==> !Undialled(c.pc) && c.pc !in {Dialled, Watched, Copying, CopyEnded, Joining, StopGuest})
    && (c.copier == Released || c.copier == Done ==> c.guest == Closed)
    && (c.pc in {Joining, StopGuest, CloseGuest} ==> c.client == Closed)
    && (c.pc in {StopGuest, CloseGuest} ==> c.copier == Done)
    && (c.pc in {StopClient, CloseClient, Departing, Finished} ==>
        (c.guest == Absent || (c.guest == Closed && c.copier == Done)))
    && (c.pc in {Departing, Finished} ==> c.client == Closed)
  }

  ghost predicate CloserOk(s: State, k: nat)
    requires k < |s.closers|
  {
    match s.closers[k]
    case Arrived => s.once != Busy(k)
    case Cancelling => s.once == Busy(k) && s.listenerOpen
    case ClosingListener => s.once == Busy(k) && s.cancelled && s.listenerOpen
    case Draining => s.once == Busy(k) && s.cancelled && !s.listenerOpen
    case Returned(failed) => s.once == Complete && failed == s.closeFailed
  }

  ghost predicate OnceOk(s: State) {
    match s.once
    case Fresh => !s.cancelled && s.listenerOpen
    case Busy(k) => k < |s.closers|
    case Complete => s.cancelled && !s.listenerOpen && s.counter == 0
  }

  ghost predicate Inv(s: State) {
    && s.counter == LiveAccept(s.accept) + LiveConns(s.conns)
    && (s.accept == Leaving || s.accept == Gone ==> !s.listenerOpen)
    && (!s.listenerOpen ==> s.cancelled)
    && OnceOk(s)
    && (forall i | 0 <= i < |s.conns| :: ConnOk(s.conns[i]))
    && (forall k | 0 <= k < |s.closers| :: CloserOk(s, k))
  }

  lemma {:induction false} LiveConnsUpdate(conns: seq<Conn>, i: nat, c: Conn)
    requires i < |conns|
    ensures LiveConns(conns[i := c])
         == LiveConns(conns) + (if c.pc == Finished then 0 else 1) - (if conns[i].pc == Finished then 0 else 1)
  {
    var last := |conns| - 1;
    if i == last {
      assert conns[i := c][..last] == conns[..last];
    } else {
      LiveConnsUpdate(conns[..last], i, c);
      assert conns[i := c][..last] == conns[..last][i := c];
    }
  }

  lemma ConnStepKeepsOk(c: Conn, event: ConnEvent, cancelled: bool)
    requires ConnOk(c) && ConnStep(c, event, cancelled).Some?
    ensures ConnStep(c, event, cancelled).value.pc == Finished ==> c.pc == Departing || c.pc == Finished
    ensures ConnOk(ConnStep(c, event, cancelled).value)
    ensures c.pc == Finished ==> ConnStep(c, event, cancelled).value.pc == Finished
  {
  }

  lemma InvHoldsInitially()
    ensures Inv(STARTED)
  {
  }

  lemma InvConnStep(s: State, i: nat, event: ConnEvent)
    requires Inv(s) && Apply(s, OnConn(i, event)).Some?
    ensures Inv(Apply(s, OnConn(i, event)).value)
  {
    hide ConnStep, ConnOk;
    var t := Apply(s, OnConn(i, event)).value;
    ConnStepKeepsOk(s.conns[i], event, s.cancelled);
    LiveConnsUpdate(s.conns, i, t.conns[i]);
    if s.counter == 0 { CounterZeroMeansAllFinished(s); }
    forall k | 0 <= k < |t.closers| ensures CloserOk(t, k) {
      assert CloserOk(s, k);
    }
  }

  lemma NewConnOk()
    ensures ConnOk(NEW_CONN)
  {
  }

  lemma LiveConnsAppend(conns: seq<Conn>)
    ensures LiveConns(conns + [NEW_CONN]) == LiveConns(conns) + 1
  {
    assert (conns + [NEW_CONN])[..|conns|] == conns;
  }

  lemma InvAcceptStep(s: State)
    requires Inv(s) && Apply(s, AcceptProceeds).Some?
    ensures Inv(Apply(s, AcceptProceeds).value)
  {
    hide ConnOk, LiveConns;
    var t := Apply(s, AcceptProceeds).value;
    NewConnOk();
    LiveConnsAppend(s.conns);
    if s.counter == 0 { CounterZeroMeansAllFinished(s); }
    forall k | 0 <= k < |t.closers| ensures CloserOk(t, k) {
      assert CloserOk(s, k);
    }
  }

  lemma InvCloserStep(s: State, k: nat, listenerError: bool)
    requires Inv(s) && Apply(s, OnClose(k, listenerError)).Some?
    ensures Inv(Apply(s, OnClose(k, listenerError)).value)
  {
    hide ConnOk, LiveConns, LiveAccept;
    var t := Apply(s, OnClose(k, listenerError)).value;
    assert CloserOk(s, k);
    forall j | 0 <= j < |t.closers| ensures CloserOk(t, j) {
      assert CloserOk(s, j);
    }
  }

  lemma InvStep(s: State, a: Action)
    requires Inv(s) && Apply(s, a).Some?
    ensures Inv(Apply(s, a).value)
  {
    hide ConnOk, LiveConns;
    var t := Apply(s, a).value;
    match a
    case OnConn(i, event) => InvConnStep(s, i, event);
    case AcceptProceeds => InvAcceptStep(s);
    case OnClose(k, listenerError) => InvCloserStep(s, k, listenerError);
    case _ =>
      forall k | 0 <= k < |t.closers| ensures CloserOk(t, k) {
        assert k < |s.closers| ==> CloserOk(s, k);
      }
  }

  lemma {:induction false} RunKeepsInv(s: State, actions: seq<Action>)
    requires Inv(s) && Run(s, actions).Some?
    ensures Inv(Run(s, actions).value)
    decreases |actions|
  {
    if actions == [] {
    } else {
      InvStep(s, actions[0]);
      RunKeepsInv(Apply(s, actions[0]).value, actions[1..]);
    }
  }

  lemma ReachableInv(s: State)
    requires Reachable(s)
    ensures Inv(s)
  {
    var actions :| Run(STARTED, actions) == Some(s);
    InvHoldsInitially();
    RunKeepsInv(STARTED, actions);
  }

  lemma {:induction false} LiveConnsBounds(conns: seq<Conn>, i: nat)
    requires i < |conns| && conns[i].pc != Finished
    ensures LiveConns(conns) > 0
  {
    var last := |conns| - 1;
    if i == last {
    } else {
      LiveConnsBounds(conns[..last], i);
    }
  }

  lemma CounterZeroMeansAllFinished(s: State)
    requires Inv(s) && s.counter == 0
    ensures s.accept == Gone && forall i | 0 <= i < |s.conns| :: s.conns[i].pc == Finished
  {
    forall i | 0 <= i < |s.conns| ensures s.conns[i].pc == Finished {
      if s.conns[i].pc != Finished { LiveConnsBounds(s.conns, i); }
    }
  }

  // ----- safety: what a returned Close call guarantees -----

  ghost predicate Drained(s: State) {
    && !s.listenerOpen
    && s.counter == 0
    && s.accept == Gone
    && forall i | 0 <= i < |s.conns| ::
      && s.conns[i].pc == Finished
      && s.conns[i].client == Closed
      && s.conns[i].guest != Open
      && (s.conns[i].copier == Unborn || s.conns[i].copier == Done)
  }

  lemma FinishedConnIsClosed(c: Conn)
    requires ConnOk(c) && c.pc == Finished
    ensures c.client == Closed && c.guest != Open && (c.copier == Unborn || c.copier == Done)
  {
  }

  lemma ZeroCounterDrains(s: State)
    requires Inv(s) && s.counter == 0 && !s.listenerOpen
    ensures Drained(s)
  {
    hide ConnOk;
    CounterZeroMeansAllFinished(s);
    forall i | 0 <= i < |s.conns|
      ensures s.conns[i].client == Closed && s.conns[i].guest != Open
      ensures s.conns[i].copier == Unborn || s.conns[i].copier == Done
    {
      FinishedConnIsClosed(s.conns[i]);
    }
  }

  /**
   * When any Close call has returned, a concurrent second one included, every socket is closed and the
   * accept loop, all proxies and all copiers have ended.
   */
  lemma CloseDrains(s: State, k: nat)
    requires Reachable(s) && k < |s.closers| && s.closers[k].Returned?
    ensures Drained(s) && s.closers[k] == Returned(s.closeFailed)
  {
    ReachableInv(s);
    assert CloserOk(s, k);
    ZeroCounterDrains(s);
  }

  /** The step in which a Close call closes the listener and that reports an error. */
  predicate ListenerFailsNow(s: State, a: Action) {
    a.OnClose? && a.closer < |s.closers| && s.closers[a.closer] == ClosingListener && a.listenerError
  }

  predicate ListenerFails(s: State, actions: seq<Action>)
    requires Run(s, actions).Some?
    decreases |actions|
  {
    actions != [] && (ListenerFailsNow(s, actions[0]) || ListenerFails(Apply(s, actions[0]).value, actions[1..]))
  }

  /** Before the listener is closed there is no error to report. */
  ghost predicate NoErrorYet(s: State) { s.listenerOpen ==> !s.closeFailed }

  lemma ErrorStep(s: State, a: Action)
    requires Inv(s) && NoErrorYet(s) && Apply(s, a).Some?
    ensures
      var t := Apply(s, a).value;
      NoErrorYet(t) && (t.closeFailed <==> s.closeFailed || ListenerFailsNow(s, a))
  {
    hide ConnOk, ConnStep, LiveConns, LiveAccept;
    if a.OnClose? { assert CloserOk(s, a.closer); }
  }

  lemma {:induction false} ErrorRun(s: State, actions: seq<Action>)
    requires Inv(s) && NoErrorYet(s) && Run(s, actions).Some?
    ensures Run(s, actions).value.closeFailed <==> s.closeFailed || ListenerFails(s, actions)
    decreases |actions|
  {
    hide Inv, Apply, NoErrorYet, ListenerFailsNow;
    if actions == [] {
    } else {
      ErrorStep(s, actions[0]);
      InvStep(s, actions[0]);
      ErrorRun(Apply(s, actions[0]).value, actions[1..]);
    }
  }

  /** Every Close call that has returned reports an error exactly when closing the listener did. */
  lemma CloseReportsTheListener(actions: seq<Action>, s: State, k: nat)
    requires Run(STARTED, actions) == Some(s) && k < |s.closers| && s.closers[k].Returned?
    ensures s.closers[k].failed <==> ListenerFails(STARTED, actions)
  {
    CloseDrains(s, k);
    InvHoldsInitially();
    ErrorRun(STARTED, actions);
  }

  /** Close calls, and a released AfterFunc callback that closes a socket which is closed already. */
  ghost predicate Leftover(s: State, a: Action) {
    match a
    case CallClose => true
    case OnClose(_, _) => true
    case OnConn(i, event) =>
      && i < |s.conns|
      && ((event == ClientCallback && s.conns[i].onClient == Armed && s.conns[i].client == Closed)
          || (event == GuestCallback && s.conns[i].onGuest == Armed && s.conns[i].guest == Closed))
    case _ => false
  }

  /** The two differ at most in which callbacks have run. */
  ghost predicate SameButCallbacks(c: Conn, d: Conn) {
    d.client == c.client && d.guest == c.guest && d.pc == c.pc && d.copier == c.copier
  }

  ghost predicate SameSockets(s: State, t: State) {
    && |t.conns| == |s.conns|
    && forall i | 0 <= i < |s.conns| :: SameButCallbacks(s.conns[i], t.conns[i])
  }

  /** Only such leftovers can still happen after that, and they change no socket, proxy or copier. */
  lemma OnlyCallbacksRemain(s: State, a: Action)
    requires Reachable(s) && Drained(s) && Apply(s, a).Some?
    ensures Leftover(s, a)
    ensures Drained(Apply(s, a).value) && SameSockets(s, Apply(s, a).value)
  {
    ReachableInv(s);
    DrainedStep(s, a);
  }

  /**
   * From then on no accept loop, proxy or copier can start or move and no socket reopens. Only
   * AfterFunc callbacks on closed sockets may still run.
   */
  lemma DrainedForever(s: State, actions: seq<Action>)
    requires Reachable(s) && Drained(s) && Run(s, actions).Some?
    ensures Drained(Run(s, actions).value) && SameSockets(s, Run(s, actions).value)
  {
    ReachableInv(s);
    DrainedRun(s, actions);
  }

  lemma {:induction false} DrainedRun(s: State, actions: seq<Action>)
    requires Inv(s) && Drained(s) && Run(s, actions).Some?
    ensures Drained(Run(s, actions).value) && SameSockets(s, Run(s, actions).value)
    decreases |actions|
  {
    hide ConnOk, ConnStep, Inv, Apply, Drained;
    if actions == [] {
    } else {
      DrainedStep(s, actions[0]);
      InvStep(s, actions[0]);
      DrainedRun(Apply(s, actions[0]).value, actions[1..]);
    }
  }

  lemma DrainedStep(s: State, a: Action)
    requires Inv(s) && Drained(s) && Apply(s, a).Some?
    ensures Leftover(s, a)
    ensures Drained(Apply(s, a).value) && SameSockets(s, Apply(s, a).value)
  {
    hide ConnOk, ConnStep, Inv, LiveConns, CloserStep;
    InvStep(s, a);
    var t := Apply(s, a).value;
    match a
    case OnConn(i, event) =>
      FinishedConnStep(s.conns[i], event, s.cancelled) by { assert ConnOk(s.conns[i]) by { InvConn(s, i); } }
      ZeroCounterDrains(t);
    case OnClose(k, listenerError) =>
      CloserKeepsConns(s, k, listenerError);
      ZeroCounterDrains(t);
    case _ => ZeroCounterDrains(t);
  }

  lemma InvConn(s: State, i: nat)
    requires Inv(s) && i < |s.conns|
    ensures ConnOk(s.conns[i])
  {
  }

  lemma FinishedConnStep(c: Conn, event: ConnEvent, cancelled: bool)
    requires ConnOk(c) && c.pc == Finished && ConnStep(c, event, cancelled).Some?
    ensures SameButCallbacks(c, ConnStep(c, event, cancelled).value)
    ensures (event == ClientCallback && c.onClient == Armed && c.client == Closed)
         || (event == GuestCallback && c.onGuest == Armed && c.guest == Closed)
  {
  }

  lemma CloserKeepsConns(s: State, k: nat, listenerError: bool)
    requires Inv(s) && !s.listenerOpen && s.counter == 0 && k < |s.closers| && CloserStep(s, k, listenerError).Some?
    ensures
      var t := CloserStep(s, k, listenerError).value;
      t.conns == s.conns && t.counter == 0 && !t.listenerOpen
  {
    hide ConnOk, LiveConns;
  }

  /** wg.Add only happens while the counter is positive, and the counter counts exactly the live goroutines. */
  lemma CounterIsLiveGoroutines(s: State)
    requires Reachable(s)
    ensures s.counter == LiveAccept(s.accept) + LiveConns(s.conns)
    ensures s.accept == Holding ==> s.counter > 0
  {
    ReachableInv(s);
  }

  // ----- forwarding: what happens without Close -----

  /** The client stays connected until the guest has closed, and the guest until the client's side has been copied. */
  ghost predicate ConnLive(c: Conn) {
    && (c.pc in {Spawned, Dialling, Dialled, Watched, Copying, CopyEnded} ==> c.client == Open)
    && (c.pc in {Dialled, Watched} ==> c.guest == Open)
    && (c.pc in {Copying, CopyEnded, Joining} && c.copier in {Reading, ReadEnded} ==> c.guest == Open)
  }

  ghost predicate AllLive(s: State) {
    !s.cancelled ==> forall i | 0 <= i < |s.conns| :: ConnLive(s.conns[i])
  }

  lemma ConnStepKeepsLive(c: Conn, event: ConnEvent)
    requires ConnOk(c) && ConnLive(c) && ConnStep(c, event, false).Some?
    ensures ConnLive(ConnStep(c, event, false).value)
  {
  }

  lemma LiveStep(s: State, a: Action)
    requires Inv(s) && AllLive(s) && Apply(s, a).Some?
    ensures AllLive(Apply(s, a).value)
  {
    hide ConnOk, ConnStep, LiveConns, LiveAccept, ConnLive;
    match a
    case OnConn(i, event) =>
      if !s.cancelled { ConnStepKeepsLive(s.conns[i], event); }
    case AcceptProceeds => NewConnLive();
    case _ =>
  }

  lemma NewConnLive()
    ensures ConnLive(NEW_CONN)
  {
  }

  lemma {:induction false} LiveRun(s: State, actions: seq<Action>)
    requires Inv(s) && AllLive(s) && Run(s, actions).Some?
    ensures AllLive(Run(s, actions).value)
    decreases |actions|
  {
    hide Inv, Apply, AllLive;
    if actions == [] {
    } else {
      LiveStep(s, actions[0]);
      InvStep(s, actions[0]);
      LiveRun(Apply(s, actions[0]).value, actions[1..]);
    }
  }

  /** Without Close, a forwarder never closes a connection whose two sides are still being copied. */
  lemma ConnectionsStayOpen(s: State, i: nat)
    requires Reachable(s) && !s.cancelled && i < |s.conns|
    requires s.conns[i].pc == Copying && s.conns[i].copier == Reading
    ensures s.conns[i].client == Open && s.conns[i].guest == Open
  {
    hide ConnOk;
    var actions :| Run(STARTED, actions) == Some(s);
    InvHoldsInitially();
    LiveRun(STARTED, actions);
    assert ConnLive(s.conns[i]);
  }

  /**
   * What the outside can do, at any time: the dial may come out either way, either copy may end, Close
   * may be called, closing the listener may come out either way, and cancellation interrupts both sides.
   */
  lemma OutsideEvents(s: State, i: nat, k: nat)
    requires Reachable(s)
    ensures Apply(s, CallClose) == Some(s.(closers := s.closers + [Arrived]))
    ensures k < |s.closers| && s.closers[k] == ClosingListener ==> Apply(s, OnClose(k, true)).Some? && Apply(s, OnClose(k, false)).Some?
    ensures i < |s.conns| && s.conns[i].pc == Dialling ==> Apply(s, OnConn(i, DialSucceeds)).Some? && Apply(s, OnConn(i, DialFails)).Some?
    ensures i < |s.conns| && s.conns[i].pc == Copying ==> Apply(s, OnConn(i, Proceed)).Some?
    ensures i < |s.conns| && s.conns[i].copier == Reading ==> Apply(s, OnConn(i, CopierProceeds)).Some?
    ensures s.cancelled && i < |s.conns| && s.conns[i].onClient == Armed ==>
      var t := Apply(s, OnConn(i, ClientCallback));
      t.Some? && t.value.conns[i].client == Closed
    ensures s.cancelled && i < |s.conns| && s.conns[i].onGuest == Armed ==>
      var t := Apply(s, OnConn(i, GuestCallback));
      t.Some? && t.value.conns[i].guest == Closed
  {
  }

  /** Accept may fail while the listener is open, and the accept loop then carries on as before. */
  lemma AcceptErrorsPass(s: State)
    requires s.accept == Accepting && s.listenerOpen
    ensures Run(s, [AcceptError, AcceptProceeds]) == Some(s)
  {
    var failed := s.(accept := Failed);
    assert Apply(s, AcceptError) == Some(failed) && Apply(failed, AcceptProceeds) == Some(s);
    hide Apply;
    RunCons(s, AcceptError, [AcceptProceeds] + []);
    RunCons(failed, AcceptProceeds, []);
    assert [AcceptError] + ([AcceptProceeds] + []) == [AcceptError, AcceptProceeds];
  }

  /** stop() prevents a callback exactly as long as the context has not been cancelled. */
  lemma StopIsInTime(s: State, i: nat)
    requires Reachable(s) && i < |s.conns|
    ensures s.conns[i].pc == StopClient && s.conns[i].onClient == Armed ==>
      var t := Apply(s, OnConn(i, Proceed));
      t.Some? && t.value.conns[i].onClient == if s.cancelled then Armed else Stopped
    ensures s.conns[i].pc == StopGuest && s.conns[i].onGuest == Armed ==>
      var t := Apply(s, OnConn(i, Proceed));
      t.Some? && t.value.conns[i].onGuest == if s.cancelled then Armed else Stopped
  {
  }

  /** A connection that is being copied in both directions, with Close ready to interrupt it. */
  const FORWARDING := Conn(Open, Open, Copying, Reading, Armed, Armed)

  function ServeClient(i: nat): seq<Action> {
    [AcceptConnection, AcceptProceeds, AcceptProceeds, OnConn(i, Proceed), OnConn(i, DialSucceeds), OnConn(i, Proceed), OnConn(i, Proceed)]
  }

  lemma RunCons(s: State, a: Action, rest: seq<Action>)
    requires Apply(s, a).Some?
    ensures Run(s, [a] + rest) == Run(Apply(s, a).value, rest)
  {
    assert ([a] + rest)[1..] == rest;
  }

  /** As long as the listener is open, every client can be accepted and forwarded, next to all others. */
  lemma ClientsAreServed(s: State)
    requires s.accept == Accepting && s.listenerOpen
    ensures
      var t := Run(s, ServeClient(|s.conns|));
      t == Some(s.(conns := s.conns + [FORWARDING], counter := s.counter + 1))
  {
    var i := |s.conns|;
    var s1 := s.(accept := Counted, counter := s.counter + 1);
    Accepts(s);
    hide ConnStep;
    ConnIsServed(s.(conns := s.conns + [NEW_CONN], counter := s.counter + 1), i);
    var rest := [OnConn(i, Proceed), OnConn(i, DialSucceeds), OnConn(i, Proceed), OnConn(i, Proceed)];
    assert ServeClient(i) == [AcceptConnection] + ([AcceptProceeds] + ([AcceptProceeds] + rest));
    RunCons(s, AcceptConnection, [AcceptProceeds] + ([AcceptProceeds] + rest));
    RunCons(s.(accept := Holding), AcceptProceeds, [AcceptProceeds] + rest);
    RunCons(s1, AcceptProceeds, rest);
    assert (s.conns + [NEW_CONN])[i := FORWARDING] == s.conns + [FORWARDING];
  }

  lemma Accepts(s: State)
    requires s.accept == Accepting && s.listenerOpen
    ensures Apply(s, AcceptConnection) == Some(s.(accept := Holding))
    ensures Apply(s.(accept := Holding), AcceptProceeds) == Some(s.(accept := Counted, counter := s.counter + 1))
    ensures Apply(s.(accept := Counted, counter := s.counter + 1), AcceptProceeds)
         == Some(s.(conns := s.conns + [NEW_CONN], counter := s.counter + 1))
  {
  }

  lemma ConnIsServed(s: State, i: nat)
    requires i < |s.conns| && s.conns[i] == NEW_CONN
    ensures Run(s, [OnConn(i, Proceed), OnConn(i, DialSucceeds), OnConn(i, Proceed), OnConn(i, Proceed)])
         == Some(s.(conns := s.conns[i := FORWARDING]))
  {
    var c1 := NEW_CONN.(pc := Dialling, onClient := Armed);
    var c2 := c1.(pc := Dialled, guest := Open);
    var c3 := c2.(pc := Watched, onGuest := Armed);
    ConnAction(s, i, Proceed, c1);
    ConnAction(s.(conns := s.conns[i := c1]), i, DialSucceeds, c2);
    ConnAction(s.(conns := s.conns[i := c2]), i, Proceed, c3);
    ConnAction(s.(conns := s.conns[i := c3]), i, Proceed, FORWARDING);
    assert s.conns[i := c1][i := c2] == s.conns[i := c2] && s.conns[i := c2][i := c3] == s.conns[i := c3];
    assert s.conns[i := c3][i := FORWARDING] == s.conns[i := FORWARDING];
    hide Apply, ConnStep;
    FourSteps(s, OnConn(i, Proceed), OnConn(i, DialSucceeds), OnConn(i, Proceed), OnConn(i, Proceed));
  }

  lemma ConnAction(s: State, i: nat, event: ConnEvent, c: Conn)
    requires i < |s.conns| && ConnStep(s.conns[i], event, s.cancelled) == Some(c) && c.pc != Finished
    ensures Apply(s, OnConn(i, event)) == Some(s.(conns := s.conns[i := c]))
  {
  }

  lemma FourSteps(s: State, a: Action, b: Action, c: Action, d: Action)
    requires Apply(s, a).Some? && Apply(Apply(s, a).value, b).Some?
    requires Apply(Apply(Apply(s, a).value, b).value, c).Some?
    requires Apply(Apply(Apply(Apply(s, a).value, b).value, c).value, d).Some?
    ensures Run(s, [a, b, c, d]) == Apply(Apply(Apply(Apply(s, a).value, b).value, c).value, d)
  {
    hide Apply;
    var s1 := Apply(s, a).value;
    var s2 := Apply(s1, b).value;
    var s3 := Apply(s2, c).value;
    assert [a, b, c, d] == [a] + ([b] + ([c] + ([d] + [])));
    RunCons(s, a, [b] + ([c] + ([d] + [])));
    RunCons(s1, b, [c] + ([d] + []));
    RunCons(s2, c, [d] + []);
    RunCons(s3, d, []);
  }

  // ----- liveness: Close always gets there -----

  /**
   * The actions that need no outside help: a dial returns because its context is cancelled, a copy
   * because the connection it reads from is closed, Accept because the listener is closed.
   */
  ghost predicate Prompt(s: State, a: Action) {
    && Apply(s, a).Some?
    && match a
       case AcceptConnection => false
       case AcceptError => false
       case CallClose => false
       case OnConn(i, DialSucceeds) => false
       case OnConn(i, DialFails) => s.cancelled
       case OnConn(i, Proceed) => s.conns[i].pc == Copying ==> s.conns[i].guest == Closed
       case OnConn(i, CopierProceeds) => s.conns[i].copier == Reading ==> s.conns[i].client == Closed
       case _ => true
  }

  lemma ConnIsNeverStuck(s: State, i: nat) returns (event: ConnEvent)
    requires Inv(s) && s.cancelled && i < |s.conns| && s.conns[i].pc != Finished
    ensures Prompt(s, OnConn(i, event))
  {
    var c := s.conns[i];
    assert ConnOk(c);
    event := match c.pc
      case Dialling => DialFails
      case Copying => if c.guest == Closed then Proceed else GuestCallback
      case Joining => if c.copier == Done then Proceed else CopierProceeds
      case _ => Proceed;
  }

  lemma {:induction false} SomeLiveConn(conns: seq<Conn>) returns (i: nat)
    requires LiveConns(conns) > 0
    ensures i < |conns| && conns[i].pc != Finished
  {
    var last := |conns| - 1;
    if conns[last].pc != Finished {
      i := last;
    } else {
      i := SomeLiveConn(conns[..last]);
    }
  }

  /**
   * Deadlock freedom: after Close was entered, as long as some Close call has not returned, some
   * goroutine can move without outside help.
   */
  lemma CloseIsNeverStuck(s: State, k: nat)
    requires Reachable(s) && s.once != Fresh && k < |s.closers| && !s.closers[k].Returned?
    ensures exists a :: Prompt(s, a)
  {
    ReachableInv(s);
    assert CloserOk(s, k);
    match s.once
    case Complete =>
      assert Prompt(s, OnClose(k, false));
    case Busy(runner) =>
      assert CloserOk(s, runner);
      if s.closers[runner] != Draining || s.counter == 0 {
        assert Prompt(s, OnClose(runner, false));
      } else if s.accept == Accepting {
        assert Prompt(s, AcceptSeesClosed);
      } else if s.accept != Gone {
        assert Prompt(s, AcceptProceeds);
      } else {
        var i := SomeLiveConn(s.conns);
        var event := ConnIsNeverStuck(s, i);
      }
  }

  function ProxyRank(pc: ProxyPc): nat {
    match pc
    case Spawned => 12 case Dialling => 11 case Dialled => 10 case Watched => 9 case Copying => 8
    case CopyEnded => 7 case Joining => 6 case StopGuest => 5 case CloseGuest => 4 case StopClient => 3
    case CloseClient => 2 case Departing => 1 case Finished => 0
  }

  function CopierRank(pc: CopierPc): nat {
    match pc
    case Unborn => 4 case Reading => 3 case ReadEnded => 2 case Released => 1 case Done => 0
  }

  function CallbackRank(callback: Callback): nat {
    match callback
    case Off => 2 case Armed => 1 case Ran => 0 case Stopped => 0
  }

  function ConnRank(c: Conn): nat {
    ProxyRank(c.pc) + CopierRank(c.copier) + CallbackRank(c.onClient) + CallbackRank(c.onGuest)
  }

  function AcceptRank(accept: AcceptPc): nat {
    match accept
    case Holding => 24 case Counted => 23 case Failed => 3 case Accepting => 2 case Leaving => 1 case Gone => 0
  }

  function CloserRank(pc: CloserPc): nat {
    match pc
    case Arrived => 4 case Cancelling => 3 case ClosingListener => 2 case Draining => 1 case Returned(_) => 0
  }

  function ConnsRank(conns: seq<Conn>): nat {
    if conns == [] then 0 else ConnsRank(conns[..|conns| - 1]) + ConnRank(conns[|conns| - 1])
  }

  function ClosersRank(closers: seq<CloserPc>): nat {
    if closers == [] then 0 else ClosersRank(closers[..|closers| - 1]) + CloserRank(closers[|closers| - 1])
  }

  function Rank(s: State): nat {
    AcceptRank(s.accept) + ConnsRank(s.conns) + ClosersRank(s.closers)
  }

  lemma {:induction false} ConnsRankUpdate(conns: seq<Conn>, i: nat, c: Conn)
    requires i < |conns|
    ensures ConnsRank(conns[i := c]) == ConnsRank(conns) + ConnRank(c) - ConnRank(conns[i])
  {
    var last := |conns| - 1;
    if i == last {
      assert conns[i := c][..last] == conns[..last];
    } else {
      ConnsRankUpdate(conns[..last], i, c);
      assert conns[i := c][..last] == conns[..last][i := c];
    }
  }

  lemma {:induction false} ClosersRankUpdate(closers: seq<CloserPc>, k: nat, pc: CloserPc)
    requires k < |closers|
    ensures ClosersRank(closers[k := pc]) == ClosersRank(closers) + CloserRank(pc) - CloserRank(closers[k])
  {
    var last := |closers| - 1;
    if k == last {
      assert closers[k := pc][..last] == closers[..last];
    } else {
      ClosersRankUpdate(closers[..last], k, pc);
      assert closers[k := pc][..last] == closers[..last][k := pc];
    }
  }

  lemma ConnStepDecreases(c: Conn, event: ConnEvent, cancelled: bool)
    requires ConnOk(c) && ConnStep(c, event, cancelled).Some?
    ensures ConnRank(ConnStep(c, event, cancelled).value) < ConnRank(c)
  {
  }

  /** One side of the connection is over: a copy has ended, or the dial has failed. */
  ghost predicate Ending(c: Conn) {
    || c.copier in {ReadEnded, Released, Done}
    || c.pc in {CopyEnded, Joining, StopGuest, CloseGuest, StopClient, CloseClient, Departing, Finished}
  }

  lemma EndingMovesOn(s: State, i: nat) returns (event: ConnEvent)
    requires Inv(s) && i < |s.conns| && Ending(s.conns[i]) && s.conns[i].pc != Finished
    ensures Prompt(s, OnConn(i, event))
    ensures
      var c := ConnStep(s.conns[i], event, s.cancelled);
      c.Some? && Ending(c.value) && Apply(s, OnConn(i, event)).value.conns == s.conns[i := c.value]
  {
    hide LiveConns, LiveAccept;
    var c := s.conns[i];
    assert ConnOk(c);
    event := match c.pc
      case Copying => if c.guest == Closed then Proceed else CopierProceeds
      case Joining => if c.copier == Done then Proceed else CopierProceeds
      case _ => Proceed;
  }

  /** Once one side is over the whole connection ends by itself, Close or no Close, with both sockets closed. */
  lemma {:induction false} EndedConnectionFinishes(s: State, i: nat) returns (actions: seq<Action>)
    requires Inv(s) && i < |s.conns| && Ending(s.conns[i])
    ensures |actions| <= ConnRank(s.conns[i]) && Run(s, actions).Some?
    ensures
      var t := Run(s, actions).value;
      i < |t.conns| && t.conns[i].pc == Finished && t.conns[i].client == Closed && t.conns[i].guest != Open
    decreases ConnRank(s.conns[i])
  {
    if s.conns[i].pc == Finished {
      actions := [];
      FinishedConnIsClosed(s.conns[i]);
    } else {
      var event := EndingMovesOn(s, i);
      ConnStepDecreases(s.conns[i], event, s.cancelled);
      InvStep(s, OnConn(i, event));
      hide ConnOk, ConnStep, ConnRank, Ending, Inv, Apply;
      var rest := EndedConnectionFinishes(Apply(s, OnConn(i, event)).value, i);
      actions := [OnConn(i, event)] + rest;
      assert actions[1..] == rest;
    }
  }

  lemma NewConnRank()
    ensures ConnRank(NEW_CONN) == 20
  {
  }

  lemma AcceptStepDecreases(s: State)
    requires Inv(s) && !s.listenerOpen && AcceptStep(s).Some?
    ensures Rank(AcceptStep(s).value) < Rank(s)
  {
    hide ConnRank, Inv;
    if s.accept == Counted {
      NewConnRank();
      assert (s.conns + [NEW_CONN])[..|s.conns|] == s.conns;
    }
  }

  lemma CloserStepDecreases(s: State, k: nat, listenerError: bool)
    requires Inv(s) && !s.listenerOpen && k < |s.closers| && CloserStep(s, k, listenerError).Some?
    ensures
      var t := CloserStep(s, k, listenerError).value;
      Rank(t) < Rank(s) && !t.listenerOpen
  {
    hide ConnOk;
    assert CloserOk(s, k);
    ClosersRankUpdate(s.closers, k, CloserStep(s, k, listenerError).value.closers[k]);
  }

  /** Once the context is cancelled and the listener closed, every step but a new Close call makes progress. */
  lemma ClosingStepDecreases(s: State, a: Action)
    requires Inv(s) && !s.listenerOpen && a != CallClose && Apply(s, a).Some?
    ensures Rank(Apply(s, a).value) < Rank(s) && !Apply(s, a).value.listenerOpen
  {
    hide ConnStep, ConnOk, ConnRank, CloserStep;
    match a
    case OnConn(i, event) =>
      ConnStepDecreases(s.conns[i], event, s.cancelled);
      ConnsRankUpdate(s.conns, i, Apply(s, a).value.conns[i]);
    case OnClose(k, listenerError) => CloserStepDecreases(s, k, listenerError);
    case AcceptProceeds => AcceptStepDecreases(s);
    case _ =>
  }

  /** Termination: no schedule can take more steps than the rank of the state in which the listener was closed. */
  lemma {:induction false} ClosingRunIsBounded(s: State, actions: seq<Action>)
    requires Inv(s) && !s.listenerOpen && CallClose !in actions && Run(s, actions).Some?
    ensures |actions| + Rank(Run(s, actions).value) <= Rank(s)
    decreases |actions|
  {
    if actions == [] {
    } else {
      ClosingStepDecreases(s, actions[0]);
      InvStep(s, actions[0]);
      ClosingRunIsBounded(Apply(s, actions[0]).value, actions[1..]);
    }
  }

  lemma {:induction false} ExtendRun(s: State, actions: seq<Action>, a: Action)
    requires Run(s, actions).Some?
    ensures Run(s, actions + [a]) == Apply(Run(s, actions).value, a)
    decreases |actions|
  {
    if actions == [] {
      var after := Apply(s, a);
      assert [a][1..] == [];
    } else {
      ExtendRun(Apply(s, actions[0]).value, actions[1..], a);
      assert (actions + [a])[1..] == actions[1..] + [a];
    }
  }

  /**
   * Every Close call returns: whatever was going on when the listener was closed, some continuation
   * of goroutine steps alone, no longer than the rank, ends with every Close call returned, and by
   * the bound above no schedule can go on for longer without getting there.
   */
  lemma CloseTerminates(s: State) returns (actions: seq<Action>)
    requires Reachable(s) && !s.listenerOpen
    ensures CallClose !in actions && |actions| <= Rank(s) && Run(s, actions).Some?
    ensures
      var t := Run(s, actions).value;
      Drained(t) && forall k | 0 <= k < |t.closers| :: t.closers[k] == Returned(t.closeFailed)
    decreases Rank(s)
  {
    ReachableInv(s);
    if k :| 0 <= k < |s.closers| && !s.closers[k].Returned? {
      CloseIsNeverStuck(s, k);
      var a :| Prompt(s, a);
      var t := Apply(s, a).value;
      ClosingStepDecreases(s, a);
      var history :| Run(STARTED, history) == Some(s);
      ExtendRun(STARTED, history, a);
      assert Run(STARTED, history + [a]) == Some(t);
      var rest := CloseTerminates(t);
      actions := [a] + rest;
      assert actions[1..] == rest;
    } else {
      actions := [];
      AllReturnedMeansDrained(s);
    }
  }

  lemma AllReturnedMeansDrained(s: State)
    requires Inv(s) && !s.listenerOpen
    requires forall k | 0 <= k < |s.closers| :: s.closers[k].Returned?
    ensures Drained(s) && forall k | 0 <= k < |s.closers| :: s.closers[k] == Returned(s.closeFailed)
  {
    hide ConnOk;
    RunnerHasNotReturned(s);
    forall k | 0 <= k < |s.closers| ensures s.closers[k] == Returned(s.closeFailed) {
      assert CloserOk(s, k);
    }
    ZeroCounterDrains(s);
  }

  lemma RunnerHasNotReturned(s: State)
    requires Inv(s)
    ensures s.once.Busy? ==> !s.closers[s.once.runner].Returned?
  {
    if s.once.Busy? {
      assert CloserOk(s, s.once.runner);
    }
  }
}
