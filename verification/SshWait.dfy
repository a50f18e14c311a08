// waitForSSHService (launcher/mac/main.go): the SSH readiness gate. Time is counted in nanoseconds and
// passes only inside the blocking calls, each of which honours the timeout it was given.

module SshWait {
  import opened Text

  const SECOND := 1_000_000_000

  datatype Read = ReadFails(elapsed: nat) | Receives(elapsed: nat, data: string)

  /** What the network does with one dial attempt if it is given all the time it wants. */
  datatype Attempt = Refuses(elapsed: nat) | Connects(elapsed: nat, deadlineFails: bool, read: Read)

  datatype Outcome = Ready | TimedOut(lastErr: Option<string>) | CannotSetDeadline

  function Shorter(a: int, b: int): int { if a < b then a else b }

  /** What the launcher looks at: the first 256 bytes that the read returned. */
  predicate IsBanner(data: string) {
    "SSH-" <= data[..if |data| < 256 then |data| else 256]
  }

  /** The attempt, started with this much time left, ends with the first read returning an SSH banner. */
  predicate GreetsWithin(attempt: Attempt, remaining: int) {
    && attempt.Connects? && !attempt.deadlineFails
    && attempt.elapsed <= Shorter(3_000_000_000, remaining)
    && attempt.elapsed < remaining
    && attempt.read.Receives? && attempt.read.elapsed <= Shorter(3_000_000_000, remaining - attempt.elapsed)
    && "SSH-" <= attempt.read.data
  }

  /** The attempt, started with this much time left, connects in time but no read deadline can be set on it. */
  predicate Unbounded(attempt: Attempt, remaining: int) {
    && attempt.Connects? && attempt.deadlineFails
    && attempt.elapsed <= Shorter(3_000_000_000, remaining)
    && attempt.elapsed < remaining
  }

  /** The error that an attempt leaves behind. One that is out of time before it can read leaves none. */
  function TurnError(attempt: Attempt, remaining: int): Option<string> {
    if attempt.Refuses? || attempt.elapsed > Shorter(3_000_000_000, remaining) then Some("dial failed")
    else if attempt.elapsed >= remaining then None
    else if attempt.read.Receives? && attempt.read.elapsed <= Shorter(3_000_000_000, remaining - attempt.elapsed)
    then Some("unexpected SSH banner")
    else Some("read failed")
  }

  /** The latest error of these attempts, which a time-out reports. */
  function LastError(begun: seq<int>, deadline: int, network: nat -> Attempt): Option<string>
    decreases |begun|
  {
    if begun == [] then None
    else
      var last := |begun| - 1;
      var e := TurnError(network(last), deadline - begun[last]);
      if e.Some? then e else LastError(begun[..last], deadline, network)
  }

  /** The longest turn: a dial and a read that use up their allowances, and a second of sleep. */
  const LONGEST_TURN := 7 * SECOND

  /** sleepUntil: the time afterwards. */
  function Slept(now: int, deadline: int, duration: int): int {
    if deadline - now <= 0 then now else now + Shorter(duration, deadline - now)
  }

  /** Attempt k does not begin before k seconds have passed. */
  ghost predicate Spaced(begun: seq<int>, start: int) {
    forall k | 0 <= k < |begun| :: begun[k] >= start + k * SECOND
  }

  /** One attempt per started second of the timeout. */
  predicate AtMost(attempts: nat, timeout: int) { (attempts - 1) * 1_000_000_000 < timeout }

  /** The attempts begin at once, follow each other without a break, and go on until `finish`. */
  ghost predicate Persistent(begun: seq<int>, start: int, finish: int) {
    && (begun != [] ==> begun[0] == start && finish <= begun[|begun| - 1] + LONGEST_TURN)
    && forall k | 0 < k < |begun| :: begun[k - 1] < begun[k] <= begun[k - 1] + LONGEST_TURN
  }

  /** No attempt ended the wait: none was greeted in time, and none got a connection that cannot be bounded. */
  ghost predicate AllInVain(begun: seq<int>, deadline: int, network: nat -> Attempt) {
    forall k | 0 <= k < |begun| ::
      begun[k] < deadline && !GreetsWithin(network(k), deadline - begun[k]) && !Unbounded(network(k), deadline - begun[k])
  }

  datatype Turn = Greeted | Again(err: string) | OutOfTime | NoDeadline

  /** One turn of the loop, begun with time left: dial, read the banner, and sleep before another turn. */
  method Try(attempt: Attempt, begun: int, deadline: int) returns (turn: Turn, now: int)
    requires begun < deadline
    ensures begun <= now <= deadline && now <= begun + LONGEST_TURN
    ensures turn.Greeted? <==> GreetsWithin(attempt, deadline - begun)
    ensures turn.NoDeadline? <==> Unbounded(attempt, deadline - begun)
    ensures turn.Again? ==> now == deadline || now >= begun + SECOND
    ensures turn.OutOfTime? ==> now == deadline
    ensures turn.Again? ==> TurnError(attempt, deadline - begun) == Some(turn.err)
    ensures turn.OutOfTime? ==> TurnError(attempt, deadline - begun) == None
  {
    now := begun;
    var allowed := Shorter(3 * SECOND, deadline - now);
    if attempt.Refuses? || attempt.elapsed > allowed {
      now := now + Shorter(attempt.elapsed, allowed);
      now := Slept(now, deadline, SECOND);
      return Again("dial failed"), now;
    }
    now := now + attempt.elapsed;
    var readTimeout := Shorter(3 * SECOND, deadline - now);
    if readTimeout <= 0 {
      return OutOfTime, now;
    }
    if attempt.deadlineFails {
      return NoDeadline, now;
    }
    var timely := attempt.read.elapsed <= readTimeout;
    now := now + Shorter(attempt.read.elapsed, readTimeout);
    if timely && attempt.read.Receives? && IsBanner(attempt.read.data) {
      return Greeted, now;
    }
    now := Slept(now, deadline, SECOND);
    return Again(if timely && attempt.read.Receives? then "unexpected SSH banner" else "read failed"), now;
  }

  /**
   * The wait is over by its deadline, makes at most one attempt per started second of the timeout,
   * succeeds exactly with an SSH banner received in time by its last attempt, and gives up early
   * exactly when its last attempt got a connection on which no read deadline could be set. Otherwise
   * it uses up the whole timeout, trying again and again.
   */
  ghost predicate Waited(start: int, timeout: int, network: nat -> Attempt, outcome: Outcome, finish: int, begun: seq<int>) {
    var deadline := start + timeout;
    && start <= finish
    && (timeout <= 0 ==> finish == start && begun == [] && outcome == TimedOut(None))
    && (timeout > 0 ==> finish <= deadline && begun != [] && AtMost(|begun|, timeout))
    && Spaced(begun, start) && Persistent(begun, start, finish)
    && (forall k | 0 <= k < |begun| :: begun[k] < deadline)
    && (if begun == [] then outcome.TimedOut?
        else
          var last := |begun| - 1;
          && AllInVain(begun[..last], deadline, network)
          && (outcome.Ready? <==> GreetsWithin(network(last), deadline - begun[last]))
          && (outcome.CannotSetDeadline? <==> Unbounded(network(last), deadline - begun[last])))
    && (outcome.TimedOut? && timeout > 0 ==> finish == deadline)
    && (outcome.TimedOut? ==> outcome.lastErr == LastError(begun, deadline, network))
  }

  /** Between two attempts. */
  ghost predicate Waiting(start: int, deadline: int, network: nat -> Attempt, now: int, begun: seq<int>) {
    && start <= now && (start < deadline ==> now <= deadline)
    && Spaced(begun, start) && Persistent(begun, start, now) && AllInVain(begun, deadline, network)
    && (if begun == [] then now == start
        else && start < deadline && begun[|begun| - 1] < now && (now >= deadline || now >= begun[|begun| - 1] + SECOND))
  }

  lemma SpacedGrows(begun: seq<int>, start: int, now: int)
    requires Spaced(begun, start) && if begun == [] then now == start else now >= begun[|begun| - 1] + SECOND
    ensures Spaced(begun + [now], start)
  {
    if begun != [] { assert begun[|begun| - 1] >= start + (|begun| - 1) * SECOND; }
  }

  lemma SpacedMeansFew(begun: seq<int>, start: int, timeout: int)
    requires Spaced(begun, start) && begun != [] && begun[|begun| - 1] < start + timeout
    ensures AtMost(|begun|, timeout)
  {
    assert begun[|begun| - 1] >= start + (|begun| - 1) * SECOND;
  }

  lemma PersistentGrows(begun: seq<int>, start: int, now: int, after: int)
    requires Persistent(begun, start, now) && now <= after <= now + LONGEST_TURN
    requires if begun == [] then now == start else begun[|begun| - 1] < now
    ensures Persistent(begun + [now], start, after)
  {
  }

  lemma VainGrows(begun: seq<int>, deadline: int, network: nat -> Attempt, now: int)
    requires AllInVain(begun, deadline, network) && now < deadline
    ensures forall k | 0 <= k <= |begun| :: (begun + [now])[k] < deadline
    ensures !GreetsWithin(network(|begun|), deadline - now) && !Unbounded(network(|begun|), deadline - now) ==>
            AllInVain(begun + [now], deadline, network)
  {
    hide GreetsWithin, Unbounded;
  }

  lemma OneMore(start: int, timeout: int, network: nat -> Attempt, now: int, begun: seq<int>, after: int)
    requires Waiting(start, start + timeout, network, now, begun) && now < start + timeout
    requires now <= after <= start + timeout && after <= now + LONGEST_TURN
    ensures Spaced(begun + [now], start) && Persistent(begun + [now], start, after) && AtMost(|begun + [now]|, timeout)
  {
    SpacedGrows(begun, start, now);
    PersistentGrows(begun, start, now, after);
    SpacedMeansFew(begun + [now], start, timeout);
  }

  /** An attempt, begun now and over at `after`, that ends the wait. */
  lemma LastAttempt(start: int, timeout: int, network: nat -> Attempt, now: int, begun: seq<int>, outcome: Outcome, after: int)
    requires Waiting(start, start + timeout, network, now, begun) && now < start + timeout
    requires now <= after <= start + timeout && after <= now + LONGEST_TURN && !outcome.TimedOut?
    requires outcome.Ready? <==> GreetsWithin(network(|begun|), start + timeout - now)
    requires outcome.CannotSetDeadline? <==> Unbounded(network(|begun|), start + timeout - now)
    ensures Waited(start, timeout, network, outcome, after, begun + [now])
  {
    OneMore(start, timeout, network, now, begun, after);
    VainGrows(begun, start + timeout, network, now);
    assert (begun + [now])[..|begun|] == begun;
    hide AtMost, Spaced, Persistent, AllInVain, GreetsWithin, Unbounded;
  }

  /** An attempt after which the wait goes on. */
  lemma AttemptInVain(start: int, timeout: int, network: nat -> Attempt, now: int, begun: seq<int>, after: int)
    requires Waiting(start, start + timeout, network, now, begun) && now < start + timeout
    requires now <= after <= start + timeout && after <= now + LONGEST_TURN
    requires !GreetsWithin(network(|begun|), start + timeout - now) && !Unbounded(network(|begun|), start + timeout - now)
    requires after == start + timeout || after >= now + SECOND
    ensures Waiting(start, start + timeout, network, after, begun + [now])
  {
    OneMore(start, timeout, network, now, begun, after);
    VainGrows(begun, start + timeout, network, now);
    hide AtMost, Spaced, Persistent, AllInVain, GreetsWithin, Unbounded;
  }

  lemma NotBoth(attempt: Attempt, remaining: int)
    ensures !(GreetsWithin(attempt, remaining) && Unbounded(attempt, remaining))
  {
  }

  lemma TimeIsUp(start: int, timeout: int, network: nat -> Attempt, now: int, begun: seq<int>, lastErr: Option<string>)
    requires Waiting(start, start + timeout, network, now, begun) && now >= start + timeout
    requires lastErr == LastError(begun, start + timeout, network)
    ensures Waited(start, timeout, network, TimedOut(lastErr), now, begun)
  {
    if begun != [] { SpacedMeansFew(begun, start, timeout); }
    hide GreetsWithin, Unbounded, AtMost, Spaced, Persistent, LastError;
  }

  lemma NextError(begun: seq<int>, now: int, deadline: int, network: nat -> Attempt)
    ensures
      var e := TurnError(network(|begun|), deadline - now);
      LastError(begun + [now], deadline, network) == if e.Some? then e else LastError(begun, deadline, network)
  {
    hide TurnError;
    assert (begun + [now])[..|begun|] == begun;
  }

  /** waitForSSHService, for every network, start time and timeout. */
  method WaitForSSHService(start: int, timeout: int, network: nat -> Attempt)
    returns (outcome: Outcome, finish: int, begun: seq<int>)
    ensures Waited(start, timeout, network, outcome, finish, begun)
  {
    var deadline := start + timeout;
    var now := start;
    var lastErr: Option<string> := None;
    begun := [];
    assert Waiting(start, deadline, network, now, begun) && LastError(begun, deadline, network) == None;
    hide *;
    while now < deadline
      invariant Waiting(start, deadline, network, now, begun)
      invariant lastErr == LastError(begun, deadline, network)
      decreases deadline - now
    {
      var turn, after := Try(network(|begun|), now, deadline);
      if turn.Greeted? || turn.NoDeadline? {
        NotBoth(network(|begun|), deadline - now);
        LastAttempt(start, timeout, network, now, begun, if turn.Greeted? then Ready else CannotSetDeadline, after);
      } else {
        AttemptInVain(start, timeout, network, now, begun, after);
      }
      NextError(begun, now, deadline, network);
      begun := begun + [now];
      now := after;
      match turn
      case Greeted => return Ready, now, begun;
      case NoDeadline => return CannotSetDeadline, now, begun;
      case OutOfTime => break;
      case Again(err) => lastErr := Some(err);
    }
    TimeIsUp(start, timeout, network, now, begun, lastErr);
    return TimedOut(lastErr), now, begun;
  }
}
