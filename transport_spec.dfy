/**
 * The transport bridge's state and, for each of its operations, a function from the
 * state before to the state after. The trace records every wrapper callback and every
 * socket or timer action, in the order the bridge performs them.
 */
module TransportSpec {
  import opened Wrappers
  import opened ProtonEngine
  import opened Dispatch

  /** An observable action of the bridge. */
  datatype Action =
    | Fired(callback: Callback)        // a wrapper callback
    | Pause                            // socket.pause()
    | SaslProcess                      // authenticator.process(...)
    | Resume                           // socket.resume()
    | Write(bytes: seq<byte>)          // socket.write(...)
    | CloseNetClient                   // netClient.close()
    | CloseSocket                      // socket.close()
    | SetTimer(id: nat, delay: int)    // vertx.setTimer(delay, ...) returning id
    | Unbind                           // transport.unbind()
    | TransportClose                   // transport.close()
    | FireDisconnect                   // the connection wrapper's fireDisconnect()

  /** What stays fixed for the bridge's lifetime: the engine's answers and whether a
      net client owns the socket. */
  datatype Env = Env(oracle: Oracle, netClient: bool)

  /**
   * The bridge's state: the failed flag, whether an authenticator is attached, how many
   * authenticator callbacks are outstanding, the idle-timeout timer id, the id the timer
   * service hands out next, the owned engine, and the trace.
   */
  datatype Bridge = Bridge(
    failed: bool,
    authenticator: bool,
    saslPending: nat,
    timerId: Option<nat>,
    nextTimerId: nat,
    engine: Engine,
    trace: seq<Action>)

  /** How handling a socket buffer ends: normally, or with an exception from the
      dispatch loop (the state is the one at the throw). */
  datatype Outcome = Done(state: Bridge) | Threw(state: Bridge)

  /** The bridge as the constructor leaves it; `engine` is the engine after bind and collect. */
  function Initial(authenticator: bool, engine: Engine): Bridge
  {
    Bridge(false, authenticator, 0, None, 0, engine, [])
  }

  /** `r` differs from `b` at most in the failed flag and in what processInput changes
      in the engine: its input history, collector, pending output and closed flag. */
  predicate InputOnly(b: Bridge, r: Bridge)
  {
    r.authenticator == b.authenticator && r.saslPending == b.saslPending &&
    r.timerId == b.timerId && r.nextTimerId == b.nextTimerId && r.trace == b.trace &&
    r.engine.ticks == b.engine.ticks && r.engine.sent == b.engine.sent
  }

  // ---------------------------------------------------------------- inbound pump

  /** One iteration of the pump: move one byte into the input window, process it, and
      set the failed flag if processing reports an error. */
  function Feed(env: Env, b: Bridge, x: byte): Bridge
  {
    var e := ProcessInput(env.oracle, b.engine, x);
    b.(engine := e, failed := b.failed || env.oracle.rejects(e.fed))
  }

  /** pumpInbound: feed the chunk byte by byte while bytes remain, the input window has
      room and the bridge has not failed. */
  function Pump(env: Env, b: Bridge, chunk: seq<byte>): (r: Bridge)
    ensures InputOnly(b, r)
    ensures b.failed ==> r == b
    decreases |chunk|
  {
    if b.failed || chunk == [] || env.oracle.inputFull(b.engine.fed) then b
    else Pump(env, Feed(env, b, chunk[0]), chunk[1..])
  }

  /** The number of bytes of `chunk` moved into an engine already given `fed`, counting
      from position `j`: stop when the chunk is exhausted or the window is full, or right
      after the first byte whose processing reports an error. */
  function StopAt(o: Oracle, fed: seq<byte>, chunk: seq<byte>, j: nat): nat
    requires j <= |chunk|
    decreases |chunk| - j
  {
    if j == |chunk| || o.inputFull(fed + chunk[..j]) then j
    else if o.rejects(fed + chunk[..j + 1]) then j + 1
    else StopAt(o, fed, chunk, j + 1)
  }

  function Moved(o: Oracle, fed: seq<byte>, chunk: seq<byte>): nat
  {
    StopAt(o, fed, chunk, 0)
  }

  /** What processInput appends (events, or output frames) when `bytes` are fed one at a
      time after `fed`, given what it appends after each history. */
  function Emitted<T>(emits: seq<byte> -> seq<T>, fed: seq<byte>, bytes: seq<byte>): seq<T>
  {
    if bytes == [] then [] else Emitted(emits, fed, bytes[..|bytes| - 1]) + emits(fed + bytes)
  }

  /** Whether processInput closes the transport while `bytes` are fed one at a time after
      `fed`. */
  function ClosedBy(closes: seq<byte> -> bool, fed: seq<byte>, bytes: seq<byte>): bool
  {
    bytes != [] && (ClosedBy(closes, fed, bytes[..|bytes| - 1]) || closes(fed + bytes))
  }

  // ---------------------------------------------------------------- idle timeout

  /** vertx.setTimer: the timer service hands out the next id. */
  function Schedule(b: Bridge, delay: int): Bridge
  {
    b.(timerId := Some(b.nextTimerId), nextTimerId := b.nextTimerId + 1,
       trace := b.trace + [SetTimer(b.nextTimerId, delay)])
  }

  /** initiateIdleTimeoutChecks: tick, and schedule a check after deadline - now if the
      deadline is positive; otherwise the timer id is left as it was. */
  function Initiate(env: Env, b: Bridge, now: int): Bridge
  {
    var t := TickAt(env.oracle, b.engine, now);
    var ticked := b.(engine := Ticked(env.oracle, b.engine, now));
    if t.deadline > 0 then Schedule(ticked, t.deadline - now) else ticked
  }

  /** IdleTimeoutCheck.handle. */
  function IdleCheck(env: Env, b: Bridge, now: int, local: EndpointState): Bridge
  {
    if local != Active then b.(timerId := None)
    else
      var t := TickAt(env.oracle, b.engine, now);
      IdleFinish(env, Flush(b.(engine := Ticked(env.oracle, b.engine, now))), t.deadline, now)
  }

  /** The rest of an active check once the tick returned `deadline` and the output was
      flushed: disconnect if the transport is closed, otherwise reschedule after
      deadline - now if the deadline is positive; the timer id is cleared unless a check
      was rescheduled. */
  function IdleFinish(env: Env, f: Bridge, deadline: int, now: int): Bridge
  {
    if f.engine.closed then Disconnect(env, f).(timerId := None)
    else if deadline > 0 then Schedule(f, deadline - now)
    else f.(timerId := None)
  }

  // ---------------------------------------------------------------- dispatch

  /** The body of the dispatch switch for one event that does not throw. */
  function Apply(env: Env, b: Bridge, e: Event, now: int): (r: Bridge)
    requires !RouteOf(e).Crash?
    ensures r.engine.events == b.engine.events && r.engine.fed == b.engine.fed
    ensures r.authenticator == b.authenticator && r.saslPending == b.saslPending
  {
    match RouteOf(e)
    case Notify(c) => b.(trace := b.trace + [Fired(c)])
    case OpenAndArm => Initiate(env, b.(trace := b.trace + [Fired(FireRemoteOpen)]), now)
    case MarkFailed => b.(failed := true)
    case Skip => b
  }

  /** The dispatch loop: peek, handle, pop, until the collector is empty or a handler
      throws (the throwing event stays queued). */
  function Drain(env: Env, b: Bridge, now: int): Outcome
    decreases |b.engine.events|
  {
    match Peek(b.engine)
    case None => Done(b)
    case Some(e) =>
      if RouteOf(e).Crash? then Threw(b)
      else
        var h := Apply(env, b, e, now);
        Drain(env, h.(engine := Pop(h.engine)), now)
  }

  // ---------------------------------------------------------------- authentication

  /** The authenticator's completion callback: detach on completion, then resume. The
      callback has no guard of its own; the count of outstanding process steps stays at
      zero when it runs with none outstanding. */
  function SaslCallback(b: Bridge, complete: bool): Bridge
  {
    b.(authenticator := if complete then false else b.authenticator,
       saslPending := if b.saslPending > 0 then b.saslPending - 1 else 0,
       trace := b.trace + [Resume])
  }

  /** processSaslAuthentication: nothing without an authenticator; otherwise pause and
      start the asynchronous process step. `reply` is the completion flag when the
      authenticator calls back before process returns, `None` when it calls back later. */
  function ProcessSasl(b: Bridge, reply: Option<bool>): Bridge
  {
    if !b.authenticator then b
    else
      var p := b.(saslPending := b.saslPending + 1, trace := b.trace + [Pause, SaslProcess]);
      if reply.Some? then SaslCallback(p, reply.value) else p
  }

  // ---------------------------------------------------------------- output

  /** flush: write and consume output windows until the window is null or has nothing
      remaining. A queued window always has bytes remaining, so only the null window for
      an empty queue stops it. */
  function Flush(b: Bridge): Bridge
    decreases |b.engine.output|
  {
    match OutputBuffer(b.engine)
    case Some(w) => Flush(b.(engine := OutputConsumed(b.engine), trace := b.trace + [Write(w)]))
    case None => b
  }

  /** What closing the connection's socket side does: close the net client if there is
      one, otherwise the socket. */
  function CloseAction(env: Env): Action
  {
    if env.netClient then CloseNetClient else CloseSocket
  }

  /** disconnect: close the net client if there is one, otherwise the socket. */
  function Disconnect(env: Env, b: Bridge): Bridge
  {
    b.(trace := b.trace + [CloseAction(env)])
  }

  // ---------------------------------------------------------------- socket callbacks

  /** The steps of handleSocketBuffer after the dispatch loop. */
  function AfterDispatch(env: Env, b: Bridge, reply: Option<bool>): Bridge
  {
    var authed := if !b.failed then ProcessSasl(b, reply) else b;
    var flushed := Flush(authed);
    if flushed.failed then Disconnect(env, flushed) else flushed
  }

  /** handleSocketBuffer: pump, dispatch, then authenticate, flush and disconnect. */
  function HandleSocketBuffer(env: Env, b: Bridge, chunk: seq<byte>, now: int, reply: Option<bool>): Outcome
  {
    match Drain(env, Pump(env, b, chunk), now)
    case Threw(s) => Threw(s)
    case Done(s) => Done(AfterDispatch(env, s, reply))
  }

  /** handleSocketEnd: unbind and close the engine transport, close the net client or
      the socket, and tell the connection wrapper. The engine's unbind and close are
      recorded as actions only: that the transport reports itself closed is decided by
      the engine's answers, not assumed here. */
  function SocketEnd(env: Env, b: Bridge): Bridge
  {
    b.(trace := b.trace + [Unbind, TransportClose, CloseAction(env), FireDisconnect])
  }

  // ---------------------------------------------------------------- trace queries

  /** The kinds of action the invariants count. */
  datatype Kind = Notification | Pausing | Processing | Resuming | Writing | Closing | Scheduling | Teardown

  /** Whether `a` is an action of kind `k`. */
  predicate OfKind(a: Action, k: Kind)
  {
    match k
    case Notification => a.Fired?
    case Pausing => a.Pause?
    case Processing => a.SaslProcess?
    case Resuming => a.Resume?
    case Writing => a.Write?
    case Closing => a.CloseNetClient? || a.CloseSocket?
    case Scheduling => a.SetTimer?
    case Teardown => a.Unbind? || a.TransportClose? || a.FireDisconnect?
  }

  /** The number of actions of kind `k` in `t`. */
  function Count(t: seq<Action>, k: Kind): nat
  {
    if t == [] then 0 else (if OfKind(t[0], k) then 1 else 0) + Count(t[1..], k)
  }

  /** The wrapper callbacks of a trace, in order. */
  function Notices(t: seq<Action>): seq<Callback>
  {
    if t == [] then [] else (if t[0].Fired? then [t[0].callback] else []) + Notices(t[1..])
  }

  /** Every authenticator process step comes right after a pause. */
  predicate PauseBeforeProcess(t: seq<Action>)
  {
    forall i :: 0 <= i < |t| && t[i] == SaslProcess ==> i > 0 && t[i - 1] == Pause
  }

  /** The timer id, when set, is one the timer service has handed out. */
  predicate TimerFresh(b: Bridge)
  {
    b.timerId.Some? ==> b.timerId.value < b.nextTimerId
  }

  /** The invariant every operation keeps: one pause per process step, one resume per
      process step whose callback has run, each process step right after its pause, and
      the timer id, when set, one the timer service has handed out. */
  predicate Valid(b: Bridge)
  {
    Count(b.trace, Pausing) == Count(b.trace, Processing) &&
    Count(b.trace, Resuming) + b.saslPending == Count(b.trace, Processing) &&
    PauseBeforeProcess(b.trace) &&
    TimerFresh(b)
  }
}
