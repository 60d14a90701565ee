/**
 * The transport bridge as an object: the fields it updates in place, and one method per
 * operation. Each method is proved to leave the object in the state that the matching
 * function of TransportSpec computes from the state before, and the socket-facing
 * entry points keep the bridge's invariant.
 */
module Transport {
  import opened Wrappers
  import opened ProtonEngine
  import opened Dispatch
  import opened TransportSpec
  import opened TransportProps

  class ProtonTransport {
    /** The engine's answers and whether a net client owns the socket. */
    const env: Env

    var failed: bool
    /** Whether an authenticator is attached (the field is nulled on completion). */
    var authenticator: bool
    /** Authenticator process steps whose completion callback has not run yet (model
        bookkeeping; the source keeps no such count). */
    ghost var saslPending: nat
    var idleTimeoutCheckTimerId: Option<nat>
    /** The id the timer service hands out next: the Vert.x timer service, not a field of
        the source's class. */
    var nextTimerId: nat
    /** The owned Proton transport and collector. */
    var engine: Engine
    /** Every wrapper callback and socket or timer action so far (ghost: the source
        performs these actions and keeps no record of them). */
    ghost var trace: seq<Action>

    ghost function State(): Bridge
      reads this
    {
      Bridge(failed, authenticator, saslPending, idleTimeoutCheckTimerId, nextTimerId, engine, trace)
    }

    ghost predicate Valid()
      reads this
    {
      TransportSpec.Valid(State())
    }

    /** The constructor; `engine` is the Proton transport already bound to the
        connection, whose collector is attached. */
    constructor (env: Env, authenticator: bool, engine: Engine)
      ensures this.env == env && State() == Initial(authenticator, engine)
      ensures Valid()
    {
      this.env := env;
      failed := false;
      this.authenticator := authenticator;
      saslPending := 0;
      idleTimeoutCheckTimerId := None;
      nextTimerId := 0;
      this.engine := engine;
      trace := [];
      new;
      ValidInitial(authenticator, engine);
    }

    // -------------------------------------------------------------- calls out

    /** transport.tick(now): returns the next deadline. */
    method TickEngine(now: int) returns (deadline: int)
      modifies this
      ensures deadline == TickAt(env.oracle, old(engine), now).deadline
      ensures State() == old(State()).(engine := Ticked(env.oracle, old(engine), now))
    {
      deadline := TickAt(env.oracle, engine, now).deadline;
      engine := Ticked(env.oracle, engine, now);
    }

    /** vertx.setTimer(delay, ...): returns the id of the new timer. */
    method SetTimer(delay: int) returns (id: nat)
      modifies this
      ensures id == old(nextTimerId)
      ensures State() == old(State()).(nextTimerId := id + 1, trace := old(trace) + [Action.SetTimer(id, delay)])
    {
      id := nextTimerId;
      nextTimerId := nextTimerId + 1;
      trace := trace + [Action.SetTimer(id, delay)];
    }

    method Fire(c: Callback)
      modifies this
      ensures State() == old(State()).(trace := old(trace) + [Fired(c)])
    {
      trace := trace + [Fired(c)];
    }

    // -------------------------------------------------------------- operations

    /** pumpInbound. */
    method PumpInbound(chunk: seq<byte>)
      modifies this
      ensures State() == Pump(env, old(State()), chunk)
    {
      if failed {
        return;
      }
      var i := 0;
      while i < |chunk| && !env.oracle.inputFull(engine.fed) && !failed
        invariant 0 <= i <= |chunk|
        invariant Pump(env, State(), chunk[i..]) == Pump(env, old(State()), chunk)
      {
        assert chunk[i..][0] == chunk[i] && chunk[i..][1..] == chunk[i + 1..];
        engine := ProcessInput(env.oracle, engine, chunk[i]);
        if env.oracle.rejects(engine.fed) {
          failed := true;
        }
        i := i + 1;
      }
      assert i == |chunk| ==> chunk[i..] == [];
    }

    /** The body of the dispatch switch for one event; `thrown` when the handler throws,
        in which case nothing has changed. */
    method HandleEvent(e: Event, now: int) returns (thrown: bool)
      modifies this
      ensures thrown <==> RouteOf(e).Crash?
      ensures thrown ==> State() == old(State())
      ensures !thrown ==> State() == Apply(env, old(State()), e, now)
    {
      thrown := false;
      match e
      case ConnectionRemoteOpen =>
        Fire(FireRemoteOpen);
        InitiateIdleTimeoutChecks(now);
      case ConnectionRemoteClose =>
        Fire(FireRemoteClose);
      case SessionRemoteOpen(session, ctx) =>
        if ctx.None? {
          Fire(FireRemoteSessionOpen(session));
        } else {
          Fire(SessionFireRemoteOpen(ctx.value));
        }
      case SessionRemoteClose(_, ctx) =>
        if ctx.None? {
          thrown := true;
        } else {
          Fire(SessionFireRemoteClose(ctx.value));
        }
      case LinkRemoteOpen(link, ctx) =>
        if ctx.None? {
          Fire(FireRemoteLinkOpen(link));
        } else {
          Fire(LinkFireRemoteOpen(ctx.value));
        }
      case LinkRemoteDetach(_, ctx) =>
        if ctx.None? {
          thrown := true;
        } else {
          Fire(LinkFireRemoteDetach(ctx.value));
        }
      case LinkRemoteClose(_, ctx) =>
        if ctx.None? {
          thrown := true;
        } else {
          Fire(LinkFireRemoteClose(ctx.value));
        }
      case LinkFlow(_, ctx) =>
        if ctx.None? {
          thrown := true;
        } else {
          Fire(LinkHandleFlow(ctx.value));
        }
      case Delivery(_, deliveryCtx, linkCtx) =>
        if deliveryCtx.Some? {
          Fire(DeliveryFireUpdate(deliveryCtx.value));
        } else if linkCtx.Some? && linkCtx.value.ReceiverWrapper? {
          Fire(ReceiverOnDelivery(linkCtx.value.id));
        } else {
          thrown := true;
        }
      case TransportError =>
        failed := true;
      case Quiet(_) =>
    }

    /** handleSocketBuffer: `thrown` when a handler of the dispatch loop throws, which
        leaves the state as it was at the throw. */
    method HandleSocketBuffer(chunk: seq<byte>, now: int, reply: Option<bool>) returns (thrown: bool)
      modifies this
      ensures thrown <==> TransportSpec.HandleSocketBuffer(env, old(State()), chunk, now, reply).Threw?
      ensures State() == TransportSpec.HandleSocketBuffer(env, old(State()), chunk, now, reply).state
      ensures old(Valid()) ==> Valid()
    {
      ghost var before := State();
      if TransportSpec.Valid(before) {
        ValidHandleSocketBuffer(env, before, chunk, now, reply);
      }
      PumpInbound(chunk);
      ghost var pumped := State();
      thrown := false;
      var head := Peek(engine);
      while head.Some?
        invariant head == Peek(engine)
        invariant Drain(env, State(), now) == Drain(env, pumped, now)
        decreases |engine.events|
      {
        thrown := HandleEvent(head.value, now);
        if thrown {
          return;
        }
        engine := Pop(engine);
        head := Peek(engine);
      }
      if !failed {
        ProcessSaslAuthentication(reply);
      }
      Flush();
      if failed {
        Disconnect();
      }
    }

    /** processSaslAuthentication. `reply` is the completion flag when the authenticator
        calls back before process returns, `None` when it calls back later. */
    method ProcessSaslAuthentication(reply: Option<bool>)
      modifies this
      ensures State() == ProcessSasl(old(State()), reply)
    {
      if !authenticator {
        return;
      }
      trace := trace + [Pause];
      trace := trace + [SaslProcess];
      saslPending := saslPending + 1;
      if reply.Some? {
        OnSaslProcessed(reply.value);
      }
    }

    /** The completion callback handed to the authenticator's process step. It keeps the
        invariant when a process step is outstanding, as the authenticator promises. */
    method OnSaslProcessed(complete: bool)
      modifies this
      ensures State() == SaslCallback(old(State()), complete)
      ensures old(Valid()) && old(saslPending) > 0 ==> Valid()
    {
      ghost var before := State();
      if complete {
        authenticator := false;
      }
      if saslPending > 0 {
        saslPending := saslPending - 1;
      }
      trace := trace + [Resume];
      if TransportSpec.Valid(before) && before.saslPending > 0 {
        ValidSaslCallback(before, complete);
      }
    }

    /** initiateIdleTimeoutChecks; `now` is the monotonic clock in milliseconds. */
    method InitiateIdleTimeoutChecks(now: int)
      modifies this
      ensures State() == Initiate(env, old(State()), now)
    {
      var deadline := TickEngine(now);
      if deadline > 0 {
        var delay := deadline - now;
        var id := SetTimer(delay);
        idleTimeoutCheckTimerId := Some(id);
      }
    }

    /** flush. */
    method Flush()
      modifies this
      ensures State() == TransportSpec.Flush(old(State()))
      ensures old(Valid()) ==> Valid()
    {
      ghost var before := State();
      var done := false;
      while !done
        invariant TransportSpec.Flush(State()) == TransportSpec.Flush(before)
        invariant done ==> TransportSpec.Flush(State()) == State()
        decreases |engine.output|, !done
      {
        var outputBuffer := OutputBuffer(engine);
        if outputBuffer.Some? && outputBuffer.value != [] {
          trace := trace + [Write(outputBuffer.value)];
          engine := OutputConsumed(engine);
        } else {
          done := true;
        }
      }
      if TransportSpec.Valid(before) {
        ValidFlush(before);
      }
    }

    /** disconnect. */
    method Disconnect()
      modifies this
      ensures State() == TransportSpec.Disconnect(env, old(State()))
      ensures old(Valid()) ==> Valid()
    {
      ghost var before := State();
      if env.netClient {
        trace := trace + [CloseNetClient];
      } else {
        trace := trace + [CloseSocket];
      }
      if TransportSpec.Valid(before) {
        ValidDisconnect(env, before);
      }
    }

    /** IdleTimeoutCheck.handle; `local` is the connection's local state when the timer
        fires and `now` the monotonic clock in milliseconds. */
    method HandleIdleTimeoutCheck(now: int, local: EndpointState)
      modifies this
      ensures State() == IdleCheck(env, old(State()), now, local)
      ensures old(Valid()) ==> Valid()
    {
      ghost var before := State();
      if TransportSpec.Valid(before) {
        ValidIdleCheck(env, before, now, local);
      }
      var checkScheduled := false;
      if local == Active {
        var deadline := TickEngine(now);
        Flush();
        ghost var flushed := State();
        assert flushed == TransportSpec.Flush(before.(engine := Ticked(env.oracle, before.engine, now)));
        assert IdleCheck(env, before, now, local) == IdleFinish(env, flushed, deadline, now);
        if engine.closed {
          Disconnect();
        } else if deadline > 0 {
          var delay := deadline - now;
          checkScheduled := true;
          var id := SetTimer(delay);
          idleTimeoutCheckTimerId := Some(id);
        }
      }
      if !checkScheduled {
        idleTimeoutCheckTimerId := None;
      }
    }

    /** handleSocketEnd. */
    method HandleSocketEnd()
      modifies this
      ensures State() == SocketEnd(env, old(State()))
      ensures old(Valid()) ==> Valid()
    {
      ghost var before := State();
      trace := trace + [Unbind];
      trace := trace + [TransportClose];
      if env.netClient {
        trace := trace + [CloseNetClient];
      } else {
        trace := trace + [CloseSocket];
      }
      trace := trace + [FireDisconnect];
      assert State() == SocketEnd(env, before);
      if TransportSpec.Valid(before) {
        ValidSocketEnd(env, before);
      }
    }
  }
}
