/**
 * The per-event routing choice of the bridge's dispatch loop: which wrapper callback
 * an event reaches, depending on its kind and on whether its entity has a context.
 */
module Dispatch {
  import opened Wrappers
  import opened ProtonEngine

  /** The wrapper callbacks the dispatch loop can invoke, named after the wrapper methods. */
  datatype Callback =
    | FireRemoteOpen                          // connection wrapper
    | FireRemoteClose                         // connection wrapper
    | FireRemoteSessionOpen(session: nat)     // connection wrapper, given the raw session
    | SessionFireRemoteOpen(w: WrapperId)
    | SessionFireRemoteClose(w: WrapperId)
    | FireRemoteLinkOpen(link: nat)           // connection wrapper, given the raw link
    | LinkFireRemoteOpen(lw: LinkWrapper)
    | LinkFireRemoteDetach(lw: LinkWrapper)
    | LinkFireRemoteClose(lw: LinkWrapper)
    | LinkHandleFlow(lw: LinkWrapper)
    | DeliveryFireUpdate(w: WrapperId)
    | ReceiverOnDelivery(w: WrapperId)

  /**
   * What handling one event does: invoke one callback; for a remote connection open,
   * fire it on the connection wrapper and then start the idle-timeout checks; mark the
   * bridge failed; nothing; or throw, because the handler dereferences a missing
   * context or casts a sender's wrapper to a receiver.
   */
  datatype Route = Notify(callback: Callback) | OpenAndArm | MarkFailed | Skip | Crash

  function RouteOf(e: Event): Route
  {
    match e
    case ConnectionRemoteOpen => OpenAndArm
    case ConnectionRemoteClose => Notify(FireRemoteClose)
    case SessionRemoteOpen(s, ctx) =>
      if ctx.None? then Notify(FireRemoteSessionOpen(s)) else Notify(SessionFireRemoteOpen(ctx.value))
    case SessionRemoteClose(_, ctx) =>
      if ctx.None? then Crash else Notify(SessionFireRemoteClose(ctx.value))
    case LinkRemoteOpen(l, ctx) =>
      if ctx.None? then Notify(FireRemoteLinkOpen(l)) else Notify(LinkFireRemoteOpen(ctx.value))
    case LinkRemoteDetach(_, ctx) =>
      if ctx.None? then Crash else Notify(LinkFireRemoteDetach(ctx.value))
    case LinkRemoteClose(_, ctx) =>
      if ctx.None? then Crash else Notify(LinkFireRemoteClose(ctx.value))
    case LinkFlow(_, ctx) =>
      if ctx.None? then Crash else Notify(LinkHandleFlow(ctx.value))
    case Delivery(_, dctx, lctx) =>
      if dctx.Some? then Notify(DeliveryFireUpdate(dctx.value))
      else if lctx.Some? && lctx.value.ReceiverWrapper? then Notify(ReceiverOnDelivery(lctx.value.id))
      else Crash
    case TransportError => MarkFailed
    case Quiet(_) => Skip
  }

  /** The callbacks a route invokes, in order. */
  function Invoked(r: Route): seq<Callback>
  {
    match r
    case Notify(c) => [c]
    case OpenAndArm => [FireRemoteOpen]
    case _ => []
  }

  /** The callbacks that handling `events` one after another invokes, in queue order. */
  function Handled(events: seq<Event>): seq<Callback>
  {
    if events == [] then [] else Invoked(RouteOf(events[0])) + Handled(events[1..])
  }

  /** Whether some event of `events` makes its handler throw. */
  predicate AnyCrash(events: seq<Event>)
  {
    exists i :: 0 <= i < |events| && RouteOf(events[i]).Crash?
  }

  /** A remote session or link open reaches the connection wrapper, with the raw entity,
      exactly when the entity has no context, and otherwise that entity's own wrapper. */
  lemma RemoteOpenRouting(e: Event)
    requires e.SessionRemoteOpen? || e.LinkRemoteOpen?
    ensures RouteOf(e).Notify?
    ensures e.SessionRemoteOpen? ==>
      (RouteOf(e).callback == FireRemoteSessionOpen(e.session) <==> e.sessionCtx.None?) &&
      (e.sessionCtx.Some? ==> RouteOf(e).callback == SessionFireRemoteOpen(e.sessionCtx.value))
    ensures e.LinkRemoteOpen? ==>
      (RouteOf(e).callback == FireRemoteLinkOpen(e.link) <==> e.linkCtx.None?) &&
      (e.linkCtx.Some? ==> RouteOf(e).callback == LinkFireRemoteOpen(e.linkCtx.value))
  {
  }

  /** A delivery event reaches the receiver's onDelivery exactly when the delivery has
      no context yet, and the delivery wrapper's fireUpdate otherwise. */
  lemma DeliveryRouting(e: Event)
    requires e.Delivery?
    ensures e.deliveryCtx.Some? ==> RouteOf(e) == Notify(DeliveryFireUpdate(e.deliveryCtx.value))
    ensures RouteOf(e).Notify? && RouteOf(e).callback.ReceiverOnDelivery? <==>
      e.deliveryCtx.None? && e.linkCtx.Some? && e.linkCtx.value.ReceiverWrapper?
  {
  }

  /** The handler throws exactly on a remote session close, link detach, link close or
      link flow whose entity has no context, and on a new delivery whose link has no
      receiver wrapper. */
  lemma CrashCases(e: Event)
    ensures RouteOf(e).Crash? <==>
      ((e.SessionRemoteClose? && e.sessionCtx.None?) ||
       ((e.LinkRemoteDetach? || e.LinkRemoteClose? || e.LinkFlow?) && e.linkCtx.None?) ||
       (e.Delivery? && e.deliveryCtx.None? && !(e.linkCtx.Some? && e.linkCtx.value.ReceiverWrapper?)))
  {
  }

  /** A transport error notifies nobody; every local, init, bound, unbound and final
      kind, and every kind the switch does not list, does nothing at all. */
  lemma SilentKinds(e: Event)
    requires e.TransportError? || e.Quiet?
    ensures Invoked(RouteOf(e)) == []
    ensures e.TransportError? ==> RouteOf(e) == MarkFailed
    ensures e.Quiet? ==> RouteOf(e) == Skip
  {
  }

  /** Handling a queue in two parts invokes the callbacks of the first part, then those
      of the second. */
  lemma {:induction false} HandledAppend(a: seq<Event>, b: seq<Event>)
    ensures Handled(a + b) == Handled(a) + Handled(b)
  {
    if a == [] {
      assert a + b == b;
    } else {
      assert (a + b)[1..] == a[1..] + b;
      HandledAppend(a[1..], b);
    }
  }
}
