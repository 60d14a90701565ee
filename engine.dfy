/**
 * The Qpid Proton AMQP 1.0 engine (its Transport and its event Collector) as the
 * transport bridge sees it. Frame decoding, endpoint state machines and idle-timeout
 * bookkeeping are the engine's business: the model keeps only the state the bridge
 * touches and asks oracles for the engine's answers.
 */
module ProtonEngine {
  import opened Wrappers

  newtype byte = x: int | 0 <= x < 256

  /** A pending output window: the engine only queues windows with bytes remaining. */
  type Slice = s: seq<byte> | s != [] witness [0]

  /** Identity of a high-level wrapper object (a session or delivery wrapper). */
  type WrapperId = nat

  /** The wrapper of a link is a sender or a receiver. */
  datatype LinkWrapper = SenderWrapper(id: WrapperId) | ReceiverWrapper(id: WrapperId)

  /** Local state of the connection endpoint. */
  datatype EndpointState = Uninitialized | Active | Closed

  /**
   * The event kinds the bridge ignores: the fifteen listed explicitly in its dispatch
   * switch, and `Unlisted` for the kinds the switch does not mention at all (TRANSPORT,
   * TRANSPORT_HEAD_CLOSED, ...), which fall through it just the same.
   */
  datatype QuietKind =
    | ConnectionInit | ConnectionBound | ConnectionUnbound
    | ConnectionLocalOpen | ConnectionLocalClose | ConnectionFinal
    | SessionInit | SessionLocalOpen | SessionLocalClose | SessionFinal
    | LinkInit | LinkLocalOpen | LinkLocalDetach | LinkLocalClose | LinkFinal
    | Unlisted

  /**
   * A collector event. An event about a session, link or delivery carries the raw
   * entity and the context (back-reference to its wrapper) that the entity has at the
   * moment the bridge handles the event: `None` while no wrapper is attached.
   */
  datatype Event =
    | ConnectionRemoteOpen
    | ConnectionRemoteClose
    | SessionRemoteOpen(session: nat, sessionCtx: Option<WrapperId>)
    | SessionRemoteClose(session: nat, sessionCtx: Option<WrapperId>)
    | LinkRemoteOpen(link: nat, linkCtx: Option<LinkWrapper>)
    | LinkRemoteDetach(link: nat, linkCtx: Option<LinkWrapper>)
    | LinkRemoteClose(link: nat, linkCtx: Option<LinkWrapper>)
    | LinkFlow(link: nat, linkCtx: Option<LinkWrapper>)
    | Delivery(delivery: nat, deliveryCtx: Option<WrapperId>, linkCtx: Option<LinkWrapper>)
    | TransportError
    | Quiet(kind: QuietKind)

  /** What one call of the engine's tick yields: the next deadline (0 for none),
      the frames it queues for output, and whether it closed the transport. */
  datatype Tick = Tick(deadline: int, frames: seq<Slice>, closes: bool)

  /**
   * The engine's answers. Those of processInput depend on the whole history of bytes
   * handed to it, which covers any decoder state; tick depends on those bytes, on
   * every window written out so far and on every time it was ticked at.
   */
  datatype Oracle = Oracle(
    rejects: seq<byte> -> bool,            // processInput reports an error after these bytes
    inputFull: seq<byte> -> bool,          // the input window has no room left after these bytes
    emits: seq<byte> -> seq<Event>,        // events processInput appends after these bytes
    replies: seq<byte> -> seq<Slice>,      // frames processInput queues for output after these bytes
    inputCloses: seq<byte> -> bool,        // processInput closes the transport after these bytes
    tick: (seq<byte>, seq<Slice>, seq<int>) -> Tick)
                                           // tick, given the bytes fed, the windows written
                                           // and all tick times, latest last

  /**
   * The engine state the bridge reads or changes: every byte given to processInput,
   * every tick time, the collector's queue, the pending output windows (the head is the
   * current output window; none pending is reported as a null window), every window
   * consumed so far, and whether the transport is closed.
   */
  datatype Engine = Engine(
    fed: seq<byte>,
    ticks: seq<int>,
    events: seq<Event>,
    output: seq<Slice>,
    sent: seq<Slice>,
    closed: bool)

  /** Put one byte into the input window and process it: the collector gains the events
      and the output the frames the engine answers with, and the engine may close. */
  function ProcessInput(o: Oracle, e: Engine, x: byte): Engine
  {
    var fed := e.fed + [x];
    e.(fed := fed, events := e.events + o.emits(fed), output := e.output + o.replies(fed),
       closed := e.closed || o.inputCloses(fed))
  }

  /** The deadline and effects of ticking the engine at time `now`. */
  function TickAt(o: Oracle, e: Engine, now: int): Tick
  {
    o.tick(e.fed, e.sent, e.ticks + [now])
  }

  /** The engine after a tick at `now`. */
  function Ticked(o: Oracle, e: Engine, now: int): Engine
  {
    var t := TickAt(o, e, now);
    e.(ticks := e.ticks + [now], output := e.output + t.frames, closed := e.closed || t.closes)
  }

  /** The current output window: `None` for a null window. */
  function OutputBuffer(e: Engine): Option<seq<byte>>
  {
    if e.output == [] then None else Some(e.output[0])
  }

  /** Mark the current output window as written. */
  function OutputConsumed(e: Engine): Engine
    requires e.output != []
  {
    e.(output := e.output[1..], sent := e.sent + [e.output[0]])
  }

  /** The collector's head event, if any. */
  function Peek(e: Engine): Option<Event>
  {
    if e.events == [] then None else Some(e.events[0])
  }

  /** Remove the collector's head event; popping an empty collector changes nothing. */
  function Pop(e: Engine): Engine
  {
    if e.events == [] then e else e.(events := e.events[1..])
  }
}
