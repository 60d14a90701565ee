# ProtonTransport: the socket-to-engine bridge of vertx-proton

This project models `ProtonTransport`, the class that connects a Vert.x socket to a Qpid
Proton AMQP 1.0 engine, and proves properties of that model. The bridge has five jobs:

- It pumps each received socket buffer into the engine's input window, one byte at a
  time, and a processing error fails it for good.
- It drains the engine's event collector and routes every event to the right wrapper.
  The route depends on the event's kind and on whether its session, link or delivery
  already has a wrapper attached (its "context").
- After each drain it runs the SASL authenticator if it has not failed, flushes the
  engine's output to the socket, and disconnects if it has failed.
- It runs the idle-timeout check: it ticks the engine, reschedules itself, and
  disconnects when the engine closes the transport.
- It tears down on socket end.

The model has five modules, besides the `Option` type in `wrappers.dfy`:

- `ProtonEngine` (`engine.dfy`) is the engine as the bridge sees it. Its state is every
  byte fed to `processInput`, every tick time, the collector's FIFO queue, the pending
  output windows, every window written out so far and the closed flag. The engine's
  decisions come from oracles:
  - Each `processInput` answer is a function of the whole input history. It says
    whether an error is reported, whether the input window is full, which events are
    emitted, which frames are queued for output, and whether the transport closes.
  - `tick` is a function of the input history, the windows written so far and every
    tick time. It gives the deadline, the frames queued and whether the transport
    closes.
- `Dispatch` (`dispatch.dfy`) is the per-event routing choice of the dispatch switch,
  as a pure function.
- `TransportSpec` (`transport_spec.dfy`) defines the bridge state `Bridge` and a trace of
  observable actions: wrapper callbacks, pause, process, resume, writes, closes, timers
  and teardown. It gives one function per operation, from the state before to the state
  after. A handler that throws is the outcome `Threw`.
- `TransportProps` (`transport_props.dfy`) proves the properties of those functions.
- `Transport` (`transport.dfy`) is the class `ProtonTransport`: its fields are updated in
  place, and each method is proved to produce exactly the state the specification
  function computes. The socket, timer and authenticator entry points also keep the
  invariant `Valid` whenever it held before:
  - There is one pause per process step.
  - There is one resume per process step whose callback has run.
  - Each process step comes right after its pause.
  - A set timer id is one the timer service has handed out.

Two behaviours of the code are worth stating up front:

- `disconnect` is not idempotent. Each call closes the net client or the socket again,
  so each call appends one close to the trace (`DisconnectClosesOne`).
- Some events make the Java handler throw. These are a session close, link detach, link
  close or link flow whose entity has no context, and a delivery with no context whose
  link has no receiver wrapper (a null dereference or a failed cast). The exception
  leaves the loop: the event is not popped, and authentication, flush and disconnect do
  not run (`CrashCases`, `HandleSocketBufferThrows`).

## Model

| member | source | states |
|---|---|---|
| Transport.ProtonTransport.constructor | src/main/java/io/vertx/proton/impl/ProtonTransport.java:61-78 | the new bridge is not failed, has no timer and no pending callback, an empty trace, the given authenticator and the bound engine, and satisfies the invariant |
| Transport.ProtonTransport.PumpInbound | src/main/java/io/vertx/proton/impl/ProtonTransport.java:225-242 | the byte loop leaves exactly the state `Pump` computes; it returns at once when already failed |
| Transport.ProtonTransport.HandleEvent | src/main/java/io/vertx/proton/impl/ProtonTransport.java:103-183 | the switch body throws exactly on the events `RouteOf` routes to a crash, and then changes nothing; otherwise it leaves the state `Apply` computes |
| Transport.ProtonTransport.HandleSocketBuffer | src/main/java/io/vertx/proton/impl/ProtonTransport.java:91-196 | pump, peek/handle/pop loop, then authenticate-if-not-failed, flush and disconnect-if-failed: the state and whether it threw are those of `HandleSocketBuffer`, from any state; the invariant is kept when it held before |
| Transport.ProtonTransport.ProcessSaslAuthentication | src/main/java/io/vertx/proton/impl/ProtonTransport.java:198-212 | the state is the one `ProcessSasl` computes |
| Transport.ProtonTransport.OnSaslProcessed | src/main/java/io/vertx/proton/impl/ProtonTransport.java:205-211 | the completion callback leaves the state `SaslCallback` computes; it keeps the invariant when a process step is outstanding |
| Transport.ProtonTransport.InitiateIdleTimeoutChecks | src/main/java/io/vertx/proton/impl/ProtonTransport.java:214-223 | the state is the one `Initiate` computes |
| Transport.ProtonTransport.Flush | src/main/java/io/vertx/proton/impl/ProtonTransport.java:244-257 | the loop on `done` leaves exactly the state the `Flush` function computes and keeps the invariant |
| Transport.ProtonTransport.Disconnect | src/main/java/io/vertx/proton/impl/ProtonTransport.java:259-265 | the state is the one `Disconnect` computes; the invariant is kept |
| Transport.ProtonTransport.HandleIdleTimeoutCheck | src/main/java/io/vertx/proton/impl/ProtonTransport.java:267-298 | the state is the one `IdleCheck` computes, from any state; the invariant is kept when it held before |
| Transport.ProtonTransport.HandleSocketEnd | src/main/java/io/vertx/proton/impl/ProtonTransport.java:80-89 | the state is the one `SocketEnd` computes, from any state; the invariant is kept when it held before |
| Transport.ProtonTransport.TickEngine | src/main/java/io/vertx/proton/impl/ProtonTransport.java:217 | `transport.tick(now)` returns the oracle's deadline and records the tick |
| Transport.ProtonTransport.SetTimer | src/main/java/io/vertx/proton/impl/ProtonTransport.java:221 | `vertx.setTimer` returns the next fresh id and records the timer with its delay |
| ProtonEngine.ProcessInput | src/main/java/io/vertx/proton/impl/ProtonTransport.java:234-236 | one `processInput` after a byte is put into the input window: the byte joins the input history, and the collector, the pending output and the closed flag take the engine's answer to that history |
| ProtonEngine.TickAt | src/main/java/io/vertx/proton/impl/ProtonTransport.java:217 | what `transport.tick(now)` answers, given the input so far, the windows written so far and every tick time |
| ProtonEngine.Ticked | src/main/java/io/vertx/proton/impl/ProtonTransport.java:217 | the engine after `transport.tick(now)`: the tick is recorded, its frames are queued for output and it may close the transport |
| ProtonEngine.OutputBuffer | src/main/java/io/vertx/proton/impl/ProtonTransport.java:247 | `getOutputBuffer`: the current output window, none when nothing is pending |
| ProtonEngine.OutputConsumed | src/main/java/io/vertx/proton/impl/ProtonTransport.java:252 | `outputConsumed`: the current window leaves the pending output and joins the windows written |
| ProtonEngine.Peek | src/main/java/io/vertx/proton/impl/ProtonTransport.java:95 | `collector.peek()`: the head event, none when the collector is empty |
| ProtonEngine.Pop | src/main/java/io/vertx/proton/impl/ProtonTransport.java:184 | `collector.pop()`: the head event leaves the collector |
| Dispatch.RouteOf | src/main/java/io/vertx/proton/impl/ProtonTransport.java:103-183 | the case of the dispatch switch an event takes: the wrapper callback it reaches, arming the idle check, marking failure, nothing, or an exception |
| TransportSpec.Initial | src/main/java/io/vertx/proton/impl/ProtonTransport.java:61-78 | the fields as the constructor leaves them: not failed, the given authenticator, no timer id, no outstanding callback, the bound engine and an empty trace |
| TransportSpec.Feed | src/main/java/io/vertx/proton/impl/ProtonTransport.java:234-240 | one pass of the pump loop: one byte into the input window, one `processInput`, and the failed flag set when it reports an error |
| TransportSpec.Schedule | src/main/java/io/vertx/proton/impl/ProtonTransport.java:221 | `idleTimeoutCheckTimerId = vertx.setTimer(delay, ...)`: the timer service hands out the next id, the timer is recorded with its delay, and the field holds the id |
| TransportSpec.Apply | src/main/java/io/vertx/proton/impl/ProtonTransport.java:103-183 | the switch body for an event that does not throw; the collector, the input, the authenticator and the outstanding callbacks stay |
| TransportSpec.Drain | src/main/java/io/vertx/proton/impl/ProtonTransport.java:94-185 | the peek/handle/pop loop, ending when the collector is empty or at the first handler that throws, with that event still queued |
| TransportSpec.AfterDispatch | src/main/java/io/vertx/proton/impl/ProtonTransport.java:187-195 | authenticate if not failed, then flush, then disconnect if failed |
| TransportSpec.HandleSocketBuffer | src/main/java/io/vertx/proton/impl/ProtonTransport.java:91-196 | pump, then the dispatch loop, then the post-loop steps unless a handler threw |
| TransportSpec.ProcessSasl | src/main/java/io/vertx/proton/impl/ProtonTransport.java:198-212 | nothing without an authenticator; otherwise pause, start the process step, and run the completion callback when it comes back at once |
| TransportSpec.SaslCallback | src/main/java/io/vertx/proton/impl/ProtonTransport.java:205-211 | the completion callback: detach on completion, then resume |
| TransportSpec.Initiate | src/main/java/io/vertx/proton/impl/ProtonTransport.java:214-223 | tick at `now` and schedule a check after deadline - now when the deadline is positive |
| TransportSpec.IdleCheck | src/main/java/io/vertx/proton/impl/ProtonTransport.java:267-298 | skip while the connection is not active; otherwise tick at `now`, flush, then the closing-or-rescheduling branch |
| TransportSpec.IdleFinish | src/main/java/io/vertx/proton/impl/ProtonTransport.java:279-297 | disconnect when the transport is closed, otherwise reschedule on a positive deadline; the timer id is cleared unless rescheduled |
| TransportSpec.Flush | src/main/java/io/vertx/proton/impl/ProtonTransport.java:244-257 | write and consume output windows until none with bytes remaining is pending |
| TransportSpec.Disconnect | src/main/java/io/vertx/proton/impl/ProtonTransport.java:259-265 | close the net client when there is one, otherwise the socket |
| TransportSpec.SocketEnd | src/main/java/io/vertx/proton/impl/ProtonTransport.java:80-89 | unbind, close the engine transport, close the net client or socket, then fire disconnect; the engine and the timer are left as they were |
| Transport.ProtonTransport.Fire | src/main/java/io/vertx/proton/impl/ProtonTransport.java:103-160 | invoking a wrapper callback records it and changes nothing else |
| Dispatch.RemoteOpenRouting | src/main/java/io/vertx/proton/impl/ProtonTransport.java:113-135 | a remote session or link open reaches the connection wrapper with the raw entity exactly when the entity has no context, and otherwise that entity's own wrapper |
| Dispatch.DeliveryRouting | src/main/java/io/vertx/proton/impl/ProtonTransport.java:151-160 | a delivery with a context reaches its `fireUpdate`; it reaches the receiver's `onDelivery` exactly when it has no context and its link's wrapper is a receiver |
| Dispatch.CrashCases | src/main/java/io/vertx/proton/impl/ProtonTransport.java:122-160 | the handler throws exactly on a session close, link detach, link close or link flow without context, and on a context-less delivery whose link has no receiver wrapper |
| Dispatch.SilentKinds | src/main/java/io/vertx/proton/impl/ProtonTransport.java:161-182 | a transport error only marks failure and notifies nobody; every listed no-op kind and every unlisted kind is skipped |
| Dispatch.HandledAppend | src/main/java/io/vertx/proton/impl/ProtonTransport.java:95-185 | handling a queue in two parts invokes the callbacks of the first part, then those of the second |
| TransportSpec.Pump | src/main/java/io/vertx/proton/impl/ProtonTransport.java:225-242 | the pump changes only the failed flag and what `processInput` changes in the engine (input, collector, pending output, closed flag), and does nothing at all once failed |
| TransportProps.StopAtStops | src/main/java/io/vertx/proton/impl/ProtonTransport.java:233-241 | the stopping position, from any start: the window had room before each moved byte, no moved byte but the last was rejected, and the pump stopped because the chunk ran out, the window was full or the last byte was rejected |
| TransportProps.MovedStops | src/main/java/io/vertx/proton/impl/ProtonTransport.java:233-241 | the same characterisation of the number of bytes moved from the start of the chunk |
| TransportProps.PumpFrom | src/main/java/io/vertx/proton/impl/ProtonTransport.java:233-241 | from any position, the pump processes exactly the bytes up to the stopping position: the collector, the pending output and the closed flag gain exactly what `processInput` answered to them |
| TransportProps.PumpMovesPrefix | src/main/java/io/vertx/proton/impl/ProtonTransport.java:225-242 | exactly the first `Moved` bytes reach the engine, one `processInput` each, and never the rest; the collector, the pending output and the closed flag gain exactly what those calls produce; the bridge fails exactly when the last byte moved was rejected |
| TransportProps.FailedBridgeForwardsNothing | src/main/java/io/vertx/proton/impl/ProtonTransport.java:226-229 | once failed, a socket buffer feeds no byte and the bridge stays failed; a completed cycle runs no process step and closes once |
| TransportProps.FailedIsSticky | src/main/java/io/vertx/proton/impl/ProtonTransport.java:162 | no operation (pump, socket buffer, idle check, flush, disconnect, socket end, SASL callback) clears the failed flag |
| TransportProps.ApplyEffect | src/main/java/io/vertx/proton/impl/ProtonTransport.java:103-183 | one handled event invokes exactly its route's callbacks, adds only callbacks and timers, sets failed exactly on a transport error and keeps timer ids fresh |
| TransportProps.RemoteOpenArms | src/main/java/io/vertx/proton/impl/ProtonTransport.java:104-107 | a remote connection open fires remote-open and then ticks at `now`, scheduling a check after deadline - now exactly when the deadline is positive |
| TransportProps.SilentEventsChangeNothing | src/main/java/io/vertx/proton/impl/ProtonTransport.java:161-182 | a transport error changes only the failed flag; the no-op kinds change nothing and record nothing |
| TransportProps.DrainCompletes | src/main/java/io/vertx/proton/impl/ProtonTransport.java:94-185 | with no throwing event queued, the loop empties the collector and handles each event exactly once, in queue order; failed afterwards exactly when already failed or a transport error was queued |
| TransportProps.DrainStopsAtCrash | src/main/java/io/vertx/proton/impl/ProtonTransport.java:94-185 | with a throwing event queued, the loop handles exactly the events before the first one, in order, and stops with that event still at the head |
| TransportProps.FirstCrash | src/main/java/io/vertx/proton/impl/ProtonTransport.java:95-160 | the position of the first queued event whose handler throws: it throws, and no event before it does |
| TransportProps.DrainSplit | src/main/java/io/vertx/proton/impl/ProtonTransport.java:94-185 | a queue of non-throwing events followed by a throwing one: the loop throws, handles exactly the first part in order, and leaves the second part queued |
| TransportProps.HandledByCompose | src/main/java/io/vertx/proton/impl/ProtonTransport.java:94-185 | handling one event and then the rest of the queue is handling the whole queue: callbacks in order, failure on any queued transport error |
| TransportProps.FlushFrame | src/main/java/io/vertx/proton/impl/ProtonTransport.java:244-257 | flush changes only the pending output, the windows consumed and the trace |
| TransportProps.FlushOutput | src/main/java/io/vertx/proton/impl/ProtonTransport.java:244-257 | flush consumes every pending window, in order, and leaves nothing pending |
| TransportProps.FlushTrace | src/main/java/io/vertx/proton/impl/ProtonTransport.java:244-257 | flush writes every pending window to the socket, one write each, in order |
| TransportProps.FlushWrites | src/main/java/io/vertx/proton/impl/ProtonTransport.java:244-257 | flush writes exactly the pending windows in order, consuming each one written, changes nothing else, ends with nothing pending, and with nothing pending writes nothing |
| TransportProps.WritesOnly | src/main/java/io/vertx/proton/impl/ProtonTransport.java:251 | a flush's recorded actions are socket writes only |
| TransportProps.FlushDelta | src/main/java/io/vertx/proton/impl/ProtonTransport.java:244-257 | flush appends writes only: no callback, pause, process, resume, close or timer, and leaves the flags and the timer id alone |
| TransportProps.DisconnectClosesOne | src/main/java/io/vertx/proton/impl/ProtonTransport.java:259-265 | disconnect appends exactly one close, of the net client when there is one and of the socket otherwise, and changes nothing else |
| TransportProps.DisconnectDelta | src/main/java/io/vertx/proton/impl/ProtonTransport.java:259-265 | disconnect appends one close and no pause, process, resume, callback or timer |
| TransportProps.SaslGate | src/main/java/io/vertx/proton/impl/ProtonTransport.java:198-212 | with no authenticator the gate does nothing; otherwise the pause comes before the process step, and a callback that runs at once resumes once and detaches exactly on completion |
| TransportProps.SaslCallbackResumesOnce | src/main/java/io/vertx/proton/impl/ProtonTransport.java:205-211 | every run of the callback issues exactly one resume and detaches the authenticator exactly when `complete` is true |
| TransportProps.SaslDelta | src/main/java/io/vertx/proton/impl/ProtonTransport.java:198-212 | the gate adds one pause and one process step when an authenticator is attached and none otherwise, and keeps each process step right after its pause |
| TransportProps.PauseBeforeProcessAppend | src/main/java/io/vertx/proton/impl/ProtonTransport.java:203-205 | appending actions other than a process step keeps each process step right after its pause |
| TransportProps.AfterDispatchTrace | src/main/java/io/vertx/proton/impl/ProtonTransport.java:187-195 | the whole trace after the loop: pause, process step and (for a callback that ran at once) resume exactly when not failed with an authenticator, then one write per pending window in order, then one close exactly when failed; nothing is left pending |
| TransportProps.AfterDispatchCounts | src/main/java/io/vertx/proton/impl/ProtonTransport.java:187-195 | after the loop: one pause and one process step exactly when not failed with an authenticator, one close exactly when failed, no callback and no timer |
| TransportProps.AfterDispatchState | src/main/java/io/vertx/proton/impl/ProtonTransport.java:187-195 | after the loop: every pending window has been written and consumed, disconnect is the last action when failed, and the authenticator is detached exactly when it ran and completed at once |
| TransportProps.AfterDispatchOrder | src/main/java/io/vertx/proton/impl/ProtonTransport.java:187-195 | after the loop every process step still comes right after its pause |
| TransportProps.HandleSocketBufferCompletes | src/main/java/io/vertx/proton/impl/ProtonTransport.java:91-196 | with no throwing event: the collector ends empty; callbacks follow queue order; failed exactly by the pump or a queued transport error; one authentication exactly when not failed with an authenticator; nothing left pending; one close, last, exactly when failed |
| TransportProps.HandleSocketBufferThrows | src/main/java/io/vertx/proton/impl/ProtonTransport.java:95-185 | with a throwing event: the exception leaves the loop's state at the throw, the throwing event still queued, and no authentication, write or close |
| TransportProps.DetachedStaysDetached | src/main/java/io/vertx/proton/impl/ProtonTransport.java:187-212 | once the authenticator is detached, later socket buffers never pause or process and it stays detached |
| TransportProps.InitiateSchedules | src/main/java/io/vertx/proton/impl/ProtonTransport.java:214-223 | ticks at `now` and schedules exactly when the deadline is positive, after deadline - now, with a fresh id; otherwise the timer id stays |
| TransportProps.IdleCheckInactive | src/main/java/io/vertx/proton/impl/ProtonTransport.java:272-297 | a check while the connection is not active does not tick or reschedule and only clears the timer id |
| TransportProps.IdleCheckActive | src/main/java/io/vertx/proton/impl/ProtonTransport.java:272-297 | an active check ticks at `now` and flushes; if the transport is then closed it disconnects once, last, and reschedules nothing; otherwise it reschedules exactly on a positive deadline after deadline - now; the timer id is cleared exactly when nothing was rescheduled |
| TransportProps.IdleCheckEngine | src/main/java/io/vertx/proton/impl/ProtonTransport.java:272-280 | an active check records one tick at `now`, leaves the transport closed exactly when it was or the tick closed it, ends with the output flushed, and keeps the flags |
| TransportProps.IdleCheckActions | src/main/java/io/vertx/proton/impl/ProtonTransport.java:272-297 | an active check's actions after the writes: one close, last, exactly when closed; one timer, last and with the next id, exactly when not closed and the deadline is positive; the timer id set exactly then; no callback, pause, process or resume |
| TransportProps.FinishActions | src/main/java/io/vertx/proton/impl/ProtonTransport.java:279-297 | after writes-only output, the closed-or-reschedule branch adds exactly one close, exactly one timer or nothing, and sets the timer id only when it rescheduled |
| TransportProps.ValidQuietStep | src/main/java/io/vertx/proton/impl/ProtonTransport.java:198-212 | a step with no pause, process or resume keeps the invariant |
| TransportProps.ValidInitial | src/main/java/io/vertx/proton/impl/ProtonTransport.java:61-78 | the bridge starts in the invariant |
| TransportProps.ValidHandleSocketBuffer | src/main/java/io/vertx/proton/impl/ProtonTransport.java:91-196 | handling a socket buffer, completed or thrown, keeps the invariant |
| TransportProps.ValidSaslCallback | src/main/java/io/vertx/proton/impl/ProtonTransport.java:205-211 | the completion callback of an outstanding process step keeps the invariant |
| TransportProps.ValidIdleCheck | src/main/java/io/vertx/proton/impl/ProtonTransport.java:267-298 | the idle check keeps the invariant |
| TransportProps.ValidFlush | src/main/java/io/vertx/proton/impl/ProtonTransport.java:244-257 | flush keeps the invariant |
| TransportProps.ValidDisconnect | src/main/java/io/vertx/proton/impl/ProtonTransport.java:259-265 | disconnect keeps the invariant |
| TransportProps.IdleCheckAfterSocketEnd | src/main/java/io/vertx/proton/impl/ProtonTransport.java:57-89 | socket end cancels no idle-timeout check: a check after it ends with the engine, timer and flags a check without it would leave, and it reschedules itself when the tick neither finds nor makes the transport closed |
| TransportProps.ValidSocketEnd | src/main/java/io/vertx/proton/impl/ProtonTransport.java:80-89 | socket end keeps the invariant |

## Left out

- Proton engine internals are left out because Proton is a foreign library. This
  covers frame encoding and decoding, what `tick` computes, and when errors or events
  arise. The model asks history-based oracles instead.
- The input window's capacity is not a fixed number. Proton's `processInput` frees
  window space, so whether the window is full is an oracle over the bytes fed so far.
- The settings at lines 67-69 are not modelled: the maximum frame size, emitting flow
  events on send, and the idle timeout. They only configure the engine, and the oracles
  stand in for whatever they cause.
- The `Connection`, `Session`, `Link` and `Delivery` objects and their contexts are not
  modelled as objects. Each queued event carries the context its entity has when the
  bridge handles it. This covers a wrapper that attaches a context while the same drain
  is still running.
- `protonEvent.getConnection().getContext()` at line 96 is taken always to give the
  connection wrapper.
- What the wrapper callbacks do is not modelled, because it is outside the bridge. This
  includes `fireRemoteOpen`, `handleLinkFlow`, `onDelivery` and `fireDisconnect`, and
  any events a callback makes the engine enqueue during a drain. Each callback appears
  only as a trace entry.
- Socket I/O, `System.nanoTime` and Vert.x timers are left out. Socket actions are trace
  entries. The clock reading is the parameter `now`, and the timer service is a counter
  that hands out ids.
  - `HandleSocketBuffer` uses one `now` for every remote connection open in one buffer,
    where the source reads the clock at each one.
- SASL negotiation inside `ProtonSaslAuthenticator.init` and `process` is left out.
  `init` in the constructor (lines 70-72) is not modelled at all. The completion
  callback is the separate step `OnSaslProcessed`, given the `complete` flag. A callback
  that runs before `process` returns is the `reply` parameter of `HandleSocketBuffer`.
- Logging and the `volatile` modifier of the timer id are left out, because neither
  has sequential behaviour.
- Timer cancellation is not modelled, because the source never cancels a timer. A check
  that is already scheduled still fires after disconnect or socket end
  (`IdleCheckAfterSocketEnd`).
- SocketEnd: records the engine's `unbind` and `close` as actions and does not assume
  that they make the transport report itself closed. Whether a later idle check finds
  the transport closed is left to the engine's answers (`tick` may close it).
- Handler registration on the socket (lines 76-77) is not modelled. The entry points are
  the methods `HandleSocketBuffer` and `HandleSocketEnd`.
- InitiateSchedules: computes the delay `deadline - now` on unbounded integers and does
  not model Java `long` overflow, which no realistic clock reaches.
- IdleCheckActive: the same unbounded delay `deadline - now`, without `long` overflow.
- FinishActions: the same unbounded delay `deadline - now`, without `long` overflow.
- The number of bytes the pump moves is characterised by the function `Moved`. The
  model does not move a Java `ByteBuffer`'s position or limit.
- `tick` queues output and may close the transport, but it adds no event to the
  collector. Proton's tick can change transport state, and the collector may report
  that at the next drain. The model's tick never leads to such an event.
- Pending output is a queue of windows that each have bytes remaining. How Proton cuts
  its output into windows is left to the oracles. Nothing pending is given as no window
  at all, since the source treats a null window and an exhausted one alike.
- OnSaslProcessed: keeps the invariant only for the callback of an outstanding process
  step. The callback has no guard of its own, so an authenticator that calls it again
  resumes the socket again. The model records that resume, but the balance of one resume
  per process step in `Valid` then fails. `ProtonSaslAuthenticator` is not part of this
  model.
