/**
 * Properties of the transport bridge's operations, proved about the functions of
 * TransportSpec.
 */
module TransportProps {
  import opened Wrappers
  import opened ProtonEngine
  import opened Dispatch
  import opened TransportSpec

  // ================================================================ trace algebra

  lemma {:induction false} CountAppend(a: seq<Action>, b: seq<Action>, k: Kind)
    ensures Count(a + b, k) == Count(a, k) + Count(b, k)
  {
    if a == [] {
      assert a + b == b;
    } else {
      assert (a + b)[1..] == a[1..] + b;
      CountAppend(a[1..], b, k);
    }
  }

  lemma {:induction false} CountNone(t: seq<Action>, k: Kind)
    requires forall i :: 0 <= i < |t| ==> !OfKind(t[i], k)
    ensures Count(t, k) == 0
  {
    if t != [] {
      assert !OfKind(t[0], k);
      CountNone(t[1..], k);
    }
  }

  lemma {:induction false} NoticesAppend(a: seq<Action>, b: seq<Action>)
    ensures Notices(a + b) == Notices(a) + Notices(b)
  {
    if a == [] {
      assert a + b == b;
    } else {
      var head := if a[0].Fired? then [a[0].callback] else [];
      assert (a + b)[0] == a[0];
      assert (a + b)[1..] == a[1..] + b;
      assert Notices(a + b) == head + Notices(a[1..] + b);
      NoticesAppend(a[1..], b);
      assert Notices(a) == head + Notices(a[1..]);
    }
  }

  lemma {:induction false} NoticesNone(t: seq<Action>)
    requires forall i :: 0 <= i < |t| ==> !t[i].Fired?
    ensures Notices(t) == []
  {
    if t != [] {
      NoticesNone(t[1..]);
    }
  }

  /** The delta of a trace that only grew. */
  lemma SliceAppend(t: seq<Action>, u: seq<Action>, v: seq<Action>)
    requires t <= u <= v
    ensures v[|t|..] == u[|t|..] + v[|u|..]
  {
  }

  // ================================================================ inbound pump

  /** The number of bytes moved is the length of the longest prefix of the chunk such
      that the window had room before each byte and no byte but possibly the last one
      made processInput report an error; the pump stops for one of its three reasons. */
  lemma {:induction false} StopAtStops(o: Oracle, fed: seq<byte>, chunk: seq<byte>, j: nat)
    requires j <= |chunk|
    ensures var k := StopAt(o, fed, chunk, j);
      j <= k <= |chunk| &&
      (forall i :: j <= i < k ==> !o.inputFull(fed + chunk[..i])) &&
      (forall i :: j < i < k ==> !o.rejects(fed + chunk[..i])) &&
      (k == |chunk| || o.inputFull(fed + chunk[..k]) || (k > j && o.rejects(fed + chunk[..k])))
    decreases |chunk| - j
  {
    if j == |chunk| || o.inputFull(fed + chunk[..j]) {
    } else if o.rejects(fed + chunk[..j + 1]) {
    } else {
      StopAtStops(o, fed, chunk, j + 1);
    }
  }

  lemma MovedStops(o: Oracle, fed: seq<byte>, chunk: seq<byte>)
    ensures var k := Moved(o, fed, chunk);
      k <= |chunk| &&
      (forall i :: 0 <= i < k ==> !o.inputFull(fed + chunk[..i])) &&
      (forall i :: 0 < i < k ==> !o.rejects(fed + chunk[..i])) &&
      (k == |chunk| || o.inputFull(fed + chunk[..k]) || (k > 0 && o.rejects(fed + chunk[..k])))
  {
    StopAtStops(o, fed, chunk, 0);
  }

  /** The engine of `r` is that of `b` after processInput ran once per byte of `bytes`:
      the input history grew by exactly those bytes, and the collector, the pending
      output and the closed flag by what the engine answered after each of them. */
  predicate Processed(o: Oracle, b: Bridge, bytes: seq<byte>, r: Bridge)
  {
    var fed := b.engine.fed;
    r.engine.fed == fed + bytes &&
    r.engine.events == b.engine.events + Emitted(o.emits, fed, bytes) &&
    r.engine.output == b.engine.output + Emitted(o.replies, fed, bytes) &&
    (r.engine.closed <==> b.engine.closed || ClosedBy(o.inputCloses, fed, bytes))
  }

  /** Feeding byte `j` processes one more byte of the chunk. */
  lemma FeedStep(env: Env, b0: Bridge, chunk: seq<byte>, j: nat, b: Bridge)
    requires j < |chunk| && Processed(env.oracle, b0, chunk[..j], b)
    ensures Processed(env.oracle, b0, chunk[..j + 1], Feed(env, b, chunk[j]))
    ensures Feed(env, b, chunk[j]).failed <==> b.failed || env.oracle.rejects(b0.engine.fed + chunk[..j + 1])
  {
    var s := chunk[..j + 1];
    assert s == chunk[..j] + [chunk[j]];
    assert s[..|s| - 1] == chunk[..j];
    assert b0.engine.fed + s == b.engine.fed + [chunk[j]];
  }

  /** The pump from position `j` of the chunk onwards. */
  lemma {:induction false} PumpFrom(env: Env, b0: Bridge, chunk: seq<byte>, j: nat, b: Bridge)
    requires j <= |chunk| && !b.failed
    requires Processed(env.oracle, b0, chunk[..j], b)
    ensures var k := StopAt(env.oracle, b0.engine.fed, chunk, j);
      var r := Pump(env, b, chunk[j..]);
      k <= |chunk| && Processed(env.oracle, b0, chunk[..k], r) &&
      (r.failed <==> k > j && env.oracle.rejects(b0.engine.fed + chunk[..k]))
    decreases |chunk| - j
  {
    var o := env.oracle;
    var fed0 := b0.engine.fed;
    if j == |chunk| || o.inputFull(fed0 + chunk[..j]) {
      assert StopAt(o, fed0, chunk, j) == j;
      assert Pump(env, b, chunk[j..]) == b;
    } else {
      var f := Feed(env, b, chunk[j]);
      FeedStep(env, b0, chunk, j, b);
      assert chunk[j..] != [] && chunk[j..][0] == chunk[j] && chunk[j..][1..] == chunk[j + 1..];
      assert Pump(env, b, chunk[j..]) == Pump(env, f, chunk[j + 1..]);
      if o.rejects(fed0 + chunk[..j + 1]) {
        assert StopAt(o, fed0, chunk, j) == j + 1;
        assert Pump(env, f, chunk[j + 1..]) == f;
      } else {
        assert StopAt(o, fed0, chunk, j) == StopAt(o, fed0, chunk, j + 1);
        PumpFrom(env, b0, chunk, j + 1, f);
      }
    }
  }

  /** pumpInbound moves exactly the first Moved bytes of the chunk into the engine, one
      processInput each, and never the rest; the collector, the pending output and the
      closed flag gain exactly what those processInput calls produce; the bridge fails
      exactly when the last byte moved was rejected. Nothing outside the failed flag and
      what processInput changes is touched. */
  lemma PumpMovesPrefix(env: Env, b: Bridge, chunk: seq<byte>)
    requires !b.failed
    ensures var k := Moved(env.oracle, b.engine.fed, chunk);
      var r := Pump(env, b, chunk);
      k <= |chunk| && Processed(env.oracle, b, chunk[..k], r) &&
      (r.failed <==> k > 0 && env.oracle.rejects(b.engine.fed + chunk[..k])) &&
      InputOnly(b, r)
  {
    assert chunk[..0] == [] && chunk[0..] == chunk;
    assert b.engine.fed == b.engine.fed + chunk[..0];
    assert Processed(env.oracle, b, chunk[..0], b);
    PumpFrom(env, b, chunk, 0, b);
  }

  // ================================================================ dispatch loop

  /** Every action of `t` is a wrapper callback or a timer being scheduled. */
  predicate DispatchActions(t: seq<Action>)
  {
    forall i :: 0 <= i < |t| ==> t[i].Fired? || t[i].SetTimer?
  }


  /** Handling one event that does not throw: its callbacks, possibly a scheduled
      idle-timeout check, and the failed flag set exactly by a transport error. */
  lemma ApplyEffect(env: Env, b: Bridge, e: Event, now: int)
    requires !RouteOf(e).Crash?
    ensures b.trace <= Apply(env, b, e, now).trace
    ensures var r := Apply(env, b, e, now);
      Notices(r.trace[|b.trace|..]) == Invoked(RouteOf(e)) &&
      DispatchActions(r.trace[|b.trace|..]) &&
      (r.failed <==> b.failed || e == TransportError) &&
      (TimerFresh(b) ==> TimerFresh(r)) && b.nextTimerId <= r.nextTimerId
  {
    var r := Apply(env, b, e, now);
    var d := r.trace[|b.trace|..];
    match RouteOf(e)
    case Notify(c) => {
      assert d == [Fired(c)];
    }
    case OpenAndArm => {
      var t := TickAt(env.oracle, b.engine, now);
      if t.deadline > 0 {
        assert d == [Fired(FireRemoteOpen), SetTimer(b.nextTimerId, t.deadline - now)];
        assert d == [Fired(FireRemoteOpen)] + [SetTimer(b.nextTimerId, t.deadline - now)];
        NoticesAppend([Fired(FireRemoteOpen)], [SetTimer(b.nextTimerId, t.deadline - now)]);
      } else {
        assert d == [Fired(FireRemoteOpen)];
      }
    }
    case MarkFailed => {
      assert d == [];
    }
    case Skip => {
      assert d == [];
    }
  }

  /** A remote connection open fires remote-open on the connection wrapper and then
      starts the idle-timeout checks: it ticks at `now` and schedules a check after
      deadline - now exactly when the deadline is positive. */
  lemma RemoteOpenArms(env: Env, b: Bridge, now: int)
    ensures var t := TickAt(env.oracle, b.engine, now);
      var r := Apply(env, b, ConnectionRemoteOpen, now);
      r.trace == b.trace + [Fired(FireRemoteOpen)] +
                 (if t.deadline > 0 then [SetTimer(b.nextTimerId, t.deadline - now)] else []) &&
      r.engine.ticks == b.engine.ticks + [now] &&
      r.timerId == (if t.deadline > 0 then Some(b.nextTimerId) else b.timerId) &&
      r.failed == b.failed
  {
  }

  /** A transport error only sets the failed flag; a local, init, bound, unbound or final
      event, or one the switch does not list, changes nothing and records nothing. */
  lemma SilentEventsChangeNothing(env: Env, b: Bridge, e: Event, now: int)
    requires e.TransportError? || e.Quiet?
    ensures Apply(env, b, e, now) == (if e.TransportError? then b.(failed := true) else b)
  {
  }

  lemma DispatchActionsAppend(a: seq<Action>, b: seq<Action>)
    requires DispatchActions(a) && DispatchActions(b)
    ensures DispatchActions(a + b)
  {
  }

  /** What handling `handled` took the bridge from `b` to `r`: exactly the callbacks of
      those events, in order, and nothing but callbacks and timers; failed exactly when
      already failed or one of the events was a transport error; the engine's input,
      the authenticator and the outstanding callbacks untouched; timer ids fresh. */
  predicate HandledBy(b: Bridge, r: Bridge, handled: seq<Event>)
  {
    b.trace <= r.trace &&
    Notices(r.trace[|b.trace|..]) == Handled(handled) &&
    DispatchActions(r.trace[|b.trace|..]) &&
    (r.failed <==> b.failed || TransportError in handled) &&
    r.engine.fed == b.engine.fed && r.authenticator == b.authenticator &&
    r.saslPending == b.saslPending && (TimerFresh(b) ==> TimerFresh(r))
  }

  lemma HandledByCompose(b: Bridge, h: Bridge, r: Bridge, e: Event, rest: seq<Event>)
    requires HandledBy(b, h, [e]) && HandledBy(h, r, rest)
    ensures HandledBy(b, r, [e] + rest)
  {
    SliceAppend(b.trace, h.trace, r.trace);
    NoticesAppend(h.trace[|b.trace|..], r.trace[|h.trace|..]);
    DispatchActionsAppend(h.trace[|b.trace|..], r.trace[|h.trace|..]);
    HandledAppend([e], rest);
    assert TransportError in [e] + rest <==> e == TransportError || TransportError in rest;
  }

  /** One iteration of the dispatch loop: handle the head event, then pop it. */
  function Step(env: Env, b: Bridge, now: int): Bridge
    requires b.engine.events != [] && !RouteOf(b.engine.events[0]).Crash?
  {
    var h := Apply(env, b, b.engine.events[0], now);
    h.(engine := Pop(h.engine))
  }

  lemma DrainStep(env: Env, b: Bridge, now: int)
    requires b.engine.events != [] && !RouteOf(b.engine.events[0]).Crash?
    ensures Drain(env, b, now) == Drain(env, Step(env, b, now), now)
    ensures Step(env, b, now).engine.events == b.engine.events[1..]
    ensures HandledBy(b, Step(env, b, now), [b.engine.events[0]])
  {
    var e := b.engine.events[0];
    ApplyEffect(env, b, e, now);
    assert Handled([e]) == Invoked(RouteOf(e)) + Handled([]);
  }

  /** When no queued event makes its handler throw, the dispatch loop empties the
      collector and handles every event exactly once, in queue order: the callbacks it
      invokes are those of the events one after another. The bridge is failed afterwards
      exactly when it was before or a transport error was queued. */
  lemma {:induction false} DrainCompletes(env: Env, b: Bridge, now: int)
    requires !AnyCrash(b.engine.events)
    ensures Drain(env, b, now).Done?
    ensures Drain(env, b, now).state.engine.events == []
    ensures HandledBy(b, Drain(env, b, now).state, b.engine.events)
    decreases |b.engine.events|
  {
    var events := b.engine.events;
    if events == [] {
      assert b.trace[|b.trace|..] == [];
    } else {
      var e := events[0];
      var rest := events[1..];
      NoCrashTail(events);
      DrainStep(env, b, now);
      var s := Step(env, b, now);
      DrainCompletes(env, s, now);
      HandledByCompose(b, s, Drain(env, s, now).state, e, rest);
      assert [e] + rest == events;
    }
  }

  /** A queue without a throwing event has none at its head and none in its tail. */
  lemma NoCrashTail(events: seq<Event>)
    requires events != [] && !AnyCrash(events)
    ensures !RouteOf(events[0]).Crash? && !AnyCrash(events[1..])
  {
    assert RouteOf(events[0]).Crash? ==> AnyCrash(events);
    forall i | 0 <= i < |events| - 1 ensures !RouteOf(events[1..][i]).Crash? {
      assert events[1..][i] == events[i + 1];
    }
  }

  /** A queue with a throwing event that does not throw at its head has one in its tail. */
  lemma CrashInTail(events: seq<Event>)
    requires AnyCrash(events) && !RouteOf(events[0]).Crash?
    ensures AnyCrash(events[1..])
  {
    var i :| 0 <= i < |events| && RouteOf(events[i]).Crash?;
    assert i > 0 && events[1..][i - 1] == events[i];
  }

  /** The position of the first event of `events` whose handler throws. */
  function FirstCrash(events: seq<Event>): (k: nat)
    requires AnyCrash(events)
    ensures k < |events| && RouteOf(events[k]).Crash?
    ensures forall i :: 0 <= i < k ==> !RouteOf(events[i]).Crash?
  {
    if RouteOf(events[0]).Crash? then 0
    else
      CrashInTail(events);
      var k := FirstCrash(events[1..]);
      assert forall i :: 1 <= i < k + 1 ==> events[i] == events[1..][i - 1];
      k + 1
  }

  /** The dispatch loop over a queue whose events before `s` do not throw and whose
      part `s` starts with one that does. */
  lemma {:induction false} DrainSplit(env: Env, b: Bridge, now: int, p: seq<Event>, s: seq<Event>)
    requires b.engine.events == p + s && !AnyCrash(p) && s != [] && RouteOf(s[0]).Crash?
    ensures Drain(env, b, now).Threw?
    ensures Drain(env, b, now).state.engine.events == s
    ensures HandledBy(b, Drain(env, b, now).state, p)
    decreases |p|
  {
    if p == [] {
      assert b.engine.events == s;
      assert b.trace[|b.trace|..] == [];
    } else {
      NoCrashTail(p);
      assert b.engine.events[0] == p[0] && b.engine.events[1..] == p[1..] + s;
      DrainStep(env, b, now);
      var st := Step(env, b, now);
      DrainSplit(env, st, now, p[1..], s);
      HandledByCompose(b, st, Drain(env, st, now).state, p[0], p[1..]);
      assert [p[0]] + p[1..] == p;
    }
  }

  /** When some queued event makes its handler throw, the dispatch loop stops with the
      first such event still at the head of the collector, after popping exactly the
      events before it, and has handled exactly those. */
  lemma DrainStopsAtCrash(env: Env, b: Bridge, now: int)
    requires AnyCrash(b.engine.events)
    ensures Drain(env, b, now).Threw?
    ensures var k := FirstCrash(b.engine.events);
      var r := Drain(env, b, now).state;
      r.engine.events == b.engine.events[k..] &&
      r.engine.events != [] && RouteOf(r.engine.events[0]).Crash? &&
      !AnyCrash(b.engine.events[..k]) &&
      HandledBy(b, r, b.engine.events[..k])
  {
    var events := b.engine.events;
    var k := FirstCrash(events);
    assert events == events[..k] + events[k..];
    assert events[k..][0] == events[k];
    DrainSplit(env, b, now, events[..k], events[k..]);
  }

  // ================================================================ output flush

  /** One socket write per output window, in order. */
  function Writes(slices: seq<Slice>): seq<Action>
  {
    if slices == [] then [] else [Write(slices[0])] + Writes(slices[1..])
  }

  /** flush changes only the pending output, the windows consumed and the trace. */
  lemma {:induction false} FlushFrame(b: Bridge)
    ensures var f := Flush(b);
      f == b.(engine := b.engine.(output := f.engine.output, sent := f.engine.sent), trace := f.trace)
    decreases |b.engine.output|
  {
    if b.engine.output != [] {
      FlushFrame(b.(engine := OutputConsumed(b.engine), trace := b.trace + [Write(b.engine.output[0])]));
    }
  }

  /** flush consumes every pending window, in order. */
  lemma {:induction false} FlushOutput(b: Bridge)
    ensures Flush(b).engine.output == []
    ensures Flush(b).engine.sent == b.engine.sent + b.engine.output
    decreases |b.engine.output|
  {
    var out := b.engine.output;
    if out != [] {
      var b1 := b.(engine := OutputConsumed(b.engine), trace := b.trace + [Write(out[0])]);
      assert Flush(b) == Flush(b1);
      FlushOutput(b1);
      assert b.engine.sent + out == b.engine.sent + [out[0]] + out[1..];
    }
  }

  /** flush writes every pending window, in order. */
  lemma {:induction false} FlushTrace(b: Bridge)
    ensures Flush(b).trace == b.trace + Writes(b.engine.output)
    decreases |b.engine.output|
  {
    var out := b.engine.output;
    if out != [] {
      var b1 := b.(engine := OutputConsumed(b.engine), trace := b.trace + [Write(out[0])]);
      assert Flush(b) == Flush(b1);
      FlushTrace(b1);
    }
  }

  /** flush writes exactly the pending windows, in order, consuming each after it is
      written, and changes nothing else; it stops with nothing pending, and with nothing
      pending it writes nothing. */
  lemma FlushWrites(b: Bridge)
    ensures Flush(b).engine.output == [] && Flush(b).engine.sent == b.engine.sent + b.engine.output
    ensures Flush(b).trace == b.trace + Writes(b.engine.output)
    ensures Flush(b) == b.(engine := b.engine.(output := [], sent := Flush(b).engine.sent), trace := Flush(b).trace)
    ensures b.engine.output == [] ==> Flush(b) == b
  {
    FlushFrame(b);
    FlushOutput(b);
    FlushTrace(b);
  }

  lemma {:induction false} WritesOnly(slices: seq<Slice>)
    ensures forall i :: 0 <= i < |Writes(slices)| ==> OfKind(Writes(slices)[i], Writing)
  {
    if slices != [] {
      WritesOnly(slices[1..]);
      var w := Writes(slices);
      forall i | 0 <= i < |w| ensures OfKind(w[i], Writing) {
        if i > 0 { assert w[i] == Writes(slices[1..])[i - 1]; }
      }
    }
  }

  // ================================================================ disconnect

  /** disconnect closes exactly one thing: the net client when there is one, the
      socket otherwise. */
  lemma DisconnectClosesOne(env: Env, b: Bridge)
    ensures var r := Disconnect(env, b);
      b.trace <= r.trace && |r.trace| == |b.trace| + 1 &&
      r.trace[|b.trace|] == CloseAction(env) &&
      Count(r.trace[|b.trace|..], Closing) == 1 &&
      r == b.(trace := r.trace)
  {
    var r := Disconnect(env, b);
    assert r.trace[|b.trace|..] == [r.trace[|b.trace|]];
  }

  // ================================================================ authentication gate

  /** Without an authenticator the gate does nothing. With one, it pauses the socket,
      then starts the process step; a callback that runs at once resumes the socket and
      detaches the authenticator exactly when it reports completion. */
  lemma SaslGate(b: Bridge, reply: Option<bool>)
    ensures !b.authenticator ==> ProcessSasl(b, reply) == b
    ensures b.authenticator ==>
      var r := ProcessSasl(b, reply);
      r.trace == b.trace + [Pause, SaslProcess] + (if reply.Some? then [Resume] else []) &&
      (r.authenticator <==> reply != Some(true)) &&
      r.saslPending == b.saslPending + (if reply.Some? then 0 else 1) &&
      r == b.(trace := r.trace, authenticator := r.authenticator, saslPending := r.saslPending)
  {
  }

  /** The completion callback issues exactly one resume and detaches the authenticator
      only on completion; a detached authenticator stays detached. */
  lemma SaslCallbackResumesOnce(b: Bridge, complete: bool)
    ensures var r := SaslCallback(b, complete);
      r.trace == b.trace + [Resume] &&
      (r.authenticator <==> b.authenticator && !complete) &&
      (b.saslPending > 0 ==> r.saslPending == b.saslPending - 1) &&
      Count(r.trace, Resuming) == Count(b.trace, Resuming) + 1
  {
    CountAppend(b.trace, [Resume], Resuming);
  }

  /** The actions of the gate when it runs, counted. */
  lemma GateActions(withResume: bool)
    ensures var d := [Pause, SaslProcess] + (if withResume then [Resume] else []);
      Notices(d) == [] && Count(d, Pausing) == 1 && Count(d, Processing) == 1 &&
      Count(d, Resuming) == (if withResume then 1 else 0) &&
      Count(d, Closing) == 0 && Count(d, Scheduling) == 0
  {
    var tail := if withResume then [Resume] else [];
    var d := [Pause, SaslProcess] + tail;
    assert d == [Pause] + ([SaslProcess] + tail);
    if withResume {
      assert tail == [Resume] + [];
      ConsCounts(Resume, []);
    }
    ConsCounts(SaslProcess, tail);
    ConsCounts(Pause, [SaslProcess] + tail);
  }

  /** Counting a trace that starts with `a`. */
  lemma ConsCounts(a: Action, t: seq<Action>)
    ensures forall k :: Count([a] + t, k) == (if OfKind(a, k) then 1 else 0) + Count(t, k)
    ensures Notices([a] + t) == (if a.Fired? then [a.callback] else []) + Notices(t)
  {
    assert ([a] + t)[0] == a && ([a] + t)[1..] == t;
  }

  /** The gate adds one pause and one process step when an authenticator is attached
      and none otherwise, one resume when its callback ran at once, and keeps the
      outstanding callbacks balanced. */
  lemma SaslDelta(b: Bridge, reply: Option<bool>)
    ensures b.trace <= ProcessSasl(b, reply).trace
    ensures var r := ProcessSasl(b, reply);
      var d := r.trace[|b.trace|..];
      var ran := if b.authenticator then 1 else 0;
      Notices(d) == [] &&
      Count(d, Pausing) == ran && Count(d, Processing) == ran &&
      Count(d, Resuming) == (if b.authenticator && reply.Some? then 1 else 0) &&
      Count(d, Closing) == 0 && Count(d, Scheduling) == 0 &&
      Count(d, Resuming) + r.saslPending == b.saslPending + Count(d, Processing)
    ensures PauseBeforeProcess(b.trace) ==> PauseBeforeProcess(ProcessSasl(b, reply).trace)
  {
    var r := ProcessSasl(b, reply);
    if b.authenticator {
      var d := [Pause, SaslProcess] + (if reply.Some? then [Resume] else []);
      assert r.trace == b.trace + d;
      assert r.trace[|b.trace|..] == d;
      GateActions(reply.Some?);
      if PauseBeforeProcess(b.trace) {
        SaslOrder(b.trace, d);
      }
    } else {
      assert r.trace[|b.trace|..] == [];
    }
  }

  /** Appending a pause, a process step and possibly a resume keeps every process step
      right after its pause. */
  lemma SaslOrder(t: seq<Action>, d: seq<Action>)
    requires PauseBeforeProcess(t)
    requires d == [Pause, SaslProcess] || d == [Pause, SaslProcess, Resume]
    ensures PauseBeforeProcess(t + d)
  {
    var u := t + d;
    var n := |t|;
    forall i | 0 <= i < |u| && u[i] == SaslProcess ensures i > 0 && u[i - 1] == Pause {
      if i < n {
        assert u[i] == t[i];
        assert u[i - 1] == t[i - 1];
      } else {
        assert u[i] == d[i - n];
        assert i == n + 1;
      }
    }
  }

  /** Appending actions that are none of pause, process and resume keeps every process
      step right after its pause. */
  lemma PauseBeforeProcessAppend(t: seq<Action>, d: seq<Action>)
    requires PauseBeforeProcess(t)
    requires forall i :: 0 <= i < |d| ==> d[i] != SaslProcess
    ensures PauseBeforeProcess(t + d)
  {
    var u := t + d;
    forall i | 0 <= i < |u| && u[i] == SaslProcess ensures i > 0 && u[i - 1] == Pause {
      if i < |t| {
        assert u[i] == t[i];
        assert u[i - 1] == t[i - 1];
      }
    }
  }

  /** Counting the actions between three states of a trace that only grows. */
  lemma DeltaAppend(t: seq<Action>, u: seq<Action>, v: seq<Action>)
    requires t <= u <= v
    ensures forall k :: Count(v[|t|..], k) == Count(u[|t|..], k) + Count(v[|u|..], k)
    ensures Notices(v[|t|..]) == Notices(u[|t|..]) + Notices(v[|u|..])
  {
    SliceAppend(t, u, v);
    forall k ensures Count(v[|t|..], k) == Count(u[|t|..], k) + Count(v[|u|..], k) {
      CountAppend(u[|t|..], v[|u|..], k);
    }
    NoticesAppend(u[|t|..], v[|u|..]);
  }

  /** The trace after the dispatch loop, whole: if the bridge has not failed and an
      authenticator is attached, a pause, the process step and, when its callback ran at
      once, a resume; then one write per pending output window, in order; then one close
      exactly when the bridge has failed. Nothing is left pending. */
  lemma AfterDispatchTrace(env: Env, b: Bridge, reply: Option<bool>)
    ensures var r := AfterDispatch(env, b, reply);
      var gate := if !b.failed && b.authenticator
        then [Pause, SaslProcess] + (if reply.Some? then [Resume] else [])
        else [];
      r.trace == b.trace + gate + Writes(b.engine.output) + (if b.failed then [CloseAction(env)] else []) &&
      r.engine.output == []
  {
    var a := if !b.failed then ProcessSasl(b, reply) else b;
    SaslGate(b, reply);
    FlushWrites(a);
  }

  /** What flush appends: socket writes only. */
  lemma FlushDelta(b: Bridge)
    ensures b.trace <= Flush(b).trace
    ensures Flush(b).failed == b.failed && Flush(b).saslPending == b.saslPending
    ensures Flush(b).authenticator == b.authenticator && Flush(b).timerId == b.timerId
    ensures var d := Flush(b).trace[|b.trace|..];
      (forall i :: 0 <= i < |d| ==> OfKind(d[i], Writing)) &&
      (forall k :: k != Writing ==> Count(d, k) == 0) && Notices(d) == []
  {
    FlushFrame(b);
    FlushTrace(b);
    var out := b.engine.output;
    var d := Flush(b).trace[|b.trace|..];
    assert d == Writes(out);
    WritesOnly(out);
    WritesCount(d);
  }

  /** A delta of writes only counts nothing else and notifies nobody. */
  lemma WritesCount(d: seq<Action>)
    requires forall i :: 0 <= i < |d| ==> OfKind(d[i], Writing)
    ensures forall k :: k != Writing ==> Count(d, k) == 0
    ensures Notices(d) == []
  {
    forall k | k != Writing ensures Count(d, k) == 0 {
      forall i | 0 <= i < |d| ensures !OfKind(d[i], k) {
        assert d[i].Write?;
      }
      CountNone(d, k);
    }
    NoticesNone(d);
  }

  lemma DisconnectDelta(env: Env, b: Bridge)
    ensures b.trace <= Disconnect(env, b).trace
    ensures var d := Disconnect(env, b).trace[|b.trace|..];
      Notices(d) == [] && Count(d, Pausing) == 0 && Count(d, Processing) == 0 &&
      Count(d, Resuming) == 0 && Count(d, Closing) == 1 && Count(d, Scheduling) == 0
  {
    var d := Disconnect(env, b).trace[|b.trace|..];
    assert d == [CloseAction(env)];
  }

  /** After the dispatch loop, counted: one pause and one process step when the bridge
      has not failed and has an authenticator, none otherwise; one close exactly when the
      bridge has failed; no wrapper callback and no timer. */
  lemma AfterDispatchCounts(env: Env, b: Bridge, reply: Option<bool>)
    ensures b.trace <= AfterDispatch(env, b, reply).trace
    ensures var r := AfterDispatch(env, b, reply);
      var d := r.trace[|b.trace|..];
      var authed := if !b.failed && b.authenticator then 1 else 0;
      Notices(d) == [] &&
      Count(d, Pausing) == authed && Count(d, Processing) == authed &&
      Count(d, Closing) == (if b.failed then 1 else 0) &&
      Count(d, Scheduling) == 0 &&
      Count(d, Resuming) + r.saslPending == b.saslPending + Count(d, Processing)
  {
    var a := if !b.failed then ProcessSasl(b, reply) else b;
    var f := Flush(a);
    var r := AfterDispatch(env, b, reply);
    if !b.failed {
      SaslDelta(b, reply);
    } else {
      assert a.trace[|b.trace|..] == [];
    }
    FlushDelta(a);
    DeltaAppend(b.trace, a.trace, f.trace);
    assert f.failed == b.failed && f.saslPending == a.saslPending;
    if b.failed {
      DisconnectDelta(env, f);
      DeltaAppend(b.trace, f.trace, r.trace);
    } else {
      assert r == f;
      assert r.trace[|f.trace|..] == [];
    }
  }

  /** After the dispatch loop, the state: flush has written and consumed every pending
      window, disconnect, when it runs, is the last action, and the authenticator is
      detached exactly when it ran and reported completion at once. Failed flag, timer
      and the rest of the engine stay as they were. */
  lemma AfterDispatchState(env: Env, b: Bridge, reply: Option<bool>)
    ensures var r := AfterDispatch(env, b, reply);
      r.failed == b.failed && r.timerId == b.timerId && r.nextTimerId == b.nextTimerId &&
      r.engine == b.engine.(output := [], sent := b.engine.sent + b.engine.output) &&
      (b.failed ==> |r.trace| > 0 && OfKind(r.trace[|r.trace| - 1], Closing)) &&
      (r.authenticator <==> b.authenticator && !(!b.failed && reply == Some(true)))
  {
    var a := if !b.failed then ProcessSasl(b, reply) else b;
    FlushWrites(a);
  }

  /** After the dispatch loop every process step still comes right after its pause. */
  lemma AfterDispatchOrder(env: Env, b: Bridge, reply: Option<bool>)
    requires PauseBeforeProcess(b.trace)
    ensures PauseBeforeProcess(AfterDispatch(env, b, reply).trace)
  {
    var a := if !b.failed then ProcessSasl(b, reply) else b;
    var f := Flush(a);
    var r := AfterDispatch(env, b, reply);
    if !b.failed {
      SaslDelta(b, reply);
    }
    assert PauseBeforeProcess(a.trace);
    FlushDelta(a);
    var d := f.trace[|a.trace|..];
    assert f.trace == a.trace + d;
    PauseBeforeProcessAppend(a.trace, d);
    if b.failed {
      var c := [CloseAction(env)];
      assert r.trace == f.trace + c;
      PauseBeforeProcessAppend(f.trace, c);
    }
  }

  lemma {:induction false} CountZero(t: seq<Action>, k: Kind)
    requires Count(t, k) == 0
    ensures forall i :: 0 <= i < |t| ==> !OfKind(t[i], k)
  {
    if t != [] {
      CountZero(t[1..], k);
      forall i | 0 <= i < |t| ensures !OfKind(t[i], k) {
        if i > 0 { assert t[i] == t[1..][i - 1]; }
      }
    }
  }

  lemma DispatchCounts(t: seq<Action>)
    requires DispatchActions(t)
    ensures Count(t, Pausing) == 0 && Count(t, Processing) == 0 && Count(t, Resuming) == 0
    ensures Count(t, Closing) == 0 && Count(t, Writing) == 0
  {
    CountNone(t, Pausing);
    CountNone(t, Processing);
    CountNone(t, Resuming);
    CountNone(t, Closing);
    CountNone(t, Writing);
  }

  // ================================================================ handleSocketBuffer

  /** A socket buffer whose pumping queues no event that makes its handler throw: the
      collector ends empty; the callbacks are those of the queued events in queue order;
      the bridge ends failed exactly when the pump or a queued transport error failed it
      (or it already was); it authenticated once if it is not failed and has an
      authenticator and not at all otherwise; flush left nothing pending;
      and it closed exactly one thing, last, exactly when it is failed. */
  lemma HandleSocketBufferCompletes(env: Env, b: Bridge, chunk: seq<byte>, now: int, reply: Option<bool>)
    requires !AnyCrash(Pump(env, b, chunk).engine.events)
    ensures HandleSocketBuffer(env, b, chunk, now, reply).Done?
    ensures b.trace <= HandleSocketBuffer(env, b, chunk, now, reply).state.trace
    ensures var p := Pump(env, b, chunk);
      var s := HandleSocketBuffer(env, b, chunk, now, reply).state;
      var d := s.trace[|b.trace|..];
      var authed := if !s.failed && b.authenticator then 1 else 0;
      s.engine.events == [] && s.engine.fed == p.engine.fed &&
      Notices(d) == Handled(p.engine.events) &&
      (s.failed <==> p.failed || TransportError in p.engine.events) &&
      Count(d, Pausing) == authed && Count(d, Processing) == authed &&
      Count(d, Closing) == (if s.failed then 1 else 0) &&
      (s.failed ==> OfKind(s.trace[|s.trace| - 1], Closing)) &&
      s.engine.output == [] &&
      (s.authenticator <==> b.authenticator && !(!s.failed && reply == Some(true)))
  {
    var p := Pump(env, b, chunk);
    DrainCompletes(env, p, now);
    var m := Drain(env, p, now).state;
    AfterDispatchCounts(env, m, reply);
    AfterDispatchState(env, m, reply);
    var s := AfterDispatch(env, m, reply);
    DispatchCounts(m.trace[|b.trace|..]);
    DeltaAppend(b.trace, m.trace, s.trace);
  }

  /** A socket buffer whose pumping queues an event that makes its handler throw: the
      exception leaves the bridge as the dispatch loop had it at the throw; there is no
      authentication, write or close. */
  lemma HandleSocketBufferThrows(env: Env, b: Bridge, chunk: seq<byte>, now: int, reply: Option<bool>)
    requires AnyCrash(Pump(env, b, chunk).engine.events)
    ensures HandleSocketBuffer(env, b, chunk, now, reply).Threw?
    ensures HandleSocketBuffer(env, b, chunk, now, reply).state == Drain(env, Pump(env, b, chunk), now).state
    ensures b.trace <= HandleSocketBuffer(env, b, chunk, now, reply).state.trace
    ensures var s := HandleSocketBuffer(env, b, chunk, now, reply).state;
      var d := s.trace[|b.trace|..];
      s.engine.events != [] && RouteOf(s.engine.events[0]).Crash? &&
      Count(d, Pausing) == 0 && Count(d, Processing) == 0 && Count(d, Closing) == 0 &&
      Count(d, Writing) == 0 && s.authenticator == b.authenticator
  {
    var p := Pump(env, b, chunk);
    DrainStopsAtCrash(env, p, now);
    var s := Drain(env, p, now).state;
    DispatchCounts(s.trace[|b.trace|..]);
  }

  /** Once failed, a socket buffer forwards no byte to the engine and the bridge stays
      failed; a completed cycle does not authenticate and disconnects once. */
  lemma FailedBridgeForwardsNothing(env: Env, b: Bridge, chunk: seq<byte>, now: int, reply: Option<bool>)
    requires b.failed
    ensures var r := HandleSocketBuffer(env, b, chunk, now, reply);
      r.state.engine.fed == b.engine.fed && r.state.failed
    ensures var r := HandleSocketBuffer(env, b, chunk, now, reply);
      r.Done? ==> (b.trace <= r.state.trace &&
                   Count(r.state.trace[|b.trace|..], Processing) == 0 &&
                   Count(r.state.trace[|b.trace|..], Closing) == 1)
  {
    assert Pump(env, b, chunk) == b;
    if AnyCrash(b.engine.events) {
      HandleSocketBufferThrows(env, b, chunk, now, reply);
      DrainStopsAtCrash(env, b, now);
    } else {
      HandleSocketBufferCompletes(env, b, chunk, now, reply);
    }
  }

  /** Once the authenticator is detached, no later socket buffer invokes it again and it
      stays detached. */
  lemma DetachedStaysDetached(env: Env, b: Bridge, chunk: seq<byte>, now: int, reply: Option<bool>)
    requires !b.authenticator
    ensures var r := HandleSocketBuffer(env, b, chunk, now, reply);
      !r.state.authenticator && b.trace <= r.state.trace &&
      Count(r.state.trace[|b.trace|..], Processing) == 0 &&
      Count(r.state.trace[|b.trace|..], Pausing) == 0
  {
    if AnyCrash(Pump(env, b, chunk).engine.events) {
      HandleSocketBufferThrows(env, b, chunk, now, reply);
    } else {
      HandleSocketBufferCompletes(env, b, chunk, now, reply);
    }
  }

  /** Failure is sticky: no operation clears the failed flag. */
  lemma FailedIsSticky(env: Env, b: Bridge, chunk: seq<byte>, now: int, reply: Option<bool>,
                       local: EndpointState, complete: bool)
    requires b.failed
    ensures Pump(env, b, chunk).failed
    ensures HandleSocketBuffer(env, b, chunk, now, reply).state.failed
    ensures IdleCheck(env, b, now, local).failed
    ensures Flush(b).failed && Disconnect(env, b).failed && SocketEnd(env, b).failed
    ensures SaslCallback(b, complete).failed
  {
    FailedBridgeForwardsNothing(env, b, chunk, now, reply);
    FlushDelta(b);
    if local == Active {
      IdleCheckActive(env, b, now);
    }
  }

  // ================================================================ idle timeout

  /** initiateIdleTimeoutChecks ticks the engine at `now` and schedules a check exactly
      when the deadline is positive, after deadline - now; otherwise the timer id stays. */
  lemma InitiateSchedules(env: Env, b: Bridge, now: int)
    ensures var t := TickAt(env.oracle, b.engine, now);
      var r := Initiate(env, b, now);
      r.engine == Ticked(env.oracle, b.engine, now) &&
      r.trace == b.trace + (if t.deadline > 0 then [SetTimer(b.nextTimerId, t.deadline - now)] else []) &&
      r.timerId == (if t.deadline > 0 then Some(b.nextTimerId) else b.timerId) &&
      r.failed == b.failed && r.authenticator == b.authenticator && r.saslPending == b.saslPending
  {
  }

  /** A check that fires while the connection is not locally active does not tick, does
      not reschedule, and only clears the timer id. */
  lemma IdleCheckInactive(env: Env, b: Bridge, now: int, local: EndpointState)
    requires local != Active
    ensures IdleCheck(env, b, now, local) == b.(timerId := None)
  {
  }

  /** A check that fires while the connection is active ticks at `now` and flushes; if
      the engine is then closed it disconnects once, as the last action, and reschedules
      nothing; otherwise it reschedules exactly when the deadline is positive, after
      deadline - now. The timer id is cleared exactly when nothing was rescheduled. */
  lemma IdleCheckActive(env: Env, b: Bridge, now: int)
    ensures b.trace <= IdleCheck(env, b, now, Active).trace
    ensures var t := TickAt(env.oracle, b.engine, now);
      var r := IdleCheck(env, b, now, Active);
      var d := r.trace[|b.trace|..];
      var rescheduled := !r.engine.closed && t.deadline > 0;
      r.engine.ticks == b.engine.ticks + [now] &&
      (r.engine.closed <==> b.engine.closed || t.closes) &&
      r.engine.output == [] &&
      Count(d, Closing) == (if r.engine.closed then 1 else 0) &&
      (r.engine.closed ==> OfKind(r.trace[|r.trace| - 1], Closing)) &&
      Count(d, Scheduling) == (if rescheduled then 1 else 0) &&
      (r.timerId.Some? <==> rescheduled) &&
      (rescheduled ==> r.timerId == Some(b.nextTimerId) &&
                       r.trace[|r.trace| - 1] == SetTimer(b.nextTimerId, t.deadline - now)) &&
      Notices(d) == [] && Count(d, Pausing) == 0 && Count(d, Processing) == 0 &&
      Count(d, Resuming) == 0 &&
      r.failed == b.failed && r.authenticator == b.authenticator && r.saslPending == b.saslPending
  {
    IdleCheckEngine(env, b, now);
    IdleCheckActions(env, b, now);
  }

  /** The engine and the flags after an active check: ticked at `now`, flushed, closed
      exactly when it was or the tick closed it; the flags untouched. */
  lemma IdleCheckEngine(env: Env, b: Bridge, now: int)
    ensures var t := TickAt(env.oracle, b.engine, now);
      var r := IdleCheck(env, b, now, Active);
      r.engine.ticks == b.engine.ticks + [now] &&
      (r.engine.closed <==> b.engine.closed || t.closes) &&
      r.engine.output == [] &&
      r.failed == b.failed && r.authenticator == b.authenticator && r.saslPending == b.saslPending
  {
    var ticked := b.(engine := Ticked(env.oracle, b.engine, now));
    FlushFrame(ticked);
    FlushOutput(ticked);
  }

  /** What an active check appends after its flush: a close if the engine is closed,
      otherwise a timer if the deadline is positive, otherwise nothing. */
  function IdleTail(env: Env, closed: bool, deadline: int, id: nat, delay: int): seq<Action>
  {
    if closed then [CloseAction(env)]
    else if deadline > 0 then [SetTimer(id, delay)]
    else []
  }

  lemma IdleTailCounts(env: Env, closed: bool, deadline: int, id: nat, delay: int)
    ensures var tail := IdleTail(env, closed, deadline, id, delay);
      (forall k :: Count(tail, k) ==
         (if closed && k == Closing then 1 else 0) +
         (if !closed && deadline > 0 && k == Scheduling then 1 else 0)) &&
      Notices(tail) == [] &&
      (closed ==> |tail| == 1 && OfKind(tail[0], Closing)) &&
      (!closed && deadline > 0 ==> tail == [SetTimer(id, delay)])
  {
    var tail := IdleTail(env, closed, deadline, id, delay);
    if tail != [] {
      assert tail == [tail[0]] + [];
      ConsCounts(tail[0], []);
    }
  }

  /** Counting a delta made of writes followed by `tail`: any kind but writes is
      counted in the tail alone. */
  lemma WritesThenTail(t0: seq<Action>, t1: seq<Action>, tail: seq<Action>)
    requires t0 <= t1
    requires forall i :: 0 <= i < |t1[|t0|..]| ==> OfKind(t1[|t0|..][i], Writing)
    ensures forall k :: k != Writing ==> Count((t1 + tail)[|t0|..], k) == Count(tail, k)
    ensures Notices((t1 + tail)[|t0|..]) == Notices(tail)
  {
    var d := t1[|t0|..];
    assert (t1 + tail)[|t0|..] == d + tail;
    WritesCount(d);
    forall k | k != Writing ensures Count((t1 + tail)[|t0|..], k) == Count(tail, k) {
      CountAppend(d, tail, k);
    }
    NoticesAppend(d, tail);
  }

  /** The actions of an active check: the flush's writes, then one close if the engine
      is closed, or one timer if not and the deadline is positive, or nothing. */
  lemma IdleCheckActions(env: Env, b: Bridge, now: int)
    ensures b.trace <= IdleCheck(env, b, now, Active).trace
    ensures var t := TickAt(env.oracle, b.engine, now);
      var r := IdleCheck(env, b, now, Active);
      var d := r.trace[|b.trace|..];
      var closed := r.engine.closed;
      var rescheduled := !closed && t.deadline > 0;
      Count(d, Closing) == (if closed then 1 else 0) &&
      (closed ==> OfKind(r.trace[|r.trace| - 1], Closing)) &&
      Count(d, Scheduling) == (if rescheduled then 1 else 0) &&
      (r.timerId.Some? <==> rescheduled) &&
      (rescheduled ==> r.timerId == Some(b.nextTimerId) &&
                       r.trace[|r.trace| - 1] == SetTimer(b.nextTimerId, t.deadline - now)) &&
      Notices(d) == [] && Count(d, Pausing) == 0 && Count(d, Processing) == 0 &&
      Count(d, Resuming) == 0
  {
    var t := TickAt(env.oracle, b.engine, now);
    var ticked := b.(engine := Ticked(env.oracle, b.engine, now));
    FlushDelta(ticked);
    FlushFrame(ticked);
    FinishActions(env, b.trace, Flush(ticked), t.deadline, now);
  }

  /** The last steps of an active check after writes-only output since `t0`: the trace
      gains the idle tail, the engine and flags stay, and the timer id is the new one
      exactly when a check was rescheduled. */
  lemma FinishShape(env: Env, f: Bridge, deadline: int, now: int)
    ensures var r := IdleFinish(env, f, deadline, now);
      var tail := IdleTail(env, f.engine.closed, deadline, f.nextTimerId, deadline - now);
      r.trace == f.trace + tail && r.engine == f.engine &&
      (r.timerId.Some? <==> !f.engine.closed && deadline > 0) &&
      (r.timerId.Some? ==> r.timerId == Some(f.nextTimerId))
  {
  }

  lemma FinishActions(env: Env, t0: seq<Action>, f: Bridge, deadline: int, now: int)
    requires t0 <= f.trace
    requires forall i :: 0 <= i < |f.trace[|t0|..]| ==> OfKind(f.trace[|t0|..][i], Writing)
    ensures var r := IdleFinish(env, f, deadline, now);
      var d := r.trace[|t0|..];
      var closed := f.engine.closed;
      var rescheduled := !closed && deadline > 0;
      t0 <= r.trace &&
      Count(d, Closing) == (if closed then 1 else 0) &&
      (closed ==> OfKind(r.trace[|r.trace| - 1], Closing)) &&
      Count(d, Scheduling) == (if rescheduled then 1 else 0) &&
      (r.timerId.Some? <==> rescheduled) &&
      (rescheduled ==> r.timerId == Some(f.nextTimerId) &&
                       r.trace[|r.trace| - 1] == SetTimer(f.nextTimerId, deadline - now)) &&
      Notices(d) == [] && Count(d, Pausing) == 0 && Count(d, Processing) == 0 &&
      Count(d, Resuming) == 0
  {
    var r := IdleFinish(env, f, deadline, now);
    var closed := f.engine.closed;
    var tail := IdleTail(env, closed, deadline, f.nextTimerId, deadline - now);
    FinishShape(env, f, deadline, now);
    WritesThenTail(t0, f.trace, tail);
    TailKinds(env, r.trace[|t0|..], closed, deadline, f.nextTimerId, deadline - now);
    IdleTailCounts(env, closed, deadline, f.nextTimerId, deadline - now);
    if tail != [] {
      assert r.trace[|r.trace| - 1] == tail[0];
    }
  }

  /** A delta that agrees with an idle tail on every kind but writes, and on notices,
      counts what the tail counts. */
  lemma TailKinds(env: Env, d: seq<Action>, closed: bool, deadline: int, id: nat, delay: int)
    requires var tail := IdleTail(env, closed, deadline, id, delay);
      (forall k :: k != Writing ==> Count(d, k) == Count(tail, k)) && Notices(d) == Notices(tail)
    ensures Count(d, Closing) == (if closed then 1 else 0)
    ensures Count(d, Scheduling) == (if !closed && deadline > 0 then 1 else 0)
    ensures Notices(d) == [] && Count(d, Pausing) == 0 && Count(d, Processing) == 0 &&
      Count(d, Resuming) == 0
  {
    var tail := IdleTail(env, closed, deadline, id, delay);
    IdleTailCounts(env, closed, deadline, id, delay);
    assert Count(d, Closing) == Count(tail, Closing);
    assert Count(d, Scheduling) == Count(tail, Scheduling);
    assert Count(d, Pausing) == Count(tail, Pausing);
    assert Count(d, Processing) == Count(tail, Processing);
    assert Count(d, Resuming) == Count(tail, Resuming);
  }

  /** Socket end cancels no idle-timeout check and leaves the engine as it was, so a check
      that fires after it computes what it would have computed before it, the teardown
      actions aside. In particular a check whose tick neither finds nor makes the
      transport closed reschedules itself after socket end. */
  lemma {:induction false} IdleCheckAfterSocketEnd(env: Env, b: Bridge, now: int, local: EndpointState)
    ensures var r := IdleCheck(env, SocketEnd(env, b), now, local);
      var q := IdleCheck(env, b, now, local);
      r.engine == q.engine && r.timerId == q.timerId && r.nextTimerId == q.nextTimerId &&
      r.failed == q.failed && r.authenticator == q.authenticator && r.saslPending == q.saslPending
    ensures var t := TickAt(env.oracle, b.engine, now);
      local == Active && !b.engine.closed && !t.closes && t.deadline > 0 ==>
        IdleCheck(env, SocketEnd(env, b), now, local).timerId == Some(b.nextTimerId)
  {
    var e := SocketEnd(env, b);
    if local == Active {
      var ticked := b.(engine := Ticked(env.oracle, b.engine, now));
      var tickedEnd := e.(engine := Ticked(env.oracle, e.engine, now));
      FlushWrites(ticked);
      FlushWrites(tickedEnd);
      IdleCheckActive(env, b, now);
    }
  }

  // ================================================================ the invariant

  /** A step that appends no pause, process or resume and leaves the outstanding
      callbacks alone keeps the invariant. */
  lemma ValidQuietStep(b: Bridge, r: Bridge)
    requires Valid(b) && b.trace <= r.trace && r.saslPending == b.saslPending && TimerFresh(r)
    requires var d := r.trace[|b.trace|..];
      Count(d, Pausing) == 0 && Count(d, Processing) == 0 && Count(d, Resuming) == 0
    ensures Valid(r)
  {
    var d := r.trace[|b.trace|..];
    assert r.trace == b.trace + d;
    CountAppend(b.trace, d, Pausing);
    CountAppend(b.trace, d, Processing);
    CountAppend(b.trace, d, Resuming);
    CountZero(d, Processing);
    PauseBeforeProcessAppend(b.trace, d);
  }

  lemma ValidInitial(authenticator: bool, engine: Engine)
    ensures Valid(Initial(authenticator, engine))
  {
  }

  lemma ValidHandleSocketBuffer(env: Env, b: Bridge, chunk: seq<byte>, now: int, reply: Option<bool>)
    requires Valid(b)
    ensures Valid(HandleSocketBuffer(env, b, chunk, now, reply).state)
  {
    var p := Pump(env, b, chunk);
    assert Valid(p) && TimerFresh(p);
    if AnyCrash(p.engine.events) {
      DrainStopsAtCrash(env, p, now);
      var m := Drain(env, p, now).state;
      DispatchCounts(m.trace[|p.trace|..]);
      ValidQuietStep(p, m);
    } else {
      DrainCompletes(env, p, now);
      var m := Drain(env, p, now).state;
      DispatchCounts(m.trace[|p.trace|..]);
      ValidQuietStep(p, m);
      var s := AfterDispatch(env, m, reply);
      AfterDispatchCounts(env, m, reply);
      AfterDispatchState(env, m, reply);
      AfterDispatchOrder(env, m, reply);
      var d := s.trace[|m.trace|..];
      assert s.trace == m.trace + d;
      CountAppend(m.trace, d, Pausing);
      CountAppend(m.trace, d, Processing);
      CountAppend(m.trace, d, Resuming);
    }
  }

  lemma ValidSaslCallback(b: Bridge, complete: bool)
    requires Valid(b) && b.saslPending > 0
    ensures Valid(SaslCallback(b, complete))
  {
    var r := SaslCallback(b, complete);
    CountAppend(b.trace, [Resume], Pausing);
    CountAppend(b.trace, [Resume], Processing);
    CountAppend(b.trace, [Resume], Resuming);
    PauseBeforeProcessAppend(b.trace, [Resume]);
  }

  lemma ValidIdleCheck(env: Env, b: Bridge, now: int, local: EndpointState)
    requires Valid(b)
    ensures Valid(IdleCheck(env, b, now, local))
  {
    if local == Active {
      IdleCheckActive(env, b, now);
      ValidQuietStep(b, IdleCheck(env, b, now, local));
    }
  }

  lemma ValidFlush(b: Bridge)
    requires Valid(b)
    ensures Valid(Flush(b))
  {
    FlushDelta(b);
    FlushFrame(b);
    ValidQuietStep(b, Flush(b));
  }

  lemma ValidDisconnect(env: Env, b: Bridge)
    requires Valid(b)
    ensures Valid(Disconnect(env, b))
  {
    DisconnectDelta(env, b);
    ValidQuietStep(b, Disconnect(env, b));
  }

  lemma ValidSocketEnd(env: Env, b: Bridge)
    requires Valid(b)
    ensures Valid(SocketEnd(env, b))
  {
    var r := SocketEnd(env, b);
    var c := CloseAction(env);
    var d := [Unbind, TransportClose, c, FireDisconnect];
    assert r.trace == b.trace + d;
    assert r.trace[|b.trace|..] == d;
    TeardownActions(c);
    ValidQuietStep(b, r);
  }

  /** The teardown of handleSocketEnd has no pause, process step or resume. */
  lemma TeardownActions(c: Action)
    requires c == CloseNetClient || c == CloseSocket
    ensures var d := [Unbind, TransportClose, c, FireDisconnect];
      Count(d, Pausing) == 0 && Count(d, Processing) == 0 && Count(d, Resuming) == 0
  {
    var d := [Unbind, TransportClose, c, FireDisconnect];
    forall i | 0 <= i < |d| ensures OfKind(d[i], Teardown) || OfKind(d[i], Closing) {
    }
    CountNone(d, Pausing);
    CountNone(d, Processing);
    CountNone(d, Resuming);
  }
}
