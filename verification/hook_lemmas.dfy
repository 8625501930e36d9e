/** What the hook's handlers promise over whole runs of events. */
module HookLemmas {
  import opened Wrappers
  import opened Json
  import opened HookSpec

  /** Running one more event: the run so far, then that event if it can happen. */
  lemma {:induction false} RunSnoc(s: HookState, events: seq<Event>, e: Event)
    ensures Run(s, events + [e]) ==
      match Run(s, events)
      case None => None
      case Some(t) => if Enabled(t, e) then Some(Step(t, e)) else None
    decreases |events|
  {
    if events == [] {
      assert [e][1..] == [];
    } else {
      assert (events + [e])[0] == events[0];
      assert (events + [e])[1..] == events[1..] + [e];
      if Enabled(s, events[0]) {
        RunSnoc(Step(s, events[0]), events[1..], e);
      }
    }
  }

  /** Running a run that starts with one event: that event, then the rest. */
  lemma RunCons(s: HookState, e: Event, events: seq<Event>)
    ensures Run(s, [e] + events) == if Enabled(s, e) then Run(Step(s, e), events) else None
  {
    assert ([e] + events)[0] == e;
    assert ([e] + events)[1..] == events;
  }

  lemma InitValid()
    ensures Valid(Init())
  {
  }

  lemma {:induction false} RunPreservesValid(s: HookState, events: seq<Event>)
    requires Valid(s)
    ensures Run(s, events).Some? ==> Valid(Run(s, events).value)
    decreases |events|
  {
    if events != [] && Enabled(s, events[0]) {
      RunPreservesValid(Step(s, events[0]), events[1..]);
    }
  }

  /**
    The displayed telemetry is always the value of the last message that parsed, taken whole;
    a message that does not parse, and every other event, leaves it alone.
   */
  lemma {:induction false} TelemetryIsLastParsed(s: HookState, events: seq<Event>)
    ensures Run(s, events).Some? ==> Run(s, events).value.telemetry == LastParsed(events, s.telemetry)
    decreases |events|
  {
    if events != [] {
      var init, e := events[..|events| - 1], events[|events| - 1];
      assert events == init + [e];
      RunSnoc(s, init, e);
      TelemetryIsLastParsed(s, init);
    }
  }

  /** With no message parsed, the telemetry is what it was before. */
  lemma {:induction false} LastParsedWithoutAccepted(events: seq<Event>, before: Json)
    requires Accepted(events) == 0
    ensures LastParsed(events, before) == before
    decreases |events|
  {
    if events != [] {
      LastParsedWithoutAccepted(events[..|events| - 1], before);
    }
  }

  /** The status is CONNECTED exactly when the last `open`/`close` was an `open`; no other event sets it. */
  lemma {:induction false} StatusIsLastLifecycle(s: HookState, events: seq<Event>)
    ensures Run(s, events).Some? ==> Run(s, events).value.status == LastLifecycle(events, s.status)
    decreases |events|
  {
    if events != [] {
      var init, e := events[..|events| - 1], events[|events| - 1];
      assert events == init + [e];
      RunSnoc(s, init, e);
      StatusIsLastLifecycle(s, init);
    }
  }

  /** Between ticks every parsed message adds exactly one to the packet counter and `tps` does not move. */
  lemma {:induction false} PacketsAccumulate(s: HookState, events: seq<Event>)
    requires IntervalTick !in events
    ensures Run(s, events).Some? ==>
      && Run(s, events).value.packetCount == s.packetCount + Accepted(events)
      && Run(s, events).value.tps == s.tps
    decreases |events|
  {
    if events != [] {
      var init, e := events[..|events| - 1], events[|events| - 1];
      assert events == init + [e];
      assert IntervalTick !in init;
      RunSnoc(s, init, e);
      PacketsAccumulate(s, init);
    }
  }

  /**
    A tick publishes the number of messages that parsed since the previous tick and restarts
    the count: N parsed messages give `tps == N`, a silent window gives 0.
   */
  lemma TpsCountsWindow(s: HookState, events: seq<Event>)
    requires IntervalTick !in events
    ensures Run(s, [IntervalTick] + events + [IntervalTick]).Some? ==>
      && Run(s, [IntervalTick] + events + [IntervalTick]).value.tps == Accepted(events)
      && Run(s, [IntervalTick] + events + [IntervalTick]).value.packetCount == 0
  {
    RunSnoc(s, [IntervalTick] + events, IntervalTick);
    RunCons(s, IntervalTick, events);
    if Enabled(s, IntervalTick) {
      PacketsAccumulate(Step(s, IntervalTick), events);
    }
  }

  /** Each `close` schedules exactly one reconnect and each firing consumes one: pending = before + closes - fired. */
  lemma {:induction false} RetriesCountCloses(s: HookState, events: seq<Event>)
    ensures Run(s, events).Some? ==>
      |Run(s, events).value.retries| + Fired(events) == |s.retries| + Closes(events)
    decreases |events|
  {
    if events != [] {
      var init, e := events[..|events| - 1], events[|events| - 1];
      assert events == init + [e];
      RunSnoc(s, init, e);
      RetriesCountCloses(s, init);
    }
  }

  /**
    Once the interval is cleared, no tick happens and `tps` stays put until the effect runs
    again, whatever else (messages, closes, reconnects) happens.
   */
  lemma {:induction false} NoTickWhileCleared(s: HookState, events: seq<Event>)
    requires !s.ticking && EffectRuns(events) == 0
    ensures Run(s, events).Some? ==>
      && IntervalTick !in events
      && !Run(s, events).value.ticking
      && Run(s, events).value.tps == s.tps
    decreases |events|
  {
    if events != [] {
      var init, e := events[..|events| - 1], events[|events| - 1];
      assert events == init + [e];
      RunSnoc(s, init, e);
      NoTickWhileCleared(s, init);
    }
  }

  lemma NoTickAfterCleanup(s: HookState, events: seq<Event>)
    requires EffectRuns(events) == 0
    ensures Run(s, [EffectCleanup] + events).Some? ==>
      && IntervalTick !in events
      && Run(s, [EffectCleanup] + events).value.tps == s.tps
  {
    RunCons(s, EffectCleanup, events);
    if Enabled(s, EffectCleanup) {
      NoTickWhileCleared(Step(s, EffectCleanup), events);
    }
  }

  /** `n` messages on socket `id` that all fail to parse. */
  function Unparsable(id: nat, n: nat): (r: seq<Event>)
    ensures |r| == n
  {
    seq(n, _ => SocketMessage(id, None))
  }

  /** Messages that fail to parse change nothing at all: not the frame, status, counter, tps, sockets or timers. */
  lemma {:induction false} UnparsableChangesNothing(s: HookState, id: nat, n: nat)
    requires id < |s.sockets| && s.sockets[id].state == Open
    ensures Run(s, Unparsable(id, n)) == Some(s)
  {
    if n > 0 {
      var evs := Unparsable(id, n);
      assert evs == Unparsable(id, n - 1) + [SocketMessage(id, None)];
      RunSnoc(s, Unparsable(id, n - 1), SocketMessage(id, None));
      UnparsableChangesNothing(s, id, n - 1);
    }
  }

  /** Messages on socket `id` carrying the values in `data`, all of which parse. */
  function Deliveries(id: nat, data: seq<Json>): (r: seq<Event>)
    ensures |r| == |data|
  {
    seq(|data|, i requires 0 <= i < |data| => SocketMessage(id, Some(data[i])))
  }

  /** On an open socket, N messages that parse are all accepted: they count N packets and leave the last value displayed. */
  lemma {:induction false} DeliveriesAccepted(s: HookState, id: nat, data: seq<Json>)
    requires id < |s.sockets| && s.sockets[id].state == Open
    ensures Run(s, Deliveries(id, data)).Some?
    ensures Run(s, Deliveries(id, data)).value.packetCount == s.packetCount + |data|
    ensures Run(s, Deliveries(id, data)).value.sockets == s.sockets
    ensures Run(s, Deliveries(id, data)).value.ticking == s.ticking
    ensures Accepted(Deliveries(id, data)) == |data|
    ensures data != [] ==> Run(s, Deliveries(id, data)).value.telemetry == data[|data| - 1]
    decreases |data|
  {
    if data != [] {
      var init := data[..|data| - 1];
      var last := data[|data| - 1];
      assert Deliveries(id, data) == Deliveries(id, init) + [SocketMessage(id, Some(last))];
      assert Deliveries(id, data)[..|data| - 1] == Deliveries(id, init);
      RunSnoc(s, Deliveries(id, init), SocketMessage(id, Some(last)));
      DeliveriesAccepted(s, id, init);
    }
  }

  /** With the interval running and a socket open, N parsed messages between two ticks publish `tps == N`. */
  lemma BurstBetweenTicks(s: HookState, id: nat, data: seq<Json>)
    requires s.ticking
    requires id < |s.sockets| && s.sockets[id].state == Open
    ensures Run(s, [IntervalTick] + Deliveries(id, data) + [IntervalTick]).Some?
    ensures Run(s, [IntervalTick] + Deliveries(id, data) + [IntervalTick]).value.tps == |data|
  {
    var mid := Step(s, IntervalTick);
    DeliveriesAccepted(mid, id, data);
    assert IntervalTick !in Deliveries(id, data);
    RunCons(s, IntervalTick, Deliveries(id, data));
    RunSnoc(s, [IntervalTick] + Deliveries(id, data), IntervalTick);
    TpsCountsWindow(s, Deliveries(id, data));
  }

  /**
    Cleanup does not stop reconnecting: it closes the open socket, the `close` that follows
    still schedules a retry, and three seconds later a new socket to the same endpoint is
    created and becomes `ws.current`, with the interval still cleared.
   */
  lemma CleanupStillReconnects(s: HookState)
    requires Valid(s) && s.ticking && s.retries == []
    requires s.current.Some? && s.sockets[s.current.value].state == Open
    ensures Run(s, [EffectCleanup, SocketClose(s.current.value), RetryTimer]).Some?
    ensures
      var t := Run(s, [EffectCleanup, SocketClose(s.current.value), RetryTimer]).value;
      && t.current == Some(|s.sockets|)
      && |t.sockets| == |s.sockets| + 1
      && t.sockets[|s.sockets|] == Socket(s.sockets[s.current.value].url, Connecting)
      && t.status == DISCONNECTED
      && !t.ticking
  {
    var id := s.current.value;
    var s1 := Step(s, EffectCleanup);
    assert s1.sockets[id].state == Closing;
    var s2 := Step(s1, SocketClose(id));
    assert s2.retries == [s.sockets[id].url];
    RunCons(s, EffectCleanup, [SocketClose(id), RetryTimer]);
    RunCons(s1, SocketClose(id), [RetryTimer]);
    RunCons(s2, RetryTimer, []);
  }

  /**
    A retry scheduled under one endpoint still fires after the effect re-ran for another: the
    connect is not guarded, so two sockets are connecting at once and `ws.current` ends up on
    the old endpoint.
   */
  lemma StaleRetryAfterNewEndpoint(u1: string, u2: string)
    ensures Run(Init(), [EffectRun(u1), SocketClose(0), EffectCleanup, EffectRun(u2), RetryTimer]).Some?
    ensures
      var t := Run(Init(), [EffectRun(u1), SocketClose(0), EffectCleanup, EffectRun(u2), RetryTimer]).value;
      && t.sockets == [Socket(u1, Closed), Socket(u2, Connecting), Socket(u1, Connecting)]
      && t.current == Some(2)
      && t.retries == []
  {
    var s1 := Step(Init(), EffectRun(u1));
    var s2 := Step(s1, SocketClose(0));
    var s3 := Step(s2, EffectCleanup);
    var s4 := Step(s3, EffectRun(u2));
    RunCons(Init(), EffectRun(u1), [SocketClose(0), EffectCleanup, EffectRun(u2), RetryTimer]);
    RunCons(s1, SocketClose(0), [EffectCleanup, EffectRun(u2), RetryTimer]);
    RunCons(s2, EffectCleanup, [EffectRun(u2), RetryTimer]);
    RunCons(s3, EffectRun(u2), [RetryTimer]);
    RunCons(s4, RetryTimer, []);
  }
}
