/**
  The `useF1Socket` hook as an object: its React state cells and refs are fields, and each
  handler is a method that updates them in place. Every method is proved to perform exactly
  the transition HookSpec.Step describes for its event (`Connect`, which is not an event, performs
  HookSpec.Connect), and to keep HookSpec.Valid.
 */
module Hook {
  import opened Wrappers
  import opened Json
  import HookSpec

  class F1Socket {
    // React state cells
    var telemetry: Json
    var status: string
    var tps: nat
    // refs
    var packetCount: nat
    var ws: Option<nat>
    // what the browser holds on the hook's behalf: its sockets, reconnect timers and interval
    var sockets: seq<HookSpec.Socket>
    var retries: seq<string>
    var intervalActive: bool

    /** The hook's state as a value. */
    function State(): HookSpec.HookState
      reads this
    {
      HookSpec.HookState(telemetry, status, tps, packetCount, ws, sockets, retries, intervalActive)
    }

    ghost predicate Valid()
      reads this
    {
      HookSpec.Valid(State())
    }

    /** The first render: no telemetry, DISCONNECTED, tps 0, packet count 0, no socket, no timers. */
    constructor ()
      ensures Valid() && State() == HookSpec.Init()
      ensures telemetry == Null && status == HookSpec.DISCONNECTED && tps == 0 && packetCount == 0
      ensures ws == None && sockets == [] && retries == [] && !intervalActive
    {
      telemetry := Null;
      status := HookSpec.DISCONNECTED;
      tps := 0;
      packetCount := 0;
      ws := None;
      sockets := [];
      retries := [];
      intervalActive := false;
    }

    /** `connect`: opens a new socket to `url` and makes it `ws.current`, whether or not one is already live. */
    method Connect(url: string)
      requires Valid()
      modifies this
      ensures Valid() && State() == HookSpec.Connect(old(State()), url)
      ensures sockets == old(sockets) + [HookSpec.Socket(url, HookSpec.Connecting)]
      ensures ws == Some(|old(sockets)|)
      ensures telemetry == old(telemetry) && status == old(status) && tps == old(tps)
      ensures packetCount == old(packetCount) && retries == old(retries) && intervalActive == old(intervalActive)
    {
      ws := Some(|sockets|);
      sockets := sockets + [HookSpec.Socket(url, HookSpec.Connecting)];
    }

    /** The effect body: `connect()`, then install the 1-second interval. */
    method RunEffect(url: string)
      requires Valid() && !intervalActive
      modifies this
      ensures Valid() && State() == HookSpec.Step(old(State()), HookSpec.EffectRun(url))
      ensures sockets == old(sockets) + [HookSpec.Socket(url, HookSpec.Connecting)]
      ensures ws == Some(|old(sockets)|) && intervalActive
      ensures telemetry == old(telemetry) && status == old(status) && tps == old(tps)
      ensures packetCount == old(packetCount) && retries == old(retries)
    {
      Connect(url);
      intervalActive := true;
    }

    /** `onopen`: the status becomes CONNECTED; nothing else the hook publishes changes. */
    method OnOpen(id: nat)
      requires Valid() && id < |sockets| && sockets[id].state == HookSpec.Connecting
      modifies this
      ensures Valid() && State() == HookSpec.Step(old(State()), HookSpec.SocketOpen(id))
      ensures status == HookSpec.CONNECTED
      ensures telemetry == old(telemetry) && tps == old(tps) && packetCount == old(packetCount)
      ensures retries == old(retries) && ws == old(ws) && intervalActive == old(intervalActive)
      ensures sockets == old(sockets)[id := HookSpec.Socket(old(sockets)[id].url, HookSpec.Open)]
    {
      status := HookSpec.CONNECTED;
      sockets := sockets[id := sockets[id].(state := HookSpec.Open)];
    }

    /** `onclose`: the status becomes DISCONNECTED and one reconnect to this socket's endpoint is scheduled. */
    method OnClose(id: nat)
      requires Valid() && id < |sockets| && sockets[id].state != HookSpec.Closed
      modifies this
      ensures Valid() && State() == HookSpec.Step(old(State()), HookSpec.SocketClose(id))
      ensures status == HookSpec.DISCONNECTED
      ensures retries == old(retries) + [old(sockets)[id].url]
      ensures telemetry == old(telemetry) && tps == old(tps) && packetCount == old(packetCount)
      ensures ws == old(ws) && intervalActive == old(intervalActive)
      ensures sockets == old(sockets)[id := HookSpec.Socket(old(sockets)[id].url, HookSpec.Closed)]
    {
      status := HookSpec.DISCONNECTED;
      retries := retries + [sockets[id].url];
      sockets := sockets[id := sockets[id].(state := HookSpec.Closed)];
    }

    /**
      `onmessage`, given what `JSON.parse` returned: a value replaces the telemetry whole and
      counts one packet; a parse failure changes nothing.
     */
    method OnMessage(id: nat, parsed: Option<Json>)
      requires Valid() && id < |sockets| && sockets[id].state == HookSpec.Open
      modifies this
      ensures Valid() && State() == HookSpec.Step(old(State()), HookSpec.SocketMessage(id, parsed))
      ensures parsed.Some? ==> telemetry == parsed.value && packetCount == old(packetCount) + 1
      ensures parsed.None? ==> telemetry == old(telemetry) && packetCount == old(packetCount)
      ensures status == old(status) && tps == old(tps) && ws == old(ws) && sockets == old(sockets)
      ensures retries == old(retries) && intervalActive == old(intervalActive)
    {
      match parsed {
        case Some(data) =>
          telemetry := data;
          packetCount := packetCount + 1;
        case None =>
      }
    }

    /** The 1-second interval: publishes the packets counted since the last tick and restarts the count. */
    method Tick()
      requires Valid() && intervalActive
      modifies this
      ensures Valid() && State() == HookSpec.Step(old(State()), HookSpec.IntervalTick)
      ensures tps == old(packetCount) && packetCount == 0
      ensures telemetry == old(telemetry) && status == old(status) && ws == old(ws)
      ensures sockets == old(sockets) && retries == old(retries) && intervalActive
    {
      tps := packetCount;
      packetCount := 0;
    }

    /** The oldest pending 3-second timer fires and calls `connect` with the endpoint it was scheduled for. */
    method RetryFires()
      requires Valid() && retries != []
      modifies this
      ensures Valid() && State() == HookSpec.Step(old(State()), HookSpec.RetryTimer)
      ensures retries == old(retries)[1..]
      ensures sockets == old(sockets) + [HookSpec.Socket(old(retries)[0], HookSpec.Connecting)]
      ensures ws == Some(|old(sockets)|)
      ensures telemetry == old(telemetry) && status == old(status) && tps == old(tps)
      ensures packetCount == old(packetCount) && intervalActive == old(intervalActive)
    {
      var url := retries[0];
      retries := retries[1..];
      Connect(url);
    }

    /**
      The effect's cleanup: closes `ws.current` if there is one and clears the interval. The
      socket's `onclose` stays attached and pending reconnects are not cancelled.
     */
    method Cleanup()
      requires Valid() && intervalActive
      modifies this
      ensures Valid() && State() == HookSpec.Step(old(State()), HookSpec.EffectCleanup)
      ensures !intervalActive
      ensures ws.Some? && old(sockets)[ws.value].state in {HookSpec.Connecting, HookSpec.Open} ==>
        sockets == old(sockets)[ws.value := HookSpec.Socket(old(sockets)[ws.value].url, HookSpec.Closing)]
      ensures ws.None? || old(sockets)[ws.value].state !in {HookSpec.Connecting, HookSpec.Open} ==>
        sockets == old(sockets)
      ensures telemetry == old(telemetry) && status == old(status) && tps == old(tps)
      ensures packetCount == old(packetCount) && ws == old(ws) && retries == old(retries)
    {
      match ws {
        case Some(id) =>
          if sockets[id].state == HookSpec.Connecting || sockets[id].state == HookSpec.Open {
            sockets := sockets[id := sockets[id].(state := HookSpec.Closing)];
          }
        case None =>
      }
      intervalActive := false;
    }
  }
}
