/**
  The ingestion hook `useF1Socket` as a state machine over values: the state the hook keeps
  (three React state cells, two refs, the sockets it has created, the pending reconnect
  timers and the 1-second interval) and one transition per handler. The class in hook.dfy
  is proved against these definitions, and hook_lemmas.dfy proves what they promise.
 */
module HookSpec {
  import opened Wrappers
  import opened Json

  const CONNECTED := "CONNECTED"
  const DISCONNECTED := "DISCONNECTED"

  /** The readyState of a WebSocket: it only moves forward. */
  datatype ReadyState = Connecting | Open | Closing | Closed

  /** A WebSocket the hook created, with the endpoint of the `connect` closure that created it. */
  datatype Socket = Socket(url: string, state: ReadyState)

  /**
    The hook's state. `telemetry`, `status` and `tps` are the React state cells; `packetCount`
    and `current` (the socket in `ws.current`, by index into `sockets`) are the refs.
    `sockets` holds every socket ever created, oldest first; `retries` holds the pending
    3-second reconnect timers in firing order, each with the endpoint it will reconnect to;
    `ticking` says whether the 1-second interval is installed.
   */
  datatype HookState = HookState(
    telemetry: Json,
    status: string,
    tps: nat,
    packetCount: nat,
    current: Option<nat>,
    sockets: seq<Socket>,
    retries: seq<string>,
    ticking: bool)

  /** The events that drive the hook. `parsed` is what `JSON.parse` made of the message text. */
  datatype Event =
    | EffectRun(url: string)
    | SocketOpen(socket: nat)
    | SocketClose(socket: nat)
    | SocketMessage(socket: nat, parsed: Option<Json>)
    | IntervalTick
    | RetryTimer
    | EffectCleanup

  /** The state before the effect first runs: `useState(null)`, `useState('DISCONNECTED')`, `useState(0)`, `useRef(null)`, `useRef(0)`. */
  function Init(): HookState {
    HookState(Null, DISCONNECTED, 0, 0, None, [], [], false)
  }

  /** What stays true of every reachable state. `ws.current` is always the newest socket. */
  ghost predicate Valid(s: HookState) {
    && (s.status == CONNECTED || s.status == DISCONNECTED)
    && s.current == (if s.sockets == [] then None else Some(|s.sockets| - 1))
  }

  /** `connect`: a new socket to `url`, in readyState Connecting, becomes `ws.current`; nothing checks for an existing one. */
  function Connect(s: HookState, url: string): HookState {
    s.(sockets := s.sockets + [Socket(url, Connecting)], current := Some(|s.sockets|))
  }

  /** `ws.current.close()` when `ws.current` is set: a socket still connecting or open starts closing. */
  function CloseCurrent(s: HookState): HookState {
    match s.current
    case None => s
    case Some(id) =>
      if id < |s.sockets| && (s.sockets[id].state == Connecting || s.sockets[id].state == Open)
      then s.(sockets := s.sockets[id := s.sockets[id].(state := Closing)])
      else s
  }

  /**
    Which events can happen in a state. A socket fires `open` only while connecting, delivers
    messages only while open, and fires `close` once. React runs the effect only when the
    previous run was cleaned up, and cleans up only a run that happened; the interval fires
    only while installed; a retry fires only if one is pending.
   */
  predicate Enabled(s: HookState, e: Event) {
    match e
    case EffectRun(_) => !s.ticking
    case SocketOpen(id) => id < |s.sockets| && s.sockets[id].state == Connecting
    case SocketClose(id) => id < |s.sockets| && s.sockets[id].state != Closed
    case SocketMessage(id, _) => id < |s.sockets| && s.sockets[id].state == Open
    case IntervalTick => s.ticking
    case RetryTimer => s.retries != []
    case EffectCleanup => s.ticking
  }

  /** One handler run. Every handler keeps the status one of the two strings and `ws.current` the newest socket. */
  function Step(s: HookState, e: Event): (t: HookState)
    requires Enabled(s, e)
    ensures Valid(s) ==> Valid(t)
  {
    match e
    // useEffect body: connect(), then setInterval
    case EffectRun(url) => Connect(s, url).(ticking := true)
    // onopen: setStatus('CONNECTED')
    case SocketOpen(id) =>
      s.(status := CONNECTED, sockets := s.sockets[id := s.sockets[id].(state := Open)])
    // onclose: setStatus('DISCONNECTED'), and a 3000 ms timer that calls the closure's connect
    case SocketClose(id) =>
      s.(status := DISCONNECTED,
         sockets := s.sockets[id := s.sockets[id].(state := Closed)],
         retries := s.retries + [s.sockets[id].url])
    // onmessage: on a successful parse, setTelemetry(data) and packetCount++; otherwise only a log line
    case SocketMessage(_, parsed) =>
      (match parsed
       case None => s
       case Some(data) => s.(telemetry := data, packetCount := s.packetCount + 1))
    // the 1000 ms interval: setTps(packetCount), packetCount = 0
    case IntervalTick => s.(tps := s.packetCount, packetCount := 0)
    // the oldest pending timer calls connect
    case RetryTimer => Connect(s.(retries := s.retries[1..]), s.retries[0])
    // cleanup: close ws.current if set, clearInterval; pending retries stay
    case EffectCleanup => CloseCurrent(s).(ticking := false)
  }

  /** Runs a sequence of events; None when some event cannot happen in the state it meets. */
  function Run(s: HookState, events: seq<Event>): Option<HookState>
    decreases |events|
  {
    if events == [] then Some(s)
    else if !Enabled(s, events[0]) then None
    else Run(Step(s, events[0]), events[1..])
  }

  /** Number of messages in `events` that parsed, i.e. that `onmessage` counted. */
  function Accepted(events: seq<Event>): nat
    decreases |events|
  {
    if events == [] then 0
    else
      var e := events[|events| - 1];
      Accepted(events[..|events| - 1]) + if e.SocketMessage? && e.parsed.Some? then 1 else 0
  }

  /** The value of the last message in `events` that parsed, or `before` if none did. */
  function LastParsed(events: seq<Event>, before: Json): Json
    decreases |events|
  {
    if events == [] then before
    else
      var e := events[|events| - 1];
      if e.SocketMessage? && e.parsed.Some? then e.parsed.value
      else LastParsed(events[..|events| - 1], before)
  }

  /** The status the last `open` or `close` in `events` set, or `before` if there is none. */
  function LastLifecycle(events: seq<Event>, before: string): string
    decreases |events|
  {
    if events == [] then before
    else
      var e := events[|events| - 1];
      if e.SocketOpen? then CONNECTED
      else if e.SocketClose? then DISCONNECTED
      else LastLifecycle(events[..|events| - 1], before)
  }

  /** Number of `close` events in `events`. */
  function Closes(events: seq<Event>): nat
    decreases |events|
  {
    if events == [] then 0
    else Closes(events[..|events| - 1]) + if events[|events| - 1].SocketClose? then 1 else 0
  }

  /** Number of reconnect timers that fire in `events`. */
  function Fired(events: seq<Event>): nat
    decreases |events|
  {
    if events == [] then 0
    else Fired(events[..|events| - 1]) + if events[|events| - 1].RetryTimer? then 1 else 0
  }

  /** Number of effect runs in `events`. */
  function EffectRuns(events: seq<Event>): nat
    decreases |events|
  {
    if events == [] then 0
    else EffectRuns(events[..|events| - 1]) + if events[|events| - 1].EffectRun? then 1 else 0
  }
}
