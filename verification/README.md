# Lights Out dashboard: the live telemetry hook and its display decisions

This project models the browser side of the Lights Out F1 telemetry dashboard in Dafny:

- the React hook `useF1Socket`, which opens a WebSocket to the backend, reconnects three
  seconds after every close, stores the last parsed message as the telemetry, counts parsed
  messages and publishes that count once a second as the throughput (`tps`);
- the pure decisions in `App.jsx`: the endpoint `WS_URL` derived from the page's host name,
  the fallback frame shown before any telemetry, the brake and throttle bar heights and the
  colour of the status light.

Files:

- `wrappers.dfy`: `Option`.
- `json.dfy`: parsed JSON values and the JavaScript semantics the dashboard relies on
  (truthiness for `||`, property access, the numeric conversion behind `> 0`, and the
  TypeError that converting an object with its own "toString" key throws).
- `hook_spec.dfy`: the hook as a state machine over values. `HookState` holds the three
  React state cells, the two refs, every socket created (with its readyState and the
  endpoint of the `connect` closure that created it), the pending reconnect timers in
  firing order and whether the 1-second interval is installed. `Step` is one handler run,
  `Enabled` says which events can happen, `Run` runs a sequence of events.
- `hook.dfy`: class `F1Socket`, one method per handler, each proved to perform exactly
  `Step` for its event (or, for `Connect`, `HookSpec.Connect`) and to keep `Valid`.
- `hook_lemmas.dfy`: what the handlers promise over whole runs of events.
- `endpoint.dfy`: `WS_URL`, with `String.prototype.replace`'s first-occurrence behaviour.
- `display.dfy`: the fallback frame, bar heights and status light.

The model follows the code, which is simpler than an idealised connection manager:

- the status is only ever "DISCONNECTED" or "CONNECTED"; there is no connecting phase;
- `connect` is not guarded, so a reconnect can create a socket while another is live
  (`StaleRetryAfterNewEndpoint`);
- every socket keeps its handlers, so an older socket's `close` sets DISCONNECTED and its
  messages replace the telemetry even while `ws.current` is another, open socket
  (`StatusIsLastLifecycle`, `TelemetryIsLastParsed` hold for events from any socket);
- cleanup neither cancels pending reconnects nor detaches `onclose`, so the close it causes
  still schedules a reconnect (`CleanupStillReconnects`);
- a message is accepted when it is any syntactically valid JSON: no field is checked. A
  message that parses to a falsy value (`0`, `""`, `false`, `null`) is stored and counted,
  but `d` is then the fallback frame (`FalsyTelemetryShowsDefault`).

Inputs from outside the program are parameters: the page's host name (`WsUrl`), the
result of `JSON.parse` on a message (`SocketMessage`'s `parsed`), and JavaScript's
string-to-number conversion (`BrakeHeight`'s `stringToNumber`). Socket, timer and React
effect activity are the events of `HookSpec.Event`.

## Model

| member | source | states |
|---|---|---|
| `Hook.F1Socket.constructor` | f1_web/src/hooks/useF1Socket.js:5-10 | The hook starts with telemetry null, status DISCONNECTED, tps 0, packet count 0, no socket, no timers, no interval. |
| `Hook.F1Socket.Connect` | f1_web/src/hooks/useF1Socket.js:14-15 | A new socket to the given endpoint is appended in readyState Connecting and becomes `ws.current`; nothing else changes, and an existing socket is not checked. |
| `Hook.F1Socket.RunEffect` | f1_web/src/hooks/useF1Socket.js:39-45 | Running the effect connects once and installs the interval; telemetry, status, tps and the packet count are kept. |
| `Hook.F1Socket.OnOpen` | f1_web/src/hooks/useF1Socket.js:17-20 | `onopen` sets status CONNECTED and changes nothing else: telemetry, tps, packet count, timers and `ws.current` are untouched. |
| `Hook.F1Socket.OnClose` | f1_web/src/hooks/useF1Socket.js:22-26 | `onclose` sets status DISCONNECTED and appends exactly one pending reconnect, to this socket's endpoint. |
| `Hook.F1Socket.OnMessage` | f1_web/src/hooks/useF1Socket.js:28-36 | A parsed message replaces the telemetry whole and adds 1 to the packet count; a parse failure changes nothing; the status never changes. |
| `Hook.F1Socket.Tick` | f1_web/src/hooks/useF1Socket.js:42-45 | The tick sets tps to the packet count and the packet count to 0, leaving telemetry and status alone. |
| `Hook.F1Socket.RetryFires` | f1_web/src/hooks/useF1Socket.js:25 | The oldest pending timer is consumed and connects to the endpoint it was scheduled for. |
| `Hook.F1Socket.Cleanup` | f1_web/src/hooks/useF1Socket.js:48-51 | Cleanup clears the interval and moves `ws.current` to Closing only when it exists and is connecting or open; pending reconnects are kept. |
| `HookSpec.Step` | f1_web/src/hooks/useF1Socket.js:14-51 | One handler run, one case per handler; every handler keeps the status one of the two strings and `ws.current` the newest socket. |
| `HookLemmas.InitValid` | f1_web/src/hooks/useF1Socket.js:5-10 | The initial state satisfies the hook's invariant. |
| `HookLemmas.RunPreservesValid` | f1_web/src/hooks/useF1Socket.js:14-26 | In every reachable state the status is one of the two strings and `ws.current` is the newest socket. |
| `HookLemmas.TelemetryIsLastParsed` | f1_web/src/hooks/useF1Socket.js:28-32 | After any run the telemetry is the value of the last message that parsed, or the previous telemetry if none did. |
| `HookLemmas.LastParsedWithoutAccepted` | f1_web/src/hooks/useF1Socket.js:29-35 | A run in which no message parses leaves the telemetry as it was. |
| `HookLemmas.StatusIsLastLifecycle` | f1_web/src/hooks/useF1Socket.js:17-26 | After any run the status is CONNECTED if the last open/close was an open, DISCONNECTED if a close, unchanged if neither happened. |
| `HookLemmas.PacketsAccumulate` | f1_web/src/hooks/useF1Socket.js:28-32 | Between ticks the packet count grows by exactly the number of messages that parsed and tps stays put. |
| `HookLemmas.TpsCountsWindow` | f1_web/src/hooks/useF1Socket.js:42-45 | A tick publishes the number of messages parsed since the previous tick (0 for a silent window) and resets the count. |
| `HookLemmas.DeliveriesAccepted` | f1_web/src/hooks/useF1Socket.js:28-32 | On an open socket N parsed messages are all accepted: the count grows by N and the last value becomes the telemetry. |
| `HookLemmas.BurstBetweenTicks` | f1_web/src/hooks/useF1Socket.js:42-45 | With the interval running, N parsed messages between two ticks give tps = N. |
| `HookLemmas.UnparsableChangesNothing` | f1_web/src/hooks/useF1Socket.js:29-35 | Any number of unparsable messages leave the whole state unchanged, with no reconnect scheduled. |
| `HookLemmas.RetriesCountCloses` | f1_web/src/hooks/useF1Socket.js:22-26 | Pending reconnects equal those before plus one per close minus one per timer fired. |
| `HookLemmas.NoTickWhileCleared` | f1_web/src/hooks/useF1Socket.js:42-51 | With the interval cleared, no tick happens and tps stays put until the effect runs again. |
| `HookLemmas.NoTickAfterCleanup` | f1_web/src/hooks/useF1Socket.js:48-51 | After cleanup no tick runs and tps does not change until the effect runs again. |
| `HookLemmas.CleanupStillReconnects` | f1_web/src/hooks/useF1Socket.js:22-26 | Cleanup of an open socket, then its close, then the timer: a new socket to the same endpoint becomes `ws.current` while the interval stays cleared. |
| `HookLemmas.StaleRetryAfterNewEndpoint` | f1_web/src/hooks/useF1Socket.js:14-26 | A reconnect scheduled under the old endpoint fires after the effect re-ran with a new one: two sockets are connecting and `ws.current` targets the old endpoint. |
| `Endpoint.IndexOfFrom` | f1_web/src/App.jsx:8 | The search returns the first index at or after the start where the pattern occurs, or none when it occurs nowhere after it. |
| `Endpoint.ReplaceFirst` | f1_web/src/App.jsx:8 | `replace` with a string pattern rewrites only the first occurrence (characterised independently of the search); the text before it and everything after it, later occurrences included, is kept; a string without the pattern comes back unchanged. |
| `Endpoint.WsUrl` | f1_web/src/App.jsx:6-8 | The endpoint is the local one exactly for "localhost"; every endpoint starts with "ws://" or "wss://" and ends with "/ws". |
| `Endpoint.WsUrlLocal` | f1_web/src/App.jsx:6-7 | For "localhost" the endpoint is "ws://localhost:3000/ws". |
| `Endpoint.WsUrlForwarded` | f1_web/src/App.jsx:8 | Otherwise the endpoint is "wss://", the host name with its first "-5173" turned into "-3000", then "/ws". |
| `Endpoint.WsUrlPlainHost` | f1_web/src/App.jsx:6-8 | A non-local host name without "-5173" appears in the endpoint unchanged. |
| `Endpoint.ReplaceSecondTagKept` | f1_web/src/App.jsx:8 | Replacing in "x-5173-5173" gives "x-3000-5173": the second tag is kept. |
| `Endpoint.WsUrlSecondTagKept` | f1_web/src/App.jsx:8 | A second "-5173" in the host name survives into the endpoint. |
| `Json.Truthy` | f1_web/src/App.jsx:15 | A parsed value is falsy exactly when it is null, false, 0 or the empty string. |
| `Json.ValueToNumber` | f1_web/src/App.jsx:91 | Converting a parsed value to a number throws exactly when converting it to a primitive does (an object with its own "toString" key, or an array holding one); a number converts to itself and null to 0. |
| `Json.ToNumber` | f1_web/src/App.jsx:91 | An absent property converts to NaN; a present one throws exactly when its conversion to a primitive does. |
| `Display.Frame` | f1_web/src/App.jsx:15 | `d` is the telemetry when truthy and the default frame otherwise; it is never falsy, so never null. |
| `Display.NoTelemetryShowsDefault` | f1_web/src/App.jsx:15 | With no telemetry `d` has speed 0, gear "N", rpm 0, throttle 0, brake 0, x 0, y 0. |
| `Display.ObjectIsFrame` | f1_web/src/App.jsx:15 | A telemetry object is itself the frame `d`, unchanged. |
| `Display.FalsyTelemetryShowsDefault` | f1_web/src/App.jsx:15 | Telemetry that is null, false, 0 or the empty string gives the fallback frame as `d`. |
| `Display.DefaultUntilFirstMessage` | f1_web/src/App.jsx:15 | From the first render, `d` is the fallback frame until a message has parsed. |
| `Display.BrakeHeight` | f1_web/src/App.jsx:91 | The brake bar is either 0 or 100 percent high, and the comparison throws exactly when `d.brake` is present and its conversion to a primitive throws. |
| `Display.BrakeHeightOfNumber` | f1_web/src/App.jsx:91 | With a numeric brake the bar is 100 when brake > 0 and 0 otherwise. |
| `Display.BrakeHeightOfBoolean` | f1_web/src/App.jsx:91 | A brake of true gives 100 and false gives 0. |
| `Display.BrakeHeightWithoutField` | f1_web/src/App.jsx:91 | A frame without a brake field gives 0. |
| `Display.BrakeHeightDefault` | f1_web/src/App.jsx:91 | Before any telemetry the brake bar is 0. |
| `Display.BrakeHeightThrows` | f1_web/src/App.jsx:91 | A brake of `{"toString": 0}` makes `d.brake > 0` throw a TypeError. |
| `Display.ThrottleHeight` | f1_web/src/App.jsx:83 | The template literal throws exactly when `d.throttle` is present and its conversion to a primitive throws; otherwise a telemetry object's throttle is passed to the bar unchanged, truthy telemetry without a throttle gives `undefined` (written "undefined%"), and without telemetry it is 0. |
| `Display.StatusLight` | f1_web/src/App.jsx:24 | The light is the success colour if and only if the status is exactly "CONNECTED"; otherwise it is the danger colour. |
| `Display.LightFollowsLastLifecycle` | f1_web/src/App.jsx:24 | After any run the light is green exactly when the last open/close the hook saw was an open. |

## Left out

- The WebSocket transport, React's scheduling of state updates and effects, and the timing of `setTimeout`/`setInterval`: these are events of `HookSpec.Event`. The 3000 ms reconnect delay and the 1000 ms interval appear only as the order of those events.
- The internals of `JSON.parse`: its result arrives as a parameter.
- JavaScript's string-to-number conversion, used when a string brake is compared with 0: it is a parameter of `BrakeHeight`.
- Floating point: numbers are exact reals. A value that rounds to 0 or to Infinity as a double (such as `1e-400`) and a packet count beyond 2^53 are not modelled.
- `toFixed(0)`, `toLocaleString()` and the text that a template literal makes of the throttle value: formatting is floating-point and locale-dependent. `ThrottleHeight` gives the value before it is turned into text.
- The rest of the render: it throws a TypeError unless `d.speed`, `d.x` and `d.y` are numbers (`toFixed`) and `d.rpm` is present and not null (`toLocaleString`), and React refuses an object as `d.gear`. The hook accepts such messages because it checks no field, so a message like `{}` or `1` crashes the render. That crash is not modelled; only the brake and throttle bars model their own TypeError.
- The `console.log` and `console.error` diagnostics.
- `new WebSocket(url)` throwing on a malformed endpoint: every endpoint `WsUrl` builds is assumed well formed.
- After the component unmounts React discards state updates; the model applies every event, which is what happens when the effect is cleaned up because the endpoint changed.
- ReplaceFirst: `$` patterns in the replacement text are not interpreted, so it requires a replacement without `$`; the only replacement used, "-3000", has none.
- The JSX layout and styling, `f1_web/src/components/Card.jsx` and `f1_web/tailwind.config.js`: presentation only.
- The Rust backend `f1_consumer` and the Python producer and visualisers in `f1_producer`: gRPC/WebSocket plumbing, data loading and plotting, outside the browser core.
