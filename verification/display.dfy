/**
  The values the dashboard shows, computed from what the hook publishes: the frame it falls
  back to before any telemetry, the brake and throttle bar heights, and the status light.
  Number formatting, the rest of the render and layout are not part of this model.
 */
module Display {
  import opened Wrappers
  import opened Json
  import HookSpec
  import HookLemmas

  datatype Light = Success | Danger

  /** The fallback frame `d` used while there is no telemetry. */
  function DefaultFrame(): Json {
    Object(map[
      "speed" := Number(0.0), "gear" := Str("N"), "rpm" := Number(0.0),
      "throttle" := Number(0.0), "brake" := Number(0.0), "x" := Number(0.0), "y" := Number(0.0)])
  }

  /**
    `d = telemetry || default`: the telemetry when it is truthy, the default frame otherwise.
    The result is never falsy, so in particular never `null`, and reading its fields never throws.
   */
  function Frame(telemetry: Json): (d: Json)
    ensures Truthy(d)
    ensures d == telemetry || d == DefaultFrame()
    ensures Truthy(telemetry) ==> d == telemetry
  {
    if Truthy(telemetry) then telemetry else DefaultFrame()
  }

  /**
    Height in percent of the brake bar: full when `d.brake > 0`, empty otherwise. The
    comparison first converts `d.brake` to a number, and that conversion may throw.
   */
  function BrakeHeight(telemetry: Json, stringToNumber: string -> Numeric): (h: Completion<nat>)
    ensures h.Normal? ==> h.value == 0 || h.value == 100
    ensures h.Throw? <==>
      Property(Frame(telemetry), "brake").Some? && ToPrimitiveThrows(Property(Frame(telemetry), "brake").value)
  {
    match ToNumber(Property(Frame(telemetry), "brake"), stringToNumber)
    case Throw => Throw
    case Normal(Finite(r)) => Normal(if r > 0.0 then 100 else 0)
    case Normal(Infinite(positive)) => Normal(if positive then 100 else 0)
    case Normal(NaN) => Normal(0)
  }

  /**
    What is written before "%" as the throttle bar's height: `d.throttle` itself (None when it
    is `undefined`, written as "undefined%"), and a throw exactly when turning it into text
    throws. A telemetry object's throttle is passed through unchanged, and without telemetry it is 0.
   */
  function ThrottleHeight(telemetry: Json): (h: Completion<Option<Json>>)
    ensures telemetry.Object? && "throttle" in telemetry.fields && !ToPrimitiveThrows(telemetry.fields["throttle"])
      ==> h == Normal(Some(telemetry.fields["throttle"]))
    ensures !Truthy(telemetry) ==> h == Normal(Some(Number(0.0)))
    ensures h.Throw? <==>
      Property(Frame(telemetry), "throttle").Some? && ToPrimitiveThrows(Property(Frame(telemetry), "throttle").value)
    ensures h.Throw? ==>
      telemetry.Object? && "throttle" in telemetry.fields && ToPrimitiveThrows(telemetry.fields["throttle"])
    ensures Truthy(telemetry) && Property(telemetry, "throttle").None? ==> h == Normal(None)
  {
    var t := Property(Frame(telemetry), "throttle");
    if t.Some? && ToPrimitiveThrows(t.value) then Throw else Normal(t)
  }

  /** The header light: the success colour exactly for "CONNECTED", the danger colour for any other status. */
  function StatusLight(status: string): (l: Light)
    ensures l == Success <==> status == HookSpec.CONNECTED
    ensures l == Danger <==> status != HookSpec.CONNECTED
  {
    if status == HookSpec.CONNECTED then Success else Danger
  }

  /** Without telemetry `d` has speed 0, gear "N", rpm 0, throttle 0, brake 0 and position (0, 0). */
  lemma NoTelemetryShowsDefault()
    ensures Property(Frame(Null), "speed") == Some(Number(0.0))
    ensures Property(Frame(Null), "gear") == Some(Str("N"))
    ensures Property(Frame(Null), "rpm") == Some(Number(0.0))
    ensures Property(Frame(Null), "throttle") == Some(Number(0.0))
    ensures Property(Frame(Null), "brake") == Some(Number(0.0))
    ensures Property(Frame(Null), "x") == Some(Number(0.0))
    ensures Property(Frame(Null), "y") == Some(Number(0.0))
  {
  }

  /** A telemetry object is itself the frame `d`, whatever fields it has or lacks. */
  lemma ObjectIsFrame(fields: map<string, Json>)
    ensures Frame(Object(fields)) == Object(fields)
  {
  }

  /** A message that parses to a falsy value (`0`, `""`, `false`, `null`) is stored, yet `d` is the fallback frame. */
  lemma FalsyTelemetryShowsDefault(v: Json)
    requires v == Null || v == Bool(false) || v == Number(0.0) || v == Str("")
    ensures Frame(v) == DefaultFrame()
  {
  }

  /** Starting from the first render, `d` is the fallback frame until a message has parsed. */
  lemma DefaultUntilFirstMessage(events: seq<HookSpec.Event>)
    requires HookSpec.Accepted(events) == 0
    ensures HookSpec.Run(HookSpec.Init(), events).Some? ==>
      Frame(HookSpec.Run(HookSpec.Init(), events).value.telemetry) == DefaultFrame()
  {
    HookLemmas.TelemetryIsLastParsed(HookSpec.Init(), events);
    HookLemmas.LastParsedWithoutAccepted(events, Null);
  }

  /** With a numeric brake the bar is full exactly when the value is above zero. */
  lemma BrakeHeightOfNumber(fields: map<string, Json>, b: real, stringToNumber: string -> Numeric)
    requires "brake" in fields && fields["brake"] == Number(b)
    ensures BrakeHeight(Object(fields), stringToNumber) == Normal(if b > 0.0 then 100 else 0)
  {
  }

  /** A boolean brake converts to 1 or 0: `true` fills the bar, `false` empties it. */
  lemma BrakeHeightOfBoolean(fields: map<string, Json>, pressed: bool, stringToNumber: string -> Numeric)
    requires "brake" in fields && fields["brake"] == Bool(pressed)
    ensures BrakeHeight(Object(fields), stringToNumber) == Normal(if pressed then 100 else 0)
  {
  }

  /** A frame without a brake field reads `undefined`, which is not above zero: the bar is empty. */
  lemma BrakeHeightWithoutField(fields: map<string, Json>, stringToNumber: string -> Numeric)
    requires "brake" !in fields
    ensures BrakeHeight(Object(fields), stringToNumber) == Normal(0)
  {
  }

  /** Before any telemetry the brake bar is empty. */
  lemma BrakeHeightDefault(stringToNumber: string -> Numeric)
    ensures BrakeHeight(Null, stringToNumber) == Normal(0)
  {
  }

  /** A brake that is an object with its own "toString" key, such as `{"toString": 0}`, makes the comparison throw. */
  lemma BrakeHeightThrows(fields: map<string, Json>, stringToNumber: string -> Numeric)
    requires "brake" in fields && fields["brake"] == Object(map["toString" := Number(0.0)])
    ensures BrakeHeight(Object(fields), stringToNumber) == Throw
  {
  }

  /** The light is green exactly when the last `open`/`close` the hook saw was an `open`. */
  lemma LightFollowsLastLifecycle(s: HookSpec.HookState, events: seq<HookSpec.Event>)
    ensures HookSpec.Run(s, events).Some? ==>
      (StatusLight(HookSpec.Run(s, events).value.status) == Success <==>
       HookSpec.LastLifecycle(events, s.status) == HookSpec.CONNECTED)
  {
    HookLemmas.StatusIsLastLifecycle(s, events);
  }
}
