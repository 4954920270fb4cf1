/**
 * The timing interceptors every gateway route inherits (AbstractRouteBuilder.configure): before
 * each processor step the exchange's `startTime` property is set if it is not set yet; on entry a
 * `[START]` line is logged; on completion, successful or not, a `[COMPLETION]` line gives the time
 * since `startTime` in milliseconds, or -1 when no start was recorded. The clock reading is a
 * parameter.
 */
module RouteTiming {
  import opened Wrappers
  import Text

  const StartTimeKey: string := "startTime"

  /** A value in the exchange's property bag: a `Long`, or a value of some other type. */
  datatype Property = LongValue(millis: int) | OtherValue(text: string)

  type Properties = map<string, Property>

  /** Fits a Java `long`. */
  predicate IsLong(n: int) {
    -0x8000_0000_0000_0000 <= n < 0x8000_0000_0000_0000
  }

  /** Java `long` arithmetic: the result taken modulo 2^64 into the signed range. */
  function WrapLong(n: int): (r: int)
    ensures IsLong(r)
    ensures IsLong(n) ==> r == n
    ensures (n - r) % 0x1_0000_0000_0000_0000 == 0
  {
    (n + 0x8000_0000_0000_0000) % 0x1_0000_0000_0000_0000 - 0x8000_0000_0000_0000
  }

  /** Only the stamp writes `startTime`, and always a `long`. */
  predicate StartTimeWellTyped(props: Properties) {
    StartTimeKey in props ==> props[StartTimeKey].LongValue? && IsLong(props[StartTimeKey].millis)
  }

  /** `getProperty("startTime", Long.class)`. */
  function StartOf(props: Properties): Option<int>
    requires StartTimeWellTyped(props)
  {
    if StartTimeKey in props then Some(props[StartTimeKey].millis) else None
  }

  /** The property bag after the stamping processor runs at time `now`. */
  function Stamped(props: Properties, now: int): Properties {
    if StartTimeKey in props then props else props[StartTimeKey := LongValue(now)]
  }

  /** The duration the completion processor reports at time `now`. */
  function Duration(props: Properties, now: int): int
    requires StartTimeWellTyped(props)
  {
    match StartOf(props)
    case Some(start) => WrapLong(now - start)
    case None => -1
  }

  /** `{}` of a possibly null route id. */
  function RouteIdText(routeId: Option<string>): string {
    routeId.GetOr("null")
  }

  function StartMessage(routeId: Option<string>): string {
    "[START] Route '" + RouteIdText(routeId) + "' invoked"
  }

  function CompletionMessage(routeId: Option<string>, duration: int): string {
    "[COMPLETION] Route '" + RouteIdText(routeId) + "' took " + Text.LongText(duration) + " ms"
  }

  /** The exchange as the interceptors see it: its mutable property bag and the id of the route it came from. */
  class RouteExchange {
    var properties: Properties
    const fromRouteId: Option<string>

    ghost predicate Valid()
      reads this
    {
      StartTimeWellTyped(properties)
    }

    constructor (routeId: Option<string>, initial: Properties)
      requires StartTimeWellTyped(initial)
      ensures Valid() && properties == initial && fromRouteId == routeId
    {
      properties := initial;
      fromRouteId := routeId;
    }

    /** The `intercept()` processor: records `now` as the start time unless one is recorded already. */
    method Stamp(now: int)
      requires Valid() && IsLong(now)
      modifies this
      ensures Valid()
      ensures properties == Stamped(old(properties), now)
    {
      if StartTimeKey !in properties {
        properties := properties[StartTimeKey := LongValue(now)];
      }
    }

    /** The `interceptFrom()` processor: the line it logs. */
    method Enter() returns (message: string)
      ensures message == StartMessage(fromRouteId)
    {
      message := "[START] Route '" + RouteIdText(fromRouteId) + "' invoked";
    }

    /** The `onCompletion()` processor at time `now`: the duration and the line it logs; nothing is written. */
    method Complete(now: int) returns (duration: int, message: string)
      requires Valid() && IsLong(now)
      ensures duration == Duration(properties, now)
      ensures message == CompletionMessage(fromRouteId, duration)
    {
      if StartTimeKey in properties {
        duration := WrapLong(now - properties[StartTimeKey].millis);
      } else {
        duration := -1;
      }
      message := "[COMPLETION] Route '" + RouteIdText(fromRouteId) + "' took " + Text.LongText(duration) + " ms";
    }
  }

  /** A second stamp changes nothing: the first write wins. */
  lemma StampWriteOnce(props: Properties, first: int, later: int)
    ensures Stamped(Stamped(props, first), later) == Stamped(props, first)
  {
  }

  /** After a stamp the start time is present, and it is `now` unless one was already recorded. */
  lemma StampRecordsStart(props: Properties, now: int)
    requires StartTimeWellTyped(props) && IsLong(now)
    ensures StartTimeWellTyped(Stamped(props, now))
    ensures StartOf(Stamped(props, now)) == if StartTimeKey in props then StartOf(props) else Some(now)
  {
  }

  /** Stamping adds or changes no property other than `startTime`. */
  lemma StampTouchesOnlyStartTime(props: Properties, now: int, key: string)
    requires key != StartTimeKey
    ensures key in Stamped(props, now) <==> key in props
    ensures key in props ==> Stamped(props, now)[key] == props[key]
  {
  }

  /** With no start recorded, completion reports -1. */
  lemma MissingStartGivesMinusOne(props: Properties, now: int)
    requires StartTimeWellTyped(props) && StartTimeKey !in props
    ensures Duration(props, now) == -1
  {
  }

  /** With a start stamped at a non-negative time no later than `now`, the duration is `now - start`, never negative. */
  lemma DurationSinceStamp(props: Properties, start: int, now: int)
    requires StartTimeWellTyped(props) && StartTimeKey !in props
    requires 0 <= start <= now && IsLong(now)
    ensures StartTimeWellTyped(Stamped(props, start))
    ensures Duration(Stamped(props, start), now) == now - start >= 0
  {
  }

  /** The duration can be read back from the completion line: it is the text between `took ` and ` ms`. */
  lemma CompletionDurationReadsBack(routeId: Option<string>, duration: int)
    ensures var head := "[COMPLETION] Route '" + RouteIdText(routeId) + "' took ";
            var m := CompletionMessage(routeId, duration);
            |head| + 3 <= |m| && m[..|head|] == head
            && Text.ParseLong(m[|head|..|m| - 3]) == Some(duration) && m[|m| - 3..] == " ms"
  {
    var head := "[COMPLETION] Route '" + RouteIdText(routeId) + "' took ";
    var m := CompletionMessage(routeId, duration);
    assert m == head + Text.LongText(duration) + " ms";
    assert m[|head|..|m| - 3] == Text.LongText(duration);
    Text.LongTextRoundTrip(duration);
  }

  /** The route id can be read back from the entry line: it is the text between `Route '` and `' invoked`. */
  lemma StartRouteReadsBack(routeId: Option<string>)
    ensures var head, tail := "[START] Route '", "' invoked";
            var m := StartMessage(routeId);
            |head| + |tail| <= |m| && m[..|head|] == head && m[|m| - |tail|..] == tail
            && m[|head|..|m| - |tail|] == RouteIdText(routeId)
  {
    var head, tail := "[START] Route '", "' invoked";
    var m := StartMessage(routeId);
    assert m == head + RouteIdText(routeId) + tail;
    assert m[|head|..|m| - |tail|] == RouteIdText(routeId);
  }

  /** Entry lines of routes with different ids (a missing id shown as `null`) are different. */
  lemma StartMessageNamesRoute(a: Option<string>, b: Option<string>)
    ensures StartMessage(a) == StartMessage(b) ==> RouteIdText(a) == RouteIdText(b)
  {
    StartRouteReadsBack(a);
    StartRouteReadsBack(b);
  }

  /**
   * One route run: the stamping interceptor fires before each processor step (at the clock
   * readings `stepTimes`), then completion fires at `now`. The reported duration is measured
   * from the first step, or is -1 when the route ran no step.
   */
  method RunRoute(routeId: Option<string>, initial: Properties, stepTimes: seq<int>, now: int)
    returns (duration: int, message: string)
    requires StartTimeWellTyped(initial) && StartTimeKey !in initial
    requires forall i :: 0 <= i < |stepTimes| ==> IsLong(stepTimes[i])
    requires IsLong(now)
    ensures duration == if stepTimes == [] then -1 else WrapLong(now - stepTimes[0])
    ensures message == CompletionMessage(routeId, duration)
  {
    var exchange := new RouteExchange(routeId, initial);
    var i := 0;
    while i < |stepTimes|
      invariant 0 <= i <= |stepTimes|
      invariant exchange.Valid() && exchange.fromRouteId == routeId
      invariant i == 0 ==> exchange.properties == initial
      invariant i > 0 ==> StartOf(exchange.properties) == Some(stepTimes[0])
    {
      exchange.Stamp(stepTimes[i]);
      i := i + 1;
    }
    duration, message := exchange.Complete(now);
  }
}
