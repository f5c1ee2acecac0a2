/** `mapUsageStats` and `mapUsageEvent`: the native module copies each OS
    object into a `Map<String, Any?>` keyed by the property names of the
    TypeScript interfaces, leaving `null` under a key when the running
    platform is too old to supply the field. */
module Mapping {
  import opened Jvm
  import opened AndroidSdk
  import opened Wire
  import opened Names

  /** A Kotlin `String?` as a map value. */
  function Nullable(o: Option<string>): (v: Value)
    ensures v == Null <==> o.None?
    ensures o.Some? ==> v == Str(o.value)
  {
    match o
    case None => Null
    case Some(s) => Str(s)
  }

  /** `if (SDK_INT >= level) value else null`. */
  function Gated(sdk: int, level: int, value: int): (v: Value)
    ensures v == Null <==> sdk < level
    ensures sdk >= level ==> v == Num(value)
  {
    if sdk >= level then Num(value) else Null
  }

  /** `mapUsageStats`, on a platform at API level `sdk`. */
  function MapUsageStats(stats: UsageStatsObject, sdk: int): (r: Record)
    ensures r.Keys == UsageStatsShape.Keys
    // copied unconditionally
    ensures r[packageName] == Str(stats.packageName)
    ensures r[firstTimeStamp] == Num(stats.firstTimeStamp)
    ensures r[lastTimeStamp] == Num(stats.lastTimeStamp)
    ensures r[lastTimeUsed] == Num(stats.lastTimeUsed)
    ensures r[totalTimeInForeground] == Num(stats.totalTimeInForeground)
    ensures r[describeContents] == Num(stats.describeContents)
    // the API 29 fields: the OS value from Q on, null below it
    ensures sdk >= Q ==> r[totalTimeVisible] == Num(stats.totalTimeVisible)
    ensures sdk >= Q ==> r[lastTimeForegroundServiceUsed] == Num(stats.lastTimeForegroundServiceUsed)
    ensures sdk >= Q ==> r[totalTimeForegroundServiceUsed] == Num(stats.totalTimeForegroundServiceUsed)
    ensures sdk < Q ==> r[totalTimeVisible] == r[lastTimeForegroundServiceUsed] == r[totalTimeForegroundServiceUsed] == Null
  {
    var r := map[
      packageName := Str(stats.packageName),
      firstTimeStamp := Num(stats.firstTimeStamp),
      lastTimeStamp := Num(stats.lastTimeStamp),
      lastTimeUsed := Num(stats.lastTimeUsed),
      totalTimeInForeground := Num(stats.totalTimeInForeground),
      totalTimeVisible := Gated(sdk, Q, stats.totalTimeVisible),
      lastTimeForegroundServiceUsed := Gated(sdk, Q, stats.lastTimeForegroundServiceUsed),
      totalTimeForegroundServiceUsed := Gated(sdk, Q, stats.totalTimeForegroundServiceUsed),
      describeContents := Num(stats.describeContents)
    ];
    r
  }

  /** A mapped statistics record has the declared `UsageStats` shape, and the
      keys it leaves null are none from Q on and exactly the interface's
      optional properties below Q. */
  lemma UsageStatsShapeAndGating(stats: UsageStatsObject, sdk: int)
    ensures Conforms(MapUsageStats(stats, sdk), UsageStatsShape)
    ensures NullKeys(MapUsageStats(stats, sdk)) == if sdk >= Q then {} else OptionalKeys(UsageStatsShape)
  {
    var r := MapUsageStats(stats, sdk);
    DeclaredOptionalKeys();
    assert Conforms(r, UsageStatsShape) by {
      assert forall k | k in r :: Admits(UsageStatsShape[k], r[k]);
    }
    assert forall k | k in r :: r[k] == Null <==> sdk < Q && UsageStatsShape[k].optional;
  }

  /** Under strict null checks a mapped statistics record is a `UsageStats`
      exactly on platforms from Q on: below Q the three API 29 keys are
      present with a `null` value rather than left out. */
  lemma UsageStatsStrictShape(stats: UsageStatsObject, sdk: int)
    ensures ConformsStrictly(MapUsageStats(stats, sdk), UsageStatsShape) <==> sdk >= Q
  {
    var r := MapUsageStats(stats, sdk);
    UsageStatsShapeAndGating(stats, sdk);
    StrictIsLenientWithoutNulls(r, UsageStatsShape);
    if sdk < Q {
      assert totalTimeVisible in NullKeys(r);
    }
  }

  /** `mapUsageEvent`, on a platform at API level `sdk`. */
  function MapUsageEvent(event: EventObject, sdk: int): (r: Record)
    ensures r.Keys == UsageEventShape.Keys
    ensures r[packageName] == Str(event.packageName)
    ensures r[className] == Nullable(event.className)
    ensures r[timeStamp] == Num(event.timeStamp)
    ensures r[eventType] == Num(event.eventType)
    ensures r[eventTypeName] == Str(EventTypeName(event.eventType))
    // the configuration text appears only from O on, and only if the event has one
    ensures r[configuration] != Null <==> sdk >= O && event.configuration.Some?
    ensures r[configuration] != Null ==> r[configuration] == Str(event.configuration.value)
    // the shortcut id appears only from P on
    ensures sdk < P ==> r[shortcutId] == Null
    ensures sdk >= P ==> r[shortcutId] == Nullable(event.shortcutId)
  {
    var r := map[
      packageName := Str(event.packageName),
      className := Nullable(event.className),
      timeStamp := Num(event.timeStamp),
      eventType := Num(event.eventType),
      eventTypeName := Str(EventTypeName(event.eventType)),
      configuration := if sdk >= O && event.configuration.Some? then Str(event.configuration.value) else Null,
      shortcutId := if sdk >= P then Nullable(event.shortcutId) else Null
    ];
    r
  }

  /** A mapped event record has the declared `UsageEvent` shape, and only
      optional properties can be null. */
  lemma UsageEventShapeAndGating(event: EventObject, sdk: int)
    ensures Conforms(MapUsageEvent(event, sdk), UsageEventShape)
    ensures NullKeys(MapUsageEvent(event, sdk)) <= OptionalKeys(UsageEventShape)
  {
    var r := MapUsageEvent(event, sdk);
    DeclaredOptionalKeys();
    assert Conforms(r, UsageEventShape) by {
      assert forall k | k in r :: Admits(UsageEventShape[k], r[k]);
    }
  }

  /** Under strict null checks a mapped event record is a `UsageEvent`
      exactly when none of its three nullable fields comes out `null`: the
      event has a class name, a configuration and a shortcut id, and the
      platform is at least P (so also at least O). */
  lemma UsageEventStrictShape(event: EventObject, sdk: int)
    ensures ConformsStrictly(MapUsageEvent(event, sdk), UsageEventShape)
        <==> event.className.Some? && event.configuration.Some? && event.shortcutId.Some? && sdk >= P
  {
    var r := MapUsageEvent(event, sdk);
    UsageEventShapeAndGating(event, sdk);
    StrictIsLenientWithoutNulls(r, UsageEventShape);
    if event.className.None? {
      assert className in NullKeys(r);
    } else if event.configuration.None? || sdk < O {
      assert configuration in NullKeys(r);
    } else if event.shortcutId.None? || sdk < P {
      assert shortcutId in NullKeys(r);
    } else {
      assert forall k | k in r :: r[k] != Null;
      assert NullKeys(r) == {};
    }
  }

  /** The optional properties of `interface UsageEvent` are exactly the keys
      `mapUsageEvent` can leave null: an event without class name or
      configuration, on a platform below O, nulls all three. */
  lemma EventOptionalKeysAreNullable(event: EventObject, sdk: int)
    requires event.className.None? && sdk < O
    ensures NullKeys(MapUsageEvent(event, sdk)) == OptionalKeys(UsageEventShape)
  {
    var r := MapUsageEvent(event, sdk);
    DeclaredOptionalKeys();
    assert r[className] == Null && r[configuration] == Null && r[shortcutId] == Null;
  }
}
