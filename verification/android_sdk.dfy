/** The slice of the Android platform the module reads: constants of
    `Build.VERSION_CODES`, `UsageStatsManager` and `UsageEvents.Event`, and the
    OS objects (`UsageStats`, `UsageEvents.Event`) as plain records. */
module AndroidSdk {
  import opened Jvm

  // Build.VERSION_CODES
  const O: int := 26
  const P: int := 28
  const Q: int := 29

  // UsageStatsManager.INTERVAL_*
  const INTERVAL_DAILY: int32 := 0

  // UsageStatsManager.STANDBY_BUCKET_*
  const STANDBY_BUCKET_ACTIVE: int32 := 10
  const STANDBY_BUCKET_WORKING_SET: int32 := 20
  const STANDBY_BUCKET_FREQUENT: int32 := 30
  const STANDBY_BUCKET_RARE: int32 := 40
  const STANDBY_BUCKET_RESTRICTED: int32 := 45

  // UsageEvents.Event constants that the name lookup refers to by name
  const EVENT_NONE: int32 := 0
  const EVENT_MOVE_TO_FOREGROUND: int32 := 1
  const EVENT_MOVE_TO_BACKGROUND: int32 := 2
  const EVENT_CONFIGURATION_CHANGE: int32 := 5
  const EVENT_USER_INTERACTION: int32 := 7
  const EVENT_SHORTCUT_INVOCATION: int32 := 8

  /** An `android.app.usage.UsageStats` object. The three fields added in
      API level 29 hold whatever the getter would return; on older
      platforms the module never reads them. */
  datatype UsageStatsObject = UsageStatsObject(
    packageName: string,
    firstTimeStamp: int64,
    lastTimeStamp: int64,
    lastTimeUsed: int64,
    totalTimeInForeground: int64,
    totalTimeVisible: int64,
    lastTimeForegroundServiceUsed: int64,
    totalTimeForegroundServiceUsed: int64,
    describeContents: int32)

  /** An `android.app.usage.UsageEvents.Event` as filled in by the cursor.
      `configuration` is the text of `Configuration.toString()` when the
      event carries a configuration. */
  datatype EventObject = EventObject(
    packageName: string,
    className: Option<string>,
    timeStamp: int64,
    eventType: int32,
    configuration: Option<string>,
    shortcutId: Option<string>)

  /** An `android.app.usage.UsageEvents` cursor: it hands out `events` in
      order; if `fault` is set, the call that would go past the last event
      throws it instead of reporting exhaustion. */
  datatype EventCursor = EventCursor(events: seq<EventObject>, fault: Option<Cause>)
}
