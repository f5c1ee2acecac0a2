# Android usage-stats bridge: a verified model

The native module exposes Android's `UsageStatsManager` to JavaScript. The
module itself only makes decisions in a few places, and those are what this
project models and proves things about:

- **Name lookups.** `getEventTypeName` and `getAppStandbyBucketName` turn an
  integer code into a name. Each is a Kotlin `when` with a
  `"UNKNOWN_<n>"` fallback. In the event lookup, the first matching branch
  wins, so five literal branches never fire: the named SDK constants above
  them have the same values.
- **Record mapping.** `mapUsageStats` and `mapUsageEvent` copy OS objects
  into the maps that cross the bridge. Some fields are `null` unless the
  running platform is at least API level 29 (Q), 26 (O) or 28 (P).
- **The asynchronous handlers.** These are `hasUsageStatsPermission`,
  `getUsageStats`, `getUsageEvents` and `getAggregatedUsageStats`. Each one
  runs the permission probe first. `hasUsageStatsPermission` resolves with
  the probe's answer. The other three reject with
  `CodedException("PERMISSION_DENIED")` when the probe says no, and issue no
  further query. Otherwise they obtain the usage statistics service, query
  it once and map the results in order. Every handler catches `Exception` and turns it into an
  `OPERATION_FAILED` rejection that carries the cause.
- **The TypeScript declarations.** These are the three numeric enums and the
  `UsageStats` / `UsageEvent` interfaces. The mapping's output is checked
  against them twice: reading a `null` as an omitted optional property
  (`Wire.Conforms`), and under strict null checks, where `prop?: T` does not
  admit `null` (`Wire.ConformsStrictly`).

Modules, one per concern:

| file | module | models |
|---|---|---|
| `jvm.dfy` | `Jvm` | Kotlin `Int`/`Long`, `Long` wrap-around, nullable values, exceptions as values |
| `decimal.dfy` | `Decimal` | the decimal text of an `Int` inside a string template, and its parser |
| `android_sdk.dfy` | `AndroidSdk` | platform constants; `UsageStats`, `UsageEvents.Event` and the event cursor as records |
| `usage_types.dfy` | `UsageTypes`, `Wire` | the TypeScript enums; the map values crossing the bridge and the declared interfaces |
| `names.dfy` | `Names` | `getEventTypeName`, `getAppStandbyBucketName` |
| `mapping.dfy` | `Mapping` | `mapUsageStats`, `mapUsageEvent` |
| `handlers.dfy` | `Handlers` | the permission probe, the try/catch wrapper, the event drain loop, the four handlers |

How the model is shaped:

- **The operating system is an oracle (`Handlers.Os`).** It holds the API
  level, the clock the probe reads, whether obtaining the usage statistics
  service throws (once in the probe, once in the handler after it), and the
  three answers the handlers can receive: to the probe's query, to the
  statistics query and to the event query. Each answer is either a value or
  an exception. Obtaining the service covers the `context` getter,
  `getSystemService` and the cast to `UsageStatsManager`.
- **The event cursor.** It is the list of events it hands out. It can also
  hold a fault, which is thrown by the call that would go past the last
  event.
- **A handler's behaviour is a trace.** The trace lists the queries the
  handler issues, in order, followed by the settlement of its promise.
  Properties such as "no query after a refused probe" and "settled exactly
  once" are stated on this trace.
- **Maps crossing the bridge are `map<Wire.Key, Wire.Value>`.** The Kotlin
  side keys its `Map<String, Any?>` with string literals only, so `Wire.Key`
  lists those property names, spelled as on the wire. A `Value` is `Null`,
  a number or a string.
- **SDK constant values.** The values of the `UsageEvents.Event` constants
  and the `STANDBY_BUCKET_*` constants are not in the Kotlin file. They are
  taken from their mirror in `src/ExpoAndroidUsagestats.types.ts`. Lemmas
  `UsageTypes.EventEnumMirrorsPlatform` and
  `UsageTypes.BucketEnumMirrorsPlatform` tie the two together.
- **Platform levels.** `Build.VERSION_CODES` O, P and Q are 26, 28 and 29.
  `INTERVAL_DAILY` is 0.

Two points about the code that a reader of the declarations might not expect:

- **Gated fields keep their key.** Below the required level the map holds
  the key with a `null` value; the key is not omitted
  (`ExpoAndroidUsagestatsModule.kt:191-193` for the three API 29 fields,
  `:205-206` for configuration and shortcutId; className is `null` whenever
  the OS supplies none, `:201`). The model does the same. So the records
  meet `interface UsageStats` and `interface UsageEvent` only when `null`
  is read as absent; `Mapping.UsageStatsStrictShape` and
  `Mapping.UsageEventStrictShape` state exactly when they meet them under
  strict null checks.
- **The probe can throw.** It goes through the context getter
  (`ExpoAndroidUsagestatsModule.kt:28-31`), the service lookup and the query
  (`:160-162`), and each of these can raise. Every handler then rejects with
  `OPERATION_FAILED`. The model includes this path, and the same for the
  handler's own service lookup (`:98`, `:119`, `:144`): when the lookup
  throws, the trace holds no query beyond the probe's.

## Model

| member | source | states |
|---|---|---|
| Decimal.IntToDecimal | android/src/main/java/expo/modules/androidusagestats/ExpoAndroidUsagestatsModule.kt:236 | the text spliced into `UNKNOWN_$eventType` is a canonical decimal (no leading zeros, no "-0") with a minus sign exactly for negative codes |
| Decimal.ParseIntToDecimal | android/src/main/java/expo/modules/androidusagestats/ExpoAndroidUsagestatsModule.kt:236 | parsing the rendered decimal gives back the code, so the fallback name loses nothing |
| Decimal.IntToDecimalInjective | android/src/main/java/expo/modules/androidusagestats/ExpoAndroidUsagestatsModule.kt:247 | distinct codes render as distinct decimal texts |
| Names.UnknownName | android/src/main/java/expo/modules/androidusagestats/ExpoAndroidUsagestatsModule.kt:236 | the fallback name is `UNKNOWN_` followed by the canonical decimal of the code, from which the code can be read back |
| Names.EventTypeName | android/src/main/java/expo/modules/androidusagestats/ExpoAndroidUsagestatsModule.kt:210-238 | the `when` as an if-chain in source order, with the shadowed literal branches kept; its answers are stated by Names.EventTypeNameTable and the lemmas after it |
| Names.EventTypeNameTable | android/src/main/java/expo/modules/androidusagestats/ExpoAndroidUsagestatsModule.kt:210-237 | for every `Int`, `getEventTypeName` gives the table name of each recognised code (0-2, 5-13, 15-19, 23, 24) and `"UNKNOWN_" + decimal` for every other code, including 3, 4, 14, 20-22, codes above 24 and negative codes |
| Names.EventTypeNameFirstMatch | android/src/main/java/expo/modules/androidusagestats/ExpoAndroidUsagestatsModule.kt:211-223 | first match wins: 1, 2, 5, 7, 8 give MOVE_TO_FOREGROUND, MOVE_TO_BACKGROUND, CONFIGURATION_CHANGE, USER_INTERACTION, SHORTCUT_INVOCATION; 6 gives FOREGROUND_SERVICE_STOP |
| Names.EventTypeNameFallbackExamples | android/src/main/java/expo/modules/androidusagestats/ExpoAndroidUsagestatsModule.kt:236 | 3, 14 and 99 give UNKNOWN_3, UNKNOWN_14 and UNKNOWN_99 |
| Names.NegativeEventTypeNameExample | android/src/main/java/expo/modules/androidusagestats/ExpoAndroidUsagestatsModule.kt:236 | -1 gives UNKNOWN_-1: the sign is kept in the fallback text |
| Names.ShadowedBranchesNeverFire | android/src/main/java/expo/modules/androidusagestats/ExpoAndroidUsagestatsModule.kt:218-223 | no code is ever named ACTIVITY_RESUMED, ACTIVITY_PAUSED, FOREGROUND_SERVICE_START, SCREEN_INTERACTIVE or SCREEN_NON_INTERACTIVE: those literal branches are unreachable |
| Names.EventTypeNameInjective | android/src/main/java/expo/modules/androidusagestats/ExpoAndroidUsagestatsModule.kt:210-237 | different event codes get different names, recognised or fallback |
| Names.EventTypeNameAgainstEnum | src/ExpoAndroidUsagestats.types.ts:15-40 | every `UsageEventType` member's value maps back to the member's own name, except exactly the five later aliases (ACTIVITY_RESUMED, ACTIVITY_PAUSED, FOREGROUND_SERVICE_START, SCREEN_INTERACTIVE, SCREEN_NON_INTERACTIVE) |
| Names.AppStandbyBucketName | android/src/main/java/expo/modules/androidusagestats/ExpoAndroidUsagestatsModule.kt:240-249 | the bucket `when` as an if-chain in source order; its answers are stated by Names.AppStandbyBucketNameTable and the lemmas after it |
| Names.AppStandbyBucketNameTable | android/src/main/java/expo/modules/androidusagestats/ExpoAndroidUsagestatsModule.kt:240-248 | 10, 20, 30, 40, 45 give ACTIVE, WORKING_SET, FREQUENT, RARE, RESTRICTED; every other `Int` gives `"UNKNOWN_" + decimal` |
| Names.NeverBucketFallsBack | android/src/main/java/expo/modules/androidusagestats/ExpoAndroidUsagestatsModule.kt:247 | NEVER (50) has no branch and is named UNKNOWN_50 |
| Names.BucketNameAgainstEnum | src/ExpoAndroidUsagestats.types.ts:45-52 | every `AppStandbyBucket` member's value maps back to its own name exactly when the member is not NEVER |
| Names.AppStandbyBucketNameInjective | android/src/main/java/expo/modules/androidusagestats/ExpoAndroidUsagestatsModule.kt:240-248 | different buckets get different names |
| UsageTypes.IntervalFromCode | src/ExpoAndroidUsagestats.types.ts:4-10 | a code denotes an interval type exactly when it lies in 0..4, and the type found has that code |
| UsageTypes.IntervalCodesExact | src/ExpoAndroidUsagestats.types.ts:4-10 | each of DAILY, WEEKLY, MONTHLY, YEARLY, BEST has its own code in 0..4, and the code reads back as the same type |
| UsageTypes.DailyIsPlatformDaily | src/ExpoAndroidUsagestats.types.ts:5 | the facade's INTERVAL_DAILY is the platform's `INTERVAL_DAILY` that `getUsageStats` and the probe pass |
| UsageTypes.UsageEventTypeAliases | src/ExpoAndroidUsagestats.types.ts:17-24 | ACTIVITY_RESUMED/MOVE_TO_FOREGROUND = 1, ACTIVITY_PAUSED/MOVE_TO_BACKGROUND = 2 and FOREGROUND_SERVICE_START/CONFIGURATION_CHANGE = 5 are distinct names sharing a value |
| UsageTypes.ScreenEventTypeAliases | src/ExpoAndroidUsagestats.types.ts:20-27 | SCREEN_INTERACTIVE/USER_INTERACTION = 7 and SCREEN_NON_INTERACTIVE/SHORTCUT_INVOCATION = 8 are distinct names sharing a value |
| UsageTypes.NoNameLookupCoversEveryEventType | src/ExpoAndroidUsagestats.types.ts:16-39 | for any function from code to text, some `UsageEventType` member does not get its own name back |
| UsageTypes.AppStandbyBucketsIncrease | src/ExpoAndroidUsagestats.types.ts:45-52 | bucket values strictly increase in declaration order: 10 < 20 < 30 < 40 < 45 < 50 |
| UsageTypes.EventEnumMirrorsPlatform | src/ExpoAndroidUsagestats.types.ts:16-21 | the facade's NONE, MOVE_TO_FOREGROUND, MOVE_TO_BACKGROUND, CONFIGURATION_CHANGE, USER_INTERACTION and SHORTCUT_INVOCATION values equal the platform event constants the native lookup tests against |
| UsageTypes.BucketEnumMirrorsPlatform | src/ExpoAndroidUsagestats.types.ts:46-50 | the facade's ACTIVE, WORKING_SET, FREQUENT, RARE and RESTRICTED values equal the platform standby-bucket constants the native lookup tests against |
| UsageTypes.ValueOf | src/ExpoAndroidUsagestats.types.ts:15-52 | an enum declares a name exactly when the lookup finds a value, and the value found belongs to a member of that name |
| Wire.DeclaredOptionalKeys | src/ExpoAndroidUsagestats.types.ts:57-80 | exactly totalTimeVisible, lastTimeForegroundServiceUsed, totalTimeForegroundServiceUsed are optional in `UsageStats`; exactly className, configuration, shortcutId in `UsageEvent`; eventTypeName is a required string |
| Wire.StrictIsLenientWithoutNulls | src/ExpoAndroidUsagestats.types.ts:57-80 | a record meets an interface under strict null checks exactly when it meets it with `null` read as absent and holds no `null` at all |
| Mapping.MapUsageStats | android/src/main/java/expo/modules/androidusagestats/ExpoAndroidUsagestatsModule.kt:184-196 | the map has exactly the keys of `interface UsageStats`; the six ungated fields are the OS values verbatim; the three API-29 fields carry the OS values from Q on and are null below Q |
| Mapping.UsageStatsShapeAndGating | src/ExpoAndroidUsagestats.types.ts:57-67 | every mapped statistics record conforms to `interface UsageStats` when a `null` is read as an omitted optional property; its null keys are none from Q on and exactly the interface's three optional (API 29+) keys below Q |
| Mapping.UsageStatsStrictShape | src/ExpoAndroidUsagestats.types.ts:57-67 | under strict null checks a mapped statistics record is a `UsageStats` exactly when the platform is at least Q; below Q the three API 29 keys hold `null` |
| Mapping.MapUsageEvent | android/src/main/java/expo/modules/androidusagestats/ExpoAndroidUsagestatsModule.kt:198-208 | the map has exactly the keys of `interface UsageEvent`; eventTypeName is `getEventTypeName(eventType)`; className is null exactly when the event has none; configuration is non-null exactly when SDK >= O and the event has one, and is then its text; shortcutId is null below P and the event's value from P on |
| Mapping.UsageEventShapeAndGating | src/ExpoAndroidUsagestats.types.ts:72-80 | every mapped event record conforms to `interface UsageEvent` when a `null` is read as an omitted optional property: only its optional keys can be null |
| Mapping.UsageEventStrictShape | src/ExpoAndroidUsagestats.types.ts:72-80 | under strict null checks a mapped event record is a `UsageEvent` exactly when the event has a class name, a configuration and a shortcut id and the platform is at least P |
| Mapping.EventOptionalKeysAreNullable | src/ExpoAndroidUsagestats.types.ts:72-80 | the optional properties of `UsageEvent` are exactly the keys the mapping leaves null for an event with no class name below O |
| Handlers.ProbeCall | android/src/main/java/expo/modules/androidusagestats/ExpoAndroidUsagestatsModule.kt:160-162 | the probe asks for daily buckets over the window that ends at the clock reading and starts 60000 ms earlier, computed in `Long` arithmetic: the start is `clock - 60000` when that fits in a `Long` and congruent to it modulo 2^64 always |
| Handlers.HasUsageStatsPermission | android/src/main/java/expo/modules/androidusagestats/ExpoAndroidUsagestatsModule.kt:159-164 | once the service is obtained, the probe answers true exactly when its query returns a non-empty list and false exactly when it returns an empty one; it throws exactly when obtaining the service or the query throws, with that exception |
| Handlers.PermissionDependsOnlyOnProbe | android/src/main/java/expo/modules/androidusagestats/ExpoAndroidUsagestatsModule.kt:159-164 | two OS states with the same probe service lookup and probe answer get the same permission decision; if permission is refused, the handler outcome does not depend on the other answers |
| Handlers.Catch | android/src/main/java/expo/modules/androidusagestats/ExpoAndroidUsagestatsModule.kt:106-109 | a body that completes keeps its effects; a body that raises keeps the effects before the exception and then rejects with OPERATION_FAILED carrying the cause |
| Handlers.Drain | android/src/main/java/expo/modules/androidusagestats/ExpoAndroidUsagestatsModule.kt:122-128 | draining the cursor yields the loop body's conversion of each event, one per event in cursor order, until the cursor is exhausted; a cursor fault is passed on as the exception and the partial list is dropped |
| Handlers.StatsAnswer | android/src/main/java/expo/modules/androidusagestats/ExpoAndroidUsagestatsModule.kt:98-103 | the statistics query's exception is passed on; otherwise its records are mapped one for one, same length and order |
| Handlers.EventsAnswer | android/src/main/java/expo/modules/androidusagestats/ExpoAndroidUsagestatsModule.kt:119-128 | the event query's exception or the cursor's fault is passed on; otherwise the drained records are the mapped events, one for one, in cursor order |
| Handlers.GuardedQuery | android/src/main/java/expo/modules/androidusagestats/ExpoAndroidUsagestatsModule.kt:92-109 | the shape every data handler shares: the promise settles once, last. A probe whose service lookup throws issues no query and gives OPERATION_FAILED with that cause. A probe whose query throws gives OPERATION_FAILED with its cause, and a refused probe the PERMISSION_DENIED rejection, each with the probe as the only query. After a granted probe, a throwing service lookup gives OPERATION_FAILED with the probe as the only query; otherwise exactly the handler's query follows, and the handler's answer resolves the promise or, if it is an exception, rejects it with OPERATION_FAILED |
| Handlers.HandleStatsQuery | android/src/main/java/expo/modules/androidusagestats/ExpoAndroidUsagestatsModule.kt:91-110 | the promise settles once, last. Refused permission rejects with `CodedException("PERMISSION_DENIED")` (message PERMISSION_DENIED, inferred code ERR_CODED) with the probe as the only query. An exception in the probe or in the handler's service lookup gives OPERATION_FAILED with its cause and no statistics query. Granted permission with the service obtained gives exactly one statistics query with the given interval and range; its records are mapped with the same length and order, and its exception becomes OPERATION_FAILED |
| Handlers.GetUsageStats | android/src/main/java/expo/modules/androidusagestats/ExpoAndroidUsagestatsModule.kt:91-110 | `getUsageStats` is the statistics handler with the interval fixed at INTERVAL_DAILY: after a granted probe and service lookup its one query is a daily query over the caller's range |
| Handlers.GetAggregatedUsageStats | android/src/main/java/expo/modules/androidusagestats/ExpoAndroidUsagestatsModule.kt:137-156 | `getAggregatedUsageStats` is the statistics handler with the caller's `intervalType` forwarded unchanged, whatever its value: after a granted probe and service lookup its one query carries that interval and the caller's range |
| Handlers.GetUsageEvents | android/src/main/java/expo/modules/androidusagestats/ExpoAndroidUsagestatsModule.kt:112-135 | the promise settles once, last. Permission refused, a probe exception or a service-lookup exception is handled as for statistics. After a granted probe and service lookup there is exactly one event query; its exception or a cursor fault gives OPERATION_FAILED with that cause; otherwise it resolves with one mapped record per cursor event, in cursor order |
| Handlers.HandleHasUsageStatsPermission | android/src/main/java/expo/modules/androidusagestats/ExpoAndroidUsagestatsModule.kt:36-42 | the exposed `hasUsageStatsPermission` settles once; it issues the probe query unless obtaining the service throws, and no other; it resolves true exactly for a non-empty probe answer and false exactly for an empty one, and rejects with OPERATION_FAILED carrying the exception if the service lookup or the probe query throws |
| Handlers.ResolvedStatsHaveDeclaredShape | src/ExpoAndroidUsagestats.types.ts:124 | every record a resolved statistics handler delivers conforms to `interface UsageStats` when a `null` is read as an omitted optional property |
| Handlers.ResolvedEventsHaveDeclaredShape | src/ExpoAndroidUsagestats.types.ts:132 | every record a resolved `getUsageEvents` delivers conforms to `interface UsageEvent` when a `null` is read as an omitted optional property |

## Left out

- `requestUsageStatsPermission`: it only launches a settings screen, a platform side effect with no logic of its own.
- `getInstalledApps` and `getAppInfo`: these are package-manager queries, label loading and category lookup, all foreign calls.
- `encodeIcon`: bitmap compression and Base64 encoding through Android libraries. Nothing calls it.
- The `Log.e` calls: logging only.
- `describeContents()`: its value is treated as an opaque integer and copied through.
- `Configuration.toString()`: the event's configuration is modelled as the text this call yields.
- The usage database and the event cursor: they are not modelled beyond the answers the oracle gives.
- Promise asynchrony and concurrency: each handler is one sequential step. Two calls are never related to each other.
- Conversion of `Long` values to JavaScript numbers: the bridge does it, and numbers beyond 2^53 lose precision. Values are unbounded integers in the model.
- `src/ExpoAndroidUsagestatsModule.ts`, `src/index.ts` and `src/ExpoAndroidUsagestatsView.tsx`: template scaffolding and re-exports with no logic of the bridge.
- The facade's time-window helpers ("last N days", "today", "this week"): they are not part of this model. They depend on the wall clock and the locale.
- `AppInfo` and the remaining interface methods of the types file: they belong to the left-out operations above.
- Throwables that are not `Exception`s: every handler catches only `Exception`. Any other `Throwable` (an `Error`) escapes the handler's catch; what the promise then receives is up to expo-modules-core, outside this model. The oracle's exceptions all stand for `Exception`s.
- The code of `CodedException("PERMISSION_DENIED")`: the one-argument constructor takes the text as the message, and expo-modules-core derives the code `ERR_CODED` from the class name. That library is not part of this model; the model takes its naming rule as given.
- Mapping.UsageStatsShapeAndGating: the conformance it states reads a `null` as an omitted optional property. Under strict null checks the records below Q do not conform; Mapping.UsageStatsStrictShape states exactly when they do.
- Mapping.UsageEventShapeAndGating: the conformance it states reads a `null` as an omitted optional property. Mapping.UsageEventStrictShape states exactly when a record conforms under strict null checks.
- Handlers.ResolvedStatsHaveDeclaredShape: reads a `null` as an omitted optional property, as Mapping.UsageStatsShapeAndGating does. Below Q the delivered records hold `null` where `UsageStats` declares `?: number`.
- Handlers.ResolvedEventsHaveDeclaredShape: reads a `null` as an omitted optional property, as Mapping.UsageEventShapeAndGating does. The delivered records can hold `null` where `UsageEvent` declares `?: string`.
