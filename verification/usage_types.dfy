/** The declarations of the TypeScript facade: the three numeric enums and the
    declared shape of the records the native module returns. */
module UsageTypes {
  import opened Jvm
  import opened AndroidSdk

  /** `UsageStatsIntervalType`. */
  datatype IntervalType = Daily | Weekly | Monthly | Yearly | Best {
    function Code(): int32 {
      match this
      case Daily => 0
      case Weekly => 1
      case Monthly => 2
      case Yearly => 3
      case Best => 4
    }
  }

  /** The interval type a numeric code denotes, if any. */
  function IntervalFromCode(code: int): (r: Option<IntervalType>)
    ensures r.Some? <==> 0 <= code <= 4
    ensures r.Some? ==> r.value.Code() == code
  {
    if code == 0 then Some(Daily)
    else if code == 1 then Some(Weekly)
    else if code == 2 then Some(Monthly)
    else if code == 3 then Some(Yearly)
    else if code == 4 then Some(Best)
    else None
  }

  /** The interval codes are exactly 0 to 4, one per name. */
  lemma IntervalCodesExact(t: IntervalType, u: IntervalType)
    ensures 0 <= t.Code() <= 4
    ensures IntervalFromCode(t.Code()) == Some(t)
    ensures t.Code() == u.Code() ==> t == u
  {
  }

  /** `INTERVAL_DAILY` of the facade is the platform constant the native
      module passes. The platform constants here are transcribed from the
      facade, so this and the two mirror lemmas below guard that
      transcription against a slip. */
  lemma DailyIsPlatformDaily()
    ensures Daily.Code() == INTERVAL_DAILY
  {
  }

  /** A member of a numeric TypeScript enum, in declaration order. */
  datatype Member = Member(name: string, value: int)

  /** `UsageEventType`, in declaration order. */
  const UsageEventTypeMembers: seq<Member> := [
    Member("NONE", 0),
    Member("MOVE_TO_FOREGROUND", 1),
    Member("MOVE_TO_BACKGROUND", 2),
    Member("CONFIGURATION_CHANGE", 5),
    Member("USER_INTERACTION", 7),
    Member("SHORTCUT_INVOCATION", 8),
    Member("ACTIVITY_RESUMED", 1),
    Member("ACTIVITY_PAUSED", 2),
    Member("FOREGROUND_SERVICE_START", 5),
    Member("FOREGROUND_SERVICE_STOP", 6),
    Member("SCREEN_INTERACTIVE", 7),
    Member("SCREEN_NON_INTERACTIVE", 8),
    Member("KEYGUARD_SHOWN", 9),
    Member("KEYGUARD_HIDDEN", 10),
    Member("NOTIFICATION_SEEN", 11),
    Member("SLICE_PINNED", 12),
    Member("SLICE_UNPINNED", 13),
    Member("SYSTEM_INTERACTION", 15),
    Member("STANDBY_BUCKET_CHANGED", 16),
    Member("NOTIFICATION_INTERRUPTION", 17),
    Member("DEVICE_SHUTDOWN", 18),
    Member("DEVICE_STARTUP", 19),
    Member("USER_STOPPED", 23),
    Member("USER_STARTED", 24)
  ]

  /** `AppStandbyBucket`, in declaration order. */
  const AppStandbyBucketMembers: seq<Member> := [
    Member("ACTIVE", 10),
    Member("WORKING_SET", 20),
    Member("FREQUENT", 30),
    Member("RARE", 40),
    Member("RESTRICTED", 45),
    Member("NEVER", 50)
  ]

  /** The value an enum gives a member name, if it declares that name. */
  function ValueOf(members: seq<Member>, name: string): (r: Option<int>)
    ensures r.Some? <==> exists i | 0 <= i < |members| :: members[i].name == name
    ensures r.Some? ==> exists i | 0 <= i < |members| :: members[i] == Member(name, r.value)
  {
    if |members| == 0 then None
    else if members[0].name == name then Some(members[0].value)
    else
      var r := ValueOf(members[1..], name);
      assert forall i | 0 <= i < |members| - 1 :: members[1..][i] == members[i + 1];
      r
  }

  /** Two members with different names share one value. */
  predicate Aliased(members: seq<Member>, i: int, j: int) {
    0 <= i < |members| && 0 <= j < |members| && i != j
    && members[i].name != members[j].name && members[i].value == members[j].value
  }

  /** The `UsageEventType` names of the activity and foreground-service
      events that repeat the value of an earlier member. */
  lemma UsageEventTypeAliases()
    ensures Aliased(UsageEventTypeMembers, 6, 1)   // ACTIVITY_RESUMED = MOVE_TO_FOREGROUND = 1
    ensures Aliased(UsageEventTypeMembers, 7, 2)   // ACTIVITY_PAUSED = MOVE_TO_BACKGROUND = 2
    ensures Aliased(UsageEventTypeMembers, 8, 3)   // FOREGROUND_SERVICE_START = CONFIGURATION_CHANGE = 5
  {
    var m := UsageEventTypeMembers;
    assert m[1] == Member("MOVE_TO_FOREGROUND", 1) && m[6] == Member("ACTIVITY_RESUMED", 1);
    assert m[2] == Member("MOVE_TO_BACKGROUND", 2) && m[7] == Member("ACTIVITY_PAUSED", 2);
    assert m[3] == Member("CONFIGURATION_CHANGE", 5) && m[8] == Member("FOREGROUND_SERVICE_START", 5);
  }

  /** The `UsageEventType` names of the screen events, which repeat the
      value of an earlier member. */
  lemma ScreenEventTypeAliases()
    ensures Aliased(UsageEventTypeMembers, 10, 4)  // SCREEN_INTERACTIVE = USER_INTERACTION = 7
    ensures Aliased(UsageEventTypeMembers, 11, 5)  // SCREEN_NON_INTERACTIVE = SHORTCUT_INVOCATION = 8
  {
    var m := UsageEventTypeMembers;
    assert m[4] == Member("USER_INTERACTION", 7) && m[10] == Member("SCREEN_INTERACTIVE", 7);
    assert m[5] == Member("SHORTCUT_INVOCATION", 8) && m[11] == Member("SCREEN_NON_INTERACTIVE", 8);
  }

  /** Because of the aliases, no function from event code to text can give
      every `UsageEventType` member its own name back. */
  lemma NoNameLookupCoversEveryEventType(name: int -> string)
    ensures exists i | 0 <= i < |UsageEventTypeMembers| ::
      name(UsageEventTypeMembers[i].value) != UsageEventTypeMembers[i].name
  {
    var m := UsageEventTypeMembers;
    assert m[1].value == m[6].value && m[1].name != m[6].name;
    if name(m[1].value) == m[1].name {
      assert name(m[6].value) != m[6].name;
    }
  }

  /** `AppStandbyBucket` values strictly increase in declaration order. */
  lemma AppStandbyBucketsIncrease()
    ensures forall i, j | 0 <= i < j < |AppStandbyBucketMembers| ::
      AppStandbyBucketMembers[i].value < AppStandbyBucketMembers[j].value
  {
  }

  /** The `UsageEventType` values the facade declares agree with the
      platform constants the native lookup tests against (a check on the
      transcription of those constants). */
  lemma EventEnumMirrorsPlatform()
    ensures ValueOf(UsageEventTypeMembers, "NONE") == Some(EVENT_NONE as int)
    ensures ValueOf(UsageEventTypeMembers, "MOVE_TO_FOREGROUND") == Some(EVENT_MOVE_TO_FOREGROUND as int)
    ensures ValueOf(UsageEventTypeMembers, "MOVE_TO_BACKGROUND") == Some(EVENT_MOVE_TO_BACKGROUND as int)
    ensures ValueOf(UsageEventTypeMembers, "CONFIGURATION_CHANGE") == Some(EVENT_CONFIGURATION_CHANGE as int)
    ensures ValueOf(UsageEventTypeMembers, "USER_INTERACTION") == Some(EVENT_USER_INTERACTION as int)
    ensures ValueOf(UsageEventTypeMembers, "SHORTCUT_INVOCATION") == Some(EVENT_SHORTCUT_INVOCATION as int)
  {
  }

  /** The `AppStandbyBucket` values the facade declares agree with the
      platform constants the native lookup tests against (a check on the
      transcription of those constants). */
  lemma BucketEnumMirrorsPlatform()
    ensures ValueOf(AppStandbyBucketMembers, "ACTIVE") == Some(STANDBY_BUCKET_ACTIVE as int)
    ensures ValueOf(AppStandbyBucketMembers, "WORKING_SET") == Some(STANDBY_BUCKET_WORKING_SET as int)
    ensures ValueOf(AppStandbyBucketMembers, "FREQUENT") == Some(STANDBY_BUCKET_FREQUENT as int)
    ensures ValueOf(AppStandbyBucketMembers, "RARE") == Some(STANDBY_BUCKET_RARE as int)
    ensures ValueOf(AppStandbyBucketMembers, "RESTRICTED") == Some(STANDBY_BUCKET_RESTRICTED as int)
  {
  }
}

/** The records crossing the bridge: the Kotlin side builds a
    `Map<String, Any?>`, the TypeScript side declares an interface for it. */
module Wire {

  /** A map value: Kotlin `null`, a number (`Int`/`Long`), or a string. */
  datatype Value = Null | Num(n: int) | Str(s: string)

  /** The property names used on the wire, spelled as on the wire. */
  datatype Key =
    | packageName | firstTimeStamp | lastTimeStamp | lastTimeUsed | totalTimeInForeground
    | totalTimeVisible | lastTimeForegroundServiceUsed | totalTimeForegroundServiceUsed
    | describeContents
    | className | timeStamp | eventType | eventTypeName | configuration | shortcutId

  type Record = map<Key, Value>

  datatype Kind = NumberKind | StringKind

  /** One property of a TypeScript interface; `optional` is the `?` marker. */
  datatype FieldDecl = FieldDecl(kind: Kind, optional: bool)

  type Shape = map<Key, FieldDecl>

  /** `interface UsageStats`. */
  const UsageStatsShape: Shape := map[
    packageName := FieldDecl(StringKind, false),
    firstTimeStamp := FieldDecl(NumberKind, false),
    lastTimeStamp := FieldDecl(NumberKind, false),
    lastTimeUsed := FieldDecl(NumberKind, false),
    totalTimeInForeground := FieldDecl(NumberKind, false),
    totalTimeVisible := FieldDecl(NumberKind, true),
    lastTimeForegroundServiceUsed := FieldDecl(NumberKind, true),
    totalTimeForegroundServiceUsed := FieldDecl(NumberKind, true),
    describeContents := FieldDecl(NumberKind, false)
  ]

  /** `interface UsageEvent`. */
  const UsageEventShape: Shape := map[
    packageName := FieldDecl(StringKind, false),
    className := FieldDecl(StringKind, true),
    timeStamp := FieldDecl(NumberKind, false),
    eventType := FieldDecl(NumberKind, false),
    eventTypeName := FieldDecl(StringKind, false),
    configuration := FieldDecl(StringKind, true),
    shortcutId := FieldDecl(StringKind, true)
  ]

  function OptionalKeys(shape: Shape): set<Key> {
    set k | k in shape && shape[k].optional
  }

  /** The keys of a record that hold `null`. */
  function NullKeys(r: Record): set<Key> {
    set k | k in r && r[k] == Null
  }

  /** Whether a declared property admits a value, reading a `null` as the
      property being left out, which only an optional property allows. This
      is the lenient reading JavaScript callers get from `??` or `== null`
      tests; `AdmitsStrictly` is the one TypeScript's strict null checks
      apply. */
  predicate Admits(d: FieldDecl, v: Value) {
    match v
    case Null => d.optional
    case Num(_) => d.kind == NumberKind
    case Str(_) => d.kind == StringKind
  }

  /** The record has the declared interface, reading `null` as absent: no
      undeclared key, every required key present, every value of the
      declared type. */
  predicate Conforms(r: Record, shape: Shape) {
    && (forall k | k in r :: k in shape && Admits(shape[k], r[k]))
    && (forall k | k in shape && !shape[k].optional :: k in r)
  }

  /** Under strict null checks `prop?: T` admits a `T` or a missing
      property, but never `null`. */
  predicate AdmitsStrictly(d: FieldDecl, v: Value) {
    v != Null && Admits(d, v)
  }

  /** The record has the declared interface under strict null checks. */
  predicate ConformsStrictly(r: Record, shape: Shape) {
    && (forall k | k in r :: k in shape && AdmitsStrictly(shape[k], r[k]))
    && (forall k | k in shape && !shape[k].optional :: k in r)
  }

  /** The strict reading is the lenient one with no `null` anywhere. */
  lemma StrictIsLenientWithoutNulls(r: Record, shape: Shape)
    ensures ConformsStrictly(r, shape) <==> Conforms(r, shape) && NullKeys(r) == {}
  {
    if Conforms(r, shape) && NullKeys(r) == {} {
      forall k | k in r ensures r[k] != Null {
        assert k !in NullKeys(r);
      }
    }
  }

  /** The optional properties of the two record interfaces. */
  lemma DeclaredOptionalKeys()
    ensures OptionalKeys(UsageStatsShape)
      == {totalTimeVisible, lastTimeForegroundServiceUsed, totalTimeForegroundServiceUsed}
    ensures OptionalKeys(UsageEventShape) == {className, configuration, shortcutId}
    ensures UsageEventShape[eventTypeName] == FieldDecl(StringKind, false)
  {
  }
}
