/** The two name lookups of the native module, `getEventTypeName` and
    `getAppStandbyBucketName`. Both are Kotlin `when` expressions over an
    `Int`: the branches are tried top to bottom, the first whose value equals
    the subject wins, and the `else` branch renders `"UNKNOWN_<n>"`. Each
    `when` is written here as an `if` chain in the same order, keeping every
    branch of the source, including the ones an earlier branch shadows. */
module Names {
  import opened Jvm
  import opened Decimal
  import opened AndroidSdk
  import opened UsageTypes

  const UnknownPrefix: string := "UNKNOWN_"

  /** The text starts with `UNKNOWN_`. */
  predicate HasUnknownPrefix(s: string) {
    |s| >= |UnknownPrefix| && s[..|UnknownPrefix|] == UnknownPrefix
  }

  /** The `else` branch of both lookups: `"UNKNOWN_$code"`. */
  function UnknownName(code: int): (s: string)
    ensures HasUnknownPrefix(s)
    ensures IsCanonicalDecimal(s[|UnknownPrefix|..])
    ensures ParseInt(s[|UnknownPrefix|..]) == Some(code)
  {
    var s := UnknownPrefix + IntToDecimal(code);
    assert s[|UnknownPrefix|..] == IntToDecimal(code);
    ParseIntToDecimal(code);
    s
  }

  /** `getEventTypeName`. The six named constants come first; the literal
      branches for 1, 2, 5, 7 and 8 below them repeat those values. */
  function EventTypeName(eventType: int32): string {
    if eventType == EVENT_NONE then "NONE"
    else if eventType == EVENT_MOVE_TO_FOREGROUND then "MOVE_TO_FOREGROUND"
    else if eventType == EVENT_MOVE_TO_BACKGROUND then "MOVE_TO_BACKGROUND"
    else if eventType == EVENT_CONFIGURATION_CHANGE then "CONFIGURATION_CHANGE"
    else if eventType == EVENT_USER_INTERACTION then "USER_INTERACTION"
    else if eventType == EVENT_SHORTCUT_INVOCATION then "SHORTCUT_INVOCATION"
    else if eventType == 1 then "ACTIVITY_RESUMED"
    else if eventType == 2 then "ACTIVITY_PAUSED"
    else if eventType == 5 then "FOREGROUND_SERVICE_START"
    else if eventType == 6 then "FOREGROUND_SERVICE_STOP"
    else if eventType == 7 then "SCREEN_INTERACTIVE"
    else if eventType == 8 then "SCREEN_NON_INTERACTIVE"
    else if eventType == 9 then "KEYGUARD_SHOWN"
    else if eventType == 10 then "KEYGUARD_HIDDEN"
    else if eventType == 11 then "NOTIFICATION_SEEN"
    else if eventType == 12 then "SLICE_PINNED"
    else if eventType == 13 then "SLICE_UNPINNED"
    else if eventType == 15 then "SYSTEM_INTERACTION"
    else if eventType == 16 then "STANDBY_BUCKET_CHANGED"
    else if eventType == 17 then "NOTIFICATION_INTERRUPTION"
    else if eventType == 18 then "DEVICE_SHUTDOWN"
    else if eventType == 19 then "DEVICE_STARTUP"
    else if eventType == 23 then "USER_STOPPED"
    else if eventType == 24 then "USER_STARTED"
    else UnknownName(eventType)
  }

  /** `getAppStandbyBucketName`. */
  function AppStandbyBucketName(bucket: int32): string {
    if bucket == STANDBY_BUCKET_ACTIVE then "ACTIVE"
    else if bucket == STANDBY_BUCKET_WORKING_SET then "WORKING_SET"
    else if bucket == STANDBY_BUCKET_FREQUENT then "FREQUENT"
    else if bucket == STANDBY_BUCKET_RARE then "RARE"
    else if bucket == STANDBY_BUCKET_RESTRICTED then "RESTRICTED"
    else UnknownName(bucket)
  }

  /** The answer `getEventTypeName` gives for each code it recognises, once
      first-match precedence is taken into account. */
  const KnownEventNames: map<int, string> := map[
    0 := "NONE",
    1 := "MOVE_TO_FOREGROUND",
    2 := "MOVE_TO_BACKGROUND",
    5 := "CONFIGURATION_CHANGE",
    6 := "FOREGROUND_SERVICE_STOP",
    7 := "USER_INTERACTION",
    8 := "SHORTCUT_INVOCATION",
    9 := "KEYGUARD_SHOWN",
    10 := "KEYGUARD_HIDDEN",
    11 := "NOTIFICATION_SEEN",
    12 := "SLICE_PINNED",
    13 := "SLICE_UNPINNED",
    15 := "SYSTEM_INTERACTION",
    16 := "STANDBY_BUCKET_CHANGED",
    17 := "NOTIFICATION_INTERRUPTION",
    18 := "DEVICE_SHUTDOWN",
    19 := "DEVICE_STARTUP",
    23 := "USER_STOPPED",
    24 := "USER_STARTED"
  ]

  /** The answer `getAppStandbyBucketName` gives for each bucket it recognises. */
  const KnownBucketNames: map<int, string> := map[
    10 := "ACTIVE",
    20 := "WORKING_SET",
    30 := "FREQUENT",
    40 := "RARE",
    45 := "RESTRICTED"
  ]

  /** The names of the literal branches that an earlier named constant with
      the same value shadows. */
  const ShadowedEventNames: set<string> := {
    "ACTIVITY_RESUMED", "ACTIVITY_PAUSED", "FOREGROUND_SERVICE_START",
    "SCREEN_INTERACTIVE", "SCREEN_NON_INTERACTIVE"
  }

  /** No recognised name looks like a fallback name. */
  lemma KnownNamesAreNotFallbacks()
    ensures forall c | c in KnownEventNames :: !HasUnknownPrefix(KnownEventNames[c])
    ensures forall c | c in KnownBucketNames :: !HasUnknownPrefix(KnownBucketNames[c])
    ensures forall s | s in ShadowedEventNames :: !HasUnknownPrefix(s)
  {
    forall s | HasUnknownPrefix(s) ensures s[0] == 'U' && s[1] == 'N' {
      assert s[0] == s[..|UnknownPrefix|][0] && s[1] == s[..|UnknownPrefix|][1];
    }
    assert forall c | c in KnownEventNames :: KnownEventNames[c][0] != 'U' || KnownEventNames[c][1] != 'N';
  }

  /** `getEventTypeName` is total and answers from the table of recognised
      codes, falling back to `"UNKNOWN_<code>"` for every other code. */
  lemma EventTypeNameTable(eventType: int32)
    ensures eventType in KnownEventNames ==> EventTypeName(eventType) == KnownEventNames[eventType]
    ensures eventType !in KnownEventNames ==> EventTypeName(eventType) == "UNKNOWN_" + IntToDecimal(eventType)
  {
    // one case per recognised code keeps each step a literal evaluation
    if eventType in KnownEventNames {
      if eventType == 0 {} else if eventType == 1 {} else if eventType == 2 {}
      else if eventType == 5 {} else if eventType == 6 {} else if eventType == 7 {}
      else if eventType == 8 {} else if eventType == 9 {} else if eventType == 10 {}
      else if eventType == 11 {} else if eventType == 12 {} else if eventType == 13 {}
      else if eventType == 15 {} else if eventType == 16 {} else if eventType == 17 {}
      else if eventType == 18 {} else if eventType == 19 {} else if eventType == 23 {}
      else if eventType == 24 {} else { assert false; }
    }
  }

  /** First match wins: the named constants decide 1, 2, 5, 7 and 8, while
      6, which no constant claims, reaches its literal branch. */
  lemma EventTypeNameFirstMatch()
    ensures EventTypeName(1) == "MOVE_TO_FOREGROUND"
    ensures EventTypeName(2) == "MOVE_TO_BACKGROUND"
    ensures EventTypeName(5) == "CONFIGURATION_CHANGE"
    ensures EventTypeName(6) == "FOREGROUND_SERVICE_STOP"
    ensures EventTypeName(7) == "USER_INTERACTION"
    ensures EventTypeName(8) == "SHORTCUT_INVOCATION"
  {
  }

  /** Codes without a branch fall back to their decimal text. */
  lemma EventTypeNameFallbackExamples()
    ensures EventTypeName(3) == "UNKNOWN_3"
    ensures EventTypeName(14) == "UNKNOWN_14"
    ensures EventTypeName(99) == "UNKNOWN_99"
  {
    assert IntToDecimal(14) == NatToDecimal(1) + [DigitChar(4)];
    assert IntToDecimal(99) == NatToDecimal(9) + [DigitChar(9)];
  }

  /** A negative code falls back with its sign. */
  lemma NegativeEventTypeNameExample()
    ensures EventTypeName(-1) == "UNKNOWN_-1"
  {
    assert IntToDecimal(-1) == "-" + NatToDecimal(1);
  }

  /** The literal branches for 1, 2, 5, 7 and 8 never fire: no event code
      is ever named ACTIVITY_RESUMED, ACTIVITY_PAUSED, FOREGROUND_SERVICE_START,
      SCREEN_INTERACTIVE or SCREEN_NON_INTERACTIVE. */
  lemma ShadowedBranchesNeverFire(eventType: int32)
    ensures EventTypeName(eventType) !in ShadowedEventNames
  {
    EventTypeNameTable(eventType);
    KnownNamesAreNotShadowed();
    if eventType !in KnownEventNames {
      // a fallback name carries the prefix, and no shadowed name does
      KnownNamesAreNotFallbacks();
      assert EventTypeName(eventType) == UnknownName(eventType);
      assert HasUnknownPrefix(UnknownName(eventType));
    }
  }

  /** No recognised event name is one of the shadowed names. */
  lemma KnownNamesAreNotShadowed()
    ensures forall c | c in KnownEventNames :: KnownEventNames[c] !in ShadowedEventNames
  {
    KnownNameInitials();
    forall c | c in KnownEventNames
      ensures KnownEventNames[c] !in ShadowedEventNames
    {
      InitialsRuleOutShadowed(KnownEventNames[c]);
    }
  }

  lemma InitialsRuleOutShadowed(name: string)
    requires InitialsUnlikeShadowed(name)
    ensures name !in ShadowedEventNames
  {
    // every shadowed name starts "AC", "SC" or "FO", and only the last is 24 long
    assert forall s | s in ShadowedEventNames ::
      (s[0] == 'A' && s[1] == 'C') || (s[0] == 'S' && s[1] == 'C') || (s[0] == 'F' && |s| == 24);
  }

  /** The first letters of the recognised event names, checked code by code. */
  lemma KnownNameInitials()
    ensures forall c | c in KnownEventNames :: InitialsUnlikeShadowed(KnownEventNames[c])
  {
    forall c | c in KnownEventNames
      ensures InitialsUnlikeShadowed(KnownEventNames[c])
    {
      if c == 0 {} else if c == 1 {} else if c == 2 {}
      else if c == 5 {} else if c == 6 {} else if c == 7 {}
      else if c == 8 {} else if c == 9 {} else if c == 10 {}
      else if c == 11 {} else if c == 12 {} else if c == 13 {}
      else if c == 15 {} else if c == 16 {} else if c == 17 {}
      else if c == 18 {} else if c == 19 {} else if c == 23 {}
      else if c == 24 {} else { assert false; }
    }
  }

  predicate InitialsUnlikeShadowed(name: string)
  {
    |name| >= 2 && name[0] != 'A' && (name[0] == 'S' ==> name[1] != 'C') && (name[0] == 'F' ==> |name| == 23)
  }

  /** Different event codes get different names, so the name identifies the
      code. */
  lemma EventTypeNameInjective(a: int32, b: int32)
    requires EventTypeName(a) == EventTypeName(b)
    ensures a == b
  {
    KnownNamesAreNotFallbacks();
    EventTypeNameTable(a);
    EventTypeNameTable(b);
    if a !in KnownEventNames && b !in KnownEventNames {
      assert UnknownName(a)[|UnknownPrefix|..] == UnknownName(b)[|UnknownPrefix|..];
    }
  }

  /** Read against the `UsageEventType` enum: the lookup gives member `i`
      its own name back exactly when it is not one of the five later aliases
      (ACTIVITY_RESUMED, ACTIVITY_PAUSED, FOREGROUND_SERVICE_START,
      SCREEN_INTERACTIVE, SCREEN_NON_INTERACTIVE), whose value an earlier
      member's name claims. */
  lemma EventTypeNameAgainstEnum(i: int)
    requires 0 <= i < |UsageEventTypeMembers|
    ensures IntMin <= UsageEventTypeMembers[i].value <= IntMax
    ensures EventTypeName(UsageEventTypeMembers[i].value) == UsageEventTypeMembers[i].name
        <==> i !in {6, 7, 8, 10, 11}
  {
    // one case per member keeps each step a literal evaluation
    if i < 6 {
      if i == 0 {} else if i == 1 {} else if i == 2 {} else if i == 3 {} else if i == 4 {} else {}
    } else if i < 12 {
      if i == 6 {} else if i == 7 {} else if i == 8 {} else if i == 9 {} else if i == 10 {} else {}
    } else if i < 18 {
      if i == 12 {} else if i == 13 {} else if i == 14 {} else if i == 15 {} else if i == 16 {} else {}
    } else {
      if i == 18 {} else if i == 19 {} else if i == 20 {} else if i == 21 {} else if i == 22 {} else {}
    }
  }

  /** `getAppStandbyBucketName` is total and answers from the table of
      recognised buckets, falling back to `"UNKNOWN_<bucket>"`. */
  lemma AppStandbyBucketNameTable(bucket: int32)
    ensures bucket in KnownBucketNames ==> AppStandbyBucketName(bucket) == KnownBucketNames[bucket]
    ensures bucket !in KnownBucketNames ==> AppStandbyBucketName(bucket) == "UNKNOWN_" + IntToDecimal(bucket)
  {
  }

  /** Read against the `AppStandbyBucket` enum: a member gets its own name
      back exactly when it is not NEVER, which has no branch. */
  lemma BucketNameAgainstEnum(m: Member)
    requires m in AppStandbyBucketMembers
    ensures IntMin <= m.value <= IntMax
    ensures (AppStandbyBucketName(m.value) == m.name) <==> m.name != "NEVER"
  {
    KnownNamesAreNotFallbacks();
    AppStandbyBucketNameTable(m.value);
  }

  /** NEVER (50) is rendered by the fallback. */
  lemma NeverBucketFallsBack()
    ensures AppStandbyBucketName(50) == "UNKNOWN_50"
  {
    assert IntToDecimal(50) == NatToDecimal(5) + [DigitChar(0)];
  }

  /** Different buckets get different names. */
  lemma AppStandbyBucketNameInjective(a: int32, b: int32)
    requires AppStandbyBucketName(a) == AppStandbyBucketName(b)
    ensures a == b
  {
    KnownNamesAreNotFallbacks();
    AppStandbyBucketNameTable(a);
    AppStandbyBucketNameTable(b);
    if a !in KnownBucketNames && b !in KnownBucketNames {
      assert UnknownName(a)[|UnknownPrefix|..] == UnknownName(b)[|UnknownPrefix|..];
    }
  }
}
