/** The asynchronous functions of the native module, each run as one
    sequential step against an oracle that stands for the operating system.
    A handler's behaviour is the trace of what it does: the usage queries it
    issues, in order, and the settlement of its promise. */
module Handlers {
  import opened Jvm
  import opened AndroidSdk
  import opened Wire
  import opened Mapping

  const PERMISSION_DENIED: string := "PERMISSION_DENIED"
  const OPERATION_FAILED: string := "OPERATION_FAILED"
  const FailureMessage: string := "Details about the failure"

  /** The code a `CodedException` built without one carries: expo-modules-core
      derives it from the class name, `ERR_` plus `Coded` in upper case. */
  const InferredCode: string := "ERR_CODED"

  /** The probe looks back one minute: `1000 * 60` milliseconds. */
  const ProbeWindow: int := 1000 * 60

  /** A `CodedException` handed to `promise.reject`. */
  datatype Rejection = Rejection(code: string, message: Option<string>, cause: Option<Cause>)

  /** `CodedException("PERMISSION_DENIED")`: the one-argument constructor
      takes the text as the message, not as the code. */
  const PermissionDenied: Rejection := Rejection(InferredCode, Some(PERMISSION_DENIED), None)

  /** `CodedException("OPERATION_FAILED", "Details about the failure", e)`. */
  function OperationFailed(e: Cause): Rejection {
    Rejection(OPERATION_FAILED, Some(FailureMessage), Some(e))
  }

  datatype Settlement<+T> = Resolved(value: T) | Rejected(rejection: Rejection)

  /** A query to `UsageStatsManager`. */
  datatype Call =
    | QueryUsageStats(intervalType: int32, beginTime: int64, endTime: int64)
    | QueryEvents(beginTime: int64, endTime: int64)

  /** One observable step of a handler. */
  datatype Effect<+T> = Query(call: Call) | Settle(settlement: Settlement<T>)

  /** The operating system as the module sees it during one call: the API
      level, the wall clock read by the probe, whether obtaining the usage
      statistics service (the `context` getter, `getSystemService` and the
      cast to `UsageStatsManager`) throws in the probe and in the handler
      after it, and the answers to the probe's query, to the handler's
      statistics query and to its event query. Each answer may be an
      exception. */
  datatype Os = Os(
    sdk: int,
    clock: int64,
    probeLookup: Option<Cause>,
    serviceLookup: Option<Cause>,
    probeReply: Attempt<seq<UsageStatsObject>>,
    statsReply: Attempt<seq<UsageStatsObject>>,
    eventsReply: Attempt<EventCursor>)

  /** The query `hasUsageStatsPermission` issues: daily buckets over the last
      minute, computed in `Long` arithmetic. */
  function ProbeCall(os: Os): (c: Call)
    ensures c.QueryUsageStats? && c.intervalType == INTERVAL_DAILY && c.endTime == os.clock
    ensures os.clock - ProbeWindow >= LongMin ==> c.beginTime == os.clock - ProbeWindow
    ensures (c.beginTime - (os.clock - ProbeWindow)) % 0x1_0000_0000_0000_0000 == 0
  {
    QueryUsageStats(INTERVAL_DAILY, WrapLong(os.clock - ProbeWindow), os.clock)
  }

  /** `hasUsageStatsPermission()`: permission is taken to be granted exactly
      when the probe query returns at least one record; an exception while
      obtaining the service or from the query propagates. */
  function HasUsageStatsPermission(os: Os): (r: Attempt<bool>)
    ensures r == Returned(true) <==>
      os.probeLookup.None? && os.probeReply.Returned? && |os.probeReply.value| > 0
    ensures r == Returned(false) <==> os.probeLookup.None? && os.probeReply == Returned([])
    ensures r.Threw? <==> os.probeLookup.Some? || os.probeReply.Threw?
    ensures os.probeLookup.Some? ==> r == Threw(os.probeLookup.value)
    ensures os.probeLookup.None? && os.probeReply.Threw? ==> r == Threw(os.probeReply.cause)
  {
    match os.probeLookup
    case Some(e) => Threw(e)
    case None =>
      match os.probeReply
      case Returned(stats) => Returned(|stats| > 0)
      case Threw(e) => Threw(e)
  }

  /** How the body of a `try` block ended: normally, or by raising `cause`
      after the given effects. */
  datatype Body<+T> = Completed(effects: seq<Effect<T>>) | Raised(effects: seq<Effect<T>>, cause: Cause)

  /** `try { body } catch (e: Exception) { promise.reject(OPERATION_FAILED …) }`. */
  function Catch<T>(body: Body<T>): (t: seq<Effect<T>>)
    ensures body.Completed? ==> t == body.effects
    ensures body.Raised? ==> |t| == |body.effects| + 1 && t[..|body.effects|] == body.effects
    ensures body.Raised? ==> t[|t| - 1] == Settle(Rejected(OperationFailed(body.cause)))
  {
    match body
    case Completed(effects) => effects
    case Raised(effects, e) => effects + [Settle(Rejected(OperationFailed(e)))]
  }

  /** The promise is settled exactly once, by the last effect. */
  predicate SettlesOnceAtEnd<T>(t: seq<Effect<T>>) {
    && |t| > 0
    && t[|t| - 1].Settle?
    && forall i | 0 <= i < |t| - 1 :: t[i].Query?
  }

  /** How the promise was settled. */
  function Outcome<T>(t: seq<Effect<T>>): Settlement<T>
    requires SettlesOnceAtEnd(t)
  {
    t[|t| - 1].settlement
  }

  /** The queries issued, in order. */
  function Queries<T>(t: seq<Effect<T>>): seq<Call> {
    if |t| == 0 then []
    else (if t[0].Query? then [t[0].call] else []) + Queries(t[1..])
  }

  /** The queries of two traces run one after the other are the queries of
      the first followed by those of the second. */
  lemma {:induction false} QueriesOfConcat<T>(a: seq<Effect<T>>, b: seq<Effect<T>>)
    ensures Queries(a + b) == Queries(a) + Queries(b)
    decreases |a|
  {
    if |a| == 0 {
      assert a + b == b;
    } else {
      var head := if a[0].Query? then [a[0].call] else [];
      assert (a + b)[0] == a[0];
      assert (a + b)[1..] == a[1..] + b;
      assert Queries(a + b) == head + Queries(a[1..] + b);
      QueriesOfConcat(a[1..], b);
      assert head + (Queries(a[1..]) + Queries(b)) == (head + Queries(a[1..])) + Queries(b);
    }
  }

  /** A run that only settles issues no query. */
  lemma QueriesOfSettleOnlyRun<T>()
    ensures forall s: Settlement<T> :: Queries([Settle(s)]) == []
    ensures forall s: Settlement<T> :: Queries([] + [Settle(s)]) == []
  {
    forall s: Settlement<T> ensures Queries([] + [Settle(s)]) == [] {
      assert [] + [Settle(s)] == [Settle(s)];
    }
  }

  /** The queries of a run that issues one query and then settles. */
  lemma QueriesOfOneQueryRun<T>(first: Call)
    ensures forall s: Settlement<T> :: Queries([Query(first), Settle(s)]) == [first]
    ensures forall s: Settlement<T> :: Queries([Query(first)] + [Settle(s)]) == [first]
  {
    forall s: Settlement<T> ensures Queries([Query(first), Settle(s)]) == [first] {
      var settle: seq<Effect<T>> := [Settle(s)];
      assert settle[1..] == [];
      QueriesOfConcat([Query(first)], settle);
      assert [Query(first)] + settle == [Query(first), Settle(s)];
    }
  }

  /** The queries of a run that issues two queries and then settles. */
  lemma QueriesOfTwoQueryRun<T>(first: Call, second: Call)
    ensures forall s: Settlement<T> :: Queries([Query(first), Query(second), Settle(s)]) == [first, second]
    ensures forall s: Settlement<T> :: Queries([Query(first), Query(second)] + [Settle(s)]) == [first, second]
  {
    forall s: Settlement<T> ensures Queries([Query(first), Query(second), Settle(s)]) == [first, second] {
      var single: seq<Effect<T>> := [Query(second)];
      assert single[1..] == [];
      QueriesOfConcat([Query(first), Query(second)], [Settle(s)]);
      QueriesOfConcat([Query(first)], single);
      assert [Query(first)] + single == [Query(first), Query(second)];
      assert [Query(first), Query(second)] + [Settle(s)] == [Query(first), Query(second), Settle(s)];
    }
    forall s: Settlement<T> ensures Queries([Query(first), Query(second)] + [Settle(s)]) == [first, second] {
      assert [Query(first), Query(second)] + [Settle(s)] == [Query(first), Query(second), Settle(s)];
    }
  }

  /** Drains an event cursor from position `|done|` on, as the
      `while (hasNextEvent()) { getNextEvent(event); result.add(…) }` loop
      does: `convert` is the loop's per-event conversion and `done` holds
      the records converted so far. */
  function Drain<R>(cursor: EventCursor, convert: EventObject -> R, done: seq<R>): (r: Attempt<seq<R>>)
    requires |done| <= |cursor.events|
    requires forall i | 0 <= i < |done| :: done[i] == convert(cursor.events[i])
    ensures cursor.fault.Some? ==> r == Threw(cursor.fault.value)
    ensures cursor.fault.None? ==> r.Returned? && |r.value| == |cursor.events|
    ensures cursor.fault.None? ==>
      forall i | 0 <= i < |cursor.events| :: r.value[i] == convert(cursor.events[i])
    decreases |cursor.events| - |done|
  {
    if |done| < |cursor.events| then
      Drain(cursor, convert, done + [convert(cursor.events[|done|])])
    else
      match cursor.fault
      case None => Returned(done)
      case Some(e) => Threw(e)
  }

  /** The handler gets as far as its own query: the probe found permission
      granted and the handler then obtained the service. */
  predicate ReachesQuery(os: Os) {
    HasUsageStatsPermission(os) == Returned(true) && os.serviceLookup.None?
  }

  /** The `try` body every data handler runs: the probe; without permission,
      `PERMISSION_DENIED` and nothing more; with it, obtaining the service
      and then the handler's one query, whose `answer` (the records built
      from the OS reply, or the exception raised on the way) settles the
      promise. */
  function GuardedBody<T>(os: Os, call: Call, answer: Attempt<T>): Body<T> {
    var probe := Query(ProbeCall(os));
    match HasUsageStatsPermission(os)
    case Threw(e) => if os.probeLookup.Some? then Raised([], e) else Raised([probe], e)
    case Returned(false) => Completed([probe, Settle(Rejected(PermissionDenied))])
    case Returned(true) =>
      match os.serviceLookup
      case Some(e) => Raised([probe], e)
      case None =>
        match answer
        case Threw(e) => Raised([probe, Query(call)], e)
        case Returned(v) => Completed([probe, Query(call), Settle(Resolved(v))])
  }

  /** A data handler: the guarded body inside `try … catch (e: Exception)`.
      The promise settles once, last; no query follows a refused or failed
      probe or a failed service lookup; otherwise the probe is followed by
      exactly the handler's query. */
  function GuardedQuery<T>(os: Os, call: Call, answer: Attempt<T>): (t: seq<Effect<T>>)
    ensures SettlesOnceAtEnd(t)
    ensures os.probeLookup.Some? ==>
      Queries(t) == [] && Outcome(t) == Rejected(OperationFailed(os.probeLookup.value))
    ensures os.probeLookup.None? && os.probeReply.Threw? ==>
      Queries(t) == [ProbeCall(os)] && Outcome(t) == Rejected(OperationFailed(os.probeReply.cause))
    ensures HasUsageStatsPermission(os) == Returned(false) ==>
      Queries(t) == [ProbeCall(os)] && Outcome(t) == Rejected(PermissionDenied)
    ensures HasUsageStatsPermission(os) == Returned(true) && os.serviceLookup.Some? ==>
      Queries(t) == [ProbeCall(os)] && Outcome(t) == Rejected(OperationFailed(os.serviceLookup.value))
    ensures ReachesQuery(os) ==> Queries(t) == [ProbeCall(os), call]
    ensures ReachesQuery(os) && answer.Threw? ==> Outcome(t) == Rejected(OperationFailed(answer.cause))
    ensures ReachesQuery(os) && answer.Returned? ==> Outcome(t) == Resolved(answer.value)
  {
    QueriesOfSettleOnlyRun<T>();
    QueriesOfOneQueryRun<T>(ProbeCall(os));
    QueriesOfTwoQueryRun<T>(ProbeCall(os), call);
    Catch(GuardedBody(os, call, answer))
  }

  /** What the statistics query and the `map { mapUsageStats(it) }` after it
      produce. */
  function StatsAnswer(os: Os): (a: Attempt<seq<Record>>)
    ensures os.statsReply.Threw? ==> a == Threw(os.statsReply.cause)
    ensures os.statsReply.Returned? ==>
      && a.Returned?
      && |a.value| == |os.statsReply.value|
      && forall i | 0 <= i < |a.value| :: a.value[i] == MapUsageStats(os.statsReply.value[i], os.sdk)
  {
    match os.statsReply
    case Threw(e) => Threw(e)
    case Returned(stats) => Returned(seq(|stats|, i requires 0 <= i < |stats| => MapUsageStats(stats[i], os.sdk)))
  }

  /** The statistics handlers: probe first; without permission, reject with
      PERMISSION_DENIED and query nothing more; otherwise query once and
      resolve with one mapped record per OS record, in order; any exception
      on the way, the probe's included, rejects with OPERATION_FAILED. */
  function HandleStatsQuery(os: Os, intervalType: int32, beginTime: int64, endTime: int64)
    : (t: seq<Effect<seq<Record>>>)
    ensures SettlesOnceAtEnd(t)
    ensures os.probeLookup.Some? ==>
      Queries(t) == [] && Outcome(t) == Rejected(OperationFailed(os.probeLookup.value))
    ensures os.probeLookup.None? && os.probeReply.Threw? ==>
      Queries(t) == [ProbeCall(os)] && Outcome(t) == Rejected(OperationFailed(os.probeReply.cause))
    ensures HasUsageStatsPermission(os) == Returned(false) ==>
      Queries(t) == [ProbeCall(os)] && Outcome(t) == Rejected(PermissionDenied)
    ensures HasUsageStatsPermission(os) == Returned(true) && os.serviceLookup.Some? ==>
      Queries(t) == [ProbeCall(os)] && Outcome(t) == Rejected(OperationFailed(os.serviceLookup.value))
    ensures ReachesQuery(os) ==>
      Queries(t) == [ProbeCall(os), QueryUsageStats(intervalType, beginTime, endTime)]
    ensures ReachesQuery(os) && os.statsReply.Threw? ==>
      Outcome(t) == Rejected(OperationFailed(os.statsReply.cause))
    ensures ReachesQuery(os) && os.statsReply.Returned? ==>
      var stats := os.statsReply.value;
      && Outcome(t).Resolved?
      && |Outcome(t).value| == |stats|
      && forall i | 0 <= i < |stats| :: Outcome(t).value[i] == MapUsageStats(stats[i], os.sdk)
  {
    GuardedQuery(os, QueryUsageStats(intervalType, beginTime, endTime), StatsAnswer(os))
  }

  /** `getUsageStats(startTime, endTime)`: always daily buckets. */
  function GetUsageStats(os: Os, startTime: int64, endTime: int64): (t: seq<Effect<seq<Record>>>)
    ensures t == HandleStatsQuery(os, INTERVAL_DAILY, startTime, endTime)
    ensures ReachesQuery(os) ==>
      Queries(t) == [ProbeCall(os), QueryUsageStats(INTERVAL_DAILY, startTime, endTime)]
  {
    HandleStatsQuery(os, INTERVAL_DAILY, startTime, endTime)
  }

  /** `getAggregatedUsageStats(startTime, endTime, intervalType)`: the
      interval code goes to the OS unchanged, without a range check. */
  function GetAggregatedUsageStats(os: Os, startTime: int64, endTime: int64, intervalType: int32)
    : (t: seq<Effect<seq<Record>>>)
    ensures t == HandleStatsQuery(os, intervalType, startTime, endTime)
    ensures ReachesQuery(os) ==>
      Queries(t) == [ProbeCall(os), QueryUsageStats(intervalType, startTime, endTime)]
  {
    HandleStatsQuery(os, intervalType, startTime, endTime)
  }

  /** What the event query and the drain loop after it produce. */
  function EventsAnswer(os: Os): (a: Attempt<seq<Record>>)
    ensures os.eventsReply.Threw? ==> a == Threw(os.eventsReply.cause)
    ensures os.eventsReply.Returned? && os.eventsReply.value.fault.Some? ==>
      a == Threw(os.eventsReply.value.fault.value)
    ensures os.eventsReply.Returned? && os.eventsReply.value.fault.None? ==>
      && a.Returned?
      && |a.value| == |os.eventsReply.value.events|
      && forall i | 0 <= i < |a.value| :: a.value[i] == MapUsageEvent(os.eventsReply.value.events[i], os.sdk)
  {
    match os.eventsReply
    case Threw(e) => Threw(e)
    case Returned(cursor) => Drain(cursor, e => MapUsageEvent(e, os.sdk), [])
  }

  /** `getUsageEvents(startTime, endTime)`: as the statistics handlers, but
      the records come from draining the event cursor, one per event in
      cursor order; a cursor failure discards the partial list. */
  function GetUsageEvents(os: Os, startTime: int64, endTime: int64): (t: seq<Effect<seq<Record>>>)
    ensures SettlesOnceAtEnd(t)
    ensures os.probeLookup.Some? ==>
      Queries(t) == [] && Outcome(t) == Rejected(OperationFailed(os.probeLookup.value))
    ensures os.probeLookup.None? && os.probeReply.Threw? ==>
      Queries(t) == [ProbeCall(os)] && Outcome(t) == Rejected(OperationFailed(os.probeReply.cause))
    ensures HasUsageStatsPermission(os) == Returned(false) ==>
      Queries(t) == [ProbeCall(os)] && Outcome(t) == Rejected(PermissionDenied)
    ensures HasUsageStatsPermission(os) == Returned(true) && os.serviceLookup.Some? ==>
      Queries(t) == [ProbeCall(os)] && Outcome(t) == Rejected(OperationFailed(os.serviceLookup.value))
    ensures ReachesQuery(os) ==>
      Queries(t) == [ProbeCall(os), QueryEvents(startTime, endTime)]
    ensures ReachesQuery(os) && os.eventsReply.Threw? ==>
      Outcome(t) == Rejected(OperationFailed(os.eventsReply.cause))
    ensures (ReachesQuery(os) && os.eventsReply.Returned?
             && os.eventsReply.value.fault.Some?) ==>
      Outcome(t) == Rejected(OperationFailed(os.eventsReply.value.fault.value))
    ensures (ReachesQuery(os) && os.eventsReply.Returned?
             && os.eventsReply.value.fault.None?) ==>
      var events := os.eventsReply.value.events;
      && Outcome(t).Resolved?
      && |Outcome(t).value| == |events|
      && forall i | 0 <= i < |events| :: Outcome(t).value[i] == MapUsageEvent(events[i], os.sdk)
  {
    GuardedQuery(os, QueryEvents(startTime, endTime), EventsAnswer(os))
  }

  /** The `hasUsageStatsPermission` function exposed to JavaScript: resolves
      with the probe's answer, or rejects with OPERATION_FAILED if it throws. */
  function HandleHasUsageStatsPermission(os: Os): (t: seq<Effect<bool>>)
    ensures SettlesOnceAtEnd(t)
    ensures os.probeLookup.Some? ==> Queries(t) == []
    ensures os.probeLookup.None? ==> Queries(t) == [ProbeCall(os)]
    ensures Outcome(t) == Resolved(true) <==>
      os.probeLookup.None? && os.probeReply.Returned? && |os.probeReply.value| > 0
    ensures Outcome(t) == Resolved(false) <==> os.probeLookup.None? && os.probeReply == Returned([])
    ensures os.probeLookup.Some? ==> Outcome(t) == Rejected(OperationFailed(os.probeLookup.value))
    ensures os.probeLookup.None? && os.probeReply.Threw? ==>
      Outcome(t) == Rejected(OperationFailed(os.probeReply.cause))
  {
    var probe := Query(ProbeCall(os));
    QueriesOfSettleOnlyRun<bool>();
    QueriesOfOneQueryRun<bool>(ProbeCall(os));
    Catch(
      match HasUsageStatsPermission(os)
      case Threw(e) => if os.probeLookup.Some? then Raised([], e) else Raised([probe], e)
      case Returned(granted) => Completed([probe, Settle(Resolved(granted))]))
  }

  /** Whether permission counts as granted depends on the probe's service
      lookup and answer and on nothing else the OS reports. */
  lemma PermissionDependsOnlyOnProbe(os: Os, other: Os)
    requires os.probeLookup == other.probeLookup && os.probeReply == other.probeReply
    ensures HasUsageStatsPermission(os) == HasUsageStatsPermission(other)
    ensures Outcome(HandleHasUsageStatsPermission(os)) == Outcome(HandleHasUsageStatsPermission(other))
    ensures HasUsageStatsPermission(os) == Returned(false) ==>
      forall b: int64, e: int64, iv: int32 ::
        Outcome(HandleStatsQuery(os, iv, b, e)) == Outcome(HandleStatsQuery(other, iv, b, e))
  {
  }

  /** A resolved `getUsageStats` or `getAggregatedUsageStats` delivers what
      the facade declares, `UsageStats[]`. */
  lemma ResolvedStatsHaveDeclaredShape(os: Os, intervalType: int32, beginTime: int64, endTime: int64)
    ensures var t := HandleStatsQuery(os, intervalType, beginTime, endTime);
      Outcome(t).Resolved? ==>
        forall i | 0 <= i < |Outcome(t).value| :: Conforms(Outcome(t).value[i], UsageStatsShape)
  {
    forall s: UsageStatsObject ensures Conforms(MapUsageStats(s, os.sdk), UsageStatsShape) {
      UsageStatsShapeAndGating(s, os.sdk);
    }
  }

  /** A resolved `getUsageEvents` delivers what the facade declares,
      `UsageEvent[]`. */
  lemma ResolvedEventsHaveDeclaredShape(os: Os, startTime: int64, endTime: int64)
    ensures var t := GetUsageEvents(os, startTime, endTime);
      Outcome(t).Resolved? ==>
        forall i | 0 <= i < |Outcome(t).value| :: Conforms(Outcome(t).value[i], UsageEventShape)
  {
    forall e: EventObject ensures Conforms(MapUsageEvent(e, os.sdk), UsageEventShape) {
      UsageEventShapeAndGating(e, os.sdk);
    }
  }
}
