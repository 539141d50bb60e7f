/**
 Conservation of visitors: in every run the total inflow equals the joins in stored, open and pruned
 buckets, and equals the rows present plus the rows purged; admissions are conserved likewise. The one
 step that can break the accounts is the batch of an alarm handler that was overtaken by a newer bucket
 while it was suspended, and the exact condition is stated.
 */
module RoomTraffic {
  import opened Wrappers
  import opened Visitors
  import opened TrafficBuckets
  import opened RoomState
  import opened RoomSteps
  import opened RoomRuns
  import opened TableMoves
  import opened Admission
  import opened RoomBounds

  /** Every join is a row, present or purged. */
  predicate RowsAccounted(s: Room) {
    |s.rows| + s.purged == s.traffic.totalInflow
  }

  /** Joins and admissions that the traffic accounts can no longer show. */
  function JoinsLost(s: Room): int {
    s.traffic.totalInflow - AllJoins(s.traffic)
  }

  function AdmitsLost(s: Room): int {
    s.admissions - AllAdmits(s.traffic)
  }

  predicate Conserved(s: Room) {
    JoinsLost(s) == 0 && AdmitsLost(s) == 0
  }

  /** Between two states, what has been lost is not found again. */
  predicate LosesOnly(s: Room, t: Room) {
    JoinsLost(s) <= JoinsLost(t) && AdmitsLost(s) <= AdmitsLost(t)
  }

  predicate LosesNothing(s: Room, t: Room) {
    JoinsLost(s) == JoinsLost(t) && AdmitsLost(s) == AdmitsLost(t)
  }

  /** The open bucket is a real one, opened no later than the clock. */
  predicate OnTime(s: Room, clock: int) {
    && TRAFFIC_BUCKET_MS <= clock
    && s.traffic.openT <= Align(clock)
    && (s.traffic.openT > 0 || (s.traffic.joins == 0 && s.traffic.admits == 0))
    && (s.handler.Some? ==> TRAFFIC_BUCKET_MS <= s.handler.value.now <= clock)
  }

  lemma AlignMonotone(a: int, b: int)
    requires a <= b
    ensures Align(a) <= Align(b)
  {
  }

  lemma AlignPositive(now: int)
    requires TRAFFIC_BUCKET_MS <= now
    ensures TRAFFIC_BUCKET_MS <= Align(now)
  {
  }

  // ---------- the accounts under each piece of a step ----------

  ghost predicate SameAccounts(s: Room, t: Room) {
    && t.traffic == s.traffic && t.admissions == s.admissions && t.handler == s.handler
    && |t.rows| + t.purged == |s.rows| + s.purged
  }

  lemma BeginAccounts(s: Room, config: QueueConfig, now: int, force: bool)
    requires TableOk(s)
    ensures SameAccounts(s, Begin(s, config, now, force))
  {
    SweepMoves(Remember(s, config), config, now, force);
  }

  /** The accounts after a step, given whether its batch (if any) kept the clock and the shape of the buckets. */
  ghost predicate Settled(s: Room, t: Room, now: int, kept: bool, shaped: bool) {
    && OnTime(t, now) && RowsAccounted(t)
    && LosesOnly(s, t) && (LosesNothing(s, t) <==> kept)
    && (BucketsInv(s.traffic) ==> (BucketsInv(t.traffic) <==> shaped))
  }

  lemma FlushSettles(s: Room, config: QueueConfig, now: int)
    requires OnTime(s, now) && RowsAccounted(s)
    ensures Settled(s, FlushTraffic(s, config, now), now, true, true)
  {
    FlushConserves(s.traffic, now, Gauges(s, config));
    AlignPositive(now);
    if BucketsInv(s.traffic) {
      FlushKeepsBuckets(s.traffic, now, Gauges(s, config));
    }
  }

  lemma NewRowAdmits(s: Room, config: QueueConfig, id: string, now: int, admit: bool)
    ensures (NewRow(s, config, id, now, admit).status == Admitted) == admit
  {
  }

  lemma AlarmAccounts(s: Room, now: int)
    ensures SameAccounts(s, EnsureAlarm(s, now))
  {
  }

  lemma AddVisitorSettles(s: Room, config: QueueConfig, id: string, now: int, admit: bool)
    requires OnTime(s, now) && RowsAccounted(s)
    ensures Settled(s, AddVisitor(s, config, id, now, admit).0, now, true, true)
  {
    hide NewRow, Gauges, EnsureAlarm, BucketsInv;
    if Has(s.rows, id) {
      assert SameAccounts(s, SpendSequence(s));
    } else {
      var s1 := Insert(s, NewRow(s, config, id, now, admit));
      var sample := Gauges(s1, config);
      NewRowAdmits(s, config, id, now, admit);
      AlarmAccounts(RecordTraffic(s1, config, now, 1, if admit then 1 else 0), now);
      AlignPositive(now);
      RecordConserves(s.traffic, now, sample, 1, if admit then 1 else 0);
      if BucketsInv(s.traffic) {
        RecordKeepsBuckets(s.traffic, now, sample, 1, if admit then 1 else 0);
      }
    }
  }

  /** A batch recorded at `now` keeps the accounts exactly when the clock was kept. */
  lemma BatchSettles(s: Room, config: QueueConfig, now: int, limit: nat, gate: bool, picks: seq<string>, clock: int)
    requires TableOk(s) && PicksAllowed(s, config, gate, limit, picks) && limit <= Slots(s, config)
    requires OnTime(s, clock) && RowsAccounted(s) && TRAFFIC_BUCKET_MS <= now <= clock
    ensures Settled(s, AdmitPicks(s, config, now, picks), clock,
                    picks == [] || ClockKept(s.traffic, now), picks == [] || ShapeKept(s.traffic, now))
    ensures picks != [] ==> AdmitPicks(s, config, now, picks).traffic.openT == Align(now)
  {
    AdmitPicksMoves(s, config, now, gate, limit, picks);
    if picks != [] {
      var entered := !EffectiveConfig(s.meta, config).requireClickToEnter;
      var s1 := s.(rows := AdmitAll(s.rows, picks, now, entered), admissions := s.admissions + |picks|);
      var sample := Gauges(s1, config);
      AlignPositive(now);
      AlignMonotone(now, clock);
      RecordConserves(s.traffic, now, sample, 0, |picks|);
      if BucketsInv(s.traffic) {
        RecordKeepsShape(s.traffic, now, sample, 0, |picks|);
      }
    }
  }

  // ---------- the steps ----------

  lemma JoinAfterSweepSettles(s: Room, config: QueueConfig, id: string, now: int)
    requires OnTime(s, now) && RowsAccounted(s)
    ensures Settled(s, JoinAfterSweep(s, config, id, now).0, now, true, true)
  {
    if Has(s.rows, id) && IsActive(Get(s.rows, id)) {
      AlarmAccounts(s, now);
      SameAccountsSettle(s, EnsureAlarm(s, now), now);
    } else {
      AddVisitorSettles(s, config, id, now, true);
      AddVisitorSettles(s, config, id, now, false);
      SameAccountsSettle(s, s, now);
    }
    hide AddVisitor, EnsureAlarm, Settled, OnTime, RowsAccounted, CanAdmit;
  }

  lemma JoinSettles(s: Room, config: QueueConfig, id: string, now: int)
    requires TableOk(s) && OnTime(s, now) && RowsAccounted(s)
    ensures Settled(s, Join(s, config, id, now).0, now, true, true)
  {
    var b := Begin(s, config, now, true);
    BeginAccounts(s, config, now, true);
    JoinAfterSweepSettles(b, config, id, now);
  }

  lemma CheckInAccounts(s: Room, config: QueueConfig, id: string, now: int)
    requires TableOk(s)
    ensures SameAccounts(s, CheckStatus(s, config, id, now).0)
    ensures SameAccounts(s, Heartbeat(s, config, id, now).0)
  {
    BeginAccounts(s, config, now, false);
  }

  lemma EnterAccounts(s: Room, config: QueueConfig, id: string, now: int)
    requires TableOk(s)
    ensures SameAccounts(s, Enter(s, config, id, now).0)
  {
    BeginAccounts(s, config, now, true);
  }

  /** A batch recorded by a request is always on time. */
  lemma ForceAdmitAfterSweepSettles(s: Room, config: QueueConfig, now: int, gate: bool, limit: nat, picks: seq<string>)
    requires TableOk(s) && PicksAllowed(s, config, gate, limit, picks) && limit <= Slots(s, config)
    requires OnTime(s, now) && RowsAccounted(s)
    ensures Settled(s, ForceAdmitAfterSweep(s, config, now, picks), now, true, true)
  {
    BatchSettles(s, config, now, limit, gate, picks, now);
  }

  lemma LeaveAfterSweepSettles(s: Room, config: QueueConfig, id: string, now: int, picks: seq<string>)
    requires TableOk(s) && OnTime(s, now) && RowsAccounted(s)
    requires LeavePicks(s, config, id, now, picks)
    ensures Settled(s, LeaveAfterSweep(s, config, id, now, picks).0, now, true, true)
  {
    if IsPresent(s, id) {
      var v := Vacate(s, id);
      VacateMoves(s, id, true, 0, 0);
      ForceAdmitAfterSweepSettles(v, config, now, CanAdmit(s.meta, now), Slots(v, config), picks);
    }
  }

  lemma LeaveSettles(s: Room, config: QueueConfig, id: string, now: int, picks: seq<string>)
    requires TableOk(s) && OnTime(s, now) && RowsAccounted(s)
    requires LeavePicks(Begin(s, config, now, true), config, id, now, picks)
    ensures Settled(s, Leave(s, config, id, now, picks).0, now, true, true)
  {
    BeginAccounts(s, config, now, true);
    BeginMoves(s, config, now, true, true, 0, 0);
    LeaveAfterSweepSettles(Begin(s, config, now, true), config, id, now, picks);
  }

  lemma ForceAdmitSettles(s: Room, config: QueueConfig, count: int, now: int, picks: seq<string>)
    requires TableOk(s) && OnTime(s, now) && RowsAccounted(s)
    requires ForcePicks(Begin(s, config, now, true), config, count, now, picks)
    ensures Settled(s, ForceAdmit(s, config, now, picks), now, true, true)
  {
    var b := Begin(s, config, now, true);
    BeginAccounts(s, config, now, true);
    BeginMoves(s, config, now, true, true, 0, 0);
    ForceAdmitAfterSweepSettles(b, config, now, CanAdmit(b.meta, now), ForceLimit(b, config, count), picks);
  }

  /** The flush that closes the handler's work loses nothing. */
  lemma ClosingFlush(s: Room, config: QueueConfig, at: int, clock: int)
    requires OnTime(s, clock) && TRAFFIC_BUCKET_MS <= at <= clock
    ensures var t := FlushTraffic(s, config, at);
            && OnTime(t, clock) && (RowsAccounted(t) <==> RowsAccounted(s)) && LosesNothing(s, t)
            && (BucketsInv(s.traffic) ==> BucketsInv(t.traffic))
            && (s.traffic.openT == Align(at) ==> t.traffic == s.traffic)
  {
    FlushConserves(s.traffic, at, Gauges(s, config));
    AlignMonotone(at, clock);
    AlignPositive(at);
    if BucketsInv(s.traffic) && s.traffic.openT <= Align(at) {
      FlushKeepsBuckets(s.traffic, at, Gauges(s, config));
    }
  }

  lemma BudgetBatchSettles(s: Room, config: QueueConfig, at: int, picks: seq<string>, clock: int)
    requires TableOk(s) && OnTime(s, clock) && RowsAccounted(s)
    requires TRAFFIC_BUCKET_MS <= at <= clock
    requires PicksAllowed(s, config, CanAdmit(s.meta, at), BudgetLimit(s, config, at), picks)
    ensures Settled(s, AdmitFromBudget(s, config, at, picks), clock,
                    picks == [] || ClockKept(s.traffic, at), picks == [] || ShapeKept(s.traffic, at))
    ensures picks != [] ==> AdmitFromBudget(s, config, at, picks).traffic.openT == Align(at)
  {
    var ticked := s.(meta := s.meta.(admitRemainder := TickBudget(s, config, at).nextRemainder));
    BatchSettles(ticked, config, at, BudgetLimit(s, config, at), CanAdmit(s.meta, at), picks, clock);
  }

  /** Closing the handler and re-arming the alarm touches no account. */
  lemma DoneAccounts(s: Room, clock: int, now: int)
    requires OnTime(s, clock) && clock <= now
    ensures var t := EnsureAlarm(s.(handler := None), now);
            && OnTime(t, now) && (RowsAccounted(t) <==> RowsAccounted(s)) && LosesNothing(s, t)
            && t.traffic == s.traffic
  {
    AlignMonotone(clock, now);
  }

  lemma FinishSettles(s: Room, now: int, picks: seq<string>, clock: int)
    requires TableOk(s) && OnTime(s, clock) && RowsAccounted(s) && clock <= now
    requires AlarmAdmits(s) && FinishPicks(s, picks)
    ensures var e := AlarmFinishEvent(now, picks);
            Settled(s, AlarmFinish(s, now, picks), now, ClockKeptBy(s, e), ShapeKeptBy(s, e))
  {
    DueBatchAdmits(s, picks);
    hide CanAdmit, BudgetLimit;
    var h := s.handler.value;
    var worked := s;
    if h.config.Some? {
      BudgetBatchSettles(s, h.config.value, h.now, picks, clock);
      ClosingFlush(AdmitFromBudget(s, h.config.value, h.now, picks), h.config.value, h.now, clock);
      worked := FlushTraffic(AdmitFromBudget(s, h.config.value, h.now, picks), h.config.value, h.now);
    }
    DoneAccounts(worked, clock, now);
  }

  /** The batch of the alarm handler, if one is due, was not overtaken by a newer bucket with counts. */
  predicate ClockKeptBy(s: Room, e: Event) {
    IsAlarmBatch(s, e) ==> ClockKept(s.traffic, s.handler.value.now)
  }

  /** The same batch, if any, reopens no bucket that is stored already. */
  ghost predicate ShapeKeptBy(s: Room, e: Event) {
    IsAlarmBatch(s, e) ==> ShapeKept(s.traffic, s.handler.value.now)
  }

  lemma TrafficSettles(s: Room, config: QueueConfig, now: int)
    requires OnTime(s, now) && RowsAccounted(s)
    ensures Settled(s, FlushTraffic(Remember(s, config), config, now), now, true, true)
  {
    RememberAccounts(s, config);
    SameAccountsSettle(s, Remember(s, config), now);
    FlushSettles(Remember(s, config), config, now);
    hide FlushTraffic;
  }

  lemma RequestSettles(s: Room, e: Event)
    requires TableOk(s) && OnTime(s, e.now) && RowsAccounted(s) && Enabled(s, e)
    requires IsRequest(e) || e.TrafficEvent?
    ensures Settled(s, Step(s, e), e.now, true, true)
  {
    hide OnTime, Settled, RowsAccounted, SameAccounts, Join, CheckStatus, Heartbeat, Enter, Leave, ForceAdmit, Begin,
      FlushTraffic, LeavePicks, ForcePicks;
    match e
    case JoinEvent(id, config, now) => JoinSettles(s, config, id, now);
    case StatusEvent(id, config, now) =>
      CheckInAccounts(s, config, id, now);
      SameAccountsSettle(s, Step(s, e), now);
    case HeartbeatEvent(id, config, now) =>
      CheckInAccounts(s, config, id, now);
      SameAccountsSettle(s, Step(s, e), now);
    case EnterEvent(id, config, now) =>
      EnterAccounts(s, config, id, now);
      SameAccountsSettle(s, Step(s, e), now);
    case LeaveEvent(id, config, now, picks) => LeaveSettles(s, config, id, now, picks);
    case ForceAdmitEvent(count, config, now, picks) => ForceAdmitSettles(s, config, count, now, picks);
    case MetricsEvent(config, now) =>
      BeginAccounts(s, config, now, false);
      SameAccountsSettle(s, Step(s, e), now);
    case TrafficEvent(config, now) => TrafficSettles(s, config, now);
  }

  lemma AlarmEventSettles(s: Room, clock: int, e: Event)
    requires TableOk(s) && OnTime(s, clock) && OnTime(s, e.now) && RowsAccounted(s)
    requires e.now >= clock && Enabled(s, e) && IsAlarmWork(e)
    ensures Settled(s, Step(s, e), e.now, ClockKeptBy(s, e), ShapeKeptBy(s, e))
  {
    hide TableOk, OnTime, Settled, RowsAccounted, ClockKept, ShapeKept, AlarmSweep, AlarmFinish, FinishPicks;
    if e.AlarmSweepEvent? {
      AlarmSweepSettles(s, e.now);
    } else {
      FinishSettles(s, e.now, e.picks, clock);
    }
  }

  /**
   One event: every join stays accounted for by a row; the traffic accounts never regain what they have lost,
   and lose nothing if and only if the event is not an overtaken alarm batch; and the stored buckets stay aligned,
   in order and before the open one if and only if it is not a batch that reopens a stored bucket.
   */
  lemma StepConserves(s: Room, clock: int, e: Event)
    requires TableOk(s) && OnTime(s, clock) && RowsAccounted(s)
    requires e.now >= clock && Enabled(s, e)
    ensures Settled(s, Step(s, e), e.now, ClockKeptBy(s, e), ShapeKeptBy(s, e))
  {
    LaterOnTime(s, clock, e.now);
    hide OnTime, Settled, RowsAccounted, ClockKept, ShapeKept, Enabled, Step;
    if IsRequest(e) || e.TrafficEvent? {
      RequestSettles(s, e);
    } else if IsAlarmWork(e) {
      AlarmEventSettles(s, clock, e);
    } else {
      BackgroundSettles(s, e);
    }
  }

  lemma LaterOnTime(s: Room, clock: int, now: int)
    requires OnTime(s, clock) && clock <= now
    ensures OnTime(s, now)
  {
    AlignMonotone(clock, now);
  }

  lemma SameAccountsSettle(s: Room, t: Room, now: int)
    requires SameAccounts(s, t) && OnTime(s, now) && RowsAccounted(s)
    ensures Settled(s, t, now, true, true)
  {
  }

  lemma SameTrafficSettles(s: Room, t: Room, now: int)
    requires t.traffic == s.traffic && t.admissions == s.admissions && t.rows == s.rows && t.purged == s.purged
    requires OnTime(t, now) && RowsAccounted(s)
    ensures Settled(s, t, now, true, true)
  {
  }

  lemma RememberAccounts(s: Room, config: QueueConfig)
    ensures SameAccounts(s, Remember(s, config))
  {
  }

  lemma AlarmSweepSettles(s: Room, now: int)
    requires TableOk(s) && AlarmSweeps(s) && OnTime(s, now) && RowsAccounted(s)
    ensures Settled(s, AlarmSweep(s), now, true, true)
  {
    AlarmSweepAccounts(s);
  }

  /** The events that touch neither rows nor traffic. */
  lemma BackgroundAccounts(s: Room, e: Event)
    requires Enabled(s, e) && OnTime(s, e.now)
    requires e.OperateEvent? || e.EnqueueEvent? || e.AlarmFireEvent? || e.AlarmPostEvent? || e.AlarmProbeEvent?
    ensures var t := Step(s, e);
            && t.traffic == s.traffic && t.admissions == s.admissions && t.rows == s.rows && t.purged == s.purged
            && OnTime(t, e.now)
  {
    hide CanAdmit, HasQueueWork, AlarmInterval, Earliest;
  }

  lemma BackgroundSettles(s: Room, e: Event)
    requires Enabled(s, e) && OnTime(s, e.now) && RowsAccounted(s)
    requires e.OperateEvent? || e.EnqueueEvent? || e.AlarmFireEvent? || e.AlarmPostEvent? || e.AlarmProbeEvent?
    ensures Settled(s, Step(s, e), e.now, true, true)
  {
    BackgroundAccounts(s, e);
    hide OnTime, Settled, Step, Enabled, RowsAccounted;
    SameTrafficSettles(s, Step(s, e), e.now);
  }

  lemma AlarmSweepAccounts(s: Room)
    requires TableOk(s) && AlarmSweeps(s)
    ensures var t := AlarmSweep(s);
            && t.traffic == s.traffic && t.admissions == s.admissions
            && |t.rows| + t.purged == |s.rows| + s.purged
  {
    if s.meta.config.Some? {
      SweepMoves(s, s.meta.config.value, s.handler.value.now, true);
    }
  }

  // ---------- the gauges ----------

  /** A bucket that is over is stored with the rate in force, and with how many wait and have entered at that moment. */
  lemma StoredGauges(s: Room, config: QueueConfig, now: int)
    requires BucketsInv(s.traffic) && 0 < s.traffic.openT < Align(now) && now - s.traffic.openT <= 86400000
    ensures var chosen := s.meta.admitPerSecondOverride;
            var rate := if chosen.Some? && 0.01 <= chosen.value <= 1000.0 then chosen.value else config.admitPerSecond;
            Bucket(s.traffic.openT, s.traffic.joins, s.traffic.admits, rate, Count(s.rows, Waiting), CountEntered(s.rows))
              in FlushTraffic(s, config, now).traffic.buckets
  {
    var chosen := s.meta.admitPerSecondOverride;
    var rate := if chosen.Some? && 0.01 <= chosen.value <= 1000.0 then chosen.value else config.admitPerSecond;
    FlushedBuckets(s.traffic, now, Gauges(s, config),
                   Bucket(s.traffic.openT, s.traffic.joins, s.traffic.admits, rate, Count(s.rows, Waiting), CountEntered(s.rows)));
    hide Where, Flush;
  }

  // ---------- runs ----------

  ghost predicate ClockKeptThroughout(s: Room, clock: int, es: seq<Event>)
    requires Legal(s, clock, es)
    decreases |es|
  {
    es == [] || (ClockKeptBy(s, es[0]) && ClockKeptThroughout(Step(s, es[0]), es[0].now, es[1..]))
  }

  lemma LossesAddUp(s: Room, t: Room, u: Room)
    requires LosesOnly(s, t) && LosesOnly(t, u)
    ensures LosesOnly(s, u) && (LosesNothing(s, u) <==> LosesNothing(s, t) && LosesNothing(t, u))
  {
  }

  lemma {:induction false} RunLoses(s: Room, clock: int, es: seq<Event>)
    requires TableOk(s) && OnTime(s, clock) && RowsAccounted(s) && Legal(s, clock, es)
    ensures var t := Run(s, clock, es);
            && RowsAccounted(t) && LosesOnly(s, t)
            && (LosesNothing(s, t) <==> ClockKeptThroughout(s, clock, es))
    decreases |es|
  {
    hide TableOk, OnTime, RowsAccounted, LosesOnly, LosesNothing, Enabled, Step, ClockKeptBy, ShapeKeptBy, BucketsInv;
    if es == [] {
      NothingHappened(s);
    } else {
      var t := Step(s, es[0]);
      StepTableOk(s, es[0]);
      StepConserves(s, clock, es[0]);
      RunLoses(t, es[0].now, es[1..]);
      LossesAddUp(s, t, Run(s, clock, es));
    }
  }

  lemma NothingHappened(s: Room)
    ensures LosesOnly(s, s) && LosesNothing(s, s)
  {
  }

  lemma StepTableOk(s: Room, e: Event)
    requires TableOk(s) && Enabled(s, e)
    ensures TableOk(Step(s, e))
  {
    StepMoves(s, e);
  }

  /**
   Over every run no row is ever unaccounted for; and the traffic counts are conserved at its end if and only if
   no alarm batch along it was overtaken, for lost counts never come back.
   */
  lemma RunConserves(s: Room, clock: int, es: seq<Event>)
    requires TableOk(s) && OnTime(s, clock) && RowsAccounted(s) && Conserved(s) && Legal(s, clock, es)
    ensures var t := Run(s, clock, es);
            && t.traffic.totalInflow == |t.rows| + t.purged
            && AllJoins(t.traffic) <= t.traffic.totalInflow && AllAdmits(t.traffic) <= t.admissions
            && (AllJoins(t.traffic) == t.traffic.totalInflow && AllAdmits(t.traffic) == t.admissions
                <==> ClockKeptThroughout(s, clock, es))
  {
    RunLoses(s, clock, es);
  }

  ghost predicate ShapeKeptThroughout(s: Room, clock: int, es: seq<Event>)
    requires Legal(s, clock, es)
    decreases |es|
  {
    es == [] || (ShapeKeptBy(s, es[0]) && ShapeKeptThroughout(Step(s, es[0]), es[0].now, es[1..]))
  }

  /** The stored buckets are aligned, in order and before the open one in every state of the run. */
  ghost predicate ShapedThroughout(s: Room, clock: int, es: seq<Event>)
    requires Legal(s, clock, es)
    decreases |es|
  {
    BucketsInv(s.traffic) && (es == [] || ShapedThroughout(Step(s, es[0]), es[0].now, es[1..]))
  }

  /** In every state of a run the buckets have their shape if and only if no batch along it reopens a stored one. */
  lemma {:induction false} RunKeepsBuckets(s: Room, clock: int, es: seq<Event>)
    requires TableOk(s) && OnTime(s, clock) && RowsAccounted(s) && BucketsInv(s.traffic) && Legal(s, clock, es)
    ensures ShapedThroughout(s, clock, es) <==> ShapeKeptThroughout(s, clock, es)
    decreases |es|
  {
    hide TableOk, OnTime, RowsAccounted, LosesOnly, LosesNothing, Enabled, Step, ClockKeptBy, ShapeKeptBy, BucketsInv;
    if es != [] {
      var t := Step(s, es[0]);
      StepTableOk(s, es[0]);
      StepConserves(s, clock, es[0]);
      if BucketsInv(t.traffic) {
        RunKeepsBuckets(t, es[0].now, es[1..]);
      } else {
        NotShaped(t, es[0].now, es[1..]);
      }
    }
  }

  lemma NotShaped(s: Room, clock: int, es: seq<Event>)
    requires Legal(s, clock, es) && !BucketsInv(s.traffic)
    ensures !ShapedThroughout(s, clock, es)
  {
  }

  /**
   What an overtaken batch loses: every count of the newer bucket. For instance a handler that started at
   29999 and admits one waiter after a visitor joined at 30000 throws that join away.
   */
  lemma OvertakenBatchLosesCounts(t: Traffic, handlerNow: int, sample: Sample, admits: nat)
    requires t.openT > 0 && handlerNow < t.openT && t.openT % TRAFFIC_BUCKET_MS == 0
    ensures var after := Record(t, handlerNow, sample, 0, admits);
            && AllJoins(after) == AllJoins(t) - t.joins
            && AllAdmits(after) == AllAdmits(t) + admits - t.admits
    ensures t == Traffic(30000, 1, 0, 1, [], 0, 0) && handlerNow == 29999 ==>
              AllJoins(Record(t, handlerNow, sample, 0, 1)) < t.totalInflow
  {
    assert Flush(t, handlerNow, sample) == t;
  }
}
