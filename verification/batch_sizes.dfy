/**
 How many visitors each batch admits, and what becomes of their rows: the tick of the alarm, the operator's batch and the
 refill after a departure.
 */
module BatchSizes {
  import opened Wrappers
  import opened Engine
  import opened Health
  import opened Visitors
  import opened TrafficBuckets
  import opened RoomState
  import opened RoomSteps
  import opened RoomRuns
  import opened TableMoves
  import opened Admission
  import opened RoomBounds

  /** The size of a batch when up to `wanted` of `waiting` may be admitted: exact, but for a small lottery draw. */
  predicate IsBatchOf(picks: seq<string>, mode: Mode, waiting: int, wanted: int) {
    var n := if wanted <= 0 then 0 else if wanted <= waiting then wanted else waiting;
    match mode
    case Queue => |picks| == n
    case Lottery =>
      if n > 32 || n == waiting then |picks| == n else 1 <= |picks| <= n || (n == 0 && picks == [])
  }

  /** The seats that are free. */
  function FreeSeats(capacity: nat, admitted: int): int {
    capacity - admitted
  }

  lemma SelectionSize(s: Room, config: QueueConfig, gate: bool, limit: nat, picks: seq<string>)
    requires PicksAllowed(s, config, gate, limit, picks)
    ensures IsBatchOf(picks, ModeOf(s.meta, config), Count(s.rows, Waiting), if gate then limit else 0)
  {
    assert Count(s.rows, Waiting) == |Waiters(s.rows)|;
    hide Where, IsWaiting, Distinct;
  }

  // ---------- the tick ----------

  /** The rate of a room whose gate is open: the operator's or the configured one, cut down while the origin is slow. */
  function RateWhenOpen(m: Meta, config: QueueConfig, now: int): real {
    var rate :=
      if m.admitPerSecondOverride.Some? && 0.01 <= m.admitPerSecondOverride.value <= 1000.0
      then m.admitPerSecondOverride.value else config.admitPerSecond;
    var overridden := m.healthConfig.overrideUntil.Some? && now < m.healthConfig.overrideUntil.value;
    if m.healthConfig.enabled && !overridden && m.healthState.level == Slow
    then rate * m.healthConfig.slowRateMultiplier else rate
  }

  lemma RateWrittenOut(m: Meta, config: QueueConfig, now: int)
    requires ValidConfig(m.healthConfig) && CanAdmit(m, now)
    ensures EffectiveRate(m, config, now) == RateWhenOpen(m, config, now)
  {
    AutoPausedAtPause(m.healthConfig, m.healthState, now);
  }

  lemma BudgetWrittenOut(rate: real, remainder: real)
    requires 0.0 <= remainder < 1.0
    ensures var b := AdmissionsForTick(rate, QUEUE_ALARM_INTERVAL_MS, remainder);
            && Max(0, b.admitCount) == Max(0, (remainder + rate).Floor)
            && (rate > 0.0 ==> b.nextRemainder == remainder + rate - (remainder + rate).Floor as real)
            && (rate <= 0.0 ==> b.nextRemainder == remainder)
  {
    assert 1000 as real / 1000.0 == 1.0;
    if rate <= 0.0 {
      assert (remainder + rate).Floor <= 0;
    }
  }

  /**
   The tick of the alarm. With the gate open when the handler started it admits as many as wait, as there are free seats,
   and as the remainder and one second of the rate allow, whichever is least, and keeps the fraction that is left over.
   With the gate shut it admits nobody and keeps the remainder.
   */
  lemma TickBatchSize(s: Room, picks: seq<string>, now: int)
    requires AlarmAdmits(s) && FinishPicks(s, picks) && s.handler.value.config.Some?
    requires ValidConfig(s.meta.healthConfig) && 0.0 <= s.meta.admitRemainder < 1.0
    ensures var h := s.handler.value;
            var config, t := h.config.value, AlarmFinish(s, now, picks);
            var waiting, free := Count(s.rows, Waiting), FreeSeats(config.maxConcurrentUsers, Count(s.rows, Admitted));
            var rate := RateWhenOpen(s.meta, config, h.now);
            var budget := s.meta.admitRemainder + rate;
            if CanAdmit(s.meta, h.now) then
              && IsBatchOf(picks, ModeOf(s.meta, config), waiting, Min(free, budget.Floor))
              && t.meta.admitRemainder == (if rate > 0.0 then budget - budget.Floor as real else s.meta.admitRemainder)
            else picks == [] && t.meta.admitRemainder == s.meta.admitRemainder
  {
    var h := s.handler.value;
    var config := h.config.value;
    TickRemainder(s, picks, now);
    BudgetWrittenOut(EffectiveRate(s.meta, config, h.now), s.meta.admitRemainder);
    SelectionSize(s, config, CanAdmit(s.meta, h.now), BudgetLimit(s, config, h.now), picks);
    if CanAdmit(s.meta, h.now) {
      RateWrittenOut(s.meta, config, h.now);
      LimitWrittenOut(s, config, h.now);
    }
    hide CanAdmit, RateWhenOpen, AdmissionsForTick, AlarmFinish, ModeOf, Where, BudgetLimit;
  }

  lemma LimitWrittenOut(s: Room, config: QueueConfig, now: int)
    ensures var b := AdmissionsForTick(EffectiveRate(s.meta, config, now), QUEUE_ALARM_INTERVAL_MS, s.meta.admitRemainder);
            BudgetLimit(s, config, now) ==
            Max(0, Min(FreeSeats(config.maxConcurrentUsers, Count(s.rows, Admitted)), Max(0, b.admitCount)))
  {
    hide Where, AdmissionsForTick, EffectiveRate;
  }

  lemma TickRemainder(s: Room, picks: seq<string>, now: int)
    requires AlarmAdmits(s) && s.handler.value.config.Some?
    ensures var h := s.handler.value;
            AlarmFinish(s, now, picks).meta.admitRemainder ==
            AdmissionsForTick(EffectiveRate(s.meta, h.config.value, h.now), QUEUE_ALARM_INTERVAL_MS,
                              s.meta.admitRemainder).nextRemainder
  {
    hide AdmitAll, HasQueueWork, AlarmInterval, Earliest, Gauges, AdmissionsForTick, EffectiveRate;
  }

  // ---------- the other batches ----------

  /** The operator's batch: as many as asked for, as wait and as there are free seats, or nobody when the gate is shut. */
  lemma ForceBatchSize(s: Room, config: QueueConfig, count: int, now: int, picks: seq<string>)
    requires ForcePicks(s, config, count, now, picks)
    ensures IsBatchOf(picks, ModeOf(s.meta, config), Count(s.rows, Waiting),
                      if CanAdmit(s.meta, now)
                      then Min(count, FreeSeats(config.maxConcurrentUsers, Count(s.rows, Admitted))) else 0)
  {
    SelectionSize(s, config, CanAdmit(s.meta, now), ForceLimit(s, config, count), picks);
    hide CanAdmit, ModeOf, Where;
  }

  /** The refill: after a visitor has left, as many as wait and as there are free seats. */
  lemma LeaveBatchSize(s: Room, config: QueueConfig, id: string, now: int, picks: seq<string>)
    requires TableOk(s) && LeavePicks(s, config, id, now, picks)
    ensures var waits, holds := IsWaiting(s.rows, id), Has(s.rows, id) && Get(s.rows, id).status == Admitted;
            if waits || holds then
              IsBatchOf(picks, ModeOf(s.meta, config), Count(s.rows, Waiting) - (if waits then 1 else 0),
                        if !CanAdmit(s.meta, now) then 0
                        else FreeSeats(config.maxConcurrentUsers, Count(s.rows, Admitted) - (if holds then 1 else 0)))
            else picks == []
  {
    if IsPresent(s, id) {
      var k, v := IndexOf(s.rows, id), Vacate(s, id);
      WhereUpdate(s.rows, k, s.rows[k].(status := Left), HasStatus(Waiting));
      WhereUpdate(s.rows, k, s.rows[k].(status := Left), HasStatus(Admitted));
      SelectionSize(v, config, CanAdmit(s.meta, now), Slots(v, config), picks);
    }
    hide CanAdmit, ModeOf, Where;
  }

  // ---------- the rows of a batch ----------

  /**
   Whoever is picked is admitted in place, at the time of the batch, entered exactly when no click is asked for, and is
   called no more; every other row is left alone.
   */
  lemma BatchRows(s: Room, config: QueueConfig, now: int, gate: bool, limit: nat, picks: seq<string>)
    requires TableOk(s) && PicksAllowed(s, config, gate, limit, picks)
    ensures var t := AdmitPicks(s, config, now, picks);
            var click := if s.meta.requireClick.Some? then s.meta.requireClick.value else config.requireClickToEnter;
            |t.rows| == |s.rows| &&
            forall k :: 0 <= k < |s.rows| ==>
              var r := s.rows[k];
              if r.id in picks then
                && r.status == Waiting
                && t.rows[k] == Row(r.id, Admitted, r.joinedAt, now, Some(now), r.sequence, !click, None)
              else t.rows[k] == r
  {
    if picks != [] {
      SelectionTakesWaiters(s.rows, s.meta.nextSequence, ModeOf(s.meta, config), limit, picks);
      AdmitAllMoves(s.rows, picks, now, !EffectiveConfig(s.meta, config).requireClickToEnter, s.meta.nextSequence);
      PickedWait(s.rows, picks);
    }
    hide Where, Selection, AdmitAll, Gauges;
  }

  lemma PickedWait(rows: seq<Row>, picks: seq<string>)
    requires UniqueIds(rows) && forall id :: id in picks ==> IsWaiting(rows, id)
    ensures forall k :: 0 <= k < |rows| && rows[k].id in picks ==> rows[k].status == Waiting
  {
    forall k | 0 <= k < |rows| && rows[k].id in picks
      ensures rows[k].status == Waiting
    {
      IndexOfUnique(rows, k);
    }
  }

  /** The alarm depends on the rows, the settings and the outbox, and on the alarm before. */
  lemma AlarmLooksAgain(s: Room, now: int)
    ensures var t := EnsureAlarm(s, now);
            t == s.(alarm := t.alarm) && t.alarm == EnsureAlarm(t.(alarm := s.alarm), now).alarm
  {
    assert EnsureAlarm(s, now).(alarm := s.alarm) == s;
    hide HasQueueWork, AlarmInterval, Earliest;
  }

  /**
   The tick admits exactly those rows, at the time of its handler, and stores the bucket that is over by then; the alarm is
   looked at by the clock.
   */
  lemma TickRows(s: Room, picks: seq<string>, now: int)
    requires TableOk(s) && AlarmAdmits(s) && FinishPicks(s, picks) && s.handler.value.config.Some?
    ensures var h := s.handler.value;
            var config, t := h.config.value, AlarmFinish(s, now, picks);
            && t.rows == AdmitPicks(s, config, h.now, picks).rows
            && t.handler == None
            && t.traffic.openT >= Align(h.now)
            && t.alarm == EnsureAlarm(t.(alarm := s.alarm), now).alarm
  {
    var h := s.handler.value;
    AlarmLooksAgain(FlushTraffic(AdmitFromBudget(s, h.config.value, h.now, picks), h.config.value, h.now).(handler := None), now);
    hide AdmitAll, EnsureAlarm, Gauges, AdmissionsForTick, EffectiveRate, CanAdmit, FinishPicks, TableInv;
  }
}
