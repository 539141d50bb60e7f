/**
 Work never waits without a wake-up: in every run, whenever there are waiting or admitted visitors,
 enabled probes or queued webhooks, an alarm is set or the alarm handler is running. Along the way: the
 outbox keeps its retry schedule, the handler's selection stays current, and the budget remainder stays
 a fraction.
 */
module RoomLiveness {
  import opened Wrappers
  import opened Engine
  import opened Health
  import opened Visitors
  import opened WebhookOutbox
  import opened RoomState
  import opened RoomSteps
  import opened RoomRuns
  import opened RoomBounds

  predicate HasWork(s: Room) {
    HasQueueWork(s) || s.outbox.rows != []
  }

  predicate Awake(s: Room) {
    HasWork(s) ==> s.alarm.Some? || s.handler.Some?
  }

  /**
   The deliveries a running handler still has to settle are current rows that are due, not POSTed by it yet, and it
   has spent at most five seconds on each of those settled.
   */
  ghost predicate HandlerOk(s: Room, clock: int) {
    s.handler.Some? ==>
      var h := s.handler.value;
      && h.now <= h.resumed <= clock
      && IdsAscend(h.pending)
      && h.settled + |h.pending| <= OUTBOX_BATCH
      && (h.stage == Posting ==> h.resumed <= h.now + h.settled * POST_TIMEOUT_MS)
      && (forall d :: d in h.pending ==> Postable(s.outbox, d, h.now, clock))
      && (h.stage != Posting ==> h.pending == [])
  }

  ghost predicate LogOk(log: seq<Post>, clock: int) {
    forall p :: p in log ==> p.at <= clock
  }

  ghost predicate Inv(s: Room, clock: int) {
    && TableOk(s)
    && OutboxInv(s.outbox)
    && LogOk(s.outbox.log, clock)
    && HandlerOk(s, clock)
    && Awake(s)
    && 0.0 <= s.meta.admitRemainder < 1.0
    && ValidConfig(s.meta.healthConfig)
  }

  // ---------- the alarm ----------

  lemma {:induction false} EarliestIsLeast(rows: seq<Delivery>)
    ensures Earliest(rows).Some? <==> rows != []
    ensures forall d :: d in rows ==> Earliest(rows).value <= d.nextAttemptAt
  {
    if rows != [] {
      EarliestIsLeast(rows[1..]);
    }
  }

  /**
   Right after the alarm is ensured it is set if and only if there is work, at most 1250 ms away when
   somebody waits and admission is allowed, 5250 ms when somebody waits, and never later than a quarter
   second after the next webhook retry.
   */
  lemma WakesSoon(s: Room, clock: int)
    ensures var t := EnsureAlarm(s, clock);
            && (t.alarm.Some? <==> HasWork(s))
            && (Count(s.rows, Waiting) > 0 && CanAdmit(s.meta, clock) ==> t.alarm.value <= clock + 1250)
            && (Count(s.rows, Waiting) > 0 ==> t.alarm.value <= clock + 5250)
            && (HasQueueWork(s) ==> t.alarm.value <= clock + 15250)
            && (forall d :: d in s.outbox.rows ==> t.alarm.value <= d.nextAttemptAt + 250)
  {
    EarliestIsLeast(s.outbox.rows);
  }

  /** How long until the next look: a second while somebody can be let in, five while somebody waits, fifteen else. */
  function LookAgainMs(s: Room, clock: int): int {
    var queue :=
      if Count(s.rows, Waiting) == 0 then 15000 else if CanAdmit(s.meta, clock) then 1000 else 5000;
    var probe := s.meta.healthConfig.intervalSeconds * 1000;
    if s.meta.healthConfig.enabled && probe < queue then probe else queue
  }

  lemma {:induction false} SomeIsEarliest(rows: seq<Delivery>)
    requires rows != []
    ensures Earliest(rows).Some? && exists d :: d in rows && d.nextAttemptAt == Earliest(rows).value
  {
    assert rows[0] in rows;
    if |rows| > 1 {
      SomeIsEarliest(rows[1..]);
      var d :| d in rows[1..] && d.nextAttemptAt == Earliest(rows[1..]).value;
      assert d in rows;
    }
  }

  /**
   The alarm, exactly. Without work none is set. Otherwise it is due at the next look or at the earliest webhook, whichever
   comes first; an alarm that is set already is left alone unless it is more than a quarter of a second later than that.
   */
  lemma AlarmIsExact(s: Room, clock: int) returns (due: int)
    ensures var t := EnsureAlarm(s, clock);
            var visitors := Count(s.rows, Waiting) > 0 || Count(s.rows, Admitted) > 0 || s.meta.healthConfig.enabled;
            if !visitors && s.outbox.rows == [] then t.alarm == None
            else
              && t.alarm == (if s.alarm.Some? && s.alarm.value <= due + 250 then s.alarm else Some(due))
              && (visitors ==> due <= clock + LookAgainMs(s, clock))
              && (forall d :: d in s.outbox.rows ==> due <= d.nextAttemptAt)
              && ((visitors && due == clock + LookAgainMs(s, clock)) || exists d :: d in s.outbox.rows && due == d.nextAttemptAt)
  {
    EarliestIsLeast(s.outbox.rows);
    if s.outbox.rows != [] {
      SomeIsEarliest(s.outbox.rows);
    }
    hide Where, Earliest;
    var scheduled, webhook := clock + AlarmInterval(s, clock), Earliest(s.outbox.rows);
    assert LookAgainMs(s, clock) == AlarmInterval(s, clock);
    due := if webhook.None? then scheduled else if HasQueueWork(s) then Min(scheduled, webhook.value) else webhook.value;
  }

  /** The changes after which somebody may have to be let in sooner look at the alarm again; refused values do not. */
  lemma ChangeLooksAgain(s: Room, c: Change, now: int)
    ensures var t := Operate(s, c, now);
            var m := s.(meta := ApplyChange(s.meta, c));
            match c {
              case SetMode(_, _) => t == EnsureAlarm(m, now)
              case SetAdmitUx(_, _, _) => t == EnsureAlarm(m, now)
              case SetPaused(paused) => t == if paused then m else EnsureAlarm(m, now)
              case SetSchedule(_, _) => t == EnsureAlarm(m, now)
              case SetHealthConfig(_, _, _) => t == EnsureAlarm(m, now)
              case OverrideHealth(_) => t == EnsureAlarm(m, now)
              case ClearHealthOverride => t == m
              case SetAdmitRate(_, rate) => t == if 0.01 <= rate <= 1000.0 then EnsureAlarm(m, now) else m
              case ClearAdmitRate(_) => t == EnsureAlarm(m, now)
              case SetMaxWaiting(_) => t == m
              case SetMissedSlotGrace(seconds) => t == if 30 <= seconds <= 900 then EnsureAlarm(m, now) else m
              case BumpTokenEpoch => t == m
            }
  {
    hide EnsureAlarm, ApplyChange;
  }

  // ---------- the budget ----------

  lemma TickKeepsFraction(rate: real, remainder: real)
    requires 0.0 <= remainder < 1.0
    ensures var b := AdmissionsForTick(rate, QUEUE_ALARM_INTERVAL_MS, remainder);
            0.0 <= b.nextRemainder < 1.0 && b.admitCount >= 0
  {
  }

  // ---------- what each request leaves alone ----------

  ghost predicate SameBackground(s: Room, t: Room) {
    && t.outbox == s.outbox && t.handler == s.handler
    && t.meta.admitRemainder == s.meta.admitRemainder
    && t.meta.healthConfig == s.meta.healthConfig
  }

  lemma BeginBackground(s: Room, config: QueueConfig, now: int, force: bool)
    ensures SameBackground(s, Begin(s, config, now, force))
    ensures Begin(s, config, now, force).alarm == s.alarm
  {
  }

  /** A step that only lets visitors go creates no work. */
  lemma NoNewWork(s: Room, t: Room)
    requires SameBackground(s, t) && t.alarm == s.alarm && Awake(s)
    requires RoomMoves(s, t, false, 0, 0)
    ensures Awake(t)
  {
  }

  lemma AddVisitorWakes(s: Room, config: QueueConfig, id: string, now: int, admit: bool)
    requires Awake(s)
    ensures var t := AddVisitor(s, config, id, now, admit).0;
            SameBackground(s, t) && Awake(t)
  {
    if !Has(s.rows, id) {
      var r := NewRow(s, config, id, now, admit);
      WakesSoon(RecordTraffic(Insert(s, r), config, now, 1, if admit then 1 else 0), now);
    }
  }

  lemma JoinAfterSweepWakes(s: Room, config: QueueConfig, id: string, now: int)
    requires Awake(s)
    ensures var t := JoinAfterSweep(s, config, id, now).0;
            SameBackground(s, t) && Awake(t)
  {
    if Has(s.rows, id) && IsActive(Get(s.rows, id)) {
      WakesSoon(s, now);
    } else {
      AddVisitorWakes(s, config, id, now, true);
      AddVisitorWakes(s, config, id, now, false);
    }
  }

  lemma JoinWakes(s: Room, config: QueueConfig, id: string, now: int)
    requires TableOk(s) && Awake(s)
    ensures var t := Join(s, config, id, now).0;
            SameBackground(s, t) && Awake(t)
  {
    var b := Begin(s, config, now, true);
    BeginBackground(s, config, now, true);
    BeginMoves(s, config, now, true, false, 0, 0);
    NoNewWork(s, b);
    JoinAfterSweepWakes(b, config, id, now);
  }

  lemma CheckInAfterSweepBackground(s: Room, config: QueueConfig, id: string, now: int)
    requires IsWaiting(s.rows, id)
    ensures var t := CheckInAfterSweep(s, config, id, now).0;
            SameBackground(s, t) && t.alarm == s.alarm
  {
  }

  lemma CheckInWakes(s: Room, config: QueueConfig, id: string, now: int)
    requires TableOk(s) && Awake(s)
    ensures var t := CheckStatus(s, config, id, now).0; SameBackground(s, t) && Awake(t)
    ensures var t := Heartbeat(s, config, id, now).0; SameBackground(s, t) && Awake(t)
  {
    var b := Begin(s, config, now, false);
    BeginBackground(s, config, now, false);
    BeginMoves(s, config, now, false, false, 0, 0);
    NoNewWork(s, b);
    if IsWaiting(b.rows, id) {
      CheckInAfterSweepBackground(b, config, id, now);
      CheckInAfterSweepMoves(b, config, id, now, false, 0, 0);
      NoNewWork(b, CheckInAfterSweep(b, config, id, now).0);
    }
  }

  lemma EnterAfterSweepWakes(s: Room, config: QueueConfig, id: string, now: int)
    requires Awake(s)
    ensures var t := EnterAfterSweep(s, config, id, now).0; SameBackground(s, t) && Awake(t)
  {
    if Has(s.rows, id) && Get(s.rows, id).status == Admitted {
      WakesSoon(UpdateRow(s, IndexOf(s.rows, id), Get(s.rows, id).(entered := true)), now);
    }
  }

  lemma EnterWakes(s: Room, config: QueueConfig, id: string, now: int)
    requires TableOk(s) && Awake(s)
    ensures var t := Enter(s, config, id, now).0; SameBackground(s, t) && Awake(t)
  {
    var b := Begin(s, config, now, true);
    BeginBackground(s, config, now, true);
    BeginMoves(s, config, now, true, false, 0, 0);
    NoNewWork(s, b);
    EnterAfterSweepWakes(b, config, id, now);
  }

  lemma BatchBackground(s: Room, config: QueueConfig, now: int, picks: seq<string>)
    ensures SameBackground(s, AdmitPicks(s, config, now, picks))
  {
  }

  lemma ForceAdmitAfterSweepWakes(s: Room, config: QueueConfig, now: int, picks: seq<string>)
    ensures var t := ForceAdmitAfterSweep(s, config, now, picks); SameBackground(s, t) && Awake(t)
  {
    BatchBackground(s, config, now, picks);
    WakesSoon(AdmitPicks(s, config, now, picks), now);
  }

  lemma LeaveAfterSweepWakes(s: Room, config: QueueConfig, id: string, now: int, picks: seq<string>)
    requires Awake(s)
    ensures var t := LeaveAfterSweep(s, config, id, now, picks).0; SameBackground(s, t) && Awake(t)
  {
    if IsPresent(s, id) {
      ForceAdmitAfterSweepWakes(Vacate(s, id), config, now, picks);
    }
  }

  lemma LeaveWakes(s: Room, config: QueueConfig, id: string, now: int, picks: seq<string>)
    requires TableOk(s) && Awake(s)
    ensures var t := Leave(s, config, id, now, picks).0; SameBackground(s, t) && Awake(t)
  {
    var b := Begin(s, config, now, true);
    BeginBackground(s, config, now, true);
    BeginMoves(s, config, now, true, false, 0, 0);
    NoNewWork(s, b);
    LeaveAfterSweepWakes(b, config, id, now, picks);
  }

  lemma ForceAdmitWakes(s: Room, config: QueueConfig, now: int, picks: seq<string>)
    ensures var t := ForceAdmit(s, config, now, picks); SameBackground(s, t) && Awake(t)
  {
    BeginBackground(s, config, now, true);
    ForceAdmitAfterSweepWakes(Begin(s, config, now, true), config, now, picks);
  }

  // ---------- the background events ----------

  lemma ChangeKeepsBudget(m: Meta, c: Change)
    requires ValidConfig(m.healthConfig)
    ensures var n := ApplyChange(m, c);
            n.nextSequence == m.nextSequence && n.admitRemainder == m.admitRemainder && ValidConfig(n.healthConfig)
  {
  }

  /** A change that does not re-arm the alarm creates no work. */
  lemma QuietChange(s: Room, c: Change)
    ensures !Rearms(c) ==> (HasWork(s.(meta := ApplyChange(s.meta, c))) ==> HasWork(s))
  {
  }

  lemma OperateKeepsInv(s: Room, c: Change, now: int, clock: int)
    requires Inv(s, clock) && clock <= now
    ensures Inv(Operate(s, c, now), now)
  {
    var s1 := s.(meta := ApplyChange(s.meta, c));
    WakesSoon(s1, now);
    ChangeKeepsBudget(s.meta, c);
    QuietChange(s, c);
    hide ApplyChange, AlarmInterval, CanAdmit, OutboxInv, Earliest;
    assert TableOk(s1);
  }

  lemma EnqueueKeepsRoomInv(s: Room, now: int, clock: int)
    requires Inv(s, clock) && clock <= now
    ensures Inv(EnqueueWebhook(s, now), now)
  {
    EnqueueKeepsInv(s.outbox, now);
    WakesSoon(s.(outbox := Enqueue(s.outbox, now)), now);
  }

  lemma FireKeepsInv(s: Room, now: int, clock: int)
    requires Inv(s, clock) && clock <= now && AlarmRings(s, now)
    ensures Inv(AlarmFire(s, now), now)
  {
    DueMember(s.outbox.rows, now, OUTBOX_BATCH);
  }

  /** Settling one selected row leaves the other selected rows as they were. */
  lemma SettleKeepsOthers(o: Outbox, row: Delivery, started: int, at: int, outcome: Outcome, d: Delivery)
    requires Postable(o, d, started, at) && d.id != row.id
    ensures Postable(Settle(o, row, started, at, outcome), d, started, at)
  {
    DeleteMember(o.rows, row.id, d);
    if row.readable && outcome == Failed && row.attempts + 1 < WEBHOOK_MAX_ATTEMPTS {
      DelayNeverClamped(o, row, started, at);
      var r := Retried(row, started);
      RescheduleAt(o.rows, row.id, r.attempts, r.nextAttemptAt);
      var i :| 0 <= i < |o.rows| && o.rows[i] == d;
      assert Reschedule(o.rows, row.id, r.attempts, r.nextAttemptAt)[i] == d;
    }
  }

  /** The rows still selected stay postable while others are settled, and the log stays in the past. */
  lemma PostKeepsSelection(o: Outbox, pending: seq<Delivery>, started: int, now: int, outcome: Outcome)
    requires pending != [] && IdsAscend(pending) && LogOk(o.log, now) && started <= now
    requires forall d :: d in pending ==> Postable(o, d, started, now)
    ensures var after := Settle(o, pending[0], started, now, outcome);
            && LogOk(after.log, now)
            && IdsAscend(pending[1..])
            && forall d :: d in pending[1..] ==> Postable(after, d, started, now)
  {
    var row := pending[0];
    RestAscends(pending);
    forall d | d in pending[1..]
      ensures Postable(Settle(o, row, started, now, outcome), d, started, now)
    {
      assert d in pending;
      SettleKeepsOthers(o, row, started, now, outcome, d);
    }
  }

  lemma PostableLater(s: Room, clock: int, now: int)
    requires HandlerOk(s, clock) && LogOk(s.outbox.log, clock) && clock <= now && s.handler.Some?
    ensures LogOk(s.outbox.log, now)
    ensures forall d :: d in s.handler.value.pending ==> Postable(s.outbox, d, s.handler.value.now, now)
  {
  }

  /** The i-th delivery of a handler is settled at most 5 i seconds after the handler started. */
  lemma PostIsPrompt(s: Room, clock: int, outcome: Outcome, now: int)
    requires Inv(s, clock) && clock <= now && Enabled(s, AlarmPostEvent(outcome, now))
    ensures var h := s.handler.value;
            && 1 <= h.settled + 1 <= OUTBOX_BATCH
            && 0 <= now - h.now <= (h.settled + 1) * POST_TIMEOUT_MS <= BATCH_MS
  {
    hide TableOk, OutboxInv, Postable;
  }

  lemma PostKeepsInv(s: Room, outcome: Outcome, now: int, clock: int)
    requires Inv(s, clock) && clock <= now && Enabled(s, AlarmPostEvent(outcome, now))
    ensures Inv(AlarmPost(s, outcome, now), now)
  {
    PostIsPrompt(s, clock, outcome, now);
    hide OutboxInv, Postable, LogOk, IdsAscend, Settle;
    var h := s.handler.value;
    assert h.pending[0] in h.pending;
    PostableLater(s, clock, now);
    SettleKeepsInv(s.outbox, h.pending[0], h.now, now, outcome);
    PostKeepsSelection(s.outbox, h.pending, h.now, now, outcome);
  }

  lemma AlarmSweepKeepsInv(s: Room, now: int, clock: int)
    requires Inv(s, clock) && clock <= now && AlarmSweeps(s)
    ensures Inv(AlarmSweep(s), now)
  {
    AlarmSweepMoves(s, false, 0, 0);
  }

  lemma FinishBackground(s: Room, now: int, picks: seq<string>)
    requires AlarmAdmits(s) && 0.0 <= s.meta.admitRemainder < 1.0
    ensures var t := AlarmFinish(s, now, picks);
            && t.outbox == s.outbox && t.handler == None && t.meta.healthConfig == s.meta.healthConfig
            && 0.0 <= t.meta.admitRemainder < 1.0 && Awake(t)
  {
    var h := s.handler.value;
    if h.config.None? {
      WakesSoon(s.(handler := None), now);
    } else {
      var config := h.config.value;
      TickKeepsFraction(EffectiveRate(s.meta, config, h.now), s.meta.admitRemainder);
      var ticked := s.(meta := s.meta.(admitRemainder := TickBudget(s, config, h.now).nextRemainder));
      BatchBackground(ticked, config, h.now, picks);
      var s1 := FlushTraffic(AdmitPicks(ticked, config, h.now, picks), config, h.now);
      WakesSoon(s1.(handler := None), now);
      hide EffectiveRate, AdmitPicks, Gauges;
    }
    hide HasQueueWork, AlarmInterval, Earliest, CanAdmit;
  }

  lemma FinishKeepsInv(s: Room, now: int, picks: seq<string>, clock: int)
    requires Inv(s, clock) && clock <= now && AlarmAdmits(s) && FinishPicks(s, picks)
    ensures Inv(AlarmFinish(s, now, picks), now)
  {
    AlarmFinishMoves(s, now, picks, 0);
    FinishBackground(s, now, picks);
    hide AlarmFinish, FinishPicks, OutboxInv, Awake;
  }

  // ---------- every step, every run ----------

  lemma MetricsWakes(s: Room, config: QueueConfig, now: int)
    requires TableOk(s) && Awake(s)
    ensures SameBackground(s, Begin(s, config, now, false)) && Awake(Begin(s, config, now, false))
  {
    BeginBackground(s, config, now, false);
    BeginMoves(s, config, now, false, false, 0, 0);
    NoNewWork(s, Begin(s, config, now, false));
  }

  lemma RequestWakes(s: Room, e: Event)
    requires TableOk(s) && Awake(s) && Enabled(s, e) && (IsRequest(e) || e.TrafficEvent?)
    ensures SameBackground(s, Step(s, e)) && Awake(Step(s, e))
  {
    hide TableOk, SameBackground, Awake, Join, CheckStatus, Heartbeat, Enter, Leave, ForceAdmit, Begin, FlushTraffic,
      LeavePicks, ForcePicks;
    match e
    case JoinEvent(id, config, now) => JoinWakes(s, config, id, now);
    case StatusEvent(id, config, now) => CheckInWakes(s, config, id, now);
    case HeartbeatEvent(id, config, now) => CheckInWakes(s, config, id, now);
    case EnterEvent(id, config, now) => EnterWakes(s, config, id, now);
    case LeaveEvent(id, config, now, picks) => LeaveWakes(s, config, id, now, picks);
    case ForceAdmitEvent(count, config, now, picks) => ForceAdmitWakes(s, config, now, picks);
    case MetricsEvent(config, now) => MetricsWakes(s, config, now);
    case TrafficEvent(config, now) => TrafficWakes(s, config, now);
  }

  lemma BackgroundEventKeepsInv(s: Room, clock: int, e: Event)
    requires Inv(s, clock) && e.now >= clock && Enabled(s, e)
    requires !IsRequest(e) && !e.TrafficEvent?
    ensures Inv(Step(s, e), e.now)
  {
    hide Inv, AlarmSweep, AlarmProbe, AlarmFinish, AlarmPost, AlarmFire, Operate, EnqueueWebhook, FinishPicks;
    match e
    case OperateEvent(change, now) => OperateKeepsInv(s, change, now, clock);
    case EnqueueEvent(now) => EnqueueKeepsRoomInv(s, now, clock);
    case AlarmFireEvent(now) => FireKeepsInv(s, now, clock);
    case AlarmPostEvent(outcome, now) => PostKeepsInv(s, outcome, now, clock);
    case AlarmSweepEvent(now) => AlarmSweepKeepsInv(s, now, clock);
    case AlarmProbeEvent(probe, now) => ProbeKeepsInv(s, probe, now, clock);
    case AlarmFinishEvent(now, picks) => FinishKeepsInv(s, now, picks, clock);
  }

  lemma StepKeepsInv(s: Room, clock: int, e: Event)
    requires Inv(s, clock) && e.now >= clock && Enabled(s, e)
    ensures Inv(Step(s, e), e.now)
  {
    if IsRequest(e) || e.TrafficEvent? {
      StepMoves(s, e);
      assert TableOk(Step(s, e)) && TableOk(s) && Awake(s);
      hide Inv, Step, Enabled;
      RequestWakes(s, e);
      RequestKeepsInv(s, Step(s, e), clock, e.now);
    } else {
      hide Inv, Step, Enabled;
      BackgroundEventKeepsInv(s, clock, e);
    }
  }

  /** A request that leaves the background alone and the room awake. */
  lemma RequestKeepsInv(s: Room, t: Room, clock: int, now: int)
    requires Inv(s, clock) && clock <= now && SameBackground(s, t) && TableOk(t) && Awake(t)
    ensures Inv(t, now)
  {
  }

  lemma TrafficWakes(s: Room, config: QueueConfig, now: int)
    requires Awake(s)
    ensures var t := FlushTraffic(Remember(s, config), config, now);
            SameBackground(s, t) && Awake(t)
  {
  }

  lemma ProbeKeepsInv(s: Room, probe: ProbeResult, now: int, clock: int)
    requires Inv(s, clock) && clock <= now && AlarmProbes(s)
    ensures Inv(AlarmProbe(s, probe, now), now)
  {
  }

  /** In every state of every run: work implies an alarm or a running handler, and the rest of Inv. */
  lemma {:induction false} RunKeepsInv(s: Room, clock: int, es: seq<Event>)
    requires Inv(s, clock) && Legal(s, clock, es)
    ensures Inv(Run(s, clock, es), ClockAfter(clock, es))
    decreases |es|
  {
    if es != [] {
      StepKeepsInv(s, clock, es[0]);
      hide Inv, Step, Enabled;
      RunKeepsInv(Step(s, es[0]), es[0].now, es[1..]);
    }
  }

  /** So it is in every room there can be. */
  lemma EveryRoomIsAwake(clock: int, es: seq<Event>)
    requires Legal(EMPTY_ROOM, clock, es)
    ensures Inv(Run(EMPTY_ROOM, clock, es), ClockAfter(clock, es))
  {
    RunKeepsInv(EMPTY_ROOM, clock, es);
  }

  /**
   Over every run, the POSTs of a webhook keep their delays, less the lateness of each within its handler; and no
   POST is later than 50 seconds.
   */
  lemma RunSpacesPosts(s: Room, clock: int, es: seq<Event>, id: nat, k: nat)
    requires Inv(s, clock) && Legal(s, clock, es) && 0 < k < |PostsOf(Run(s, clock, es).outbox.log, id)|
    ensures var posts := PostsOf(Run(s, clock, es).outbox.log, id);
            && |posts| <= 7 && posts[k].at >= posts[k - 1].at
            && 0 <= Lateness(posts[k - 1]) <= 50000
            && WEBHOOK_RETRY_DELAYS_MS == [5000, 15000, 60000, 300000, 900000, 3600000, 10800000]
            && posts[k].at >= posts[k - 1].at + WEBHOOK_RETRY_DELAYS_MS[k] - Lateness(posts[k - 1])
  {
    RunKeepsInv(s, clock, es);
    DelayLessLateness(Run(s, clock, es).outbox, id, k);
  }
}
