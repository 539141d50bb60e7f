/**
 Safety of every step and every run: the table stays well formed, rows only move forward, capacity and
 the waiting cap are respected on all admission paths, and a shut gate admits nobody.
 */
module RoomBounds {
  import opened Health
  import opened Visitors
  import opened RoomState
  import opened RoomSteps
  import opened RoomRuns
  import opened TableMoves
  import opened Admission

  ghost predicate TableOk(s: Room) {
    TableInv(s.rows, s.meta.nextSequence)
  }

  /** A bounded move between two rooms, both with well-formed tables. */
  ghost predicate RoomMoves(s: Room, t: Room, gate: bool, cap: nat, waitCap: nat) {
    && TableOk(s) && TableOk(t)
    && Moves(s.rows, s.meta.nextSequence, t.rows, t.meta.nextSequence, gate, cap, waitCap)
  }

  lemma Then(s: Room, t: Room, u: Room, gate: bool, cap: nat, waitCap: nat)
    requires RoomMoves(s, t, gate, cap, waitCap) && RoomMoves(t, u, gate, cap, waitCap)
    ensures RoomMoves(s, u, gate, cap, waitCap)
  {
    MovesTransitive(s.rows, s.meta.nextSequence, t.rows, t.meta.nextSequence, u.rows, u.meta.nextSequence,
                    gate, cap, waitCap);
  }

  /** A step that leaves the rows alone. */
  lemma Stays(s: Room, t: Room, gate: bool, cap: nat, waitCap: nat)
    requires TableOk(s) && t.rows == s.rows && s.meta.nextSequence <= t.meta.nextSequence
    ensures RoomMoves(s, t, gate, cap, waitCap)
  {
    MovesNowhere(s.rows, s.meta.nextSequence, t.meta.nextSequence, gate, cap, waitCap);
  }

  lemma BeginMoves(s: Room, config: QueueConfig, now: int, force: bool, gate: bool, cap: nat, waitCap: nat)
    requires TableOk(s)
    ensures RoomMoves(s, Begin(s, config, now, force), gate, cap, waitCap)
  {
    SweepMoves(Remember(s, config), config, now, force);
  }

  lemma UpdateRowMoves(s: Room, k: nat, r: Row, gate: bool, cap: nat, waitCap: nat)
    requires TableOk(s) && k < |s.rows|
    requires Descends(s.rows[k], r) && WellFormed(r) && (r.status == Admitted ==> s.rows[k].status == Admitted)
    ensures RoomMoves(s, UpdateRow(s, k, r), gate, cap, waitCap)
  {
    UpdateMoves(s.rows, k, r, s.meta.nextSequence, cap, waitCap);
    UpdateKeepsInv(s.rows, k, r, s.meta.nextSequence);
  }

  /** A sweep touches no setting. */
  lemma BeginKeepsSettings(s: Room, config: QueueConfig, now: int, force: bool, at: int)
    ensures var b := Begin(s, config, now, force);
            && CanAdmit(b.meta, at) == CanAdmit(s.meta, at)
            && MaxWaiting(b.meta) == MaxWaiting(s.meta)
            && b.meta.nextSequence == s.meta.nextSequence
  {
  }

  lemma AddVisitorMoves(s: Room, config: QueueConfig, id: string, now: int, admit: bool, gate: bool, waitCap: nat)
    requires TableOk(s)
    requires admit ==> gate && Count(s.rows, Admitted) < config.maxConcurrentUsers
    requires !admit ==> Count(s.rows, Waiting) < waitCap
    ensures RoomMoves(s, AddVisitor(s, config, id, now, admit).0, gate, config.maxConcurrentUsers, waitCap)
  {
    if Has(s.rows, id) {
      Stays(s, SpendSequence(s), gate, config.maxConcurrentUsers, waitCap);
    } else {
      InsertMoves(s, NewRow(s, config, id, now, admit), gate, config.maxConcurrentUsers, waitCap);
    }
  }

  lemma JoinAfterSweepMoves(s: Room, config: QueueConfig, id: string, now: int)
    requires TableOk(s)
    ensures RoomMoves(s, JoinAfterSweep(s, config, id, now).0,
                      CanAdmit(s.meta, now), config.maxConcurrentUsers, MaxWaiting(s.meta))
  {
    var gate, cap, waitCap := CanAdmit(s.meta, now), config.maxConcurrentUsers, MaxWaiting(s.meta);
    hide CanAdmit, MaxWaiting, AddVisitor, RoomMoves, ViewOf, IndexOf;
    if Has(s.rows, id) && IsActive(Get(s.rows, id)) {
      Stays(s, EnsureAlarm(s, now), gate, cap, waitCap);
    } else if gate && Slots(s, config) > 0 {
      AddVisitorMoves(s, config, id, now, true, gate, waitCap);
    } else if Count(s.rows, Waiting) >= waitCap {
      Stays(s, s, gate, cap, waitCap);
    } else {
      AddVisitorMoves(s, config, id, now, false, gate, waitCap);
    }
  }

  lemma JoinMoves(s: Room, config: QueueConfig, id: string, now: int)
    requires TableOk(s)
    ensures RoomMoves(s, Join(s, config, id, now).0,
                      CanAdmit(s.meta, now), config.maxConcurrentUsers, MaxWaiting(s.meta))
  {
    var b := Begin(s, config, now, true);
    BeginKeepsSettings(s, config, now, true, now);
    BeginMoves(s, config, now, true, CanAdmit(s.meta, now), config.maxConcurrentUsers, MaxWaiting(s.meta));
    JoinAfterSweepMoves(b, config, id, now);
    Then(s, b, JoinAfterSweep(b, config, id, now).0,
         CanAdmit(s.meta, now), config.maxConcurrentUsers, MaxWaiting(s.meta));
  }

  lemma CheckInAfterSweepMoves(s: Room, config: QueueConfig, id: string, now: int, gate: bool, cap: nat, waitCap: nat)
    requires TableOk(s) && IsWaiting(s.rows, id)
    ensures RoomMoves(s, CheckInAfterSweep(s, config, id, now).0, gate, cap, waitCap)
  {
    var k := IndexOf(s.rows, id);
    UpdateRowMoves(s, k, CheckedIn(s, config, s.rows[k], now), gate, cap, waitCap);
  }

  lemma CheckInMoves(s: Room, config: QueueConfig, id: string, now: int, gate: bool, cap: nat, waitCap: nat)
    requires TableOk(s)
    ensures RoomMoves(s, CheckStatus(s, config, id, now).0, gate, cap, waitCap)
    ensures RoomMoves(s, Heartbeat(s, config, id, now).0, gate, cap, waitCap)
  {
    var b := Begin(s, config, now, false);
    BeginMoves(s, config, now, false, gate, cap, waitCap);
    if IsWaiting(b.rows, id) {
      CheckInAfterSweepMoves(b, config, id, now, gate, cap, waitCap);
      Then(s, b, CheckInAfterSweep(b, config, id, now).0, gate, cap, waitCap);
    }
  }

  lemma AlarmMoves(s: Room, t: Room, now: int, gate: bool, cap: nat, waitCap: nat)
    requires RoomMoves(s, t, gate, cap, waitCap)
    ensures RoomMoves(s, EnsureAlarm(t, now), gate, cap, waitCap)
  {
    Stays(t, EnsureAlarm(t, now), gate, cap, waitCap);
    Then(s, t, EnsureAlarm(t, now), gate, cap, waitCap);
  }

  lemma EnterAfterSweepMoves(s: Room, config: QueueConfig, id: string, now: int, gate: bool, cap: nat, waitCap: nat)
    requires TableOk(s)
    ensures RoomMoves(s, EnterAfterSweep(s, config, id, now).0, gate, cap, waitCap)
  {
    hide Where, ViewOf, RoomMoves, HasQueueWork, AlarmInterval, Earliest;
    if Has(s.rows, id) && Get(s.rows, id).status == Admitted {
      var k := IndexOf(s.rows, id);
      var r := s.rows[k].(entered := true);
      UpdateRowMoves(s, k, r, gate, cap, waitCap);
      AlarmMoves(s, UpdateRow(s, k, r), now, gate, cap, waitCap);
    } else {
      Stays(s, s, gate, cap, waitCap);
    }
  }

  lemma EnterMoves(s: Room, config: QueueConfig, id: string, now: int, gate: bool, cap: nat, waitCap: nat)
    requires TableOk(s)
    ensures RoomMoves(s, Enter(s, config, id, now).0, gate, cap, waitCap)
  {
    var b := Begin(s, config, now, true);
    BeginMoves(s, config, now, true, gate, cap, waitCap);
    EnterAfterSweepMoves(b, config, id, now, gate, cap, waitCap);
    Then(s, b, EnterAfterSweep(b, config, id, now).0, gate, cap, waitCap);
  }

  lemma VacateMoves(s: Room, id: string, gate: bool, cap: nat, waitCap: nat)
    requires TableOk(s) && IsPresent(s, id)
    ensures RoomMoves(s, Vacate(s, id), gate, cap, waitCap)
  {
    var k := IndexOf(s.rows, id);
    UpdateRowMoves(s, k, s.rows[k].(status := Left), gate, cap, waitCap);
  }

  lemma BatchMoves(s: Room, config: QueueConfig, now: int, gate: bool, limit: nat, picks: seq<string>, waitCap: nat)
    requires TableOk(s) && PicksAllowed(s, config, gate, limit, picks) && limit <= Slots(s, config)
    ensures RoomMoves(s, AdmitPicks(s, config, now, picks), gate, config.maxConcurrentUsers, waitCap)
  {
    AdmitPicksMoves(s, config, now, gate, limit, picks);
  }

  /** A batch of a request, with the alarm it re-arms. */
  lemma ForceAdmitAfterSweepMoves(s: Room, config: QueueConfig, now: int, gate: bool, limit: nat, picks: seq<string>, waitCap: nat)
    requires TableOk(s) && PicksAllowed(s, config, gate, limit, picks) && limit <= Slots(s, config)
    ensures RoomMoves(s, ForceAdmitAfterSweep(s, config, now, picks), gate, config.maxConcurrentUsers, waitCap)
  {
    var t := AdmitPicks(s, config, now, picks);
    BatchMoves(s, config, now, gate, limit, picks, waitCap);
    Stays(t, EnsureAlarm(t, now), gate, config.maxConcurrentUsers, waitCap);
    Then(s, t, EnsureAlarm(t, now), gate, config.maxConcurrentUsers, waitCap);
  }

  lemma LeaveAfterSweepMoves(s: Room, config: QueueConfig, id: string, now: int, picks: seq<string>, waitCap: nat)
    requires TableOk(s) && LeavePicks(s, config, id, now, picks)
    ensures RoomMoves(s, LeaveAfterSweep(s, config, id, now, picks).0,
                      CanAdmit(s.meta, now), config.maxConcurrentUsers, waitCap)
  {
    var gate, cap := CanAdmit(s.meta, now), config.maxConcurrentUsers;
    if IsPresent(s, id) {
      var v := Vacate(s, id);
      VacateMoves(s, id, gate, cap, waitCap);
      ForceAdmitAfterSweepMoves(v, config, now, gate, Slots(v, config), picks, waitCap);
      Then(s, v, ForceAdmitAfterSweep(v, config, now, picks), gate, cap, waitCap);
    } else {
      Stays(s, s, gate, cap, waitCap);
    }
  }

  lemma LeaveMoves(s: Room, config: QueueConfig, id: string, now: int, picks: seq<string>, waitCap: nat)
    requires TableOk(s) && LeavePicks(Begin(s, config, now, true), config, id, now, picks)
    ensures RoomMoves(s, Leave(s, config, id, now, picks).0, CanAdmit(s.meta, now), config.maxConcurrentUsers, waitCap)
  {
    var gate, cap := CanAdmit(s.meta, now), config.maxConcurrentUsers;
    var b := Begin(s, config, now, true);
    BeginKeepsSettings(s, config, now, true, now);
    BeginMoves(s, config, now, true, gate, cap, waitCap);
    LeaveAfterSweepMoves(b, config, id, now, picks, waitCap);
    Then(s, b, LeaveAfterSweep(b, config, id, now, picks).0, gate, cap, waitCap);
  }

  lemma ForceAdmitMoves(s: Room, config: QueueConfig, count: int, now: int, picks: seq<string>, waitCap: nat)
    requires TableOk(s) && ForcePicks(Begin(s, config, now, true), config, count, now, picks)
    ensures RoomMoves(s, ForceAdmit(s, config, now, picks), CanAdmit(s.meta, now), config.maxConcurrentUsers, waitCap)
  {
    var gate := CanAdmit(s.meta, now);
    var b := Begin(s, config, now, true);
    BeginKeepsSettings(s, config, now, true, now);
    BeginMoves(s, config, now, true, gate, config.maxConcurrentUsers, waitCap);
    ForceAdmitAfterSweepMoves(b, config, now, gate, ForceLimit(b, config, count), picks, waitCap);
    Then(s, b, ForceAdmitAfterSweep(b, config, now, picks), gate, config.maxConcurrentUsers, waitCap);
  }

  lemma AlarmFinishMoves(s: Room, now: int, picks: seq<string>, waitCap: nat)
    requires TableOk(s) && AlarmAdmits(s) && FinishPicks(s, picks)
    ensures var h := s.handler.value;
            RoomMoves(s, AlarmFinish(s, now, picks), CanAdmit(s.meta, h.now),
                      if h.config.Some? then h.config.value.maxConcurrentUsers else 0, waitCap)
  {
    var h := s.handler.value;
    var t := AlarmFinish(s, now, picks);
    if h.config.None? {
      Stays(s, t, CanAdmit(s.meta, h.now), 0, waitCap);
    } else {
      var config := h.config.value;
      var ticked := s.(meta := s.meta.(admitRemainder := TickBudget(s, config, h.now).nextRemainder));
      BatchMoves(ticked, config, h.now, CanAdmit(s.meta, h.now), BudgetLimit(s, config, h.now), picks, waitCap);
    }
  }

  lemma AlarmSweepMoves(s: Room, gate: bool, cap: nat, waitCap: nat)
    requires TableOk(s) && AlarmSweeps(s)
    ensures RoomMoves(s, AlarmSweep(s), gate, cap, waitCap)
  {
    if s.meta.config.Some? {
      SweepMoves(s, s.meta.config.value, s.handler.value.now, true);
    } else {
      Stays(s, AlarmSweep(s), gate, cap, waitCap);
    }
  }

  /**
   Capacity and gate, on every path: after any event the admitted are at most
   max(before, maxConcurrentUsers), the waiting at most max(before, waiting cap), and unless the gate
   is open at the event's working time nobody is newly admitted.
   */
  lemma StepMoves(s: Room, e: Event)
    requires TableOk(s) && Enabled(s, e)
    ensures RoomMoves(s, Step(s, e), CanAdmit(s.meta, WorkTime(s, e)), CapOf(s, e), MaxWaiting(s.meta))
  {
    var gate, cap, waitCap := CanAdmit(s.meta, WorkTime(s, e)), CapOf(s, e), MaxWaiting(s.meta);
    hide TableOk, RoomMoves, CanAdmit, MaxWaiting, Join, CheckStatus, Heartbeat, Enter, Leave, ForceAdmit, Begin, AlarmSweep,
      AlarmFinish, LeavePicks, ForcePicks, FinishPicks;
    match e
    case JoinEvent(id, config, now) => JoinMoves(s, config, id, now);
    case StatusEvent(id, config, now) => CheckInMoves(s, config, id, now, gate, cap, waitCap);
    case HeartbeatEvent(id, config, now) => CheckInMoves(s, config, id, now, gate, cap, waitCap);
    case EnterEvent(id, config, now) => EnterMoves(s, config, id, now, gate, cap, waitCap);
    case LeaveEvent(id, config, now, picks) => LeaveMoves(s, config, id, now, picks, waitCap);
    case ForceAdmitEvent(count, config, now, picks) => ForceAdmitMoves(s, config, count, now, picks, waitCap);
    case MetricsEvent(config, now) => BeginMoves(s, config, now, false, gate, cap, waitCap);
    case AlarmSweepEvent(_) => AlarmSweepMoves(s, gate, cap, waitCap);
    case AlarmFinishEvent(now, picks) => AlarmFinishMoves(s, now, picks, waitCap);
    case _ => Stays(s, Step(s, e), gate, cap, waitCap);
  }

  /** The room is shut by its own settings: paused, not open yet, closed, or stopped by the health ladder. */
  predicate Shut(m: Meta, now: int) {
    || m.paused
    || (m.opensAt.Some? && 0 < m.opensAt.value && now < m.opensAt.value)
    || (m.closesAt.Some? && 0 < m.closesAt.value <= now)
    || (m.healthConfig.enabled && m.healthState.level == Pause
        && !(m.healthConfig.overrideUntil.Some? && now < m.healthConfig.overrideUntil.value))
  }

  /** The gate is exactly that. */
  lemma GateIsShut(m: Meta, now: int)
    requires ValidConfig(m.healthConfig)
    ensures CanAdmit(m, now) <==> !Shut(m, now)
  {
    AutoPausedAtPause(m.healthConfig, m.healthState, now);
  }

  /** Nobody is admitted by an event whose gate, at the time at which it is asked, is shut. */
  lemma ShutGateAdmitsNobody(s: Room, e: Event)
    requires TableOk(s) && Enabled(s, e) && ValidConfig(s.meta.healthConfig) && Shut(s.meta, WorkTime(s, e))
    ensures NoNewAdmits(s.rows, Step(s, e).rows)
  {
    GateIsShut(s.meta, WorkTime(s, e));
    StepMoves(s, e);
    hide Step, Enabled, Shut, CanAdmit, NoNewAdmits;
  }

  // ---------- the gate by the clock ----------

  /**
   What the alarm handler finds when it comes to admit: somebody waits, and at the time at which it started the gate
   was open and the budget allowed somebody.
   */
  predicate BatchIsDue(s: Room) {
    && AlarmAdmits(s) && s.handler.value.config.Some?
    && CanAdmit(s.meta, s.handler.value.now)
    && BudgetLimit(s, s.handler.value.config.value, s.handler.value.now) > 0
    && Count(s.rows, Waiting) > 0
  }

  /** The event is the end of a handler that finds a batch to admit. */
  predicate IsAlarmBatch(s: Room, e: Event) {
    e.AlarmFinishEvent? && BatchIsDue(s)
  }

  /** The handler admits somebody exactly when a batch is due. */
  lemma DueBatchAdmits(s: Room, picks: seq<string>)
    requires AlarmAdmits(s) && FinishPicks(s, picks)
    ensures picks != [] <==> BatchIsDue(s)
  {
    var h := s.handler.value;
    if h.config.Some? {
      var config := h.config.value;
      var limit := BudgetLimit(s, config, h.now);
      if CanAdmit(s.meta, h.now) && limit > 0 {
        SelectionTakesSomebody(s.rows, ModeOf(s.meta, config), limit, picks);
      }
    }
    hide CanAdmit, BudgetLimit, Where, Selection, ModeOf;
  }

  lemma NoBatchNoAdmits(s: Room, e: Event)
    requires TableOk(s) && Enabled(s, e) && e.AlarmFinishEvent? && e.picks == []
    ensures Step(s, e).rows == s.rows
  {
    hide TableOk, Where;
  }

  /** By the clock of the event: the caps hold, and nobody is admitted through a shut gate but by an alarm batch. */
  lemma StepMovesByTheClock(s: Room, e: Event)
    requires TableOk(s) && Enabled(s, e)
    ensures RoomMoves(s, Step(s, e), CanAdmit(s.meta, e.now) || IsAlarmBatch(s, e), CapOf(s, e), MaxWaiting(s.meta))
  {
    StepMoves(s, e);
    if e.AlarmFinishEvent? {
      DueBatchAdmits(s, e.picks);
    }
    hide TableOk, CanAdmit, MaxWaiting, Step, Enabled, Moves, BatchIsDue;
    if e.AlarmSweepEvent? {
      AlarmSweepIsStep(s, e);
      AlarmSweepMoves(s, CanAdmit(s.meta, e.now), CapOf(s, e), MaxWaiting(s.meta));
    } else if e.AlarmFinishEvent? {
      if e.picks == [] {
        NoBatchNoAdmits(s, e);
        Stays(s, Step(s, e), CanAdmit(s.meta, e.now), CapOf(s, e), MaxWaiting(s.meta));
      } else {
        OpenGateMoves(s, Step(s, e), CanAdmit(s.meta, WorkTime(s, e)), CapOf(s, e), MaxWaiting(s.meta));
      }
    }
  }

  lemma AlarmSweepIsStep(s: Room, e: Event)
    requires Enabled(s, e) && e.AlarmSweepEvent?
    ensures AlarmSweeps(s) && Step(s, e) == AlarmSweep(s)
  {
  }

  lemma OpenGateMoves(s: Room, t: Room, gate: bool, cap: nat, waitCap: nat)
    requires RoomMoves(s, t, gate, cap, waitCap)
    ensures RoomMoves(s, t, true, cap, waitCap)
  {
  }

  lemma NewlyAdmitted(a: seq<Row>, b: seq<Row>, k: nat)
    requires UniqueIds(a) && k < |a| && k < |b| && b[k].id == a[k].id
    requires a[k].status == Waiting && b[k].status == Admitted
    ensures !NoNewAdmits(a, b)
  {
    assert b[k] in b;
    forall q | q in a && Descends(q, b[k])
      ensures q == a[k]
    {
      var i :| 0 <= i < |a| && a[i] == q;
      assert i == k;
    }
  }

  lemma AlarmBatchRows(s: Room, e: Event)
    requires Enabled(s, e) && e.AlarmFinishEvent? && e.picks != []
    ensures var h := s.handler.value;
            h.config.Some? &&
            Step(s, e).rows == AdmitAll(s.rows, e.picks, h.now,
                                        !EffectiveConfig(s.meta, h.config.value).requireClickToEnter)
  {
    hide Where, AdmitAll, Selection;
  }

  /** The first visitor of an alarm batch was waiting and is admitted. */
  lemma BatchAdmitsSomebody(s: Room, e: Event)
    requires TableOk(s) && Enabled(s, e) && e.AlarmFinishEvent? && e.picks != []
    ensures !NoNewAdmits(s.rows, Step(s, e).rows)
  {
    var h := s.handler.value;
    var config, id := h.config.value, e.picks[0];
    var entered := !EffectiveConfig(s.meta, config).requireClickToEnter;
    SelectionTakesWaiters(s.rows, s.meta.nextSequence, ModeOf(s.meta, config), BudgetLimit(s, config, h.now), e.picks);
    AlarmBatchRows(s, e);
    hide Step, Enabled, AdmitAll, EffectiveConfig, NoNewAdmits;
    AdmitAllMoves(s.rows, e.picks, h.now, entered, s.meta.nextSequence);
    assert id in e.picks;
    NewlyAdmitted(s.rows, Step(s, e).rows, IndexOf(s.rows, id));
  }

  /** The room has shut between two instants: it closed, or a health override ran out at pause. */
  predicate HasShut(m: Meta, start: int, now: int) {
    || (m.closesAt.Some? && 0 < m.closesAt.value && start < m.closesAt.value <= now)
    || (m.healthConfig.enabled && m.healthState.level == Pause
        && m.healthConfig.overrideUntil.Some? && start < m.healthConfig.overrideUntil.value <= now)
  }

  lemma ShutSince(m: Meta, start: int, now: int)
    requires start <= now && !Shut(m, start)
    ensures Shut(m, now) <==> HasShut(m, start, now)
  {
  }

  /**
   In a room that is shut when an event happens, the event admits somebody if and only if it is the end of a handler
   that finds a batch due. And one is due only when the room has shut since the handler started: it closed in between, or a
   health override ran out in between at pause.
   */
  lemma ShutRoomAdmitsNobody(s: Room, e: Event)
    requires TableOk(s) && Enabled(s, e) && ValidConfig(s.meta.healthConfig) && Shut(s.meta, e.now)
    ensures NoNewAdmits(s.rows, Step(s, e).rows) <==> !IsAlarmBatch(s, e)
    ensures IsAlarmBatch(s, e) && s.handler.value.now <= e.now ==> HasShut(s.meta, s.handler.value.now, e.now)
  {
    GateIsShut(s.meta, e.now);
    if IsAlarmBatch(s, e) {
      DueBatchAdmits(s, e.picks);
      BatchAdmitsSomebody(s, e);
      var start := s.handler.value.now;
      assert CanAdmit(s.meta, start);
      GateIsShut(s.meta, start);
      hide CanAdmit, Step, NoNewAdmits, Enabled;
      if start <= e.now {
        ShutSince(s.meta, start, e.now);
      }
    } else {
      StepMovesByTheClock(s, e);
      hide Step, Enabled, Shut, CanAdmit, NoNewAdmits;
    }
  }

  // ---------- runs ----------

  /** Over any run the table stays well formed and every surviving row descends from its earlier self. */
  lemma {:induction false} RunSucceeds(s: Room, clock: int, es: seq<Event>)
    requires TableOk(s) && Legal(s, clock, es)
    ensures var t := Run(s, clock, es);
            TableOk(t) && Succeeds(s.rows, s.meta.nextSequence, t.rows, t.meta.nextSequence)
    decreases |es|
  {
    if es == [] {
      Stays(s, s, true, 0, 0);
    } else {
      var t := Step(s, es[0]);
      StepMoves(s, es[0]);
      RunSucceeds(t, es[0].now, es[1..]);
      var u := Run(s, clock, es);
      SucceedsTransitive(s.rows, s.meta.nextSequence, t.rows, t.meta.nextSequence, u.rows, u.meta.nextSequence);
    }
  }

  /** While a visitor waits, its position never rises, whatever the run. */
  lemma PositionNeverRisesInRun(s: Room, clock: int, es: seq<Event>, r: Row)
    requires TableOk(s) && Legal(s, clock, es)
    requires r in Run(s, clock, es).rows && r.status == Waiting && r.sequence < s.meta.nextSequence
    ensures exists q :: q in s.rows && q.status == Waiting && q.id == r.id && q.sequence == r.sequence
              && PositionIn(Run(s, clock, es).rows, r) <= PositionIn(s.rows, q)
  {
    var t := Run(s, clock, es);
    RunSucceeds(s, clock, es);
    PositionNeverRises(s.rows, s.meta.nextSequence, t.rows, t.meta.nextSequence, r);
  }

  /** With a fixed capacity, a run from the empty room never admits more than the capacity at once. */
  lemma {:induction false} CapacityHolds(s: Room, clock: int, es: seq<Event>, capacity: nat)
    requires TableOk(s) && Legal(s, clock, es) && Count(s.rows, Admitted) <= capacity
    requires CapacityFixed(s, clock, es, capacity)
    ensures Count(Run(s, clock, es).rows, Admitted) <= capacity
    decreases |es|
  {
    if es != [] {
      StepMoves(s, es[0]);
      CapacityHolds(Step(s, es[0]), es[0].now, es[1..], capacity);
    }
  }

  /** Every event of the run works with a configuration of at most this capacity. */
  ghost predicate CapacityFixed(s: Room, clock: int, es: seq<Event>, capacity: nat)
    requires Legal(s, clock, es)
    decreases |es|
  {
    es == [] ||
    (CapOf(s, es[0]) <= capacity && CapacityFixed(Step(s, es[0]), es[0].now, es[1..], capacity))
  }
}
