/**
 The promise of the timeslots: a waiter that keeps answering its slots is never expired for missing one,
 whatever happens in the room; only the queue-stay timeout can expire it.
 */
module CheckIns {
  import opened Wrappers
  import opened Engine
  import opened CheckInSlots
  import opened Visitors
  import opened RoomState
  import opened RoomSteps
  import opened RoomRuns
  import opened TableMoves
  import opened RoomBounds
  import opened RoomLiveness
  import opened RowKeeping

  const MIN_GRACE_MS: int := MIN_MISSED_SLOT_GRACE_SECONDS * 1000

  /** The slot stored with a visitor; waiters always have one. */
  function SlotOf(rows: seq<Row>, id: string): int {
    if Has(rows, id) then Get(rows, id).nextCheckAt.GetOr(0) else 0
  }

  lemma GraceIsAtLeastHalfAMinute(rows: seq<Row>, eff: QueueConfig)
    ensures GraceMs(rows, eff) >= MIN_GRACE_MS
  {
  }

  // ---------- the fate of a waiter in one step ----------

  /** A status or heartbeat call of the visitor itself. */
  predicate IsCheckIn(e: Event, id: string) {
    (e.StatusEvent? || e.HeartbeatEvent?) && e.id == id
  }

  /** The visitor's stay has run out at the working time of the event. */
  predicate StayOver(s: Room, e: Event, id: string)
    requires Has(s.rows, id)
  {
    ConfigOf(s, e).Some? &&
    Get(s.rows, id).joinedAt <= WorkTime(s, e) - ConfigOf(s, e).value.queueTimeoutSeconds * 1000
  }

  /** Its row is still there, waiting or admitted, or it has left by its own leave. */
  ghost predicate Survives'(s: Room, e: Event, id: string)
    requires Enabled(s, e) && Has(s.rows, id)
  {
    var t := Step(s, e);
    Has(t.rows, id) &&
    match Get(t.rows, id).status {
      case Expired => false
      case Left => e.LeaveEvent? && e.id == id
      case _ => Get(t.rows, id).sequence == Get(s.rows, id).sequence
    }
  }

  /** Its stay had run out, and its row has expired, or is purged already. */
  ghost predicate StayEnds(s: Room, e: Event, id: string)
    requires Enabled(s, e) && Has(s.rows, id)
  {
    StayOver(s, e, id) && Gone(Step(s, e).rows, id, Get(s.rows, id).sequence)
  }

  /** Less than 30 seconds have passed since the waiter's slot. */
  predicate InWindow(s: Room, now: int, id: string) {
    IsWaiting(s.rows, id) && now < SlotOf(s.rows, id) + MIN_GRACE_MS
  }

  /** Within its window a sweep takes a waiter exactly when its stay is over: the grace is never shorter. */
  lemma WindowSpares(s: Room, config: QueueConfig, now: int, id: string)
    requires TableOk(s) && InWindow(s, now, id)
    ensures Spared(s, config, now, id) <==> Get(s.rows, id).joinedAt > now - config.queueTimeoutSeconds * 1000
  {
    GraceIsAtLeastHalfAMinute(s.rows, EffectiveConfig(s.meta, config));
  }

  /** Its row is exactly as before, or it has been admitted, or it has left. */
  predicate Fate(a: seq<Row>, b: seq<Row>, id: string, leaves: bool)
    requires Has(a, id)
  {
    if leaves then Has(b, id) && Get(b, id).status == Left else KeptOrAdmitted(a, b, id)
  }

  /** A request of somebody else, within the waiter's window, leaves its slot alone or admits it. */
  lemma FateInRequest(s: Room, e: Event, id: string)
    requires TableOk(s) && Enabled(s, e) && IsWaiting(s.rows, id) && !IsCheckIn(e, id)
    requires IsRequest(e) && Passes(s, e.config, e.now, ForcesSweep(e), id)
    ensures Fate(s.rows, Step(s, e).rows, id, e.LeaveEvent? && e.id == id)
  {
    hide Where, TableOk, Spared, Fate, CanAdmit, Join, CheckStatus, Heartbeat, Enter, Leave, ForceAdmit, Begin, LeavePicks,
      ForcePicks;
    var rows := Step(s, e).rows;
    match e
    case JoinEvent(other, config, now) =>
      JoinSpares(s, config, other, now, id);
      KeptFate(s.rows, rows, id);
    case StatusEvent(other, config, now) =>
      CheckInSpares(s, config, other, now, id);
      KeptFate(s.rows, rows, id);
    case HeartbeatEvent(other, config, now) =>
      CheckInSpares(s, config, other, now, id);
      KeptFate(s.rows, rows, id);
    case EnterEvent(other, config, now) =>
      EnterSpares(s, config, other, now, id);
      KeptFate(s.rows, rows, id);
    case LeaveEvent(other, config, now, picks) =>
      LeaveSpares(s, config, other, now, picks, id);
      if other != id {
        KeptFate(s.rows, rows, id);
      } else {
        LeftFate(s.rows, rows, id);
      }
    case ForceAdmitEvent(count, config, now, picks) =>
      ForceAdmitSpares(s, config, count, now, picks, id);
      KeptFate(s.rows, rows, id);
    case MetricsEvent(config, now) =>
      BeginKeeps(s, config, now, false, id);
      KeptFate(s.rows, rows, id);
  }

  /** So does a stage of the alarm handler. */
  lemma FateInAlarm(s: Room, e: Event, id: string)
    requires TableOk(s) && Enabled(s, e) && IsWaiting(s.rows, id)
    requires IsAlarmWork(e)
    requires e.AlarmSweepEvent? && s.meta.config.Some? ==> Spared(s, s.meta.config.value, s.handler.value.now, id)
    ensures Fate(s.rows, Step(s, e).rows, id, false)
  {
    hide Where, TableOk, Spared, Fate, AlarmSweep, AlarmFinish, FinishPicks;
    if e.AlarmSweepEvent? {
      AlarmSweepSpares(s, id);
    } else {
      FinishKeeps(s, e.now, e.picks, id);
    }
    KeptFate(s.rows, Step(s, e).rows, id);
  }

  /** A sweep of the alarm handler that does not spare the waiter ends its stay. */
  lemma AlarmSweepTakes(s: Room, e: Event, id: string)
    requires TableOk(s) && Enabled(s, e) && e.AlarmSweepEvent? && IsWaiting(s.rows, id)
    requires s.meta.config.Some? && !Spared(s, s.meta.config.value, s.handler.value.now, id)
    ensures Gone(Step(s, e).rows, id, Get(s.rows, id).sequence)
  {
    SweepTakes(s, s.meta.config.value, s.handler.value.now, true, id);
    hide Sweep, Gone;
  }

  lemma NotPassing(s: Room, e: Event, id: string)
    requires TableOk(s) && IsRequest(e) && InWindow(s, e.now, id) && !Passes(s, e.config, e.now, ForcesSweep(e), id)
    ensures StayOver(s, e, id)
  {
    WindowSpares(s, e.config, e.now, id);
    hide Spared, SweepSkipped, TableOk;
  }

  lemma FateAtRequest(s: Room, e: Event, id: string)
    requires TableOk(s) && Enabled(s, e) && IsRequest(e) && InWindow(s, e.now, id) && !IsCheckIn(e, id)
    ensures Fate(s.rows, Step(s, e).rows, id, e.LeaveEvent? && e.id == id) || StayEnds(s, e, id)
  {
    hide Step, Enabled, Fate, Gone, TableOk, IsCheckIn, Passes, StayOver;
    if Passes(s, e.config, e.now, ForcesSweep(e), id) {
      FateInRequest(s, e, id);
    } else {
      NotPassing(s, e, id);
      RequestTakes(s, e, id);
    }
  }

  /** Every event of somebody else leaves the waiter's row alone, admits it, or ends a stay that is over. */
  lemma FateOfWaiter(s: Room, e: Event, id: string)
    requires TableOk(s) && Enabled(s, e) && InWindow(s, WorkTime(s, e), id) && !IsCheckIn(e, id)
    ensures Fate(s.rows, Step(s, e).rows, id, e.LeaveEvent? && e.id == id) || StayEnds(s, e, id)
  {
    if IsAlarmWork(e) && ConfigOf(s, e).Some? {
      WindowSpares(s, ConfigOf(s, e).value, WorkTime(s, e), id);
    }
    hide Step, Enabled, Spared, Fate, SlotOf, Gone, TableOk, SweepSkipped;
    if IsRequest(e) {
      FateAtRequest(s, e, id);
    } else if IsAlarmWork(e) {
      if e.AlarmSweepEvent? && s.meta.config.Some? && !Spared(s, s.meta.config.value, s.handler.value.now, id) {
        AlarmSweepTakes(s, e, id);
      } else {
        FateInAlarm(s, e, id);
      }
    } else {
      OthersKeepTheTable(s, e);
      SameFate(s.rows, Step(s, e).rows, id);
    }
  }

  lemma KeptFate(a: seq<Row>, b: seq<Row>, id: string)
    requires IsWaiting(a, id) && KeptOrAdmitted(a, b, id)
    ensures Fate(a, b, id, false)
  {
  }

  lemma LeftFate(a: seq<Row>, b: seq<Row>, id: string)
    requires IsWaiting(a, id) && Has(b, id) && Get(b, id).status == Left
    ensures Fate(a, b, id, true)
  {
  }

  lemma SameFate(a: seq<Row>, b: seq<Row>, id: string)
    requires IsWaiting(a, id) && b == a
    ensures Fate(a, b, id, false)
  {
  }

  /**
   An event of somebody else, within the waiter's window, expires it only when its stay is over; and while it goes
   on waiting its row, with its slot, is as it was.
   */
  lemma OthersKeepTheSlot(s: Room, e: Event, id: string)
    requires TableOk(s) && Enabled(s, e) && InWindow(s, WorkTime(s, e), id) && !IsCheckIn(e, id)
    ensures StayEnds(s, e, id) || Survives'(s, e, id)
    ensures StayEnds(s, e, id) || (IsWaiting(Step(s, e).rows, id) ==> Kept(s.rows, Step(s, e).rows, id))
  {
    hide Step, Enabled, StayOver, WorkTime, StayEnds;
    FateOfWaiter(s, e, id);
  }

  // ---------- the waiter's own check-in ----------

  /** What the visitor is told by its own call. */
  function Answer(s: Room, e: Event): CheckInResult
    requires e.StatusEvent? || e.HeartbeatEvent?
  {
    if e.StatusEvent? then CheckStatus(s, e.config, e.id, e.now).1 else Heartbeat(s, e.config, e.id, e.now).1
  }

  /** A new slot lies in the future: at least the lead, or at the opening time. */
  lemma AssignedSlotIsAhead(m: Meta, key: string, waiting: nat, config: QueueConfig, now: int,
                            position: Option<nat>, estimate: int, lead: int)
    requires lead >= 0
    ensures var at := AssignCheckIn(m, key, waiting, config, now, position, estimate, lead);
            && at >= CheckInEarliest(m, now)
            && (CheckInEarliest(m, now) == now ==> at >= now + lead)
  {
    var earliest := CheckInEarliest(m, now);
    var beforeOpen := earliest > now;
    var period := if beforeOpen then CheckInPeriodSeconds(waiting)
      else EffectiveCheckInPeriodSeconds(waiting, position, ModeOf(m, config), estimate, EffectiveRate(m, config, now));
    NextCheckIsLeast(earliest, period, key, if beforeOpen then 0 else lead);
  }

  lemma CheckedInSlot(s: Room, config: QueueConfig, r: Row, now: int)
    requires r.status == Waiting && r.nextCheckAt.Some?
    ensures var c := CheckedIn(s, config, r, now);
            && c.status == Waiting && c.nextCheckAt.Some? && c.id == r.id && c.sequence == r.sequence
            && (now >= r.nextCheckAt.value ==> c.nextCheckAt.value > now)
            && (c == r || c.nextCheckAt.value > now)
  {
    var waiting, position := Count(s.rows, Waiting), LinePosition(s.rows, s.meta, config, r);
    AssignedSlotIsAhead(s.meta, r.id, waiting, config, now, position, 0, 0);
    AssignedSlotIsAhead(s.meta, r.id, waiting, config, now, position, RenewalEstimate(s.rows, s.meta, config, r, now), 1000);
  }

  /** In an open room a due renewal moves the slot forward by at least a second and leaves it not due. */
  lemma RenewedSlotMovesForward(s: Room, config: QueueConfig, r: Row, now: int)
    requires r.status == Waiting && WellFormed(r) && CheckInEarliest(s.meta, now) == now
    requires IsCheckInDue(now, r.nextCheckAt)
    ensures var c := Renewed(s, config, r, now);
            && CheckedIn(s, config, r, now) == c
            && c.nextCheckAt.Some? && c.nextCheckAt.value >= r.nextCheckAt.value + 1000
            && !IsCheckInDue(now, c.nextCheckAt)
  {
    var period := EffectiveCheckInPeriodSeconds(Count(s.rows, Waiting), LinePosition(s.rows, s.meta, config, r),
      ModeOf(s.meta, config), RenewalEstimate(s.rows, s.meta, config, r, now), EffectiveRate(s.meta, config, now));
    hide EffectiveCheckInPeriodSeconds, NextCheckAtMs, EffectiveRate, RenewalEstimate, LinePosition, Where;
    PeriodsArePositive(Count(s.rows, Waiting), LinePosition(s.rows, s.meta, config, r), ModeOf(s.meta, config),
                       RenewalEstimate(s.rows, s.meta, config, r, now), EffectiveRate(s.meta, config, now));
    RenewalMovesForward(r.nextCheckAt.value, now, period, r.id);
  }

  lemma PeriodsArePositive(waiting: nat, position: Option<nat>, mode: Mode, estimate: int, rate: real)
    ensures EffectiveCheckInPeriodSeconds(waiting, position, mode, estimate, rate) >= MIN_CHECK_IN_PERIOD_SEC
  {
  }

  /** So does every check-in of a waiter whose slot is due, by status or by heartbeat. */
  lemma DueCheckInMovesForward(s: Room, config: QueueConfig, id: string, now: int)
    requires TableOk(s) && IsWaiting(s.rows, id) && CheckInEarliest(s.meta, now) == now
    requires IsCheckInDue(now, Get(s.rows, id).nextCheckAt)
    ensures var t := CheckInAfterSweep(s, config, id, now).0.rows;
            && IsWaiting(t, id)
            && SlotOf(t, id) >= SlotOf(s.rows, id) + 1000
            && !IsCheckInDue(now, Some(SlotOf(t, id)))
  {
    var k := IndexOf(s.rows, id);
    var r := CheckedIn(s, config, s.rows[k], now);
    RenewedSlotMovesForward(s, config, s.rows[k], now);
    UpdateKeepsIndex(s.rows, k, r, id);
  }

  lemma OwnCallAfterSweep(s: Room, config: QueueConfig, id: string, now: int)
    requires TableOk(s) && IsWaiting(s.rows, id)
    ensures var t, r := CheckInAfterSweep(s, config, id, now).0.rows, CheckInAfterSweep(s, config, id, now).1;
            && IsWaiting(t, id) && Get(t, id).sequence == Get(s.rows, id).sequence
            && r.Seen? && r.view.nextCheckAt == Some(SlotOf(t, id))
            && (now >= SlotOf(s.rows, id) ==> SlotOf(t, id) > now)
  {
    var k := IndexOf(s.rows, id);
    var r := CheckedIn(s, config, s.rows[k], now);
    CheckedInSlot(s, config, s.rows[k], now);
    UpdateKeepsIndex(s.rows, k, r, id);
  }

  lemma OwnCallSteps(s: Room, e: Event, id: string, b: Room)
    requires Enabled(s, e) && IsCheckIn(e, id) && b == Begin(s, e.config, e.now, false) && IsWaiting(b.rows, id)
    ensures Step(s, e) == CheckInAfterSweep(b, e.config, id, e.now).0
    ensures Answer(s, e) == CheckInAfterSweep(b, e.config, id, e.now).1
  {
    hide Begin, CheckInAfterSweep, HasTurn;
  }

  lemma PassingCallIsAnswered(s: Room, e: Event, id: string)
    requires TableOk(s) && Enabled(s, e) && IsCheckIn(e, id) && IsWaiting(s.rows, id) && Passes(s, e.config, e.now, false, id)
    ensures var t := Step(s, e).rows;
            && IsWaiting(t, id) && Get(t, id).sequence == Get(s.rows, id).sequence
            && Answer(s, e).Seen? && Answer(s, e).view.nextCheckAt == Some(SlotOf(t, id))
            && (e.now >= SlotOf(s.rows, id) ==> SlotOf(t, id) > e.now)
  {
    var b := Begin(s, e.config, e.now, false);
    BeginKeeps(s, e.config, e.now, false, id);
    assert IsWaiting(b.rows, id) && Get(b.rows, id) == Get(s.rows, id);
    OwnCallSteps(s, e, id, b);
    hide Step, Begin, CheckInAfterSweep, Answer, TableOk, Passes, Enabled, Get, Has, IsWaiting;
    OwnCallAfterSweep(b, e.config, id, e.now);
  }

  /**
   A call in time finds its stay over, or is answered with the slot now stored; a call at or after its slot gets
   one in the future.
   */
  lemma OwnCallIsAnswered(s: Room, e: Event, id: string)
    requires TableOk(s) && Enabled(s, e) && IsCheckIn(e, id) && InWindow(s, e.now, id)
    ensures var t := Step(s, e).rows;
            StayEnds(s, e, id) ||
            (&& IsWaiting(t, id) && Get(t, id).sequence == Get(s.rows, id).sequence
             && Answer(s, e).Seen? && Answer(s, e).view.nextCheckAt == Some(SlotOf(t, id))
             && (e.now >= SlotOf(s.rows, id) ==> SlotOf(t, id) > e.now))
  {
    WindowSpares(s, e.config, e.now, id);
    hide Step, Gone, Answer, TableOk, SweepSkipped;
    if Passes(s, e.config, e.now, false, id) {
      PassingCallIsAnswered(s, e, id);
    } else {
      RequestTakes(s, e, id);
    }
  }

  // ---------- runs ----------

  /** When the visitor next calls, or when the run ends. */
  function NextCall(clock: int, es: seq<Event>, id: string): int
    decreases |es|
  {
    if es == [] then clock else if IsCheckIn(es[0], id) then es[0].now else NextCall(es[0].now, es[1..], id)
  }

  function Told(s: Room, e: Event, id: string, promised: int): int {
    if IsCheckIn(e, id) && Answer(s, e).Seen? && Answer(s, e).view.nextCheckAt.Some?
    then Answer(s, e).view.nextCheckAt.value else promised
  }

  /**
   While it waits, the visitor always calls again before 30 seconds have passed since the slot it was last
   told (or the run ends before that).
   */
  ghost predicate Punctual(s: Room, clock: int, es: seq<Event>, id: string, promised: int)
    requires Legal(s, clock, es)
    decreases |es|
  {
    && NextCall(clock, es, id) < promised + MIN_GRACE_MS
    && (es != [] && IsWaiting(s.rows, id) ==>
          Punctual(Step(s, es[0]), es[0].now, es[1..], id, Told(s, es[0], id, promised)))
  }

  /**
   As long as the visitor waits, every event either lets its row survive, and the claim goes on, or ends a stay that
   is over by the event's own configuration and working time.
   */
  ghost predicate NeverMissed(s: Room, clock: int, es: seq<Event>, id: string)
    requires Legal(s, clock, es)
    decreases |es|
  {
    es == [] || !IsWaiting(s.rows, id) || StayEnds(s, es[0], id) ||
    (Survives'(s, es[0], id) && NeverMissed(Step(s, es[0]), es[0].now, es[1..], id))
  }

  lemma {:induction false} NextCallIsLater(s: Room, clock: int, es: seq<Event>, id: string)
    requires Legal(s, clock, es)
    ensures clock <= NextCall(clock, es, id)
    decreases |es|
  {
    if es != [] && !IsCheckIn(es[0], id) {
      NextCallIsLater(Step(s, es[0]), es[0].now, es[1..], id);
    }
  }

  /** What one event means for a punctual waiter: its stay ends, or it survives and is still told its slot. */
  lemma PunctualStep(s: Room, clock: int, e: Event, id: string)
    requires Inv(s, clock) && Enabled(s, e) && clock <= e.now && InWindow(s, e.now, id)
    ensures StayEnds(s, e, id) || Survives'(s, e, id)
    ensures StayEnds(s, e, id) ||
            (IsWaiting(Step(s, e).rows, id) ==>
               Told(s, e, id, SlotOf(s.rows, id)) == SlotOf(Step(s, e).rows, id))
  {
    if IsCheckIn(e, id) {
      OwnCallIsAnswered(s, e, id);
      hide Step, Answer, StayEnds, Enabled;
    } else {
      WorkTimeInWindow(s, clock, e, id);
      OthersKeepTheSlot(s, e, id);
      hide Step, StayEnds, Enabled, WorkTime;
    }
  }

  lemma WorkTimeInWindow(s: Room, clock: int, e: Event, id: string)
    requires Inv(s, clock) && clock <= e.now && InWindow(s, e.now, id)
    ensures InWindow(s, WorkTime(s, e), id) && TableOk(s)
  {
  }

  /** A punctual waiter is never expired for a missed slot, in any run. */
  lemma {:induction false} PunctualIsNeverMissed(s: Room, clock: int, es: seq<Event>, id: string, promised: int)
    requires Inv(s, clock) && Legal(s, clock, es)
    requires IsWaiting(s.rows, id) ==> promised == SlotOf(s.rows, id)
    requires Punctual(s, clock, es, id, promised)
    ensures NeverMissed(s, clock, es, id)
    decreases |es|
  {
    hide Inv, Step, Enabled, StayEnds, Survives', Told, SlotOf;
    if es != [] && IsWaiting(s.rows, id) {
      var e, t := es[0], Step(s, es[0]);
      StepKeepsInv(s, clock, e);
      NextCallIsLater(t, e.now, es[1..], id);
      PunctualStep(s, clock, e, id);
      if !StayEnds(s, e, id) {
        PunctualIsNeverMissed(t, e.now, es[1..], id, Told(s, e, id, promised));
      }
    }
  }

  lemma AddWaiterTells(s: Room, config: QueueConfig, id: string, now: int)
    requires !Has(s.rows, id)
    ensures var t, r := AddVisitor(s, config, id, now, false).0, AddVisitor(s, config, id, now, false).1;
            IsWaiting(t.rows, id) && r.view.nextCheckAt == Some(SlotOf(t.rows, id)) && SlotOf(t.rows, id) > now
  {
    var r := NewRow(s, config, id, now, false);
    var waiting := Count(s.rows, Waiting) + 1;
    AssignedSlotIsAhead(s.meta, id, waiting, config, now, Some(waiting), 0, MIN_CHECK_IN_PERIOD_SEC * 1000);
    AppendGet(s.rows, r);
  }

  /** A new waiter is told the slot it is stored with, and that slot is ahead; a known waiter is told its own. */
  lemma JoinTellsTheSlot(s: Room, config: QueueConfig, id: string, now: int)
    requires TableOk(s)
    ensures var t, r := JoinAfterSweep(s, config, id, now).0, JoinAfterSweep(s, config, id, now).1;
            r.Joined? && r.view.status == Waiting ==>
              && IsWaiting(t.rows, id) && r.view.nextCheckAt == Some(SlotOf(t.rows, id))
              && (!IsWaiting(s.rows, id) ==> SlotOf(t.rows, id) > now)
  {
    if !Has(s.rows, id) {
      AddWaiterTells(s, config, id, now);
    }
  }
}
