/**
 Every request and every alarm stage of a waiting room as a step on its tables, with all counts taken
 afresh by query. `picks` are the ids a step takes from the waiting set: they are forced in Queue Mode and
 free within Selection in Lottery Mode. Each step carries the wall clock at which it happens; the stages
 of the alarm handler work with the time at which the handler started.
 */
module RoomSteps {
  import opened Wrappers
  import opened Engine
  import opened Health
  import opened Visitors
  import opened TrafficBuckets
  import opened WebhookOutbox
  import opened RoomState

  // ---------- pieces shared by the steps ----------

  function Remember(s: Room, config: QueueConfig): Room {
    s.(meta := s.meta.(config := Some(config)))
  }

  /** What the three expiry UPDATEs of a sweep make of one row. */
  function Expire(r: Row, eff: QueueConfig, now: int, graceMs: int): Row {
    var gone := match r.status
      case Waiting =>
        || r.joinedAt <= now - eff.queueTimeoutSeconds * 1000
        || (if r.nextCheckAt.Some? then r.nextCheckAt.value <= now - graceMs
            else r.lastHeartbeatAt <= now - eff.heartbeatTimeoutSeconds * 1000)
      case Admitted =>
        && r.admittedAt.Some?
        && r.admittedAt.value <= now - (if r.entered then eff.tokenTTLSeconds else eff.admitHoldSeconds) * 1000
      case _ => false;
    if gone then r.(status := Expired) else r
  }

  function ExpireAll(rows: seq<Row>, eff: QueueConfig, now: int, graceMs: int): (after: seq<Row>)
    ensures |after| == |rows|
    ensures forall i :: 0 <= i < |rows| ==> after[i] == Expire(rows[i], eff, now, graceMs)
  {
    seq(|rows|, i requires 0 <= i < |rows| => Expire(rows[i], eff, now, graceMs))
  }

  function GraceMs(rows: seq<Row>, eff: QueueConfig): int {
    MissedSlotGraceMs(CheckInPeriodSeconds(Count(rows, Waiting)), eff.missedSlotGraceSeconds)
  }

  function Swept(rows: seq<Row>, m: Meta, config: QueueConfig, now: int): seq<Row> {
    var eff := EffectiveConfig(m, config);
    ExpireAll(rows, eff, now, GraceMs(rows, eff))
  }

  predicate SweepSkipped(m: Meta, now: int, force: bool) {
    !force && now - m.lastSweep < 1000
  }

  function Sweep(s: Room, config: QueueConfig, now: int, force: bool): Room {
    if SweepSkipped(s.meta, now, force) then s else
    var marked := s.meta.(lastSweep := now);
    var swept := Swept(s.rows, marked, config, now);
    var kept := Where(swept, Survives(now - 60 * 60 * 1000));
    s.(rows := kept, meta := marked, purged := s.purged + (|swept| - |kept|))
  }

  function Begin(s: Room, config: QueueConfig, now: int, force: bool): Room {
    Sweep(Remember(s, config), config, now, force)
  }

  function Gauges(s: Room, config: QueueConfig): Sample {
    Sample(EffectiveConfig(s.meta, config).admitPerSecond, Count(s.rows, Waiting), CountEntered(s.rows))
  }

  function RecordTraffic(s: Room, config: QueueConfig, now: int, joins: nat, admits: nat): Room {
    s.(traffic := Record(s.traffic, now, Gauges(s, config), joins, admits))
  }

  function FlushTraffic(s: Room, config: QueueConfig, now: int): Room {
    s.(traffic := Flush(s.traffic, now, Gauges(s, config)))
  }

  /** INSERT of a row whose id is absent; the sequence number is taken first. */
  function Insert(s: Room, r: Row): Room {
    s.(rows := s.rows + [r.(sequence := s.meta.nextSequence)],
       meta := s.meta.(nextSequence := s.meta.nextSequence + 1),
       admissions := s.admissions + (if r.status == Admitted then 1 else 0))
  }

  /** An INSERT that violates the primary key leaves only a spent sequence number. */
  function SpendSequence(s: Room): Room {
    s.(meta := s.meta.(nextSequence := s.meta.nextSequence + 1))
  }

  function UpdateRow(s: Room, k: nat, r: Row): Room
    requires k < |s.rows|
  {
    s.(rows := s.rows[k := r])
  }

  // ---------- the alarm ----------

  predicate HasQueueWork(s: Room) {
    Count(s.rows, Waiting) > 0 || Count(s.rows, Admitted) > 0 || s.meta.healthConfig.enabled
  }

  function Earliest(rows: seq<Delivery>): Option<int> {
    if rows == [] then None else
    var rest := Earliest(rows[1..]);
    if rest.Some? && rest.value < rows[0].nextAttemptAt then rest else Some(rows[0].nextAttemptAt)
  }

  function AlarmInterval(s: Room, clock: int): int {
    var waiting := Count(s.rows, Waiting);
    var base := Max(QUEUE_ALARM_INTERVAL_MS * 15, 15000);
    var queue :=
      if waiting > 0 && CanAdmit(s.meta, clock) then QUEUE_ALARM_INTERVAL_MS
      else if waiting > 0 then Min(5000, base)
      else base;
    if s.meta.healthConfig.enabled then Min(queue, s.meta.healthConfig.intervalSeconds * 1000) else queue
  }

  function EnsureAlarm(s: Room, clock: int): Room {
    var nextWebhook := Earliest(s.outbox.rows);
    if !HasQueueWork(s) && nextWebhook.None? then
      s.(alarm := None)
    else
      var scheduled := clock + AlarmInterval(s, clock);
      var nextAt :=
        if nextWebhook.None? then scheduled
        else if HasQueueWork(s) then Min(scheduled, nextWebhook.value)
        else nextWebhook.value;
      if s.alarm.None? || s.alarm.value > nextAt + 250 then s.(alarm := Some(nextAt)) else s
  }

  // ---------- admission from the waiting set ----------

  function Promoted(r: Row, now: int, entered: bool): Row {
    r.(status := Admitted, admittedAt := Some(now), lastHeartbeatAt := now, entered := entered, nextCheckAt := None)
  }

  /** UPDATE ... WHERE id = ? AND status = 'waiting' */
  function AdmitOne(rows: seq<Row>, id: string, now: int, entered: bool): seq<Row> {
    if IsWaiting(rows, id) then rows[IndexOf(rows, id) := Promoted(Get(rows, id), now, entered)] else rows
  }

  function AdmitAll(rows: seq<Row>, picks: seq<string>, now: int, entered: bool): seq<Row> {
    if picks == [] then rows
    else AdmitOne(AdmitAll(rows, picks[..|picks| - 1], now, entered), picks[|picks| - 1], now, entered)
  }

  function AdmitPicks(s: Room, config: QueueConfig, now: int, picks: seq<string>): Room {
    if picks == [] then s else
    var entered := !EffectiveConfig(s.meta, config).requireClickToEnter;
    var admitted := s.(rows := AdmitAll(s.rows, picks, now, entered), admissions := s.admissions + |picks|);
    RecordTraffic(admitted, config, now, 0, |picks|)
  }

  function Slots(s: Room, config: QueueConfig): nat {
    OpenSlots(config.maxConcurrentUsers, Count(s.rows, Admitted))
  }

  /** The picks allowed for a batch of at most `limit`, none when the limit is zero or the gate is shut. */
  ghost predicate PicksAllowed(s: Room, config: QueueConfig, gate: bool, limit: nat, picks: seq<string>) {
    if gate && limit > 0 then Selection(s.rows, ModeOf(s.meta, config), limit, picks) else picks == []
  }

  /** The budget of one tick and the remainder it leaves; a shut gate or a zero rate leaves it alone. */
  function TickBudget(s: Room, config: QueueConfig, now: int): Budget {
    AdmissionsForTick(EffectiveRate(s.meta, config, now), QUEUE_ALARM_INTERVAL_MS, s.meta.admitRemainder)
  }

  function BudgetLimit(s: Room, config: QueueConfig, now: int): nat {
    Max(0, Min(Slots(s, config), TickBudget(s, config, now).admitCount))
  }

  function AdmitFromBudget(s: Room, config: QueueConfig, now: int, picks: seq<string>): Room {
    var ticked := s.(meta := s.meta.(admitRemainder := TickBudget(s, config, now).nextRemainder));
    AdmitPicks(ticked, config, now, picks)
  }

  // ---------- requests ----------

  datatype JoinResult = Joined(view: View) | QueueFull | IdTaken

  function NewRow(s: Room, config: QueueConfig, id: string, now: int, admit: bool): Row {
    if admit then
      Row(id, Admitted, now, now, Some(now), s.meta.nextSequence,
          !EffectiveConfig(s.meta, config).requireClickToEnter, None)
    else
      var waiting := Count(s.rows, Waiting) + 1;
      var slot := AssignCheckIn(s.meta, id, waiting, config, now, Some(waiting), 0, MIN_CHECK_IN_PERIOD_SEC * 1000);
      Row(id, Waiting, now, now, None, s.meta.nextSequence, false, Some(slot))
  }

  function AddVisitor(s: Room, config: QueueConfig, id: string, now: int, admit: bool): (Room, JoinResult) {
    if Has(s.rows, id) then
      (SpendSequence(s), IdTaken)
    else
      var r := NewRow(s, config, id, now, admit);
      var s2 := RecordTraffic(Insert(s, r), config, now, 1, if admit then 1 else 0);
      (EnsureAlarm(s2, now), Joined(ViewOf(s2.rows, s2.meta, config, r)))
  }

  function JoinAfterSweep(s: Room, config: QueueConfig, id: string, now: int): (Room, JoinResult) {
    if Has(s.rows, id) && IsActive(Get(s.rows, id)) then
      (EnsureAlarm(s, now), Joined(ViewOf(s.rows, s.meta, config, Get(s.rows, id))))
    else if CanAdmit(s.meta, now) && Slots(s, config) > 0 then
      AddVisitor(s, config, id, now, true)
    else if Count(s.rows, Waiting) >= MaxWaiting(s.meta) then
      (s, QueueFull)
    else
      AddVisitor(s, config, id, now, false)
  }

  function Join(s: Room, config: QueueConfig, id: string, now: int): (Room, JoinResult) {
    JoinAfterSweep(Begin(s, config, now, true), config, id, now)
  }

  datatype CheckInResult = Seen(view: View) | NotFound

  function Repaired(s: Room, config: QueueConfig, r: Row, now: int): Row {
    r.(nextCheckAt := Some(AssignCheckIn(s.meta, r.id, Count(s.rows, Waiting), config, now,
                                         LinePosition(s.rows, s.meta, config, r), 0, 0)))
  }

  function Renewed(s: Room, config: QueueConfig, r: Row, now: int): Row {
    r.(lastHeartbeatAt := now,
       nextCheckAt := Some(AssignCheckIn(s.meta, r.id, Count(s.rows, Waiting), config, now,
                                         LinePosition(s.rows, s.meta, config, r),
                                         RenewalEstimate(s.rows, s.meta, config, r, now), 1000)))
  }

  /** The row of a waiter after it checks in: repaired, renewed when due, or untouched when early. */
  function CheckedIn(s: Room, config: QueueConfig, r: Row, now: int): Row {
    if NeedsRepair(s.meta, r, now) then Repaired(s, config, r, now)
    else if IsCheckInDue(now, r.nextCheckAt) then Renewed(s, config, r, now)
    else r
  }

  function CheckInAfterSweep(s: Room, config: QueueConfig, id: string, now: int): (Room, CheckInResult)
    requires IsWaiting(s.rows, id)
  {
    var r := CheckedIn(s, config, Get(s.rows, id), now);
    var s2 := UpdateRow(s, IndexOf(s.rows, id), r);
    (s2, Seen(ViewOf(s2.rows, s2.meta, config, r)))
  }

  function StatusAfterSweep(s: Room, config: QueueConfig, id: string, now: int): (Room, CheckInResult) {
    if IsWaiting(s.rows, id) then CheckInAfterSweep(s, config, id, now)
    else if Has(s.rows, id) && Get(s.rows, id).status == Admitted then
      (s, Seen(ViewOf(s.rows, s.meta, config, Get(s.rows, id))))
    else (s, NotFound)
  }

  function CheckStatus(s: Room, config: QueueConfig, id: string, now: int): (Room, CheckInResult) {
    StatusAfterSweep(Begin(s, config, now, false), config, id, now)
  }

  function HeartbeatAfterSweep(s: Room, config: QueueConfig, id: string, now: int): (Room, CheckInResult) {
    if IsWaiting(s.rows, id) then CheckInAfterSweep(s, config, id, now) else (s, NotFound)
  }

  function Heartbeat(s: Room, config: QueueConfig, id: string, now: int): (Room, CheckInResult) {
    HeartbeatAfterSweep(Begin(s, config, now, false), config, id, now)
  }

  datatype EnterResult = Entered(view: View) | EnterNotFound | NotAdmitted

  function EnterAfterSweep(s: Room, config: QueueConfig, id: string, now: int): (Room, EnterResult) {
    if !Has(s.rows, id) || !IsActive(Get(s.rows, id)) then (s, EnterNotFound)
    else if Get(s.rows, id).status != Admitted then (s, NotAdmitted)
    else
      var r := Get(s.rows, id).(entered := true);
      var s2 := EnsureAlarm(UpdateRow(s, IndexOf(s.rows, id), r), now);
      (s2, Entered(ViewOf(s2.rows, s2.meta, config, r)))
  }

  function Enter(s: Room, config: QueueConfig, id: string, now: int): (Room, EnterResult) {
    EnterAfterSweep(Begin(s, config, now, true), config, id, now)
  }

  datatype LeaveResult = LeftRoom | WasExpired | LeaveNotFound

  predicate IsPresent(s: Room, id: string) {
    Has(s.rows, id) && IsActive(Get(s.rows, id))
  }

  /** The row of a present visitor is marked as left. */
  function Vacate(s: Room, id: string): Room
    requires IsPresent(s, id)
  {
    UpdateRow(s, IndexOf(s.rows, id), Get(s.rows, id).(status := Left))
  }

  function LeaveAfterSweep(s: Room, config: QueueConfig, id: string, now: int, picks: seq<string>): (Room, LeaveResult) {
    if IsPresent(s, id) then
      (EnsureAlarm(AdmitPicks(Vacate(s, id), config, now, picks), now), LeftRoom)
    else if !Has(s.rows, id) then (s, LeaveNotFound)
    else if Get(s.rows, id).status == Expired then (s, WasExpired)
    else (s, LeftRoom)
  }

  function Leave(s: Room, config: QueueConfig, id: string, now: int, picks: seq<string>): (Room, LeaveResult) {
    LeaveAfterSweep(Begin(s, config, now, true), config, id, now, picks)
  }

  function ForceAdmitAfterSweep(s: Room, config: QueueConfig, now: int, picks: seq<string>): Room {
    EnsureAlarm(AdmitPicks(s, config, now, picks), now)
  }

  function ForceAdmit(s: Room, config: QueueConfig, now: int, picks: seq<string>): Room {
    ForceAdmitAfterSweep(Begin(s, config, now, true), config, now, picks)
  }

  function ForceLimit(s: Room, config: QueueConfig, count: int): nat {
    Max(0, Min(Slots(s, config), count))
  }

  // ---------- operator settings ----------

  datatype Change =
    | SetMode(config: QueueConfig, mode: Mode)
    | SetAdmitUx(config: QueueConfig, requireClick: bool, holdSeconds: int)
    | SetPaused(paused: bool)
    | SetSchedule(opensAt: Option<Option<int>>, closesAt: Option<Option<int>>)
    | SetHealthConfig(config: QueueConfig, health: HealthConfig, urlUsable: bool)
    | OverrideHealth(until: int)
    | ClearHealthOverride
    | SetAdmitRate(config: QueueConfig, rate: real)
    | ClearAdmitRate(config: QueueConfig)
    | SetMaxWaiting(limit: int)
    | SetMissedSlotGrace(seconds: int)
    | BumpTokenEpoch

  function ApplyChange(m: Meta, c: Change): Meta {
    match c
    case SetMode(config, mode) =>
      m.(admissionMode := Some(mode), config := Some(EffectiveConfig(m, config).(admissionMode := mode)))
    case SetAdmitUx(config, click, hold) =>
      m.(requireClick := Some(click), admitHoldSeconds := Some(hold),
         config := Some(config.(requireClickToEnter := click, admitHoldSeconds := hold)))
    case SetPaused(paused) => m.(paused := paused)
    case SetSchedule(opensAt, closesAt) => m.(opensAt := opensAt.GetOr(m.opensAt), closesAt := closesAt.GetOr(m.closesAt))
    case SetHealthConfig(config, health, urlUsable) =>
      var parsed := ParseHealthConfig(health, urlUsable);
      m.(config := Some(config), healthConfig := parsed,
         healthState := if parsed.enabled then m.healthState else DEFAULT_HEALTH_STATE)
    case OverrideHealth(until) => m.(healthConfig := m.healthConfig.(overrideUntil := Some(until)))
    case ClearHealthOverride => m.(healthConfig := m.healthConfig.(overrideUntil := None))
    case SetAdmitRate(config, rate) =>
      var m1 := m.(config := Some(config));
      if ParseAdmitPerSecond(rate).None? then m1 else m1.(admitPerSecondOverride := Some(rate))
    case ClearAdmitRate(config) => m.(config := Some(config), admitPerSecondOverride := None)
    case SetMaxWaiting(limit) => if 1 <= limit <= 50000000 then m.(maxWaitingVisitors := Some(limit)) else m
    case SetMissedSlotGrace(seconds) =>
      if MIN_MISSED_SLOT_GRACE_SECONDS <= seconds <= MAX_MISSED_SLOT_GRACE_SECONDS
      then m.(missedSlotGraceSeconds := Some(seconds)) else m
    case BumpTokenEpoch => m.(tokenEpoch := m.tokenEpoch + 1)
  }

  /** Which changes re-arm the alarm; a refused value throws before it gets there. */
  predicate Rearms(c: Change) {
    match c
    case SetPaused(paused) => !paused
    case ClearHealthOverride => false
    case SetMaxWaiting(_) => false
    case BumpTokenEpoch => false
    case SetAdmitRate(_, rate) => ParseAdmitPerSecond(rate).Some?
    case SetMissedSlotGrace(seconds) => MIN_MISSED_SLOT_GRACE_SECONDS <= seconds <= MAX_MISSED_SLOT_GRACE_SECONDS
    case _ => true
  }

  function Operate(s: Room, c: Change, now: int): Room {
    var s1 := s.(meta := ApplyChange(s.meta, c));
    if Rearms(c) then EnsureAlarm(s1, now) else s1
  }

  function EnqueueWebhook(s: Room, now: int): Room {
    EnsureAlarm(s.(outbox := Enqueue(s.outbox, now)), now)
  }

  // ---------- the alarm handler ----------

  predicate AlarmRings(s: Room, now: int) {
    s.handler.None? && s.alarm.Some? && s.alarm.value <= now
  }

  /** The alarm fires: it is no longer set, and the handler has selected its deliveries. */
  function AlarmFire(s: Room, now: int): Room {
    s.(alarm := None, handler := Some(Handler(now, Due(s.outbox.rows, now, OUTBOX_BATCH), None, Posting, 0, now)))
  }

  predicate AlarmPosts(s: Room) {
    s.handler.Some? && s.handler.value.stage == Posting && s.handler.value.pending != []
  }

  function AlarmPost(s: Room, outcome: Outcome, now: int): Room
    requires AlarmPosts(s)
  {
    var h := s.handler.value;
    s.(outbox := Settle(s.outbox, h.pending[0], h.now, now, outcome),
       handler := Some(h.(pending := h.pending[1..], settled := h.settled + 1, resumed := now)))
  }

  predicate AlarmSweeps(s: Room) {
    s.handler.Some? && s.handler.value.stage == Posting && s.handler.value.pending == []
  }

  predicate ProbeDue(m: Meta, now: int) {
    && m.healthConfig.enabled
    && !(m.healthState.lastCheckedAt.Some? && m.healthState.lastCheckedAt.value != 0 &&
         now - m.healthState.lastCheckedAt.value < m.healthConfig.intervalSeconds * 1000)
  }

  function AlarmSweep(s: Room): Room
    requires AlarmSweeps(s)
  {
    var h := s.handler.value;
    if s.meta.config.None? then
      s.(handler := Some(h.(config := None, stage := Admitting)))
    else
      var s1 := Sweep(s, s.meta.config.value, h.now, true);
      var stage := if ProbeDue(s.meta, h.now) then Probing(s.meta.healthConfig, s.meta.healthState) else Admitting;
      s1.(handler := Some(h.(config := s.meta.config, stage := stage)))
  }

  predicate AlarmProbes(s: Room) {
    s.handler.Some? && s.handler.value.stage.Probing?
  }

  function AlarmProbe(s: Room, probe: ProbeResult, now: int): Room
    requires AlarmProbes(s)
  {
    var h := s.handler.value;
    s.(meta := s.meta.(healthState := Advanced(h.stage.config, h.stage.state, probe, h.now)),
       handler := Some(h.(stage := Admitting, resumed := now)))
  }

  predicate AlarmAdmits(s: Room) {
    s.handler.Some? && s.handler.value.stage == Admitting
  }

  function AlarmFinish(s: Room, now: int, picks: seq<string>): Room
    requires AlarmAdmits(s)
  {
    var h := s.handler.value;
    var s1 :=
      if h.config.None? then s
      else FlushTraffic(AdmitFromBudget(s, h.config.value, h.now, picks), h.config.value, h.now);
    EnsureAlarm(s1.(handler := None), now)
  }
}
