/**
 The state of one waiting room as its tables and settings describe it, without any cache, and the small
 decisions the room makes from it (src/durable-object/queue-room.ts).
 `purged` and `admissions` are history: rows deleted by retention and visitors ever admitted.
 */
module RoomState {
  import opened Wrappers
  import opened Engine
  import opened Health
  import opened Visitors
  import opened TrafficBuckets
  import opened WebhookOutbox

  datatype QueueConfig = QueueConfig(
    maxConcurrentUsers: nat,
    admitPerSecond: real,
    tokenTTLSeconds: nat,
    heartbeatTimeoutSeconds: nat,
    queueTimeoutSeconds: nat,
    admissionMode: Mode,
    requireClickToEnter: bool,
    admitHoldSeconds: int,
    missedSlotGraceSeconds: int)

  /** The key/value table `meta`, with its values decoded; a missing key is None. */
  datatype Meta = Meta(
    config: Option<QueueConfig>,
    lastSweep: int,
    nextSequence: nat,
    admitRemainder: real,
    paused: bool,
    opensAt: Option<int>,
    closesAt: Option<int>,
    admissionMode: Option<Mode>,
    requireClick: Option<bool>,
    admitHoldSeconds: Option<int>,
    admitPerSecondOverride: Option<real>,
    missedSlotGraceSeconds: Option<int>,
    maxWaitingVisitors: Option<int>,
    healthConfig: HealthConfig,
    healthState: HealthState,
    tokenEpoch: nat)

  const INITIAL_META := Meta(None, 0, 1, 0.0, false, None, None, None, None, None, None, None, None,
                             DEFAULT_HEALTH_CONFIG, DEFAULT_HEALTH_STATE, 0)

  /** How far the running alarm handler has come. */
  datatype Stage = Posting | Probing(config: HealthConfig, state: HealthState) | Admitting

  /**
   The local variables of a running alarm handler, the number of deliveries it has settled, and the time at which it
   last took over: when it started, or when its last `fetch` was answered.
   */
  datatype Handler = Handler(
    now: int,
    pending: seq<Delivery>,
    config: Option<QueueConfig>,
    stage: Stage,
    settled: nat,
    resumed: int)

  /** The handler awaits a `fetch`, of a webhook or of a probe; otherwise it goes on without letting anything in. */
  predicate IsSuspended(h: Handler) {
    h.stage.Probing? || (h.stage == Posting && h.pending != [] && h.pending[0].readable)
  }

  datatype Room = Room(
    rows: seq<Row>,
    meta: Meta,
    traffic: Traffic,
    outbox: Outbox,
    alarm: Option<int>,
    handler: Option<Handler>,
    purged: nat,
    admissions: nat)

  const EMPTY_ROOM := Room([], INITIAL_META, NO_TRAFFIC, EMPTY_OUTBOX, None, None, 0, 0)

  // ---------- settings ----------

  const MIN_ADMIT_PER_SECOND := 0.01
  const MAX_ADMIT_PER_SECOND := 1000.0

  function ParseAdmitPerSecond(rate: real): Option<real> {
    if rate < MIN_ADMIT_PER_SECOND || rate > MAX_ADMIT_PER_SECOND then None else Some(rate)
  }

  function RateOverride(m: Meta): Option<real> {
    if m.admitPerSecondOverride.None? then None else ParseAdmitPerSecond(m.admitPerSecondOverride.value)
  }

  function Positive(t: Option<int>): Option<int> {
    if t.Some? && t.value > 0 then t else None
  }

  function OpensAt(m: Meta): Option<int> {
    Positive(m.opensAt)
  }

  function ClosesAt(m: Meta): Option<int> {
    Positive(m.closesAt)
  }

  function ModeOf(m: Meta, config: QueueConfig): Mode {
    m.admissionMode.GetOr(config.admissionMode)
  }

  function MaxWaiting(m: Meta): nat {
    if m.maxWaitingVisitors.Some? && m.maxWaitingVisitors.value >= 1 then m.maxWaitingVisitors.value
    else DEFAULT_MAX_WAITING_VISITORS
  }

  function EffectiveConfig(m: Meta, config: QueueConfig): QueueConfig {
    var hold := m.admitHoldSeconds.GetOr(config.admitHoldSeconds);
    config.(
      admitPerSecond := RateOverride(m).GetOr(config.admitPerSecond),
      requireClickToEnter := m.requireClick.GetOr(config.requireClickToEnter),
      admitHoldSeconds := if 15 <= hold <= 900 then hold else config.admitHoldSeconds,
      missedSlotGraceSeconds :=
        ClampMissedSlotGraceSeconds(m.missedSlotGraceSeconds.GetOr(config.missedSlotGraceSeconds)))
  }

  /** The one gate of every admission path. */
  predicate CanAdmit(m: Meta, now: int) {
    && !m.paused
    && !(OpensAt(m).Some? && now < OpensAt(m).value)
    && !(ClosesAt(m).Some? && now >= ClosesAt(m).value)
    && !IsAutoPaused(m.healthConfig, m.healthState, now)
  }

  function EffectiveRate(m: Meta, config: QueueConfig, now: int): real {
    if !CanAdmit(m, now) then 0.0
    else EffectiveConfig(m, config).admitPerSecond * HealthRateMultiplier(m.healthConfig, m.healthState, now)
  }

  // ---------- check-ins ----------

  function CheckInEarliest(m: Meta, now: int): int {
    if OpensAt(m).Some? && OpensAt(m).value > now then OpensAt(m).value else now
  }

  /** The slot given to a visitor; before the room opens, the floor is the opening time itself. */
  function AssignCheckIn(m: Meta, key: string, waiting: nat, config: QueueConfig, now: int,
                         position: Option<nat>, estimatedWaitSeconds: int, minLeadMs: int): (at: int)
    ensures at % 1000 == 0
  {
    var earliest := CheckInEarliest(m, now);
    var beforeOpen := earliest > now;
    var periodSec :=
      if beforeOpen then CheckInPeriodSeconds(waiting)
      else EffectiveCheckInPeriodSeconds(waiting, position, ModeOf(m, config), estimatedWaitSeconds,
                                         EffectiveRate(m, config, now));
    NextCheckAtMs(earliest, periodSec, key, if beforeOpen then 0 else minLeadMs)
  }

  /** A waiting row whose slot lies before the opening time must be moved to a slot after it. */
  predicate NeedsRepair(m: Meta, r: Row, now: int) {
    && OpensAt(m).Some? && now < OpensAt(m).value
    && !(r.nextCheckAt.Some? && r.nextCheckAt.value >= OpensAt(m).value)
  }

  function PositionIn(rows: seq<Row>, r: Row): nat {
    CountAhead(rows, r.sequence) + 1
  }

  function LinePosition(rows: seq<Row>, m: Meta, config: QueueConfig, r: Row): Option<nat> {
    if ModeOf(m, config) == Lottery then None else Some(PositionIn(rows, r))
  }

  /** The estimate behind a renewal: people to be admitted over the effective rate. */
  function RenewalEstimate(rows: seq<Row>, m: Meta, config: QueueConfig, r: Row, now: int): int {
    var people := if ModeOf(m, config) == Lottery then Count(rows, Waiting) else PositionIn(rows, r);
    var rate := EffectiveRate(m, config, now);
    Ceil(people as real / (if rate < 0.0001 then 0.0001 else rate))
  }

  // ---------- what a visitor is shown ----------

  datatype View = View(
    id: string,
    status: Status,
    joinedAt: int,
    lastHeartbeatAt: int,
    admittedAt: Option<int>,
    entered: bool,
    mode: Mode,
    waiting: nat,
    position: Option<nat>,
    ahead: Option<nat>,
    behind: Option<nat>,
    nextCheckAt: Option<int>)

  function ViewOf(rows: seq<Row>, m: Meta, config: QueueConfig, r: Row): View {
    var waiting := Count(rows, Waiting);
    var mode := ModeOf(m, config);
    var position := if r.status == Waiting && mode == Queue then Some(PositionIn(rows, r)) else None;
    View(r.id, r.status, r.joinedAt, r.lastHeartbeatAt, r.admittedAt, r.entered, mode, waiting, position,
         if position.Some? then Some(position.value - 1) else None,
         if position.Some? then Some(Max(0, waiting - position.value)) else None,
         if r.status == Waiting then r.nextCheckAt else None)
  }

  // ---------- selection for admission ----------

  predicate IsWaiting(rows: seq<Row>, id: string) {
    Has(rows, id) && Get(rows, id).status == Waiting
  }

  ghost predicate Distinct(ids: seq<string>) {
    forall i, j :: 0 <= i < j < |ids| ==> ids[i] != ids[j]
  }

  function Ids(rows: seq<Row>): (ids: seq<string>)
    ensures |ids| == |rows|
    ensures forall i :: 0 <= i < |rows| ==> ids[i] == rows[i].id
  {
    seq(|rows|, i requires 0 <= i < |rows| => rows[i].id)
  }

  /**
   The ids an admission of up to `limit` may take. Queue Mode: the front of the line. Lottery Mode: distinct
   waiters, exactly as many as asked for unless the bounded sampling of a small batch gives up early, and at least
   one if any.
   */
  ghost predicate Selection(rows: seq<Row>, mode: Mode, limit: nat, picks: seq<string>) {
    var take := Min(limit, Count(rows, Waiting));
    match mode
    case Queue => picks == Ids(Waiters(rows)[..take])
    case Lottery =>
      && Distinct(picks)
      && (forall id :: id in picks ==> IsWaiting(rows, id))
      && |picks| <= take
      && (take > 0 ==> picks != [])
      && (take > 32 || take == Count(rows, Waiting) ==> |picks| == take)
  }
}
