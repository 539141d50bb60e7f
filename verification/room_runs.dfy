/** Runs of a waiting room: requests and alarm stages in any order, under a clock that never goes back. */
module RoomRuns {
  import opened Wrappers
  import opened Health
  import opened WebhookOutbox
  import opened RoomState
  import opened RoomSteps

  datatype Event =
    | JoinEvent(id: string, config: QueueConfig, now: int)
    | StatusEvent(id: string, config: QueueConfig, now: int)
    | HeartbeatEvent(id: string, config: QueueConfig, now: int)
    | EnterEvent(id: string, config: QueueConfig, now: int)
    | LeaveEvent(id: string, config: QueueConfig, now: int, picks: seq<string>)
    | ForceAdmitEvent(count: int, config: QueueConfig, now: int, picks: seq<string>)
    | MetricsEvent(config: QueueConfig, now: int)
    | TrafficEvent(config: QueueConfig, now: int)
    | OperateEvent(change: Change, now: int)
    | EnqueueEvent(now: int)
    | AlarmFireEvent(now: int)
    | AlarmPostEvent(outcome: Outcome, now: int)
    | AlarmSweepEvent(now: int)
    | AlarmProbeEvent(probe: ProbeResult, now: int)
    | AlarmFinishEvent(now: int, picks: seq<string>)

  /** After a visitor has left, the open slots may be filled from the waiting set. */
  ghost predicate LeavePicks(s: Room, config: QueueConfig, id: string, now: int, picks: seq<string>) {
    if IsPresent(s, id) then
      PicksAllowed(Vacate(s, id), config, CanAdmit(s.meta, now), Slots(Vacate(s, id), config), picks)
    else picks == []
  }

  ghost predicate ForcePicks(s: Room, config: QueueConfig, count: int, now: int, picks: seq<string>) {
    PicksAllowed(s, config, CanAdmit(s.meta, now), ForceLimit(s, config, count), picks)
  }

  /** The budgeted batch is taken at the time the handler started. */
  ghost predicate FinishPicks(s: Room, picks: seq<string>)
    requires AlarmAdmits(s)
  {
    var h := s.handler.value;
    if h.config.None? then picks == []
    else
      PicksAllowed(s, h.config.value, CanAdmit(s.meta, h.now), BudgetLimit(s, h.config.value, h.now), picks)
  }

  /** The requests that begin with a sweep. */
  predicate IsRequest(e: Event) {
    || e.JoinEvent? || e.StatusEvent? || e.HeartbeatEvent? || e.EnterEvent? || e.LeaveEvent? || e.ForceAdmitEvent?
    || e.MetricsEvent?
  }

  predicate IsAlarmWork(e: Event) {
    e.AlarmSweepEvent? || e.AlarmFinishEvent?
  }

  /** Status, heartbeat and metrics skip a sweep that follows another within a second. */
  predicate ForcesSweep(e: Event) {
    !(e.StatusEvent? || e.HeartbeatEvent? || e.MetricsEvent?)
  }

  predicate IsHandlerStage(e: Event) {
    e.AlarmPostEvent? || e.AlarmSweepEvent? || e.AlarmProbeEvent? || e.AlarmFinishEvent?
  }

  /**
   While the alarm handler runs, others get their turn only when it awaits a `fetch`. A POST is given up after five
   seconds, and what the handler does between two awaits takes no time.
   */
  predicate HasTurn(s: Room, e: Event) {
    s.handler.Some? ==>
      var h := s.handler.value;
      && (IsHandlerStage(e) || IsSuspended(h))
      && (!h.stage.Probing? ==> e.now <= h.resumed + if IsSuspended(h) then POST_TIMEOUT_MS else 0)
  }

  /** Whether an event can happen: it has its turn, the alarm stages follow each other, and the picks are legal. */
  ghost predicate Enabled(s: Room, e: Event) {
    HasTurn(s, e) &&
    match e
    case LeaveEvent(id, config, now, picks) =>
      LeavePicks(Begin(s, config, now, true), config, id, now, picks)
    case ForceAdmitEvent(count, config, now, picks) =>
      ForcePicks(Begin(s, config, now, true), config, count, now, picks)
    case AlarmFireEvent(now) => AlarmRings(s, now)
    case AlarmPostEvent(_, _) => AlarmPosts(s)
    case AlarmSweepEvent(_) => AlarmSweeps(s)
    case AlarmProbeEvent(_, _) => AlarmProbes(s)
    case AlarmFinishEvent(_, picks) => AlarmAdmits(s) && FinishPicks(s, picks)
    case _ => true
  }

  ghost function Step(s: Room, e: Event): Room
    requires Enabled(s, e)
  {
    match e
    case JoinEvent(id, config, now) => Join(s, config, id, now).0
    case StatusEvent(id, config, now) => CheckStatus(s, config, id, now).0
    case HeartbeatEvent(id, config, now) => Heartbeat(s, config, id, now).0
    case EnterEvent(id, config, now) => Enter(s, config, id, now).0
    case LeaveEvent(id, config, now, picks) => Leave(s, config, id, now, picks).0
    case ForceAdmitEvent(_, config, now, picks) => ForceAdmit(s, config, now, picks)
    case MetricsEvent(config, now) => Begin(s, config, now, false)
    case TrafficEvent(config, now) => FlushTraffic(Remember(s, config), config, now)
    case OperateEvent(change, now) => Operate(s, change, now)
    case EnqueueEvent(now) => EnqueueWebhook(s, now)
    case AlarmFireEvent(now) => AlarmFire(s, now)
    case AlarmPostEvent(outcome, now) => AlarmPost(s, outcome, now)
    case AlarmSweepEvent(_) => AlarmSweep(s)
    case AlarmProbeEvent(probe, now) => AlarmProbe(s, probe, now)
    case AlarmFinishEvent(now, picks) => AlarmFinish(s, now, picks)
  }

  /** A run from a state whose last event happened at `clock`. */
  ghost predicate Legal(s: Room, clock: int, es: seq<Event>)
    decreases |es|
  {
    es == [] || (es[0].now >= clock && Enabled(s, es[0]) && Legal(Step(s, es[0]), es[0].now, es[1..]))
  }

  ghost function Run(s: Room, clock: int, es: seq<Event>): Room
    requires Legal(s, clock, es)
    decreases |es|
  {
    if es == [] then s else Run(Step(s, es[0]), es[0].now, es[1..])
  }

  /** One more event at the end of a run. */
  lemma {:induction false} OneMoreEvent(s: Room, clock: int, es: seq<Event>, e: Event)
    requires Legal(s, clock, es) && Enabled(Run(s, clock, es), e) && e.now >= ClockAfter(clock, es)
    ensures Legal(s, clock, es + [e]) && Run(s, clock, es + [e]) == Step(Run(s, clock, es), e)
    ensures ClockAfter(clock, es + [e]) == e.now
    decreases |es|
  {
    var all := es + [e];
    hide Enabled, Step;
    if es == [] {
      assert all[0] == e && all[1..] == [];
    } else {
      assert all[0] == es[0] && all[1..] == es[1..] + [e];
      OneMoreEvent(Step(s, es[0]), es[0].now, es[1..], e);
    }
  }

  /** One more event of a run. */
  lemma LongerPrefix(s: Room, clock: int, es: seq<Event>, k: nat)
    requires k < |es| && Legal(s, clock, es[..k]) && Enabled(Run(s, clock, es[..k]), es[k])
    requires es[k].now >= ClockAfter(clock, es[..k])
    ensures Legal(s, clock, es[..k + 1]) && Run(s, clock, es[..k + 1]) == Step(Run(s, clock, es[..k]), es[k])
  {
    hide Legal, Run, Enabled, Step;
    assert es[..k + 1] == es[..k] + [es[k]];
    OneMoreEvent(s, clock, es[..k], es[k]);
  }

  /** The time of the last event. */
  function ClockAfter(clock: int, es: seq<Event>): int {
    if es == [] then clock else es[|es| - 1].now
  }

  /** The time at which an event's own logic works. */
  function WorkTime(s: Room, e: Event): int {
    if (e.AlarmSweepEvent? || e.AlarmFinishEvent?) && s.handler.Some? then s.handler.value.now else e.now
  }

  /** The room configuration an event works with, if it uses one. */
  function ConfigOf(s: Room, e: Event): Option<QueueConfig> {
    match e
    case JoinEvent(_, config, _) => Some(config)
    case StatusEvent(_, config, _) => Some(config)
    case HeartbeatEvent(_, config, _) => Some(config)
    case EnterEvent(_, config, _) => Some(config)
    case LeaveEvent(_, config, _, _) => Some(config)
    case ForceAdmitEvent(_, config, _, _) => Some(config)
    case MetricsEvent(config, _) => Some(config)
    case TrafficEvent(config, _) => Some(config)
    case AlarmSweepEvent(_) => s.meta.config
    case AlarmFinishEvent(_, _) => if s.handler.Some? then s.handler.value.config else None
    case _ => None
  }

  function CapOf(s: Room, e: Event): nat {
    if ConfigOf(s, e).Some? then ConfigOf(s, e).value.maxConcurrentUsers else 0
  }
}
