/** What the operator sets is what the room uses, and nothing else changes. */
module RoomSettings {
  import opened Wrappers
  import opened Health
  import opened Visitors
  import opened RoomState
  import opened TrafficBuckets
  import opened RoomSteps
  import opened RoomRuns

  /** The part of the effective configuration that a change is about takes the value that was set. */
  lemma SettingsTakeEffect(m: Meta, c: Change, config: QueueConfig)
    ensures var n := ApplyChange(m, c);
            match c {
              case SetMode(_, mode) => ModeOf(n, config) == mode
              case SetAdmitUx(_, click, hold) =>
                && EffectiveConfig(n, config).requireClickToEnter == click
                && EffectiveConfig(n, config).admitHoldSeconds == (if 15 <= hold <= 900 then hold else config.admitHoldSeconds)
              case SetPaused(paused) => paused ==> forall now :: !CanAdmit(n, now)
              case SetSchedule(opensAt, closesAt) =>
                && (opensAt.Some? && opensAt.value.Some? ==> forall now :: now < opensAt.value.value && 0 < opensAt.value.value ==> !CanAdmit(n, now))
                && (closesAt.Some? && closesAt.value.Some? ==> forall now :: 0 < closesAt.value.value <= now ==> !CanAdmit(n, now))
                && (opensAt == Some(None) ==> OpensAt(n) == None) && (closesAt == Some(None) ==> ClosesAt(n) == None)
              case SetHealthConfig(_, health, urlUsable) => n.healthConfig.enabled <==> health.enabled && urlUsable
              case OverrideHealth(until) => forall now :: now < until ==> !IsAutoPaused(n.healthConfig, n.healthState, now)
              case ClearHealthOverride => n.healthConfig == m.healthConfig.(overrideUntil := None)
              case SetAdmitRate(_, rate) =>
                EffectiveConfig(n, config).admitPerSecond ==
                if MIN_ADMIT_PER_SECOND <= rate <= MAX_ADMIT_PER_SECOND then rate else EffectiveConfig(m, config).admitPerSecond
              case ClearAdmitRate(_) => EffectiveConfig(n, config).admitPerSecond == config.admitPerSecond
              case SetMaxWaiting(limit) => MaxWaiting(n) == if 1 <= limit <= 50000000 then limit else MaxWaiting(m)
              case SetMissedSlotGrace(seconds) =>
                EffectiveConfig(n, config).missedSlotGraceSeconds ==
                if 30 <= seconds <= 900 then seconds else EffectiveConfig(m, config).missedSlotGraceSeconds
              case BumpTokenEpoch => n.tokenEpoch > m.tokenEpoch
            }
  {
  }

  /** No change touches sequence numbers, the budget, the sweep time or a setting it is not about. */
  lemma SettingsKeepTheRest(m: Meta, c: Change, config: QueueConfig)
    ensures var n := ApplyChange(m, c);
            var before, after := EffectiveConfig(m, config), EffectiveConfig(n, config);
            && n.nextSequence == m.nextSequence && n.admitRemainder == m.admitRemainder && n.lastSweep == m.lastSweep
            && (!c.SetMode? ==> ModeOf(n, config) == ModeOf(m, config))
            && (!c.SetPaused? ==> n.paused == m.paused)
            && (!c.SetSchedule? ==> OpensAt(n) == OpensAt(m) && ClosesAt(n) == ClosesAt(m))
            && (!c.SetMaxWaiting? ==> MaxWaiting(n) == MaxWaiting(m))
            && (!c.BumpTokenEpoch? ==> n.tokenEpoch == m.tokenEpoch)
            && (!c.SetHealthConfig? ==> n.healthState == m.healthState)
            && (c.SetAdmitUx? || after.requireClickToEnter == before.requireClickToEnter)
            && (c.SetAdmitUx? || after.admitHoldSeconds == before.admitHoldSeconds)
            && (c.SetAdmitRate? || c.ClearAdmitRate? || after.admitPerSecond == before.admitPerSecond)
            && (c.SetMissedSlotGrace? || after.missedSlotGraceSeconds == before.missedSlotGraceSeconds)
            && after.maxConcurrentUsers == config.maxConcurrentUsers && after.tokenTTLSeconds == config.tokenTTLSeconds
  {
  }

  /** Which configuration the alarm will work with after a change. */
  lemma ConfigurationRemembered(m: Meta, c: Change)
    ensures var n := ApplyChange(m, c);
            match c {
              case SetMode(config, mode) =>
                && n.config.Some? && n.config.value.admissionMode == mode
                && n.config.value.maxConcurrentUsers == config.maxConcurrentUsers
                && n.config.value.tokenTTLSeconds == config.tokenTTLSeconds
                && n.config.value.queueTimeoutSeconds == config.queueTimeoutSeconds
                && n.config.value.heartbeatTimeoutSeconds == config.heartbeatTimeoutSeconds
                && n.config.value.admitPerSecond == EffectiveConfig(m, config).admitPerSecond
                && n.config.value.requireClickToEnter == EffectiveConfig(m, config).requireClickToEnter
              case SetAdmitUx(config, click, hold) =>
                n.config == Some(config.(requireClickToEnter := click, admitHoldSeconds := hold))
              case SetHealthConfig(config, _, _) => n.config == Some(config)
              case SetAdmitRate(config, _) => n.config == Some(config)
              case ClearAdmitRate(config) => n.config == Some(config)
              case _ => n.config == m.config
            }
  {
  }

  // ---------- settings over runs ----------

  /** Two changes of the same kind: the later one replaces the earlier. */
  predicate SameKind(a: Change, b: Change) {
    match a
    case SetMode(_, _) => b.SetMode?
    case SetAdmitUx(_, _, _) => b.SetAdmitUx?
    case SetPaused(_) => b.SetPaused?
    case SetSchedule(_, _) => b.SetSchedule?
    case SetHealthConfig(_, _, _) => b.SetHealthConfig?
    case OverrideHealth(_) => b.OverrideHealth? || b.ClearHealthOverride? || b.SetHealthConfig?
    case ClearHealthOverride => b.OverrideHealth? || b.ClearHealthOverride? || b.SetHealthConfig?
    case SetAdmitRate(_, _) => b.SetAdmitRate? || b.ClearAdmitRate?
    case ClearAdmitRate(_) => b.SetAdmitRate? || b.ClearAdmitRate?
    case SetMaxWaiting(_) => b.SetMaxWaiting?
    case SetMissedSlotGrace(_) => b.SetMissedSlotGrace?
    case BumpTokenEpoch => b.BumpTokenEpoch?
  }

  /** The room accepts the change; a refused one changes nothing that is in force. */
  predicate Accepts(c: Change) {
    match c
    case SetAdmitRate(_, rate) => MIN_ADMIT_PER_SECOND <= rate <= MAX_ADMIT_PER_SECOND
    case SetMaxWaiting(limit) => 1 <= limit <= 50000000
    case SetMissedSlotGrace(seconds) => 30 <= seconds <= 900
    case SetHealthConfig(_, health, urlUsable) => ValidConfig(health) && urlUsable
    case _ => true
  }

  /** The room works by the change, with the configuration that a request brings, at this instant. */
  predicate InForce(m: Meta, c: Change, config: QueueConfig, now: int) {
    match c
    case SetMode(_, mode) => ModeOf(m, config) == mode
    case SetAdmitUx(_, click, hold) =>
      && EffectiveConfig(m, config).requireClickToEnter == click
      && (15 <= hold <= 900 ==> EffectiveConfig(m, config).admitHoldSeconds == hold)
    case SetPaused(paused) => m.paused == paused && (paused ==> !CanAdmit(m, now))
    case SetSchedule(opensAt, closesAt) =>
      && (opensAt.Some? ==> OpensAt(m) == Positive(opensAt.value))
      && (closesAt.Some? ==> ClosesAt(m) == Positive(closesAt.value))
      && (opensAt.Some? && OpensAt(m).Some? && now < OpensAt(m).value ==> !CanAdmit(m, now))
      && (closesAt.Some? && ClosesAt(m).Some? && now >= ClosesAt(m).value ==> !CanAdmit(m, now))
    case SetHealthConfig(_, health, _) => m.healthConfig == health.(overrideUntil := m.healthConfig.overrideUntil)
    case OverrideHealth(until) => now < until ==> !IsAutoPaused(m.healthConfig, m.healthState, now)
    case ClearHealthOverride => m.healthConfig.overrideUntil.None?
    case SetAdmitRate(_, rate) => EffectiveConfig(m, config).admitPerSecond == rate
    case ClearAdmitRate(_) => EffectiveConfig(m, config).admitPerSecond == config.admitPerSecond
    case SetMaxWaiting(limit) => MaxWaiting(m) == limit
    case SetMissedSlotGrace(seconds) => EffectiveConfig(m, config).missedSlotGraceSeconds == seconds
    case BumpTokenEpoch => m.tokenEpoch >= 1
  }

  lemma AcceptedIsInForce(m: Meta, c: Change, config: QueueConfig, now: int)
    requires Accepts(c)
    ensures InForce(ApplyChange(m, c), c, config, now)
  {
  }

  /** The settings that only the operator changes. */
  predicate SameSettings(m: Meta, n: Meta) {
    n == m.(config := n.config, lastSweep := n.lastSweep, nextSequence := n.nextSequence,
            admitRemainder := n.admitRemainder, healthState := n.healthState)
  }

  lemma NoChange(m: Meta)
    ensures SameSettings(m, m)
  {
  }

  lemma SameSettingsTransitive(l: Meta, m: Meta, n: Meta)
    requires SameSettings(l, m) && SameSettings(m, n)
    ensures SameSettings(l, n)
  {
  }

  lemma SameSettingsSameForce(m: Meta, n: Meta, c: Change, config: QueueConfig, now: int)
    requires SameSettings(m, n) && Overrides(m, c) && InForce(m, c, config, now)
    ensures Overrides(n, c) && InForce(n, c, config, now)
  {
  }

  /** An override in force is the one that was set, whatever the ladder does under it. */
  predicate Overrides(m: Meta, c: Change) {
    c.OverrideHealth? ==> m.healthConfig.overrideUntil == Some(c.until)
  }

  /** A later change takes the place of an earlier one: health settings even when parts of them fall back. */
  predicate Replaces(d: Change, c: Change) {
    SameKind(c, d) && (Accepts(d) || d.SetHealthConfig?)
  }

  lemma OtherChangeKeepsForce(m: Meta, d: Change, c: Change, config: QueueConfig, now: int)
    requires Overrides(m, c) && InForce(m, c, config, now) && !Replaces(d, c)
    ensures var n := ApplyChange(m, d); Overrides(n, c) && InForce(n, c, config, now)
  {
  }

  lemma BeginKeepsOperatorSettings(s: Room, config: QueueConfig, now: int, force: bool)
    ensures SameSettings(s.meta, Begin(s, config, now, force).meta)
  {
    hide Where, Swept;
  }

  lemma JoinKeepsSettings(s: Room, config: QueueConfig, id: string, now: int)
    ensures SameSettings(s.meta, JoinAfterSweep(s, config, id, now).0.meta)
  {
    hide Where, CanAdmit, ViewOf, NewRow, HasQueueWork, AlarmInterval, Earliest, Gauges, Record;
  }

  lemma CheckInKeepsSettings(s: Room, config: QueueConfig, id: string, now: int)
    ensures StatusAfterSweep(s, config, id, now).0.meta == s.meta
    ensures HeartbeatAfterSweep(s, config, id, now).0.meta == s.meta
    ensures EnterAfterSweep(s, config, id, now).0.meta == s.meta
  {
    hide Where, ViewOf, CheckedIn, HasQueueWork, AlarmInterval, Earliest;
  }

  lemma LeaveKeepsSettings(s: Room, config: QueueConfig, id: string, now: int, picks: seq<string>)
    ensures LeaveAfterSweep(s, config, id, now, picks).0.meta == s.meta
    ensures ForceAdmitAfterSweep(s, config, now, picks).meta == s.meta
  {
    hide Where, AdmitAll, HasQueueWork, AlarmInterval, Earliest, Gauges, Record;
  }

  lemma RestKeepsSettings(s: Room, e: Event, b: Room)
    requires Enabled(s, e) && IsRequest(e) && b == Begin(s, e.config, e.now, ForcesSweep(e))
    ensures SameSettings(b.meta, Step(s, e).meta)
  {
    NoChange(b.meta);
    hide SameSettings, Begin, JoinAfterSweep, StatusAfterSweep, HeartbeatAfterSweep, EnterAfterSweep, LeaveAfterSweep,
      ForceAdmitAfterSweep, LeavePicks, ForcePicks;
    match e
    case JoinEvent(id, config, now) => JoinKeepsSettings(b, config, id, now);
    case StatusEvent(id, config, now) => CheckInKeepsSettings(b, config, id, now);
    case HeartbeatEvent(id, config, now) => CheckInKeepsSettings(b, config, id, now);
    case EnterEvent(id, config, now) => CheckInKeepsSettings(b, config, id, now);
    case LeaveEvent(id, config, now, picks) => LeaveKeepsSettings(b, config, id, now, picks);
    case ForceAdmitEvent(_, config, now, picks) => LeaveKeepsSettings(b, config, "", now, picks);
    case MetricsEvent(_, _) =>
  }

  /** Requests and alarm stages leave the operator's settings alone. */
  lemma RequestKeepsSettings(s: Room, e: Event)
    requires Enabled(s, e) && IsRequest(e)
    ensures SameSettings(s.meta, Step(s, e).meta)
  {
    hide SameSettings, Begin, Step, Enabled;
    var b := Begin(s, e.config, e.now, ForcesSweep(e));
    BeginKeepsOperatorSettings(s, e.config, e.now, ForcesSweep(e));
    RestKeepsSettings(s, e, b);
    SameSettingsTransitive(s.meta, b.meta, Step(s, e).meta);
  }

  lemma SweepKeepsSettings(s: Room)
    requires AlarmSweeps(s)
    ensures SameSettings(s.meta, AlarmSweep(s).meta)
  {
    hide Where, Swept;
  }

  lemma FinishKeepsSettings(s: Room, now: int, picks: seq<string>)
    requires AlarmAdmits(s)
    ensures SameSettings(s.meta, AlarmFinish(s, now, picks).meta)
  {
    hide Where, AdmitAll, HasQueueWork, AlarmInterval, Earliest, Gauges, Flush, Record, TickBudget;
  }

  lemma OtherKeepsSettings(s: Room, e: Event)
    requires Enabled(s, e) && !IsRequest(e) && !e.OperateEvent?
    ensures SameSettings(s.meta, Step(s, e).meta)
  {
    if e.AlarmSweepEvent? {
      SweepKeepsSettings(s);
    } else if e.AlarmFinishEvent? {
      FinishKeepsSettings(s, e.now, e.picks);
    }
    hide AlarmSweep, AlarmFinish, HasQueueWork, AlarmInterval, Earliest, FinishPicks, Flush, Gauges, WebhookOutbox.Settle;
  }

  lemma OperateKeepsMeta(s: Room, c: Change, now: int)
    ensures Operate(s, c, now).meta == ApplyChange(s.meta, c)
  {
    hide ApplyChange, HasQueueWork, AlarmInterval, Earliest;
  }

  /** No event but an accepted change of the same kind takes a change out of force. */
  lemma StepKeepsForce(s: Room, e: Event, c: Change, config: QueueConfig, now: int)
    requires Enabled(s, e) && Overrides(s.meta, c) && InForce(s.meta, c, config, now)
    requires !(e.OperateEvent? && Replaces(e.change, c))
    ensures Overrides(Step(s, e).meta, c) && InForce(Step(s, e).meta, c, config, now)
  {
    hide InForce, Overrides, SameSettings, ApplyChange, Operate;
    if e.OperateEvent? {
      OperateKeepsMeta(s, e.change, e.now);
      OtherChangeKeepsForce(s.meta, e.change, c, config, now);
    } else {
      if IsRequest(e) {
        RequestKeepsSettings(s, e);
      } else {
        OtherKeepsSettings(s, e);
      }
      SameSettingsSameForce(s.meta, Step(s, e).meta, c, config, now);
    }
    hide Step;
  }

  predicate NotReplaced(es: seq<Event>, c: Change) {
    forall i :: 0 <= i < |es| ==> !(es[i].OperateEvent? && Replaces(es[i].change, c))
  }

  lemma {:induction false} RunKeepsForce(s: Room, clock: int, es: seq<Event>, c: Change, config: QueueConfig, now: int)
    requires Legal(s, clock, es) && Overrides(s.meta, c) && InForce(s.meta, c, config, now) && NotReplaced(es, c)
    ensures InForce(Run(s, clock, es).meta, c, config, now)
    decreases |es|
  {
    hide InForce, Overrides, Replaces, Step, Enabled;
    if es != [] {
      StepKeepsForce(s, es[0], c, config, now);
      RunKeepsForce(Step(s, es[0]), es[0].now, es[1..], c, config, now);
    }
  }

  /**
   What the operator sets lasts: after an accepted change and any run in which no other of its kind is accepted, the room
   works by it, with whatever configuration a request brings and at whatever time.
   */
  lemma AcceptedChangeLasts(s: Room, clock: int, c: Change, at: int, es: seq<Event>, config: QueueConfig, now: int)
    requires Accepts(c) && NotReplaced(es, c) && at >= clock && Legal(s, clock, [OperateEvent(c, at)] + es)
    ensures InForce(Run(s, clock, [OperateEvent(c, at)] + es).meta, c, config, now)
  {
    var all, e := [OperateEvent(c, at)] + es, OperateEvent(c, at);
    assert all[0] == e && all[1..] == es;
    OperateKeepsMeta(s, c, at);
    AcceptedIsInForce(s.meta, c, config, now);
    assert Overrides(ApplyChange(s.meta, c), c);
    hide InForce, Overrides, Operate, ApplyChange;
    RunKeepsForce(Step(s, e), at, es, c, config, now);
  }

  // ---------- settings that were never made ----------

  /** The room works by the configuration of the request, or by the built-in value, in what this change is about. */
  predicate ByDefault(m: Meta, c: Change, config: QueueConfig) {
    match c
    case SetMode(_, _) => ModeOf(m, config) == config.admissionMode
    case SetAdmitUx(_, _, _) =>
      && EffectiveConfig(m, config).requireClickToEnter == config.requireClickToEnter
      && EffectiveConfig(m, config).admitHoldSeconds == config.admitHoldSeconds
    case SetPaused(_) => !m.paused
    case SetSchedule(_, _) => OpensAt(m).None? && ClosesAt(m).None?
    case SetHealthConfig(_, _, _) => !m.healthConfig.enabled
    case OverrideHealth(_) => m.healthConfig.overrideUntil.None?
    case ClearHealthOverride => m.healthConfig.overrideUntil.None?
    case SetAdmitRate(_, _) => EffectiveConfig(m, config).admitPerSecond == config.admitPerSecond
    case ClearAdmitRate(_) => EffectiveConfig(m, config).admitPerSecond == config.admitPerSecond
    case SetMaxWaiting(_) => MaxWaiting(m) == 1000000
    case SetMissedSlotGrace(_) =>
      var seconds := config.missedSlotGraceSeconds;
      EffectiveConfig(m, config).missedSlotGraceSeconds == if seconds < 30 then 30 else if seconds > 900 then 900 else seconds
    case BumpTokenEpoch => m.tokenEpoch == 0
  }

  lemma SameSettingsSameDefault(m: Meta, n: Meta, c: Change, config: QueueConfig)
    requires SameSettings(m, n) && ByDefault(m, c, config)
    ensures ByDefault(n, c, config)
  {
  }

  lemma OtherChangeKeepsDefault(m: Meta, d: Change, c: Change, config: QueueConfig)
    requires ByDefault(m, c, config) && !Replaces(d, c)
    ensures ByDefault(ApplyChange(m, d), c, config)
  {
  }

  lemma StepKeepsDefault(s: Room, e: Event, c: Change, config: QueueConfig)
    requires Enabled(s, e) && ByDefault(s.meta, c, config)
    requires !(e.OperateEvent? && Replaces(e.change, c))
    ensures ByDefault(Step(s, e).meta, c, config)
  {
    hide ByDefault, SameSettings, ApplyChange, Operate;
    if e.OperateEvent? {
      OperateKeepsMeta(s, e.change, e.now);
      OtherChangeKeepsDefault(s.meta, e.change, c, config);
    } else {
      if IsRequest(e) {
        RequestKeepsSettings(s, e);
      } else {
        OtherKeepsSettings(s, e);
      }
      SameSettingsSameDefault(s.meta, Step(s, e).meta, c, config);
    }
    hide Step;
  }

  lemma {:induction false} RunKeepsDefault(s: Room, clock: int, es: seq<Event>, c: Change, config: QueueConfig)
    requires Legal(s, clock, es) && ByDefault(s.meta, c, config) && NotReplaced(es, c)
    ensures ByDefault(Run(s, clock, es).meta, c, config)
    decreases |es|
  {
    hide ByDefault, Replaces, Step, Enabled;
    if es != [] {
      StepKeepsDefault(s, es[0], c, config);
      RunKeepsDefault(Step(s, es[0]), es[0].now, es[1..], c, config);
    }
  }

  /** In every room that a run without such a change leads to, the default is what counts. */
  lemma DefaultsLast(clock: int, es: seq<Event>, c: Change, config: QueueConfig)
    requires Legal(EMPTY_ROOM, clock, es) && NotReplaced(es, c)
    ensures ByDefault(Run(EMPTY_ROOM, clock, es).meta, c, config)
  {
    assert ByDefault(EMPTY_ROOM.meta, c, config);
    RunKeepsDefault(EMPTY_ROOM, clock, es, c, config);
  }
}
