/**
 The health ladder over runs. Disabling the probes resets the ladder, but a probe that is in flight then still writes
 back the rung it had started from, one step on.
 */
module LadderRuns {
  import opened Wrappers
  import opened Health
  import opened RoomState
  import opened RoomSteps
  import opened RoomRuns

  /** A room without probes keeps the ladder as it was in the beginning. */
  predicate AtRest(m: Meta) {
    !m.healthConfig.enabled ==> m.healthState == DEFAULT_HEALTH_STATE
  }

  /** A probe is answered in a room that has been told to stop probing. */
  predicate IsLateProbe(s: Room, e: Event) {
    e.AlarmProbeEvent? && !s.meta.healthConfig.enabled
  }

  lemma OperateRests(m: Meta, c: Change)
    requires AtRest(m)
    ensures AtRest(ApplyChange(m, c))
  {
  }

  // ---------- who leaves the ladder alone ----------

  predicate SameLadder(s: Room, t: Room) {
    && t.meta.healthConfig == s.meta.healthConfig && t.meta.healthState == s.meta.healthState
    && t.handler == s.handler
  }

  lemma BeginKeepsLadder(s: Room, config: QueueConfig, now: int, force: bool)
    ensures SameLadder(s, Begin(s, config, now, force))
  {
    hide Swept;
  }

  lemma JoinKeepsLadder(s: Room, config: QueueConfig, id: string, now: int)
    ensures SameLadder(s, JoinAfterSweep(s, config, id, now).0)
  {
    hide CanAdmit, ViewOf, NewRow, HasQueueWork, AlarmInterval, Earliest, Gauges;
  }

  lemma CheckInKeepsLadder(s: Room, config: QueueConfig, id: string, now: int)
    ensures SameLadder(s, StatusAfterSweep(s, config, id, now).0)
    ensures SameLadder(s, HeartbeatAfterSweep(s, config, id, now).0)
    ensures SameLadder(s, EnterAfterSweep(s, config, id, now).0)
  {
    hide ViewOf, CheckedIn, HasQueueWork, AlarmInterval, Earliest;
  }

  lemma BatchKeepsLadder(s: Room, config: QueueConfig, id: string, now: int, picks: seq<string>)
    ensures SameLadder(s, LeaveAfterSweep(s, config, id, now, picks).0)
    ensures SameLadder(s, ForceAdmitAfterSweep(s, config, now, picks))
  {
    hide AdmitAll, HasQueueWork, AlarmInterval, Earliest, Gauges;
  }

  lemma RestKeepsLadder(s: Room, e: Event, b: Room)
    requires Enabled(s, e) && IsRequest(e) && b == Begin(s, e.config, e.now, ForcesSweep(e))
    ensures SameLadder(b, Step(s, e))
  {
    NoMove(b);
    hide SameLadder, Begin, JoinAfterSweep, StatusAfterSweep, HeartbeatAfterSweep, EnterAfterSweep, LeaveAfterSweep,
      ForceAdmitAfterSweep, LeavePicks, ForcePicks, HasTurn;
    match e
    case JoinEvent(id, config, now) => JoinKeepsLadder(b, config, id, now);
    case StatusEvent(id, config, now) => CheckInKeepsLadder(b, config, id, now);
    case HeartbeatEvent(id, config, now) => CheckInKeepsLadder(b, config, id, now);
    case EnterEvent(id, config, now) => CheckInKeepsLadder(b, config, id, now);
    case LeaveEvent(id, config, now, picks) => BatchKeepsLadder(b, config, id, now, picks);
    case ForceAdmitEvent(_, config, now, picks) => BatchKeepsLadder(b, config, "", now, picks);
    case MetricsEvent(_, _) =>
  }

  lemma NoMove(s: Room)
    ensures SameLadder(s, s)
  {
  }

  lemma RequestKeepsLadder(s: Room, e: Event)
    requires Enabled(s, e) && IsRequest(e)
    ensures SameLadder(s, Step(s, e))
  {
    hide Begin, Step, Enabled;
    var b := Begin(s, e.config, e.now, ForcesSweep(e));
    BeginKeepsLadder(s, e.config, e.now, ForcesSweep(e));
    RestKeepsLadder(s, e, b);
  }

  lemma SweepKeepsLadder(s: Room)
    requires AlarmSweeps(s)
    ensures var t := AlarmSweep(s);
            && t.meta.healthConfig == s.meta.healthConfig && t.meta.healthState == s.meta.healthState
            && (AlarmProbes(t) ==>
                  s.meta.healthConfig.enabled && t.handler.value.stage == Probing(s.meta.healthConfig, s.meta.healthState))
  {
    hide Swept;
  }

  /**
   The handler of a room that has been called at least once sends a probe if and only if probing is on and the last one is
   at least the interval ago, or there was none.
   */
  lemma SweepSendsProbe(s: Room)
    requires AlarmSweeps(s) && s.meta.config.Some?
    ensures var last, now := s.meta.healthState.lastCheckedAt, s.handler.value.now;
            AlarmProbes(AlarmSweep(s)) <==>
            && s.meta.healthConfig.enabled
            && (last.None? || last.value == 0 || now - last.value >= 1000 * s.meta.healthConfig.intervalSeconds)
  {
    hide Swept;
  }

  lemma FinishKeepsLadder(s: Room, now: int, picks: seq<string>)
    requires AlarmAdmits(s)
    ensures var t := AlarmFinish(s, now, picks);
            && t.meta.healthConfig == s.meta.healthConfig && t.meta.healthState == s.meta.healthState && t.handler == None
  {
    hide AdmitAll, HasQueueWork, AlarmInterval, Earliest, Gauges, TickBudget;
  }

  /** Nothing but an operator and the answer to a probe moves the ladder, and without probing on no probe is sent. */
  lemma OthersKeepLadder(s: Room, e: Event)
    requires Enabled(s, e) && !e.OperateEvent? && !e.AlarmProbeEvent?
    ensures var t := Step(s, e);
            && t.meta.healthConfig == s.meta.healthConfig && t.meta.healthState == s.meta.healthState
            && (AlarmProbes(t) ==>
                  || (AlarmProbes(s) && t.handler.value.stage == s.handler.value.stage)
                  || (s.meta.healthConfig.enabled
                      && t.handler.value.stage == Probing(s.meta.healthConfig, s.meta.healthState)))
  {
    if IsRequest(e) {
      RequestKeepsLadder(s, e);
      hide Step, Enabled;
    } else if e.AlarmSweepEvent? {
      SweepKeepsLadder(s);
    } else if e.AlarmFinishEvent? {
      FinishKeepsLadder(s, e.now, e.picks);
    }
    hide AlarmSweep, AlarmFinish, HasQueueWork, AlarmInterval, Earliest, FinishPicks, HasTurn, Gauges;
  }

  // ---------- the ladder at rest ----------

  /** An event takes the ladder out of its rest if and only if it answers a late probe. */
  lemma StepRests(s: Room, e: Event)
    requires Enabled(s, e) && AtRest(s.meta)
    ensures AtRest(Step(s, e).meta) <==> !IsLateProbe(s, e)
  {
    if e.OperateEvent? {
      OperateRests(s.meta, e.change);
    } else if !e.AlarmProbeEvent? {
      OthersKeepLadder(s, e);
      hide Step, Enabled;
    }
    hide ApplyChange, HasQueueWork, AlarmInterval, Earliest, HasTurn;
  }

  ghost predicate RestsThroughout(s: Room, clock: int, es: seq<Event>)
    requires Legal(s, clock, es)
    decreases |es|
  {
    AtRest(s.meta) && (es == [] || RestsThroughout(Step(s, es[0]), es[0].now, es[1..]))
  }

  ghost predicate NoLateProbe(s: Room, clock: int, es: seq<Event>)
    requires Legal(s, clock, es)
    decreases |es|
  {
    es == [] || (!IsLateProbe(s, es[0]) && NoLateProbe(Step(s, es[0]), es[0].now, es[1..]))
  }

  /** In every state of a run the ladder is at rest while probing is off, if and only if no late probe is answered. */
  lemma {:induction false} RunRests(s: Room, clock: int, es: seq<Event>)
    requires Legal(s, clock, es) && AtRest(s.meta)
    ensures RestsThroughout(s, clock, es) <==> NoLateProbe(s, clock, es)
    decreases |es|
  {
    hide Enabled, Step, AtRest, IsLateProbe;
    if es != [] {
      StepRests(s, es[0]);
      if AtRest(Step(s, es[0]).meta) {
        RunRests(Step(s, es[0]), es[0].now, es[1..]);
      }
    }
  }

  // ---------- the reset ----------

  /** The change turns probing off. */
  predicate Disables(c: Change) {
    c.SetHealthConfig? && !(c.health.enabled && c.urlUsable)
  }

  predicate StaysOff(es: seq<Event>) {
    forall i :: 0 <= i < |es| ==> !(es[i].OperateEvent? && es[i].change.SetHealthConfig? && !Disables(es[i].change))
  }

  /** Probing is off, the ladder at rest and no probe in flight. */
  predicate Quiet(s: Room) {
    !s.meta.healthConfig.enabled && s.meta.healthState == DEFAULT_HEALTH_STATE && !AlarmProbes(s)
  }

  lemma QuietOperate(s: Room, e: Event)
    requires Enabled(s, e) && e.OperateEvent? && Quiet(s) && (e.change.SetHealthConfig? ==> Disables(e.change))
    ensures Quiet(Step(s, e))
  {
    var m := ApplyChange(s.meta, e.change);
    assert !m.healthConfig.enabled && m.healthState == DEFAULT_HEALTH_STATE;
    hide ApplyChange, HasQueueWork, AlarmInterval, Earliest, HasTurn;
  }

  lemma QuietStep(s: Room, e: Event)
    requires Enabled(s, e) && Quiet(s) && StaysOff([e])
    ensures Quiet(Step(s, e))
  {
    assert [e][0] == e;
    assert !e.AlarmProbeEvent?;
    hide Step, Enabled;
    if e.OperateEvent? {
      QuietOperate(s, e);
    } else {
      OthersKeepLadder(s, e);
    }
  }

  lemma {:induction false} QuietRun(s: Room, clock: int, es: seq<Event>)
    requires Legal(s, clock, es) && Quiet(s) && StaysOff(es)
    ensures Quiet(Run(s, clock, es))
    decreases |es|
  {
    hide Enabled, Step, Quiet;
    if es != [] {
      assert [es[0]][0] == es[0];
      QuietStep(s, es[0]);
      QuietRun(Step(s, es[0]), es[0].now, es[1..]);
    }
  }

  /** The room after probing has been turned off. */
  ghost function Reset(s: Room, c: Change, now: int): Room
    requires Enabled(s, OperateEvent(c, now))
  {
    Step(s, OperateEvent(c, now))
  }

  /**
   Turning the probes off leaves the ladder at rest, in every run in which they stay off, if and only if no probe is in
   flight at that moment.
   */
  lemma ResetLasts(s: Room, c: Change, now: int)
    requires Enabled(s, OperateEvent(c, now)) && Disables(c)
    ensures (forall es :: Legal(Reset(s, c, now), now, es) && StaysOff(es) ==>
                            Run(Reset(s, c, now), now, es).meta.healthState == DEFAULT_HEALTH_STATE)
            <==> !AlarmProbes(s)
  {
    var t := Reset(s, c, now);
    ResetIs(s, c, now);
    if AlarmProbes(s) {
      var e := AlarmProbeEvent(ProbeResult(true, 0, Some(200), None), now);
      LateProbe(t, e);
      assert [e][1..] == [];
      assert Legal(Step(t, e), now, []) && Run(Step(t, e), now, []) == Step(t, e);
      hide Enabled, Step;
      assert Legal(t, now, [e]) && Run(t, now, [e]) == Step(t, e);
      assert StaysOff([e]);
    } else {
      forall es | Legal(t, now, es) && StaysOff(es)
        ensures Run(t, now, es).meta.healthState == DEFAULT_HEALTH_STATE
      {
        QuietRun(t, now, es);
      }
    }
  }

  lemma ResetIs(s: Room, c: Change, now: int)
    requires Enabled(s, OperateEvent(c, now)) && Disables(c)
    ensures var t := Reset(s, c, now);
            && !t.meta.healthConfig.enabled && t.meta.healthState == DEFAULT_HEALTH_STATE && t.handler == s.handler
  {
    hide HasQueueWork, AlarmInterval, Earliest;
  }

  lemma LateProbe(s: Room, e: Event)
    requires AlarmProbes(s) && e.AlarmProbeEvent?
    ensures Enabled(s, e) && Step(s, e).meta.healthState.lastCheckedAt == Some(s.handler.value.now)
  {
  }

  // ---------- the ladder climbed along a run ----------

  /** The answers to the probes of a run, in their order. */
  function Answers(es: seq<Event>): seq<bool> {
    if es == [] then [] else AnswerOf(es[0]) + Answers(es[1..])
  }

  function AnswerOf(e: Event): seq<bool> {
    if e.AlarmProbeEvent? then [e.probe.ok] else []
  }

  /** The operator leaves the health settings alone, but for overrides. */
  predicate SettingsStay(es: seq<Event>) {
    forall i :: 0 <= i < |es| ==> !(es[i].OperateEvent? && es[i].change.SetHealthConfig?)
  }

  function WithoutOverride(c: HealthConfig): HealthConfig {
    c.(overrideUntil := None)
  }

  /** A probe in flight has started from the rung and the thresholds that the room has now. */
  predicate InFlightIsCurrent(s: Room) {
    AlarmProbes(s) ==>
      && s.handler.value.stage.state == s.meta.healthState
      && WithoutOverride(s.handler.value.stage.config) == WithoutOverride(s.meta.healthConfig)
  }

  lemma ChangeClimbs(m: Meta, c: Change)
    requires !c.SetHealthConfig?
    ensures var n := ApplyChange(m, c);
            n.healthState == m.healthState && WithoutOverride(n.healthConfig) == WithoutOverride(m.healthConfig)
  {
  }

  lemma OperateClimbs(s: Room, e: Event)
    requires Enabled(s, e) && e.OperateEvent? && !e.change.SetHealthConfig? && InFlightIsCurrent(s)
    ensures var t := Step(s, e);
            && t.meta.healthState == s.meta.healthState && InFlightIsCurrent(t)
            && WithoutOverride(t.meta.healthConfig) == WithoutOverride(s.meta.healthConfig)
  {
    ChangeClimbs(s.meta, e.change);
    hide ApplyChange, WithoutOverride, HasQueueWork, AlarmInterval, Earliest, HasTurn;
  }

  lemma ProbeClimbs(s: Room, e: Event)
    requires Enabled(s, e) && e.AlarmProbeEvent? && InFlightIsCurrent(s)
    ensures var t := Step(s, e);
            && LadderOf(t.meta.healthState) == Climb(WithoutOverride(s.meta.healthConfig), LadderOf(s.meta.healthState), e.probe.ok)
            && t.meta.healthConfig == s.meta.healthConfig && InFlightIsCurrent(t)
  {
    hide HasTurn;
  }

  lemma StepClimbs(s: Room, e: Event)
    requires Enabled(s, e) && InFlightIsCurrent(s) && !(e.OperateEvent? && e.change.SetHealthConfig?)
    ensures var t, c := Step(s, e), WithoutOverride(s.meta.healthConfig);
            && InFlightIsCurrent(t) && WithoutOverride(t.meta.healthConfig) == c
            && LadderOf(t.meta.healthState) ==
               if e.AlarmProbeEvent? then Climb(c, LadderOf(s.meta.healthState), e.probe.ok)
               else LadderOf(s.meta.healthState)
  {
    hide Step, Enabled, Climb;
    if e.OperateEvent? {
      OperateClimbs(s, e);
    } else if e.AlarmProbeEvent? {
      ProbeClimbs(s, e);
    } else {
      OthersKeepLadder(s, e);
    }
  }

  lemma Regroup(a: seq<bool>, b: seq<bool>, c: seq<bool>)
    ensures a + (b + c) == a + b + c
  {
  }

  lemma LadderAfter(c: HealthConfig, history: seq<bool>, e: Event)
    ensures After(c, BOTTOM, history + AnswerOf(e)) ==
            if e.AlarmProbeEvent? then Climb(c, After(c, BOTTOM, history), e.probe.ok) else After(c, BOTTOM, history)
  {
    hide After, Climb;
    if e.AlarmProbeEvent? {
      AfterLast(c, history, e.probe.ok);
    } else {
      assert history + [] == history;
    }
  }

  /** Over every run the room's ladder is the one that the answers to its probes lead to. */
  lemma {:induction false} RunClimbs(s: Room, clock: int, es: seq<Event>, history: seq<bool>)
    requires Legal(s, clock, es) && SettingsStay(es) && InFlightIsCurrent(s)
    requires LadderOf(s.meta.healthState) == After(WithoutOverride(s.meta.healthConfig), BOTTOM, history)
    ensures LadderOf(Run(s, clock, es).meta.healthState)
            == After(WithoutOverride(s.meta.healthConfig), BOTTOM, history + Answers(es))
    decreases |es|
  {
    hide Enabled, Step, InFlightIsCurrent, Climb, After, LadderOf, WithoutOverride;
    if es == [] {
      assert history + Answers(es) == history;
    } else {
      var e, t := es[0], Step(s, es[0]);
      StepClimbs(s, e);
      LadderAfter(WithoutOverride(s.meta.healthConfig), history, e);
      Regroup(history, AnswerOf(e), Answers(es[1..]));
      hide AnswerOf;
      RunClimbs(t, e.now, es[1..], history + AnswerOf(e));
    }
  }
}
