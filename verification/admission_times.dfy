/** Admission times are positive in every run under a positive clock, so a token is always dated from its admission. */
module AdmissionTimes {
  import opened Wrappers
  import opened Visitors
  import opened WebhookOutbox
  import opened RoomState
  import opened RoomSteps
  import opened RoomRuns

  ghost predicate Dated(rows: seq<Row>) {
    forall i :: 0 <= i < |rows| && rows[i].admittedAt.Some? ==> rows[i].admittedAt.value > 0
  }

  /** The rows are dated, and so is whatever a running handler will admit. */
  ghost predicate DatesOk(s: Room) {
    Dated(s.rows) && (s.handler.Some? ==> s.handler.value.now > 0)
  }

  lemma WhereDated(rows: seq<Row>, p: Row -> bool)
    requires Dated(rows)
    ensures Dated(Where(rows, p))
  {
    var kept := Where(rows, p);
    forall i | 0 <= i < |kept| && kept[i].admittedAt.Some?
      ensures kept[i].admittedAt.value > 0
    {
      WhereMember(rows, p, kept[i]);
    }
  }

  lemma SweepDated(s: Room, config: QueueConfig, now: int, force: bool)
    requires Dated(s.rows)
    ensures Dated(Sweep(s, config, now, force).rows) && Sweep(s, config, now, force).handler == s.handler
  {
    if !SweepSkipped(s.meta, now, force) {
      var marked := s.meta.(lastSweep := now);
      assert Dated(Swept(s.rows, marked, config, now));
      WhereDated(Swept(s.rows, marked, config, now), Survives(now - 60 * 60 * 1000));
    }
  }

  lemma {:induction false} AdmitAllDated(rows: seq<Row>, picks: seq<string>, now: int, entered: bool)
    requires Dated(rows) && now > 0
    ensures Dated(AdmitAll(rows, picks, now, entered))
  {
    if picks != [] {
      AdmitAllDated(rows, picks[..|picks| - 1], now, entered);
      hide AdmitAll, IsWaiting;
    }
  }

  lemma BatchDated(s: Room, config: QueueConfig, now: int, picks: seq<string>)
    requires Dated(s.rows) && now > 0
    ensures Dated(AdmitPicks(s, config, now, picks).rows) && AdmitPicks(s, config, now, picks).handler == s.handler
  {
    AdmitAllDated(s.rows, picks, now, !EffectiveConfig(s.meta, config).requireClickToEnter);
    hide Dated, AdmitAll, EffectiveConfig;
  }

  lemma AlarmKeepsRows(s: Room, now: int)
    ensures EnsureAlarm(s, now).rows == s.rows && EnsureAlarm(s, now).handler == s.handler
  {
  }

  lemma AddVisitorDated(s: Room, config: QueueConfig, id: string, now: int, admit: bool)
    requires Dated(s.rows) && now > 0
    ensures var t := AddVisitor(s, config, id, now, admit).0;
            Dated(t.rows) && t.handler == s.handler
  {
    var s2 := RecordTraffic(Insert(s, NewRow(s, config, id, now, admit)), config, now, 1, if admit then 1 else 0);
    AlarmKeepsRows(s2, now);
    hide Where, AssignCheckIn, EnsureAlarm, ViewOf, Gauges;
  }

  lemma JoinDated(s: Room, config: QueueConfig, id: string, now: int)
    requires Dated(s.rows) && now > 0
    ensures var t := JoinAfterSweep(s, config, id, now).0;
            Dated(t.rows) && t.handler == s.handler
  {
    AlarmKeepsRows(s, now);
    AddVisitorDated(s, config, id, now, true);
    AddVisitorDated(s, config, id, now, false);
    hide Where, CanAdmit, EnsureAlarm, AddVisitor, ViewOf, Dated;
  }

  lemma CheckInDated(s: Room, config: QueueConfig, id: string, now: int)
    requires Dated(s.rows)
    ensures var t := StatusAfterSweep(s, config, id, now).0;
            Dated(t.rows) && t.handler == s.handler
    ensures var t := HeartbeatAfterSweep(s, config, id, now).0;
            Dated(t.rows) && t.handler == s.handler
  {
    hide Where, AssignCheckIn, EffectiveRate, ViewOf;
    if IsWaiting(s.rows, id) {
      var k := IndexOf(s.rows, id);
      var r := CheckedIn(s, config, Get(s.rows, id), now);
      assert r.admittedAt == s.rows[k].admittedAt;
      assert Dated(s.rows[k := r]);
      hide CheckedIn;
    }
  }

  lemma EnterDated(s: Room, config: QueueConfig, id: string, now: int)
    requires Dated(s.rows)
    ensures var t := EnterAfterSweep(s, config, id, now).0;
            Dated(t.rows) && t.handler == s.handler
  {
    hide Where, EnsureAlarm, ViewOf;
    if Has(s.rows, id) && Get(s.rows, id).status == Admitted {
      var k := IndexOf(s.rows, id);
      AlarmKeepsRows(UpdateRow(s, k, s.rows[k].(entered := true)), now);
    }
  }

  lemma ForceAdmitDated(s: Room, config: QueueConfig, now: int, picks: seq<string>)
    requires Dated(s.rows) && now > 0
    ensures var t := ForceAdmitAfterSweep(s, config, now, picks);
            Dated(t.rows) && t.handler == s.handler
  {
    BatchDated(s, config, now, picks);
    AlarmKeepsRows(AdmitPicks(s, config, now, picks), now);
    hide AdmitPicks, EnsureAlarm, Dated;
  }

  lemma LeaveDated(s: Room, config: QueueConfig, id: string, now: int, picks: seq<string>)
    requires Dated(s.rows) && now > 0
    ensures var t := LeaveAfterSweep(s, config, id, now, picks).0;
            Dated(t.rows) && t.handler == s.handler
  {
    if IsPresent(s, id) {
      ForceAdmitDated(Vacate(s, id), config, now, picks);
    }
    hide AdmitPicks, EnsureAlarm;
  }

  lemma FinishDated(s: Room, now: int, picks: seq<string>)
    requires AlarmAdmits(s) && DatesOk(s)
    ensures Dated(AlarmFinish(s, now, picks).rows) && AlarmFinish(s, now, picks).handler == None
  {
    hide Dated, AdmitPicks, EnsureAlarm, Gauges;
    var h := s.handler.value;
    if h.config.None? {
      AlarmKeepsRows(s.(handler := None), now);
    } else {
      var ticked := s.(meta := s.meta.(admitRemainder := TickBudget(s, h.config.value, h.now).nextRemainder));
      BatchDated(ticked, h.config.value, h.now, picks);
      var worked := FlushTraffic(AdmitFromBudget(s, h.config.value, h.now, picks), h.config.value, h.now);
      AlarmKeepsRows(worked.(handler := None), now);
    }
  }

  lemma OperateDated(s: Room, c: Change, now: int)
    requires DatesOk(s)
    ensures DatesOk(Operate(s, c, now)) && DatesOk(EnqueueWebhook(s, now))
  {
    hide Dated, EnsureAlarm;
    AlarmKeepsRows(s.(meta := ApplyChange(s.meta, c)), now);
    AlarmKeepsRows(s.(outbox := Enqueue(s.outbox, now)), now);
  }

  lemma AlarmStageDated(s: Room, e: Event)
    requires Enabled(s, e) && DatesOk(s) && e.now > 0
    requires e.AlarmFireEvent? || e.AlarmPostEvent? || e.AlarmSweepEvent? || e.AlarmProbeEvent? || e.AlarmFinishEvent?
    ensures DatesOk(Step(s, e))
  {
    hide Dated, Sweep, AlarmFinish;
    match e
    case AlarmSweepEvent(_) =>
      if s.meta.config.Some? {
        SweepDated(s, s.meta.config.value, s.handler.value.now, true);
      }
    case AlarmFinishEvent(now, picks) => FinishDated(s, now, picks);
    case _ =>
  }

  lemma BeginDated(s: Room, config: QueueConfig, now: int, force: bool)
    requires Dated(s.rows)
    ensures Dated(Begin(s, config, now, force).rows) && Begin(s, config, now, force).handler == s.handler
  {
    SweepDated(Remember(s, config), config, now, force);
  }

  lemma StepKeepsDates(s: Room, e: Event)
    requires Enabled(s, e) && DatesOk(s) && e.now > 0
    ensures DatesOk(Step(s, e))
  {
    hide Dated, Begin, JoinAfterSweep, StatusAfterSweep, HeartbeatAfterSweep, EnterAfterSweep, LeaveAfterSweep,
      ForceAdmitAfterSweep, Operate, EnqueueWebhook, LeavePicks, ForcePicks, FinishPicks, CanAdmit;
    match e
    case JoinEvent(id, config, now) =>
      BeginDated(s, config, now, true);
      JoinDated(Begin(s, config, now, true), config, id, now);
    case StatusEvent(id, config, now) =>
      BeginDated(s, config, now, false);
      CheckInDated(Begin(s, config, now, false), config, id, now);
    case HeartbeatEvent(id, config, now) =>
      BeginDated(s, config, now, false);
      CheckInDated(Begin(s, config, now, false), config, id, now);
    case EnterEvent(id, config, now) =>
      BeginDated(s, config, now, true);
      EnterDated(Begin(s, config, now, true), config, id, now);
    case LeaveEvent(id, config, now, picks) =>
      BeginDated(s, config, now, true);
      LeaveDated(Begin(s, config, now, true), config, id, now, picks);
    case ForceAdmitEvent(_, config, now, picks) =>
      BeginDated(s, config, now, true);
      ForceAdmitDated(Begin(s, config, now, true), config, now, picks);
    case MetricsEvent(config, now) => BeginDated(s, config, now, false);
    case TrafficEvent(config, now) =>
    case OperateEvent(change, now) => OperateDated(s, change, now);
    case EnqueueEvent(now) => OperateDated(s, BumpTokenEpoch, now);
    case _ => AlarmStageDated(s, e);
  }
}
