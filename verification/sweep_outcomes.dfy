/**
 What a sweep does to each row, written out: who is expired, who is purged, and that nobody else is touched. And what
 that means over runs: visitors who stop calling or walk away do not keep their places.
 */
module SweepOutcomes {
  import opened Wrappers
  import opened Engine
  import opened Visitors
  import opened RoomState
  import opened RoomSteps
  import opened RoomRuns
  import opened TableMoves
  import opened RoomBounds
  import opened RoomLiveness
  import opened RowKeeping
  import opened CheckIns

  const HOUR_MS: int := 3600000

  /**
   The slot is missed for good: by half a minute, by the grace setting or a quarter of an hour, and by so many whole
   seconds that 750 waiters a second would all have been served meanwhile.
   */
  predicate MissedForGood(slot: int, waiting: nat, graceSeconds: int, now: int) {
    var late := now - slot;
    && late >= 30000
    && (late >= 900000 || late >= 1000 * graceSeconds)
    && 750 * (late / 1000) >= waiting
  }

  /** The grace and the hold are the operator's, if set and, for the hold, between 15 and 900 seconds. */
  function GraceSetting(m: Meta, config: QueueConfig): int {
    if m.missedSlotGraceSeconds.Some? then m.missedSlotGraceSeconds.value else config.missedSlotGraceSeconds
  }

  function HoldSetting(m: Meta, config: QueueConfig): int {
    if m.admitHoldSeconds.Some? && 15 <= m.admitHoldSeconds.value <= 900 then m.admitHoldSeconds.value
    else config.admitHoldSeconds
  }

  /** The time of a row has run out. */
  predicate TimeIsUp(s: Room, config: QueueConfig, r: Row, now: int) {
    match r.status
    case Waiting =>
      || now - r.joinedAt >= 1000 * config.queueTimeoutSeconds
      || (r.nextCheckAt.Some? &&
          MissedForGood(r.nextCheckAt.value, Count(s.rows, Waiting), GraceSetting(s.meta, config), now))
      || (r.nextCheckAt.None? && now - r.lastHeartbeatAt >= 1000 * config.heartbeatTimeoutSeconds)
    case Admitted =>
      r.admittedAt.Some? &&
      now - r.admittedAt.value >= 1000 * if r.entered then config.tokenTTLSeconds else HoldSetting(s.meta, config)
    case Left => false
    case Expired => false
  }

  lemma GraceWrittenOut(slot: int, waiting: nat, graceSeconds: int, now: int)
    ensures slot <= now - MissedSlotGraceMs(CheckInPeriodSeconds(waiting), ClampMissedSlotGraceSeconds(graceSeconds))
            <==> MissedForGood(slot, waiting, graceSeconds, now)
  {
    var late := now - slot;
    var q := late / 1000;
    var p := CeilDiv(waiting, 750);
    assert late >= 1000 * p <==> q >= p;
    assert q >= p <==> 750 * q >= waiting;
    assert late >= 5000 <==> q >= 5;
  }

  lemma ExpireWrittenOut(s: Room, config: QueueConfig, r: Row, now: int)
    ensures var eff := EffectiveConfig(s.meta, config);
            Expire(r, eff, now, GraceMs(s.rows, eff)) == if TimeIsUp(s, config, r, now) then r.(status := Expired) else r
  {
    if r.nextCheckAt.Some? {
      GraceWrittenOut(r.nextCheckAt.value, Count(s.rows, Waiting), GraceSetting(s.meta, config), now);
      ClampTwice(GraceSetting(s.meta, config));
    }
    hide MissedForGood, MissedSlotGraceMs, CheckInPeriodSeconds, Where;
  }

  lemma ClampTwice(seconds: int)
    ensures ClampMissedSlotGraceSeconds(ClampMissedSlotGraceSeconds(seconds)) == ClampMissedSlotGraceSeconds(seconds)
  {
  }

  /** What is left of one row. */
  predicate SweptAway(s: Room, config: QueueConfig, now: int, id: string, rows: seq<Row>)
    requires Has(s.rows, id)
  {
    var r := Get(s.rows, id);
    if TimeIsUp(s, config, r, now) then
      && (Has(rows, id) <==> now - r.joinedAt <= HOUR_MS)
      && (Has(rows, id) ==> Get(rows, id) == r.(status := Expired))
    else if IsActive(r) then
      Has(rows, id) && Get(rows, id) == r
    else
      && (Has(rows, id) <==> now - r.joinedAt <= HOUR_MS)
      && (Has(rows, id) ==> Get(rows, id) == r)
  }

  lemma KeptIfSurvives(rows: seq<Row>, id: string, p: Row -> bool, n: nat)
    requires TableInv(rows, n)
    ensures Has(Where(rows, p), id) <==> Has(rows, id) && p(Get(rows, id))
    ensures Has(Where(rows, p), id) ==> Get(Where(rows, p), id) == Get(rows, id)
  {
    var kept := Where(rows, p);
    WhereKeepsInv(rows, p, n);
    if Has(kept, id) {
      WhereMember(rows, p, Get(kept, id));
      GetIsRow(rows, Get(kept, id));
    }
    if Has(rows, id) && p(Get(rows, id)) {
      WhereMember(rows, p, Get(rows, id));
      GetIsRow(kept, Get(rows, id));
    }
    hide Where;
  }

  lemma SameKeys(a: seq<Row>, b: seq<Row>, id: string)
    requires |a| == |b| && forall i :: 0 <= i < |a| ==> a[i].id == b[i].id
    ensures IndexOf(a, id) == IndexOf(b, id)
  {
    hide IndexOf;
  }

  lemma SweptTable(s: Room, config: QueueConfig, now: int, id: string)
    requires TableOk(s)
    ensures var kept := Where(Swept(s.rows, s.meta.(lastSweep := now), config, now), Survives(now - 60 * 60 * 1000));
            && (Has(s.rows, id) ==> SweptAway(s, config, now, id, kept))
            && (!Has(s.rows, id) ==> !Has(kept, id))
  {
    var eff := EffectiveConfig(s.meta, config);
    var swept := Swept(s.rows, s.meta.(lastSweep := now), config, now);
    assert swept == ExpireAll(s.rows, eff, now, GraceMs(s.rows, eff));
    ExpireMoves(s.rows, eff, now, GraceMs(s.rows, eff), s.meta.nextSequence);
    KeptIfSurvives(swept, id, Survives(now - 60 * 60 * 1000), s.meta.nextSequence);
    SameKeys(s.rows, swept, id);
    hide TableInv, Swept, Where, TimeIsUp, Expire, EffectiveConfig, GraceMs, IndexOf, Moves;
    if Has(s.rows, id) {
      ExpireWrittenOut(s, config, Get(s.rows, id), now);
    }
  }

  /**
   The sweep, row by row. It is skipped only within a second of the last one and unless it is forced. Whoever's time is
   up is expired; whoever is expired or has left, and joined more than an hour ago, is purged; nobody else is touched and
   nobody comes in.
   */
  lemma SweepOutcome(s: Room, config: QueueConfig, now: int, force: bool, id: string)
    requires TableOk(s)
    ensures var t := Sweep(s, config, now, force);
            if force || now - s.meta.lastSweep >= 1000 then
              && t.meta.lastSweep == now
              && (Has(s.rows, id) ==> SweptAway(s, config, now, id, t.rows))
              && (!Has(s.rows, id) ==> !Has(t.rows, id))
            else t == s
  {
    if force || now - s.meta.lastSweep >= 1000 {
      SweptTable(s, config, now, id);
    }
    hide Where, SweptAway, Swept;
  }

  /** The sweep at the beginning of a request is that sweep, with the configuration of the request. */
  lemma BeginOutcome(s: Room, config: QueueConfig, now: int, force: bool, id: string)
    requires TableOk(s)
    ensures var t := Begin(s, config, now, force);
            && t.meta.config == Some(config)
            && if force || now - s.meta.lastSweep >= 1000 then
                 && t.meta.lastSweep == now
                 && (Has(s.rows, id) ==> SweptAway(s, config, now, id, t.rows))
                 && (!Has(s.rows, id) ==> !Has(t.rows, id))
               else t.rows == s.rows
  {
    var c := Remember(s, config);
    SweepOutcome(c, config, now, force, id);
    RememberChangesNoTime(s, config, now, id);
    hide SweptAway, TimeIsUp, Where, Swept;
  }

  lemma RememberChangesNoTime(s: Room, config: QueueConfig, now: int, id: string)
    ensures var c := Remember(s, config);
            forall rows :: Has(s.rows, id) ==> (SweptAway(c, config, now, id, rows) <==> SweptAway(s, config, now, id, rows))
  {
  }

  // ---------- nobody overstays ----------

  /** Right after a sweep no row is in the table whose time was up. */
  lemma NobodyOverstays(s: Room, config: QueueConfig, now: int, r: Row)
    requires TableOk(s) && r in Sweep(s, config, now, true).rows
    ensures !TimeIsUp(s, config, r, now)
  {
    SweepMoves(s, config, now, true);
    GetIsRow(Sweep(s, config, now, true).rows, r);
    SweepOutcome(s, config, now, true, r.id);
    hide Sweep;
  }

  /**
   In every run, right after each sweep of the alarm no admitted visitor is past its hold, or its token's lifetime once
   it has entered, at the time of the handler.
   */
  lemma NoLapsedAdmission(s: Room, clock: int, es: seq<Event>, e: Event, r: Row)
    requires Inv(s, clock) && Legal(s, clock, es) && Enabled(Run(s, clock, es), e) && e.AlarmSweepEvent?
    requires Run(s, clock, es).meta.config.Some?
    requires r in Step(Run(s, clock, es), e).rows && r.status == Admitted
    ensures var u := Run(s, clock, es);
            var config := u.meta.config.value;
            r.admittedAt.Some? &&
            u.handler.value.now - r.admittedAt.value
            < 1000 * if r.entered then config.tokenTTLSeconds else HoldSetting(u.meta, config)
  {
    RunKeepsInv(s, clock, es);
    var u := Run(s, clock, es);
    StepMoves(u, e);
    GetIsRow(Step(u, e).rows, r);
    AlarmSweepRows(u, e);
    NobodyOverstays(u, u.meta.config.value, u.handler.value.now, r);
    hide Run, Legal, Step, Sweep, Enabled;
    AdmittedIsDated(Step(u, e), r);
  }

  lemma AdmittedIsDated(s: Room, r: Row)
    requires TableOk(s) && r in s.rows && r.status == Admitted
    ensures r.admittedAt.Some?
  {
    var i :| 0 <= i < |s.rows| && s.rows[i] == r;
    assert WellFormed(s.rows[i]);
  }

  lemma AlarmSweepRows(s: Room, e: Event)
    requires Enabled(s, e) && e.AlarmSweepEvent? && s.meta.config.Some?
    ensures s.handler.Some? && Step(s, e).rows == Sweep(s, s.meta.config.value, s.handler.value.now, true).rows
  {
    hide Sweep, HasTurn;
  }

  // ---------- who stops calling ----------

  /** No row of this visitor and sequence number waits, but in the form given. */
  predicate WaitsOnlyAs(rows: seq<Row>, q: Row) {
    forall r :: r in rows && r.id == q.id && r.sequence == q.sequence && r.status == Waiting ==> r == q
  }

  predicate IsSilent(es: seq<Event>, id: string) {
    forall i :: 0 <= i < |es| ==> !IsCheckIn(es[i], id)
  }

  lemma FateKeepsForm(a: seq<Row>, b: seq<Row>, id: string, leaves: bool)
    requires IsWaiting(a, id) && UniqueIds(b) && Fate(a, b, id, leaves)
    ensures WaitsOnlyAs(b, Get(a, id))
  {
    forall r | r in b && r.id == id && r.status == Waiting
      ensures r == Get(a, id)
    {
      GetIsRow(b, r);
    }
  }

  lemma GoneKeepsForm(b: seq<Row>, q: Row)
    requires Gone(b, q.id, q.sequence)
    ensures WaitsOnlyAs(b, q)
  {
  }

  lemma WaiterKeepsForm(s: Room, e: Event, id: string)
    requires TableOk(s) && Enabled(s, e) && !IsCheckIn(e, id) && IsWaiting(s.rows, id)
    ensures WaitsOnlyAs(Step(s, e).rows, Get(s.rows, id))
  {
    StepMoves(s, e);
    var rows := Step(s, e).rows;
    assert UniqueIds(rows);
    hide Step, Enabled, TableOk, Fate, WaitsOnlyAs, Gone, SweepSkipped, Spared;
    if IsRequest(e) {
      if Passes(s, e.config, e.now, ForcesSweep(e), id) {
        FateInRequest(s, e, id);
        FateKeepsForm(s.rows, rows, id, e.LeaveEvent? && e.id == id);
      } else {
        RequestTakes(s, e, id);
        GoneKeepsForm(rows, Get(s.rows, id));
      }
    } else if IsAlarmWork(e) {
      if e.AlarmSweepEvent? && s.meta.config.Some? && !Spared(s, s.meta.config.value, s.handler.value.now, id) {
        AlarmSweepTakes(s, e, id);
        GoneKeepsForm(rows, Get(s.rows, id));
      } else {
        FateInAlarm(s, e, id);
        FateKeepsForm(s.rows, rows, id, false);
      }
    } else {
      OthersKeepTheTable(s, e);
      SameFate(s.rows, rows, id);
      FateKeepsForm(s.rows, rows, id, false);
    }
  }

  lemma StepKeepsForm(s: Room, e: Event, q: Row)
    requires TableOk(s) && Enabled(s, e) && !IsCheckIn(e, q.id) && q.status == Waiting
    requires WaitsOnlyAs(s.rows, q) && q.sequence < s.meta.nextSequence
    ensures WaitsOnlyAs(Step(s, e).rows, q) && q.sequence < Step(s, e).meta.nextSequence
  {
    StepMoves(s, e);
    var t := Step(s, e);
    if q in s.rows {
      GetIsRow(s.rows, q);
      WaiterKeepsForm(s, e, q.id);
    } else {
      hide Step, Enabled, TableOk;
      forall r | r in t.rows && r.id == q.id && r.sequence == q.sequence
        ensures r.status != Waiting
      {
        var p :| p in s.rows && Descends(p, r);
      }
    }
  }

  lemma {:induction false} RunKeepsForm(s: Room, clock: int, es: seq<Event>, q: Row)
    requires TableOk(s) && Legal(s, clock, es) && IsSilent(es, q.id) && q.status == Waiting
    requires WaitsOnlyAs(s.rows, q) && q.sequence < s.meta.nextSequence
    ensures WaitsOnlyAs(Run(s, clock, es).rows, q)
    decreases |es|
  {
    hide Step, Enabled, TableOk, WaitsOnlyAs;
    if es != [] {
      assert !IsCheckIn(es[0], q.id);
      StepKeepsForm(s, es[0], q);
      StepTable(s, es[0]);
      RunKeepsForm(Step(s, es[0]), es[0].now, es[1..], q);
    }
  }

  lemma StepTable(s: Room, e: Event)
    requires TableOk(s) && Enabled(s, e)
    ensures TableOk(Step(s, e))
  {
    StepMoves(s, e);
  }

  /**
   A waiter that stops calling does not keep its place: after any run in which it makes no check-in, the first sweep of the
   alarm for which its slot is missed for good leaves no row of its stay waiting.
   */
  lemma SilentWaiterGoes(s: Room, clock: int, es: seq<Event>, e: Event, id: string)
    requires Inv(s, clock) && IsWaiting(s.rows, id) && Get(s.rows, id).nextCheckAt.Some?
    requires Legal(s, clock, es) && IsSilent(es, id)
    requires Enabled(Run(s, clock, es), e) && e.AlarmSweepEvent? && Run(s, clock, es).meta.config.Some?
    requires var u := Run(s, clock, es);
             MissedForGood(Get(s.rows, id).nextCheckAt.value, Count(u.rows, Waiting),
                           GraceSetting(u.meta, u.meta.config.value), u.handler.value.now)
    ensures forall r :: r in Step(Run(s, clock, es), e).rows && r.id == id && r.sequence == Get(s.rows, id).sequence ==>
              r.status != Waiting
  {
    var q, u := Get(s.rows, id), Run(s, clock, es);
    OnlyForm(s, id);
    RunKeepsForm(s, clock, es, q);
    RunKeepsInv(s, clock, es);
    var config, now := u.meta.config.value, u.handler.value.now;
    AlarmSweepRows(u, e);
    hide Run, Legal, Step, Enabled, Sweep, MissedForGood;
    forall r | r in Step(u, e).rows && r.id == id && r.sequence == q.sequence
      ensures r.status != Waiting
    {
      NobodyOverstays(u, config, now, r);
      if r.status == Waiting {
        SweptFromTable(u, config, now, r);
      }
    }
  }

  lemma OnlyForm(s: Room, id: string)
    requires TableOk(s) && IsWaiting(s.rows, id)
    ensures WaitsOnlyAs(s.rows, Get(s.rows, id)) && Get(s.rows, id).sequence < s.meta.nextSequence
  {
    forall r | r in s.rows && r.id == id
      ensures r == Get(s.rows, id)
    {
      GetIsRow(s.rows, r);
    }
    assert s.rows[IndexOf(s.rows, id)].sequence < s.meta.nextSequence;
  }

  lemma SweptFromTable(s: Room, config: QueueConfig, now: int, r: Row)
    requires TableOk(s) && r in Sweep(s, config, now, true).rows && r.status == Waiting
    ensures r in s.rows
  {
    SweepMoves(s, config, now, true);
    GetIsRow(Sweep(s, config, now, true).rows, r);
    SweepOutcome(s, config, now, true, r.id);
    hide Sweep, TimeIsUp;
  }
}
