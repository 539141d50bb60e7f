/**
 One run of a room, from the empty one, in which the alarm handler is overtaken: it starts a millisecond before the
 room closes and before a traffic bucket ends, awaits a webhook, and finishes after both. It admits a visitor into a
 closed room, loses a join and opens a bucket that is stored already.
 */
module OvertakenRun {
  import opened Wrappers
  import opened Engine
  import opened Visitors
  import opened TrafficBuckets
  import opened WebhookOutbox
  import opened RoomState
  import opened RoomSteps
  import opened RoomRuns
  import opened Admission
  import opened RoomBounds
  import opened RoomTraffic
  import opened CheckIns

  const CONFIG := QueueConfig(1, 1.0, 600, 60, 3600, Queue, false, 120, 120)

  const SCHEDULED := INITIAL_META.(opensAt := Some(25000), closesAt := Some(30000))

  /** The settings after a request or a sweep. */
  function MetaAt(lastSweep: int, nextSequence: nat): Meta {
    SCHEDULED.(config := Some(CONFIG), lastSweep := lastSweep, nextSequence := nextSequence)
  }

  const SCHEDULE := OperateEvent(SetSchedule(Some(Some(25000)), Some(Some(30000))), 24999)
  const ENQUEUE := EnqueueEvent(24999)
  const FIRST_JOIN := JoinEvent("a", CONFIG, 24999)
  const FIRE := AlarmFireEvent(29999)
  const SECOND_JOIN := JoinEvent("b", CONFIG, 30000)
  const POST := AlarmPostEvent(Delivered, 30004)
  const SWEEP := AlarmSweepEvent(30004)
  const BATCH := AlarmFinishEvent(30004, ["a"])

  /** What happens before the batch. */
  const BEFORE: seq<Event> := [SCHEDULE, ENQUEUE, FIRST_JOIN, FIRE, SECOND_JOIN, POST, SWEEP]

  const WEBHOOK := Delivery(1, 1, 29999, 24999, true)

  /** A waiter whose slot is not before the opening. */
  predicate Waits(r: Row, id: string, joinedAt: int, sequence: nat) {
    && r.id == id && r.status == Waiting && r.joinedAt == joinedAt && r.sequence == sequence
    && r.nextCheckAt.Some? && r.nextCheckAt.value >= 25000
  }

  // ---------- the pieces ----------

  lemma OneRow(r: Row)
    requires r.status == Waiting
    ensures Count([r], Waiting) == 1 && Count([r], Admitted) == 0 && Waiters([r]) == [r]
  {
    WhereOne(r, HasStatus(Waiting));
    WhereOne(r, HasStatus(Admitted));
  }

  lemma TwoRows(r: Row, q: Row)
    requires r.status == Waiting && q.status == Waiting
    ensures Count([r, q], Waiting) == 2 && Count([r, q], Admitted) == 0 && Waiters([r, q]) == [r, q]
  {
    OneRow(r);
    assert [r, q] == [r] + [q];
    WhereAppend([r], q, HasStatus(Waiting));
    WhereAppend([r], q, HasStatus(Admitted));
  }

  /** A sweep in the first half minute takes nobody. */
  lemma NobodyIsTaken(s: Room, now: int)
    requires 24999 <= now <= 30000 && s.meta == MetaAt(s.meta.lastSweep, s.meta.nextSequence)
    requires forall i :: 0 <= i < |s.rows| ==>
               24999 <= s.rows[i].joinedAt <= 30000 && Waits(s.rows[i], s.rows[i].id, s.rows[i].joinedAt, s.rows[i].sequence)
    ensures Sweep(s, CONFIG, now, true) == s.(meta := MetaAt(now, s.meta.nextSequence))
  {
    var marked := s.meta.(lastSweep := now);
    var swept := Swept(s.rows, marked, CONFIG, now);
    var eff := EffectiveConfig(marked, CONFIG);
    GraceIsAtLeastHalfAMinute(s.rows, eff);
    forall i | 0 <= i < |s.rows|
      ensures swept[i] == s.rows[i]
    {
      assert Waits(s.rows[i], s.rows[i].id, s.rows[i].joinedAt, s.rows[i].sequence);
    }
    assert swept == s.rows;
    WhereAll(swept, Survives(now - 60 * 60 * 1000), true);
  }

  /** Joining a room that is shut, with nobody of that name there. */
  lemma JoinsTheLine(s: Room, id: string, now: int)
    requires s.meta == MetaAt(now, s.meta.nextSequence) && (now < 25000 || 30000 <= now)
    requires !Has(s.rows, id) && Count(s.rows, Waiting) < 10
    ensures !CanAdmit(s.meta, now)
    ensures var r := NewRow(s, CONFIG, id, now, false);
            && JoinAfterSweep(s, CONFIG, id, now).0
               == EnsureAlarm(RecordTraffic(Insert(s, r), CONFIG, now, 1, 0), now)
            && r.sequence == s.meta.nextSequence && (now <= 30000 ==> Waits(r, id, now, s.meta.nextSequence))
  {
    var waiting := Count(s.rows, Waiting) + 1;
    AssignedSlotIsAhead(s.meta, id, waiting, CONFIG, now, Some(waiting), 0, MIN_CHECK_IN_PERIOD_SEC * 1000);
    hide AssignCheckIn, Where, EnsureAlarm, RecordTraffic, ViewOf, EffectiveConfig;
  }

  lemma FirstRecord(sample: Sample)
    ensures Record(NO_TRAFFIC, 24999, sample, 1, 0) == Traffic(15000, 1, 0, 1, [], 0, 0)
  {
    assert Align(24999) == 15000;
  }

  lemma FlushStores(t: Traffic, sample: Sample)
    requires t == Traffic(15000, 1, 0, 1, [], 0, 0)
    ensures var stored := Bucket(15000, 1, 0, sample.maxOutflow, sample.waiting, sample.entered);
            Record(t, 30000, sample, 1, 0) == Traffic(30000, 1, 0, 2, [stored], 0, 0)
  {
    var stored := Bucket(15000, 1, 0, sample.maxOutflow, sample.waiting, sample.entered);
    var cutoff := 30000 - TRAFFIC_RETENTION_MS;
    assert Upsert([], stored) == [stored];
    assert [stored][1..] == [];
    assert Pruned([], cutoff) == [] && Retained([], cutoff) == [];
    assert Pruned([stored], cutoff) == [] && Retained([stored], cutoff) == [stored];
    assert Align(30000) == 30000;
  }

  /** The alarm set for the webhook comes no later than the one for the waiter. */
  lemma AlarmStays(s: Room)
    requires s.meta == MetaAt(24999, 2) && s.alarm == Some(29999) && s.outbox.rows == [WEBHOOK]
    requires Count(s.rows, Waiting) == 1
    ensures EnsureAlarm(s, 24999) == s
  {
    assert [WEBHOOK][1..] == [];
    assert Earliest(s.outbox.rows) == Some(29999);
    hide Where;
  }

  // ---------- the run ----------

  const QUEUED := Outbox([WEBHOOK], 2, [])

  lemma Schedules()
    ensures Enabled(EMPTY_ROOM, SCHEDULE) && Step(EMPTY_ROOM, SCHEDULE) == EMPTY_ROOM.(meta := SCHEDULED)
  {
  }

  lemma Enqueues(s: Room)
    requires s == EMPTY_ROOM.(meta := SCHEDULED)
    ensures Enabled(s, ENQUEUE) && Step(s, ENQUEUE) == s.(outbox := QUEUED, alarm := Some(29999))
  {
    assert [WEBHOOK][1..] == [];
  }

  ghost predicate AfterFirstJoin(s: Room) {
    && |s.rows| == 1 && Waits(s.rows[0], "a", 24999, 1)
    && s == Room(s.rows, MetaAt(24999, 2), Traffic(15000, 1, 0, 1, [], 0, 0), QUEUED, Some(29999), None, 0, 0)
  }

  lemma FirstJoin(s: Room)
    requires s == EMPTY_ROOM.(meta := SCHEDULED, outbox := QUEUED, alarm := Some(29999))
    ensures Enabled(s, FIRST_JOIN) && AfterFirstJoin(Step(s, FIRST_JOIN))
  {
    NobodyIsTaken(Remember(s, CONFIG), 24999);
    var b := s.(meta := MetaAt(24999, 1));
    assert b == Begin(s, CONFIG, 24999, true);
    FirstAfterSweep(b);
    hide JoinAfterSweep, Sweep, Begin, AfterFirstJoin;
  }

  lemma FirstAfterSweep(b: Room)
    requires b == EMPTY_ROOM.(meta := MetaAt(24999, 1), outbox := QUEUED, alarm := Some(29999))
    ensures AfterFirstJoin(JoinAfterSweep(b, CONFIG, "a", 24999).0)
  {
    JoinsTheLine(b, "a", 24999);
    var r := NewRow(b, CONFIG, "a", 24999, false);
    hide NewRow, JoinAfterSweep, EnsureAlarm, Record, Gauges, Where;
    FirstInserted(b, r);
    AlarmStays(RecordTraffic(Insert(b, r), CONFIG, 24999, 1, 0));
  }

  lemma FirstInserted(b: Room, r: Row)
    requires b == EMPTY_ROOM.(meta := MetaAt(24999, 1), outbox := QUEUED, alarm := Some(29999))
    requires Waits(r, "a", 24999, 1)
    ensures var t := RecordTraffic(Insert(b, r), CONFIG, 24999, 1, 0);
            && Count(t.rows, Waiting) == 1 && t.rows == [r]
            && t == Room([r], MetaAt(24999, 2), Traffic(15000, 1, 0, 1, [], 0, 0), QUEUED, Some(29999), None, 0, 0)
  {
    OneRow(r);
    hide Record, Gauges, Where;
    var inserted := Insert(b, r);
    assert inserted.rows == [r];
    FirstRecord(Gauges(inserted, CONFIG));
  }

  ghost predicate AfterFire(s: Room) {
    && |s.rows| == 1 && Waits(s.rows[0], "a", 24999, 1)
    && s == Room(s.rows, MetaAt(24999, 2), Traffic(15000, 1, 0, 1, [], 0, 0), QUEUED, None,
                 Some(Handler(29999, [WEBHOOK], None, Posting, 0, 29999)), 0, 0)
  }

  lemma Fires(s: Room)
    requires AfterFirstJoin(s)
    ensures Enabled(s, FIRE) && AfterFire(Step(s, FIRE))
  {
    assert [WEBHOOK][1..] == [];
    assert Due([], 29999, 9) == [];
    assert Due([WEBHOOK], 29999, OUTBOX_BATCH) == [WEBHOOK];
  }

  /** Two visitors wait, and the open bucket is younger than the handler. */
  ghost predicate Overtaken(s: Room, stored: Bucket, lastSweep: int) {
    && |s.rows| == 2 && Waits(s.rows[0], "a", 24999, 1) && Waits(s.rows[1], "b", 30000, 2)
    && s.meta == MetaAt(lastSweep, 3)
    && stored.t == 15000 && stored.joins == 1 && stored.admits == 0
    && s.traffic == Traffic(30000, 1, 0, 2, [stored], 0, 0)
    && s.purged == 0 && s.admissions == 0
  }

  lemma SecondJoin(s: Room) returns (stored: Bucket)
    requires AfterFire(s)
    ensures Enabled(s, SECOND_JOIN)
    ensures var t := Step(s, SECOND_JOIN);
            && Overtaken(t, stored, 30000) && t.outbox == QUEUED
            && t.handler == Some(Handler(29999, [WEBHOOK], None, Posting, 0, 29999))
  {
    hide JoinAfterSweep, Sweep, Overtaken;
    NobodyIsTaken(Remember(s, CONFIG), 30000);
    var b := s.(meta := MetaAt(30000, 2));
    assert b == Begin(s, CONFIG, 30000, true);
    hide Begin;
    stored := SecondAfterSweep(b);
  }

  lemma SecondAfterSweep(b: Room) returns (stored: Bucket)
    requires |b.rows| == 1 && Waits(b.rows[0], "a", 24999, 1)
    requires b == Room(b.rows, MetaAt(30000, 2), Traffic(15000, 1, 0, 1, [], 0, 0), QUEUED, None,
                       Some(Handler(29999, [WEBHOOK], None, Posting, 0, 29999)), 0, 0)
    ensures var t := JoinAfterSweep(b, CONFIG, "b", 30000).0;
            Overtaken(t, stored, 30000) && t.handler == b.handler && t.outbox == QUEUED
  {
    assert b.rows == [b.rows[0]] && b.rows[1..] == [];
    OneRow(b.rows[0]);
    assert !Has(b.rows, "b");
    JoinsTheLine(b, "b", 30000);
    var r := NewRow(b, CONFIG, "b", 30000, false);
    var inserted := Insert(b, r);
    var sample := Gauges(inserted, CONFIG);
    FlushStores(b.traffic, sample);
    stored := Bucket(15000, 1, 0, sample.maxOutflow, sample.waiting, sample.entered);
    AlarmTouchesNothing(RecordTraffic(inserted, CONFIG, 30000, 1, 0), 30000);
    hide NewRow, JoinAfterSweep, EnsureAlarm, Record, Gauges, Where;
  }

  lemma AlarmTouchesNothing(s: Room, now: int)
    ensures EnsureAlarm(s, now) == s.(alarm := EnsureAlarm(s, now).alarm)
  {
    hide HasQueueWork, AlarmInterval, Earliest;
  }

  lemma Posts(s: Room, stored: Bucket)
    requires Overtaken(s, stored, 30000) && s.outbox == QUEUED
    requires s.handler == Some(Handler(29999, [WEBHOOK], None, Posting, 0, 29999))
    ensures Enabled(s, POST)
    ensures var t := Step(s, POST);
            Overtaken(t, stored, 30000) && t.handler == Some(Handler(29999, [], None, Posting, 1, 30004))
  {
    assert [WEBHOOK][1..] == [];
  }

  lemma Sweeps(s: Room, stored: Bucket)
    requires Overtaken(s, stored, 30000) && s.handler == Some(Handler(29999, [], None, Posting, 1, 30004))
    ensures Enabled(s, SWEEP)
    ensures var t := Step(s, SWEEP);
            Overtaken(t, stored, 29999) && t.handler == Some(Handler(29999, [], Some(CONFIG), Admitting, 1, 30004))
  {
    NobodyIsTaken(s, 29999);
    hide Sweep;
  }

  /** The batch of the overtaken handler. */
  lemma Admits(s: Room, stored: Bucket)
    requires Overtaken(s, stored, 29999)
    requires s.handler == Some(Handler(29999, [], Some(CONFIG), Admitting, 1, 30004))
    ensures Enabled(s, BATCH) && stored.t == 15000 && stored.joins == 1
    ensures var t := Step(s, BATCH);
            && Shut(t.meta, 30004)
            && Has(t.rows, "a") && Get(t.rows, "a").status == Admitted
            && t.traffic == Traffic(15000, 0, 1, 2, [stored], 0, 0) && t.admissions == 1
  {
    var a, b := s.rows[0], s.rows[1];
    assert s.rows == [a, b];
    TwoRows(a, b);
    BatchOfOne(s);
    var at := 29999;
    AdmitFirst(s.rows, at);
    AlarmTouchesNothing(FlushTraffic(AdmitFromBudget(s, CONFIG, at, ["a"]), CONFIG, at).(handler := None), 30004);
    assert EffectiveConfig(s.meta, CONFIG).requireClickToEnter == false;
    hide Where, AdmitAll, Gauges, EnsureAlarm;
  }

  lemma BatchOfOne(s: Room)
    requires |s.rows| == 2 && s.rows[0].id == "a" && Waiters(s.rows) == s.rows && Count(s.rows, Admitted) == 0
    requires s.meta == MetaAt(29999, 3)
    ensures CanAdmit(s.meta, 29999) && BudgetLimit(s, CONFIG, 29999) == 1
    ensures PicksAllowed(s, CONFIG, true, 1, ["a"])
  {
    assert 0.0 + 1.0 * (1000 as real / 1000.0) == 1.0;
    assert EffectiveRate(s.meta, CONFIG, 29999) == 1.0;
    assert Ids(s.rows[..1]) == ["a"];
    hide Where, EffectiveRate;
  }

  lemma AdmitFirst(rows: seq<Row>, now: int)
    requires |rows| == 2 && rows[0].id == "a" && rows[0].status == Waiting
    ensures AdmitAll(rows, ["a"], now, true) == rows[0 := Promoted(rows[0], now, true)]
  {
    assert ["a"][..0] == [];
    assert AdmitAll(rows, [], now, true) == rows;
    assert IndexOf(rows, "a") == 0;
  }

  lemma InTime(k: nat)
    requires k < |BEFORE|
    ensures BEFORE[k].now >= ClockAfter(24999, BEFORE[..k])
  {
  }

  /** The room after the first k events. */
  ghost function Next(k: nat): Room
    requires k <= |BEFORE| && Legal(EMPTY_ROOM, 24999, BEFORE[..k])
  {
    Run(EMPTY_ROOM, 24999, BEFORE[..k])
  }

  lemma OneMore(k: nat)
    requires k < |BEFORE| && Legal(EMPTY_ROOM, 24999, BEFORE[..k]) && Enabled(Next(k), BEFORE[k])
    ensures Legal(EMPTY_ROOM, 24999, BEFORE[..k + 1]) && Next(k + 1) == Step(Next(k), BEFORE[k])
  {
    InTime(k);
    hide BEFORE, Step, Enabled, Legal, Run, ClockAfter;
    LongerPrefix(EMPTY_ROOM, 24999, BEFORE, k);
  }

  lemma Listed()
    ensures |BEFORE| == 7 && BEFORE[..0] == [] && BEFORE[..7] == BEFORE && ClockAfter(24999, BEFORE) == 30004
    ensures BEFORE[0] == SCHEDULE && BEFORE[1] == ENQUEUE && BEFORE[2] == FIRST_JOIN && BEFORE[3] == FIRE
    ensures BEFORE[4] == SECOND_JOIN && BEFORE[5] == POST && BEFORE[6] == SWEEP
  {
  }

  lemma UntilFire()
    ensures |BEFORE| == 7 && Legal(EMPTY_ROOM, 24999, BEFORE[..4]) && AfterFire(Next(4))
  {
    assert Legal(EMPTY_ROOM, 24999, []) && Run(EMPTY_ROOM, 24999, []) == EMPTY_ROOM;
    hide BEFORE, Step, Enabled, Legal, Run, AfterFirstJoin, AfterFire;
    Listed();
    Schedules();
    OneMore(0);
    Enqueues(Next(1));
    OneMore(1);
    FirstJoin(Next(2));
    OneMore(2);
    Fires(Next(3));
    OneMore(3);
  }

  /** The state in which the batch is due. */
  lemma HandlerIsOvertaken() returns (stored: Bucket)
    ensures Legal(EMPTY_ROOM, 24999, BEFORE) && ClockAfter(24999, BEFORE) == 30004
    ensures var s := Run(EMPTY_ROOM, 24999, BEFORE);
            Overtaken(s, stored, 29999) && s.handler == Some(Handler(29999, [], Some(CONFIG), Admitting, 1, 30004))
  {
    hide BEFORE, Step, Enabled, Legal, Run, AfterFire, Overtaken;
    Listed();
    UntilFire();
    stored := SecondJoin(Next(4));
    OneMore(4);
    Posts(Next(5), stored);
    OneMore(5);
    Sweeps(Next(6), stored);
    OneMore(6);
  }

  /**
   All of it can happen: the run is legal from the empty room, its last event happens after the closing time and
   admits somebody, one of the two joins is lost, and the open bucket is one that is stored.
   */
  lemma HandlerCanBeOvertaken()
    ensures Legal(EMPTY_ROOM, 24999, BEFORE + [BATCH])
    ensures var t := Run(EMPTY_ROOM, 24999, BEFORE + [BATCH]);
            && Shut(t.meta, BATCH.now) && Has(t.rows, "a") && Get(t.rows, "a").status == Admitted
            && t.traffic.totalInflow == 2 && JoinsLost(t) == 1
            && !BucketsInv(t.traffic)
  {
    hide Step, Enabled, Legal, Run, Overtaken, Shut, Has, Get, JoinsLost, BucketsInv;
    var stored := HandlerIsOvertaken();
    var s := Run(EMPTY_ROOM, 24999, BEFORE);
    Admits(s, stored);
    OneMoreEvent(EMPTY_ROOM, 24999, BEFORE, BATCH);
    LostAndReopened(Step(s, BATCH), stored);
  }

  lemma LostAndReopened(t: Room, stored: Bucket)
    requires stored.t == 15000 && stored.joins == 1
    requires t.traffic == Traffic(15000, 0, 1, 2, [stored], 0, 0)
    ensures JoinsLost(t) == 1 && !BucketsInv(t.traffic)
  {
    assert t.traffic.buckets[0].t == 15000;
    assert SumJoins([stored]) == 1;
  }
}
