/**
 What each call of a visitor is answered and what it writes, written out over the table that the call's sweep leaves:
 joining, asking for the status, the heartbeat, entering and leaving.
 */
module CallOutcomes {
  import opened Wrappers
  import opened Engine
  import opened CheckInSlots
  import opened Health
  import opened Visitors
  import opened RoomState
  import opened RoomSteps
  import opened TableMoves
  import opened RoomBounds
  import opened BatchSizes
  import opened SweepOutcomes

  // ---------- the slot that is given out ----------

  /** Five seconds, or as many as it takes to serve everybody at 750 a second. */
  function FullPeriod(waiting: nat): nat {
    if waiting <= 3750 then 5 else (waiting + 749) / 750
  }

  lemma PeriodWrittenOut(waiting: nat)
    ensures CheckInPeriodSeconds(waiting) == FullPeriod(waiting)
  {
  }

  function RateNow(m: Meta, config: QueueConfig, now: int): real {
    if CanAdmit(m, now) then RateWhenOpen(m, config, now) else 0.0
  }

  /** Who is called every five seconds: the first 500, and whoever is less than a minute from the front. */
  predicate IsNearTheFront(position: nat, rate: real) {
    position <= 500 || position as real < 60.0 * rate + 1.0
  }

  /** In a lottery everybody is, when the whole waiting set would be through within a minute. */
  predicate DrawsSoon(waiting: nat, rate: real) {
    waiting as real <= 60.0 * if rate < 0.0001 then 0.0001 else rate
  }

  /** The first second at or after the floor that is the visitor's own in this period. */
  ghost predicate IsFirstSlot(at: int, floor: int, key: string, period: nat) {
    && period >= 1 && floor <= at && IsSlotOf(at, key, period)
    && forall t :: floor <= t && IsSlotOf(t, key, period) ==> at <= t
  }

  /** The room has an opening time that has not come yet. */
  predicate OpensLater(m: Meta, now: int) {
    m.opensAt.Some? && 0 < m.opensAt.value && now < m.opensAt.value
  }

  /** The slot given at `now`: after the opening time in the full period, or after a lead, perhaps in the short period. */
  ghost predicate IsGiven(at: int, m: Meta, key: string, waiting: nat, now: int, lead: int, short: bool) {
    if OpensLater(m, now) then IsFirstSlot(at, m.opensAt.value, key, FullPeriod(waiting))
    else IsFirstSlot(at, now + lead, key, if short then 5 else FullPeriod(waiting))
  }

  lemma RateNowIsEffective(m: Meta, config: QueueConfig, now: int)
    requires ValidConfig(m.healthConfig)
    ensures EffectiveRate(m, config, now) == RateNow(m, config, now)
  {
    if CanAdmit(m, now) {
      RateWrittenOut(m, config, now);
    }
  }

  lemma FrontWrittenOut(position: nat, rate: real)
    requires position >= 1
    ensures position <= FrontBandSize(rate) <==> IsNearTheFront(position, rate)
  {
    var x := (if rate < 0.0 then 0.0 else rate) * 60.0;
    CeilBound(x, position);
  }

  lemma CeilBound(x: real, n: int)
    ensures n <= Ceil(x) <==> n as real < x + 1.0
    ensures Ceil(x) <= n <==> x <= n as real
  {
    var f := (-x).Floor;
    assert f as real <= -x < f as real + 1.0;
    assert Ceil(x) == -f;
  }

  lemma DrawWrittenOut(people: nat, rate: real)
    ensures Ceil(people as real / (if rate < 0.0001 then 0.0001 else rate)) <= 60 <==> DrawsSoon(people, rate)
  {
    var r := if rate < 0.0001 then 0.0001 else rate;
    var q := people as real / r;
    CeilBound(q, 60);
    Quotient(people as real, r, q);
  }

  lemma Quotient(p: real, r: real, q: real)
    requires r > 0.0 && q == p / r
    ensures q <= 60.0 <==> p <= 60.0 * r
  {
    assert q * r == p;
    if q <= 60.0 {
      Scales(q, 60.0, r);
    } else {
      ScalesStrictly(60.0, q, r);
    }
  }

  lemma Scales(a: real, b: real, r: real)
    requires a <= b && r > 0.0
    ensures a * r <= b * r
  {
  }

  lemma ScalesStrictly(a: real, b: real, r: real)
    requires a < b && r > 0.0
    ensures a * r < b * r
  {
  }

  lemma GivenWrittenOut(m: Meta, key: string, waiting: nat, config: QueueConfig, now: int, position: Option<nat>,
                        estimate: int, lead: int, short: bool)
    requires lead >= 0
    requires EffectiveCheckInPeriodSeconds(waiting, position, ModeOf(m, config), estimate, EffectiveRate(m, config, now))
             == if short then 5 else FullPeriod(waiting)
    ensures IsGiven(AssignCheckIn(m, key, waiting, config, now, position, estimate, lead), m, key, waiting, now, lead, short)
  {
    PeriodWrittenOut(waiting);
    if OpensLater(m, now) {
      NextCheckIsLeast(m.opensAt.value, FullPeriod(waiting), key, 0);
    } else {
      NextCheckIsLeast(now, if short then 5 else FullPeriod(waiting), key, lead);
    }
    hide NextCheckAtMs, EffectiveCheckInPeriodSeconds, CheckInPeriodSeconds, FullPeriod, EffectiveRate, IsSlotOf;
  }

  /** Who keeps the short period: in a lottery the one whose estimate is a minute at most, in a queue who is near the front. */
  lemma ShortPeriod(waiting: nat, position: Option<nat>, mode: Mode, estimate: int, rate: real)
    requires mode == Queue ==> position.Some? && position.value >= 1
    ensures var short := if mode == Lottery then estimate <= 60 else IsNearTheFront(position.value, rate);
            EffectiveCheckInPeriodSeconds(waiting, position, mode, estimate, rate) == if short then 5 else FullPeriod(waiting)
  {
    PeriodWrittenOut(waiting);
    if mode == Queue {
      FrontWrittenOut(position.value, rate);
    }
    hide CheckInPeriodSeconds, FullPeriod, FrontBandSize, IsNearTheFront;
  }

  // ---------- what is shown ----------

  /** A view tells the row as it is, the size of the waiting set and the mode. */
  predicate Shows(v: View, r: Row, waiting: nat, mode: Mode) {
    && v.id == r.id && v.status == r.status && v.joinedAt == r.joinedAt && v.lastHeartbeatAt == r.lastHeartbeatAt
    && v.admittedAt == r.admittedAt && v.entered == r.entered
    && v.waiting == waiting && v.mode == mode
    && v.nextCheckAt == (if r.status == Waiting then r.nextCheckAt else None)
    && (v.position.Some? <==> r.status == Waiting && mode == Queue)
    && (v.ahead.Some? <==> v.position.Some?) && (v.behind.Some? <==> v.position.Some?)
  }

  /** The view is that of the row now in the table, with the place that the table gives it. */
  predicate ShowsRow(v: View, s: Room, config: QueueConfig, id: string) {
    Has(s.rows, id) &&
    var r := Get(s.rows, id);
    && Shows(v, r, Count(s.rows, Waiting), ModeOf(s.meta, config))
    && (v.position.Some? ==>
          && v.position.value == CountAhead(s.rows, r.sequence) + 1
          && v.ahead.value == CountAhead(s.rows, r.sequence)
          && v.behind.value == Max(0, Count(s.rows, Waiting) - v.position.value))
  }

  lemma ViewShowsRow(s: Room, config: QueueConfig, id: string)
    requires Has(s.rows, id)
    ensures ShowsRow(ViewOf(s.rows, s.meta, config, Get(s.rows, id)), s, config, id)
  {
    hide Where;
  }

  // ---------- joining ----------

  function WaitingCap(m: Meta): nat {
    if m.maxWaitingVisitors.Some? && m.maxWaitingVisitors.value >= 1 then m.maxWaitingVisitors.value else 1000000
  }

  /** No click is asked for. */
  predicate EntersAtOnce(m: Meta, config: QueueConfig) {
    !(if m.requireClick.Some? then m.requireClick.value else config.requireClickToEnter)
  }

  /** The row of a visitor that is new: admitted to a free seat, or at the end of the line. */
  ghost predicate IsNewRow(r: Row, b: Room, config: QueueConfig, id: string, now: int, seat: bool) {
    && r.id == id && r.joinedAt == now && r.lastHeartbeatAt == now && r.sequence == b.meta.nextSequence
    && if seat then
         && r.status == Admitted && r.admittedAt == Some(now) && r.nextCheckAt == None
         && r.entered == EntersAtOnce(b.meta, config)
       else
         && r.status == Waiting && r.admittedAt == None && !r.entered && r.nextCheckAt.Some?
         && var last := Count(b.rows, Waiting) + 1;
            IsGiven(r.nextCheckAt.value, b.meta, id, last, now, 5000,
                    ModeOf(b.meta, config) == Lottery || IsNearTheFront(last, RateNow(b.meta, config, now)))
  }

  lemma NewRowIsNew(b: Room, config: QueueConfig, id: string, now: int, seat: bool)
    requires ValidConfig(b.meta.healthConfig)
    ensures IsNewRow(NewRow(b, config, id, now, seat), b, config, id, now, seat)
  {
    if !seat {
      var last, mode := Count(b.rows, Waiting) + 1, ModeOf(b.meta, config);
      RateNowIsEffective(b.meta, config, now);
      ShortPeriod(last, Some(last), mode, 0, EffectiveRate(b.meta, config, now));
      var short := mode == Lottery || IsNearTheFront(last, RateNow(b.meta, config, now));
      hide Where, AssignCheckIn, EffectiveCheckInPeriodSeconds, RateNow, IsNearTheFront, IsGiven, EffectiveRate, FullPeriod;
      GivenWrittenOut(b.meta, id, last, config, now, Some(last), 0, 5000, short);
    }
  }

  /** The row of a new visitor is appended, and shown to it. */
  ghost predicate IsAdded(b: Room, t: Room, config: QueueConfig, id: string, now: int, seat: bool, v: View) {
    && t.meta == b.meta.(nextSequence := b.meta.nextSequence + 1)
    && |t.rows| == |b.rows| + 1 && t.rows == b.rows + [t.rows[|t.rows| - 1]]
    && IsNewRow(t.rows[|t.rows| - 1], b, config, id, now, seat)
    && ShowsRow(v, t, config, id)
    && (!seat && ModeOf(b.meta, config) == Queue ==> v.position == Some(Count(b.rows, Waiting) + 1))
  }

  lemma AddedWhenAbsent(b: Room, config: QueueConfig, id: string, now: int, seat: bool)
    requires TableOk(b) && ValidConfig(b.meta.healthConfig) && !Has(b.rows, id)
    ensures var t, r := AddVisitor(b, config, id, now, seat).0, AddVisitor(b, config, id, now, seat).1;
            r.Joined? && |t.rows| > 0 && IsAdded(b, t, config, id, now, seat, r.view)
  {
    var n := NewRow(b, config, id, now, seat);
    NewRowIsNew(b, config, id, now, seat);
    var t := AddVisitor(b, config, id, now, seat).0;
    AddedRows(b, config, id, now, seat);
    hide NewRow, AddVisitor, IsNewRow, ViewOf, TableOk;
    AppendedIsFound(b.rows, n);
    ViewShowsRow(t, config, id);
    EndOfLine(b, n);
    assert t.rows[|t.rows| - 1] == n;
  }

  lemma AddedRows(b: Room, config: QueueConfig, id: string, now: int, seat: bool)
    requires !Has(b.rows, id)
    ensures var n := NewRow(b, config, id, now, seat);
            var t, r := AddVisitor(b, config, id, now, seat).0, AddVisitor(b, config, id, now, seat).1;
            && n.sequence == b.meta.nextSequence && n.id == id
            && (n.status == if seat then Admitted else Waiting)
            && t.rows == b.rows + [n] && t.meta == b.meta.(nextSequence := b.meta.nextSequence + 1)
            && r == Joined(ViewOf(t.rows, t.meta, config, n))
  {
    hide Where, AssignCheckIn, ViewOf, Gauges, HasQueueWork, AlarmInterval, Earliest;
  }

  lemma {:induction false} AppendedIsFound(rows: seq<Row>, r: Row)
    requires !Has(rows, r.id)
    ensures Has(rows + [r], r.id) && Get(rows + [r], r.id) == r
  {
    if rows == [] {
      assert rows + [r] == [r];
    } else {
      assert (rows + [r])[1..] == rows[1..] + [r];
      AppendedIsFound(rows[1..], r);
    }
  }

  lemma {:induction false} AllBelow(rows: seq<Row>, sequence: nat)
    requires forall i :: 0 <= i < |rows| ==> rows[i].sequence < sequence
    ensures CountAhead(rows, sequence) == Count(rows, Waiting)
  {
    if rows != [] {
      AllBelow(rows[1..], sequence);
    }
  }

  /** Everybody who waits is ahead of the row that is appended. */
  lemma EndOfLine(b: Room, n: Row)
    requires TableOk(b) && n.sequence == b.meta.nextSequence
    ensures CountAhead(b.rows + [n], n.sequence) == Count(b.rows, Waiting)
  {
    AllBelow(b.rows, n.sequence);
    WhereAppend(b.rows, n, WaitsBelow(n.sequence));
  }

  /**
   Joining, after its sweep. A visitor that is here is shown its row. Anybody else gets a free seat of an open room, or is
   refused when the waiting set is full, or goes to the end of the line; but an id whose row has ended and is not purged
   yet cannot be used, and costs a sequence number.
   */
  lemma JoinOutcome(b: Room, config: QueueConfig, id: string, now: int)
    requires TableOk(b) && ValidConfig(b.meta.healthConfig)
    ensures var t, r := JoinAfterSweep(b, config, id, now).0, JoinAfterSweep(b, config, id, now).1;
            var known := Has(b.rows, id);
            var here := known && (Get(b.rows, id).status == Waiting || Get(b.rows, id).status == Admitted);
            var seat := CanAdmit(b.meta, now) && Count(b.rows, Admitted) < config.maxConcurrentUsers;
            var full := !seat && Count(b.rows, Waiting) >= WaitingCap(b.meta);
            && (r == QueueFull <==> !here && full)
            && (r == IdTaken <==> known && !here && !full)
            && (r.Joined? <==> here || (!known && !full))
            && (r == QueueFull ==> t == b)
            && (r == IdTaken ==> t == b.(meta := b.meta.(nextSequence := b.meta.nextSequence + 1)))
            && (here ==> t == b.(alarm := t.alarm) && ShowsRow(r.view, b, config, id))
            && (r.Joined? && !known ==> |t.rows| > 0 && IsAdded(b, t, config, id, now, seat, r.view))
  {
    hide Where, CanAdmit, ViewOf, EnsureAlarm, AddVisitor, IsAdded, ShowsRow, TableOk, Slots, MaxWaiting, WaitingCap;
    SeatAndCap(b, config);
    if Has(b.rows, id) {
      ViewShowsRow(b, config, id);
      AlarmOnly(b, now);
      TakenId(b, config, id, now, true);
      TakenId(b, config, id, now, false);
    } else if CanAdmit(b.meta, now) && Slots(b, config) > 0 {
      AddedWhenAbsent(b, config, id, now, true);
    } else {
      AddedWhenAbsent(b, config, id, now, false);
    }
  }

  lemma SeatAndCap(b: Room, config: QueueConfig)
    ensures Slots(b, config) > 0 <==> Count(b.rows, Admitted) < config.maxConcurrentUsers
    ensures MaxWaiting(b.meta) == WaitingCap(b.meta)
  {
    hide Where;
  }

  lemma TakenId(b: Room, config: QueueConfig, id: string, now: int, seat: bool)
    requires Has(b.rows, id)
    ensures AddVisitor(b, config, id, now, seat) == (SpendSequence(b), IdTaken)
  {
  }

  lemma AlarmOnly(s: Room, now: int)
    ensures EnsureAlarm(s, now) == s.(alarm := EnsureAlarm(s, now).alarm)
  {
    AlarmLooksAgain(s, now);
  }

  /** Whoever joins, enters or leaves has the alarm looked at again, for the table as it then is. */
  lemma CallsLookAgain(b: Room, config: QueueConfig, id: string, now: int, picks: seq<string>)
    ensures var t, r := JoinAfterSweep(b, config, id, now).0, JoinAfterSweep(b, config, id, now).1;
            r.Joined? ==> t.alarm == EnsureAlarm(t.(alarm := b.alarm), now).alarm
    ensures var t, r := EnterAfterSweep(b, config, id, now).0, EnterAfterSweep(b, config, id, now).1;
            r.Entered? ==> t.alarm == EnsureAlarm(t.(alarm := b.alarm), now).alarm
    ensures var t := LeaveAfterSweep(b, config, id, now, picks).0;
            IsPresent(b, id) ==> t.alarm == EnsureAlarm(t.(alarm := b.alarm), now).alarm
    ensures var t := ForceAdmitAfterSweep(b, config, now, picks); t.alarm == EnsureAlarm(t.(alarm := b.alarm), now).alarm
  {
    AlarmLooksAgain(b, now);
    AlarmLooksAgain(RecordTraffic(Insert(b, NewRow(b, config, id, now, true)), config, now, 1, 1), now);
    AlarmLooksAgain(RecordTraffic(Insert(b, NewRow(b, config, id, now, false)), config, now, 1, 0), now);
    AlarmLooksAgain(AdmitPicks(b, config, now, picks), now);
    if Has(b.rows, id) {
      AlarmLooksAgain(UpdateRow(b, IndexOf(b.rows, id), Get(b.rows, id).(entered := true)), now);
      if IsPresent(b, id) {
        AlarmLooksAgain(AdmitPicks(Vacate(b, id), config, now, picks), now);
      }
    }
    hide Where, EnsureAlarm, NewRow, Gauges, AdmitAll, CanAdmit, ViewOf;
  }

  // ---------- checking in ----------

  /**
   What a check-in of a waiter writes. A slot before an opening still to come is moved after it; a slot that is due, by half
   a second at the earliest, is renewed, with the heartbeat; any other call writes nothing.
   */
  ghost predicate IsCheckedIn(b: Room, config: QueueConfig, q: Row, now: int, r: Row)
    requires q.nextCheckAt.Some?
  {
    var slot, waiting := q.nextCheckAt.value, Count(b.rows, Waiting);
    var mode, rate := ModeOf(b.meta, config), RateNow(b.meta, config, now);
    if OpensLater(b.meta, now) && slot < b.meta.opensAt.value then
      && r == q.(nextCheckAt := r.nextCheckAt) && r.nextCheckAt.Some?
      && IsGiven(r.nextCheckAt.value, b.meta, q.id, waiting, now, 0, false)
    else if now >= slot - 500 then
      && r == q.(lastHeartbeatAt := now, nextCheckAt := r.nextCheckAt) && r.nextCheckAt.Some?
      && IsGiven(r.nextCheckAt.value, b.meta, q.id, waiting, now, 1000,
                 if mode == Lottery then DrawsSoon(waiting, rate) else IsNearTheFront(CountAhead(b.rows, q.sequence) + 1, rate))
    else r == q
  }

  lemma RepairedIsGiven(b: Room, config: QueueConfig, q: Row, now: int)
    requires OpensLater(b.meta, now)
    ensures var r := Repaired(b, config, q, now);
            && r == q.(nextCheckAt := r.nextCheckAt) && r.nextCheckAt.Some?
            && IsGiven(r.nextCheckAt.value, b.meta, q.id, Count(b.rows, Waiting), now, 0, false)
  {
    PeriodWrittenOut(Count(b.rows, Waiting));
    NextCheckIsLeast(b.meta.opensAt.value, FullPeriod(Count(b.rows, Waiting)), q.id, 0);
    hide Where, NextCheckAtMs, CheckInPeriodSeconds, FullPeriod, EffectiveRate, IsSlotOf, LinePosition;
  }

  lemma RenewedIsGiven(b: Room, config: QueueConfig, q: Row, now: int)
    requires ValidConfig(b.meta.healthConfig)
    ensures var r := Renewed(b, config, q, now);
            var waiting, mode, rate := Count(b.rows, Waiting), ModeOf(b.meta, config), RateNow(b.meta, config, now);
            && r == q.(lastHeartbeatAt := now, nextCheckAt := r.nextCheckAt) && r.nextCheckAt.Some?
            && IsGiven(r.nextCheckAt.value, b.meta, q.id, waiting, now, 1000,
                       if mode == Lottery then DrawsSoon(waiting, rate)
                       else IsNearTheFront(CountAhead(b.rows, q.sequence) + 1, rate))
  {
    var waiting, mode, rate := Count(b.rows, Waiting), ModeOf(b.meta, config), RateNow(b.meta, config, now);
    var position, estimate := LinePosition(b.rows, b.meta, config, q), RenewalEstimate(b.rows, b.meta, config, q, now);
    RateNowIsEffective(b.meta, config, now);
    DrawWrittenOut(waiting, rate);
    ShortPeriod(waiting, position, mode, estimate, rate);
    var short :=
      if mode == Lottery then DrawsSoon(waiting, rate) else IsNearTheFront(CountAhead(b.rows, q.sequence) + 1, rate);
    hide Where, AssignCheckIn, EffectiveCheckInPeriodSeconds, RateNow, IsNearTheFront, IsGiven, EffectiveRate, FullPeriod,
      DrawsSoon;
    GivenWrittenOut(b.meta, q.id, waiting, config, now, position, estimate, 1000, short);
  }

  lemma CheckedInWrittenOut(b: Room, config: QueueConfig, q: Row, now: int)
    requires ValidConfig(b.meta.healthConfig) && q.nextCheckAt.Some?
    ensures IsCheckedIn(b, config, q, now, CheckedIn(b, config, q, now))
  {
    RenewedIsGiven(b, config, q, now);
    if OpensLater(b.meta, now) {
      RepairedIsGiven(b, config, q, now);
    }
    hide Where, Renewed, Repaired, IsGiven, RateNow, IsNearTheFront, DrawsSoon;
  }

  /** The answer to a waiter's check-in, and the only row it may touch. */
  ghost predicate IsCheckInOf(b: Room, t: Room, config: QueueConfig, id: string, now: int, v: View)
    requires Has(b.rows, id) && Get(b.rows, id).nextCheckAt.Some?
  {
    && Has(t.rows, id)
    && IsCheckedIn(b, config, Get(b.rows, id), now, Get(t.rows, id))
    && t == b.(rows := b.rows[IndexOf(b.rows, id) := Get(t.rows, id)])
    && ShowsRow(v, t, config, id)
  }

  lemma WaiterChecksIn(b: Room, config: QueueConfig, id: string, now: int)
    requires TableOk(b) && ValidConfig(b.meta.healthConfig) && IsWaiting(b.rows, id)
    ensures var t, r := CheckInAfterSweep(b, config, id, now).0, CheckInAfterSweep(b, config, id, now).1;
            && r.Seen? && Get(b.rows, id).nextCheckAt.Some?
            && IsCheckInOf(b, t, config, id, now, r.view)
  {
    var k, q := IndexOf(b.rows, id), Get(b.rows, id);
    assert WellFormed(b.rows[k]);
    var r := CheckedIn(b, config, q, now);
    CheckedInWrittenOut(b, config, q, now);
    assert r.id == q.id;
    UpdateKeepsIndex(b.rows, k, r, id);
    var t := CheckInAfterSweep(b, config, id, now).0;
    assert Get(t.rows, id) == r;
    ViewShowsRow(t, config, id);
    hide Where, CheckedIn, IsCheckedIn, ViewOf, ShowsRow, TableOk;
  }

  /**
   Asking for the status, after the sweep: it is shown to whoever waits or is admitted, and to nobody else. An admitted
   visitor is shown its row as it is; a waiter checks in by asking.
   */
  lemma StatusOutcome(b: Room, config: QueueConfig, id: string, now: int)
    requires TableOk(b) && ValidConfig(b.meta.healthConfig)
    ensures var t, r := StatusAfterSweep(b, config, id, now).0, StatusAfterSweep(b, config, id, now).1;
            var waits := Has(b.rows, id) && Get(b.rows, id).status == Waiting;
            var admitted := Has(b.rows, id) && Get(b.rows, id).status == Admitted;
            && (r.Seen? <==> waits || admitted)
            && (r == NotFound <==> !waits && !admitted)
            && (waits ==> Get(b.rows, id).nextCheckAt.Some? && IsCheckInOf(b, t, config, id, now, r.view))
            && (!waits ==> t == b)
            && (admitted ==> ShowsRow(r.view, t, config, id))
  {
    if IsWaiting(b.rows, id) {
      WaiterChecksIn(b, config, id, now);
    } else if Has(b.rows, id) {
      ViewShowsRow(b, config, id);
    }
    hide Where, CheckInAfterSweep, IsCheckInOf, ViewOf, ShowsRow, TableOk;
  }

  /** The heartbeat, after the sweep: a check-in of whoever waits, and not found for anybody else. */
  lemma HeartbeatOutcome(b: Room, config: QueueConfig, id: string, now: int)
    requires TableOk(b) && ValidConfig(b.meta.healthConfig)
    ensures var t, r := HeartbeatAfterSweep(b, config, id, now).0, HeartbeatAfterSweep(b, config, id, now).1;
            var waits := Has(b.rows, id) && Get(b.rows, id).status == Waiting;
            && (r.Seen? <==> waits) && (r == NotFound <==> !waits)
            && (waits ==> Get(b.rows, id).nextCheckAt.Some? && IsCheckInOf(b, t, config, id, now, r.view))
            && (!waits ==> t == b)
  {
    if IsWaiting(b.rows, id) {
      WaiterChecksIn(b, config, id, now);
    }
    hide Where, CheckInAfterSweep, IsCheckInOf, ViewOf, TableOk;
  }

  // ---------- entering and leaving ----------

  /** Entering, after the sweep: an admitted visitor enters; a waiter is told to wait; nobody else is found. */
  lemma EnterOutcome(b: Room, config: QueueConfig, id: string, now: int)
    requires TableOk(b)
    ensures var t, r := EnterAfterSweep(b, config, id, now).0, EnterAfterSweep(b, config, id, now).1;
            var waits := Has(b.rows, id) && Get(b.rows, id).status == Waiting;
            var admitted := Has(b.rows, id) && Get(b.rows, id).status == Admitted;
            && (r.Entered? <==> admitted)
            && (r == NotAdmitted <==> waits)
            && (r == EnterNotFound <==> !waits && !admitted)
            && (!admitted ==> t == b)
            && (admitted ==>
                  && t == b.(rows := b.rows[IndexOf(b.rows, id) := Get(b.rows, id).(entered := true)], alarm := t.alarm)
                  && ShowsRow(r.view, t, config, id) && r.view.entered)
  {
    if Has(b.rows, id) && Get(b.rows, id).status == Admitted {
      var k, r := IndexOf(b.rows, id), Get(b.rows, id).(entered := true);
      UpdateKeepsIndex(b.rows, k, r, id);
      AlarmOnly(UpdateRow(b, k, r), now);
      ViewShowsRow(EnterAfterSweep(b, config, id, now).0, config, id);
    }
    hide Where, EnsureAlarm, ViewOf, ShowsRow, TableOk;
    ShownAsEntered(b, config, id, now);
  }

  lemma ShownAsEntered(b: Room, config: QueueConfig, id: string, now: int)
    ensures EnterAfterSweep(b, config, id, now).1.Entered? ==> EnterAfterSweep(b, config, id, now).1.view.entered
  {
    hide Where, EnsureAlarm;
  }

  /**
   Leaving, after the sweep: not found when there is no row, expired when that is how it ended, and left otherwise. The row of
   a visitor that is here is marked as left, in place, before the refill.
   */
  lemma LeaveOutcome(b: Room, config: QueueConfig, id: string, now: int, picks: seq<string>)
    requires TableOk(b) && ((Has(b.rows, id) && IsActive(Get(b.rows, id))) || picks == [])
    ensures var t, r := LeaveAfterSweep(b, config, id, now, picks).0, LeaveAfterSweep(b, config, id, now, picks).1;
            var known := Has(b.rows, id);
            var here := known && (Get(b.rows, id).status == Waiting || Get(b.rows, id).status == Admitted);
            && (r == LeaveNotFound <==> !known)
            && (r == WasExpired <==> known && Get(b.rows, id).status == Expired)
            && (r == LeftRoom <==> here || (known && Get(b.rows, id).status == Left))
            && (!here ==> t == b)
            && (here ==>
                  var v := b.(rows := b.rows[IndexOf(b.rows, id) := Get(b.rows, id).(status := Left)]);
                  t == AdmitPicks(v, config, now, picks).(alarm := t.alarm))
  {
    if IsPresent(b, id) {
      AlarmOnly(AdmitPicks(Vacate(b, id), config, now, picks), now);
    }
    hide Where, EnsureAlarm, AdmitPicks, TableOk;
  }

  // ---------- seen from before the sweep ----------

  /** The visitor is here at the time of a call: its row is active, and the call's sweep does not end it. */
  predicate IsHere(s: Room, config: QueueConfig, now: int, force: bool, id: string) {
    && Has(s.rows, id) && IsActive(Get(s.rows, id))
    && (force || now - s.meta.lastSweep >= 1000 ==> !TimeIsUp(s, config, Get(s.rows, id), now))
  }

  lemma HereAfterSweep(s: Room, config: QueueConfig, now: int, force: bool, id: string)
    requires TableOk(s)
    ensures var b := Begin(s, config, now, force);
            && (IsHere(s, config, now, force, id) <==> Has(b.rows, id) && IsActive(Get(b.rows, id)))
            && (IsHere(s, config, now, force, id) ==> Get(b.rows, id) == Get(s.rows, id))
  {
    BeginOutcome(s, config, now, force, id);
    hide Begin, TimeIsUp;
  }

  /**
   Whoever is here is answered: with its status, with its heartbeat if it waits, by entering if it is admitted, and with its
   own row when it joins again; it can leave, and nobody else can. Anybody else that joins is new.
   */
  lemma WhoIsHereIsAnswered(s: Room, config: QueueConfig, now: int, id: string)
    requires TableOk(s) && ValidConfig(s.meta.healthConfig)
    ensures CheckStatus(s, config, id, now).1.Seen? <==> IsHere(s, config, now, false, id)
    ensures Heartbeat(s, config, id, now).1.Seen?
            <==> IsHere(s, config, now, false, id) && Get(s.rows, id).status == Waiting
    ensures Enter(s, config, id, now).1.Entered?
            <==> IsHere(s, config, now, true, id) && Get(s.rows, id).status == Admitted
    ensures Enter(s, config, id, now).1 == NotAdmitted
            <==> IsHere(s, config, now, true, id) && Get(s.rows, id).status == Waiting
    ensures var r := Join(s, config, id, now).1;
            && (IsHere(s, config, now, true, id) ==> r.Joined? && r.view.joinedAt == Get(s.rows, id).joinedAt)
            && (!IsHere(s, config, now, true, id) && r.Joined? ==> r.view.joinedAt == now)
    ensures forall picks :: IsHere(s, config, now, true, id) ==> Leave(s, config, id, now, picks).1 == LeftRoom
    ensures forall picks :: !IsHere(s, config, now, true, id) ==> Leave(s, config, id, now, picks).0 == Begin(s, config, now, true)
  {
    HereAfterSweep(s, config, now, false, id);
    HereAfterSweep(s, config, now, true, id);
    hide Begin, StatusAfterSweep, HeartbeatAfterSweep, EnterAfterSweep, JoinAfterSweep, LeaveAfterSweep, IsHere, TableOk;
    Answers(Begin(s, config, now, false), config, id, now);
    Answers(Begin(s, config, now, true), config, id, now);
  }

  lemma Answers(b: Room, config: QueueConfig, id: string, now: int)
    ensures var here := Has(b.rows, id) && IsActive(Get(b.rows, id));
            && (StatusAfterSweep(b, config, id, now).1.Seen? <==> here)
            && (HeartbeatAfterSweep(b, config, id, now).1.Seen? <==> here && Get(b.rows, id).status == Waiting)
            && (EnterAfterSweep(b, config, id, now).1.Entered? <==> here && Get(b.rows, id).status == Admitted)
            && (EnterAfterSweep(b, config, id, now).1 == NotAdmitted <==> here && Get(b.rows, id).status == Waiting)
    ensures var here, r := Has(b.rows, id) && IsActive(Get(b.rows, id)), JoinAfterSweep(b, config, id, now).1;
            && (here ==> r.Joined? && r.view.joinedAt == Get(b.rows, id).joinedAt)
            && (!here && r.Joined? ==> r.view.joinedAt == now)
    ensures forall picks :: Has(b.rows, id) && IsActive(Get(b.rows, id)) ==>
              LeaveAfterSweep(b, config, id, now, picks).1 == LeftRoom
    ensures forall picks :: !(Has(b.rows, id) && IsActive(Get(b.rows, id))) ==>
              LeaveAfterSweep(b, config, id, now, picks).0 == b
  {
    hide Where, EnsureAlarm, CheckedIn, AssignCheckIn, CanAdmit, Slots, RecordTraffic, AdmitPicks;
  }
}
