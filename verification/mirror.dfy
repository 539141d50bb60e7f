/**
 The in-memory simulator and the room are mirrors of each other: along every quiet Queue Mode run, whatever
 else happens in between, the room's line, its admitted visitors, its sequence numbers and its budget
 remainder are those of the plain queue, and so those of the simulator.
 */
module Mirror {
  import opened Wrappers
  import opened Engine
  import opened Visitors
  import opened RoomState
  import opened RoomSteps
  import opened RoomRuns
  import opened RoomBounds
  import opened RoomFifo
  import opened FifoQueue
  import opened Simulator

  /** An open, un-paused Queue Mode room of this capacity, in which no timeout has passed. */
  ghost predicate QuietRoom(s: Room, config: QueueConfig, now: int, cap: nat) {
    && config.maxConcurrentUsers == cap
    && ModeOf(s.meta, config) == Queue
    && CanAdmit(s.meta, now)
    && NobodyTimesOut(s, config, now)
  }

  /** The conditions of the mirror for one event; settings may change as long as they hold when they matter. */
  ghost predicate Quiet(s: Room, e: Event, cap: nat, rate: real) {
    && (ConfigOf(s, e).Some? ==> QuietRoom(s, ConfigOf(s, e).value, WorkTime(s, e), cap))
    && match e
       case JoinEvent(id, _, _) =>
         Count(s.rows, Waiting) < MaxWaiting(s.meta) && (Has(s.rows, id) ==> IsActive(Get(s.rows, id)))
       case AlarmFinishEvent(_, _) =>
         ConfigOf(s, e).Some? ==> EffectiveRate(s.meta, ConfigOf(s, e).value, WorkTime(s, e)) == rate > 0.0
       case _ => true
  }

  /** What an event is to the plain queue. */
  function OpsOf(s: Room, e: Event): seq<Op> {
    match e
    case JoinEvent(id, _, _) => [OpArrive(id)]
    case LeaveEvent(id, _, _, _) => [OpDepart(id)]
    case AlarmFinishEvent(_, _) => if ConfigOf(s, e).Some? then [OpTick] else []
    case _ => []
  }

  // ---------- one event ----------

  /** The traffic counters, the alarm and the view returned are not seen. */
  lemma AddIsInsert(s: Room, config: QueueConfig, id: string, now: int, admit: bool)
    requires !Has(s.rows, id)
    ensures var r := NewRow(s, config, id, now, admit);
            && r.id == id && r.status == (if admit then Admitted else Waiting)
            && FifoOf(AddVisitor(s, config, id, now, admit).0) == FifoOf(Insert(s, r))
  {
    hide TicketsIn, Guests;
  }

  lemma AddMirrors(s: Room, config: QueueConfig, id: string, now: int, admit: bool)
    requires TableOk(s) && !Has(s.rows, id) && admit == (Count(s.rows, Admitted) < config.maxConcurrentUsers)
    ensures FifoOf(AddVisitor(s, config, id, now, admit).0) == Arrive(FifoOf(s), config.maxConcurrentUsers, id)
  {
    GuestsAreCounted(s.rows, s.meta.nextSequence);
    hide NewRow, AddVisitor, Insert, TicketsIn, TableOk, Where, Guests, InLine, IsSeated, Has, Get;
    AbsentIsAbsent(s, id);
    AddIsInsert(s, config, id, now, admit);
    InsertSeen(s, NewRow(s, config, id, now, admit));
  }

  lemma AbsentIsAbsent(s: Room, id: string)
    requires TableOk(s) && !Has(s.rows, id)
    ensures !InLine(FifoOf(s), id) && !IsSeated(FifoOf(s), id)
  {
    WhoIsPresent(s, id);
    hide TableOk, FifoOf, InLine, IsSeated;
  }

  lemma JoinMirrors(s: Room, config: QueueConfig, id: string, now: int)
    requires TableOk(s) && CanAdmit(s.meta, now) && Count(s.rows, Waiting) < MaxWaiting(s.meta)
    requires Has(s.rows, id) ==> IsActive(Get(s.rows, id))
    ensures FifoOf(JoinAfterSweep(s, config, id, now).0) == Arrive(FifoOf(s), config.maxConcurrentUsers, id)
  {
    hide CanAdmit, MaxWaiting, AddVisitor;
    if Has(s.rows, id) {
      WhoIsPresent(s, id);
    } else {
      AddMirrors(s, config, id, now, Count(s.rows, Admitted) < config.maxConcurrentUsers);
    }
  }

  /** Where somebody waits there is no open slot, so a batch from the waiting set is empty. */
  lemma NoBatch(s: Room, config: QueueConfig, now: int, gate: bool, limit: nat, picks: seq<string>)
    requires TableOk(s) && PicksAllowed(s, config, gate, limit, picks) && ModeOf(s.meta, config) == Queue
    requires limit <= Slots(s, config) && FifoInv(FifoOf(s), config.maxConcurrentUsers)
    ensures picks == []
  {
    GuestsAreCounted(s.rows, s.meta.nextSequence);
    BatchSeen(s, config, now, gate, limit, picks);
  }

  /** One seat has become free, and it goes to the first in line. */
  lemma OneSeat(f: Fifo, t: Ticket, cap: nat, n: nat)
    requires FifoInv(f, cap) && t in f.admitted && n == Min(cap - (|f.admitted| - 1), |f.line|)
    ensures n == if f.line == [] then 0 else 1
    ensures f.line[n..] == if f.line == [] then [] else f.line[1..]
    ensures f.admitted - {t} + Front(f.line, n) ==
            if f.line == [] then f.admitted - {t} else f.admitted - {t} + {f.line[0]}
  {
  }

  /** After a departure, only the vacated row and the batch are seen. */
  lemma LeaveIsBatch(s: Room, config: QueueConfig, id: string, now: int, picks: seq<string>)
    requires IsPresent(s, id)
    ensures FifoOf(LeaveAfterSweep(s, config, id, now, picks).0) == FifoOf(AdmitPicks(Vacate(s, id), config, now, picks))
  {
    hide TicketsIn, Guests, AdmitPicks, Vacate;
  }

  lemma LeaveSeatMirrors(s: Room, config: QueueConfig, id: string, now: int, picks: seq<string>)
    requires TableOk(s) && CanAdmit(s.meta, now) && ModeOf(s.meta, config) == Queue
    requires LeavePicks(s, config, id, now, picks) && FifoInv(FifoOf(s), config.maxConcurrentUsers)
    requires Has(s.rows, id) && Get(s.rows, id).status == Admitted
    ensures FifoOf(LeaveAfterSweep(s, config, id, now, picks).0) == Depart(FifoOf(s), config.maxConcurrentUsers, id)
  {
    hide CanAdmit, MaxWaiting, Depart, LeaveAfterSweep, AdmitPicks;
    var v, t, f := Vacate(s, id), TicketFor(Get(s.rows, id)), FifoOf(s);
    VacateSeat(s, id);
    VacateMoves(s, id, true, 0, 0);
    GuestsAreCounted(v.rows, v.meta.nextSequence);
    BatchSeen(v, config, now, true, Slots(v, config), picks);
    LeaveIsBatch(s, config, id, now, picks);
    SeatPasses(f, FifoOf(v), t, config.maxConcurrentUsers, |picks|);
  }

  lemma SeatPasses(f: Fifo, g: Fifo, t: Ticket, cap: nat, n: nat)
    requires FifoInv(f, cap) && t in f.admitted && g == f.(admitted := f.admitted - {t})
    requires n == Min(OpenSlots(cap, |g.admitted|), |f.line|)
    ensures g.(line := g.line[n..], admitted := g.admitted + Front(g.line, n)) == Depart(f, cap, t.id)
  {
    DepartSeat(f, cap, t);
    OneSeat(f, t, cap, n);
  }

  lemma LeaveLineMirrors(s: Room, config: QueueConfig, id: string, now: int, picks: seq<string>)
    requires TableOk(s) && CanAdmit(s.meta, now) && ModeOf(s.meta, config) == Queue
    requires LeavePicks(s, config, id, now, picks) && FifoInv(FifoOf(s), config.maxConcurrentUsers)
    requires IsWaiting(s.rows, id) && InLine(FifoOf(s), id)
    ensures FifoOf(LeaveAfterSweep(s, config, id, now, picks).0) == Depart(FifoOf(s), config.maxConcurrentUsers, id)
  {
    var v := Vacate(s, id);
    VacateLine(s, id);
    VacateMoves(s, id, true, 0, 0);
    GuestsAreCounted(s.rows, s.meta.nextSequence);
    GuestsAreCounted(v.rows, v.meta.nextSequence);
    assert Slots(v, config) == 0;
    assert picks == [];
    hide CanAdmit, Where, TableOk, Vacate, HasQueueWork, AlarmInterval, Earliest;
  }

  lemma LeaveMirrors(s: Room, config: QueueConfig, id: string, now: int, picks: seq<string>)
    requires TableOk(s) && CanAdmit(s.meta, now) && ModeOf(s.meta, config) == Queue
    requires LeavePicks(s, config, id, now, picks) && FifoInv(FifoOf(s), config.maxConcurrentUsers)
    ensures FifoOf(LeaveAfterSweep(s, config, id, now, picks).0) == Depart(FifoOf(s), config.maxConcurrentUsers, id)
  {
    WhoIsPresent(s, id);
    if IsWaiting(s.rows, id) {
      LeaveLineMirrors(s, config, id, now, picks);
    } else if Has(s.rows, id) && Get(s.rows, id).status == Admitted {
      LeaveSeatMirrors(s, config, id, now, picks);
    } else {
      WithoutAbsent(FifoOf(s).line, id);
    }
  }

  /** One second's budget is the whole part of the remainder and the rate; the fraction is kept. */
  lemma BudgetOfTick(s: Room, config: QueueConfig, now: int, rate: real)
    requires EffectiveRate(s.meta, config, now) == rate > 0.0
    ensures TickBudget(s, config, now).nextRemainder == Accrue(FifoOf(s), rate).remainder
  {
    hide EffectiveRate;
    assert 1000 as real / 1000.0 == 1.0;
  }

  lemma FinishIsTick(s: Room, now: int, picks: seq<string>)
    requires AlarmAdmits(s) && s.handler.value.config.Some? && picks == []
    ensures var h := s.handler.value;
            FifoOf(AlarmFinish(s, now, picks)) ==
            FifoOf(s).(remainder := TickBudget(s, h.config.value, h.now).nextRemainder)
  {
    hide TicketsIn, Guests, TickBudget;
  }

  lemma FinishMirrors(s: Room, now: int, picks: seq<string>, cap: nat, rate: real)
    requires TableOk(s) && AlarmAdmits(s) && FinishPicks(s, picks) && FifoInv(FifoOf(s), cap)
    requires Quiet(s, AlarmFinishEvent(now, picks), cap, rate)
    ensures FifoOf(AlarmFinish(s, now, picks)) ==
            if s.handler.value.config.Some? then Tick(FifoOf(s), cap, rate) else FifoOf(s)
  {
    var h := s.handler.value;
    hide TickBudget, CanAdmit, EffectiveRate, NobodyTimesOut, FifoOf, TableOk, FifoInv, Tick, Slots;
    if h.config.Some? {
      NoBatch(s, h.config.value, h.now, true, BudgetLimit(s, h.config.value, h.now), picks);
      TickAdmitsNobody(FifoOf(s), cap, rate);
      BudgetOfTick(s, h.config.value, h.now, rate);
      FinishIsTick(s, now, picks);
    } else {
      SameRows(s, AlarmFinish(s, now, picks));
    }
  }

  lemma CheckInMirrors(s: Room, config: QueueConfig, id: string, now: int)
    ensures FifoOf(StatusAfterSweep(s, config, id, now).0) == FifoOf(s)
    ensures FifoOf(HeartbeatAfterSweep(s, config, id, now).0) == FifoOf(s)
  {
    if IsWaiting(s.rows, id) {
      UpdateUnseen(s, IndexOf(s.rows, id), CheckedIn(s, config, Get(s.rows, id), now));
    }
  }

  lemma EnterMirrors(s: Room, config: QueueConfig, id: string, now: int)
    ensures FifoOf(EnterAfterSweep(s, config, id, now).0) == FifoOf(s)
  {
    if Has(s.rows, id) && Get(s.rows, id).status == Admitted {
      UpdateUnseen(s, IndexOf(s.rows, id), Get(s.rows, id).(entered := true));
    }
  }

  /** A request that starts with a sweep: the sweep is not seen, and the settings are still the same. */
  lemma StartUnseen(s: Room, config: QueueConfig, now: int, force: bool, cap: nat)
    requires TableOk(s) && QuietRoom(s, config, now, cap)
    ensures var b := Begin(s, config, now, force);
            && TableOk(b) && FifoOf(b) == FifoOf(s) && Count(b.rows, Waiting) == Count(s.rows, Waiting)
            && CanAdmit(b.meta, now) && ModeOf(b.meta, config) == Queue && MaxWaiting(b.meta) == MaxWaiting(s.meta)
  {
    BeginUnseen(s, config, now, force);
    assert |FifoOf(Begin(s, config, now, force)).line| == |FifoOf(s).line|;
  }

  lemma JoinEventMirrors(s: Room, config: QueueConfig, id: string, now: int, cap: nat, rate: real)
    requires TableOk(s) && Quiet(s, JoinEvent(id, config, now), cap, rate)
    ensures FifoOf(Join(s, config, id, now).0) == Arrive(FifoOf(s), cap, id)
  {
    var b := Begin(s, config, now, true);
    StartUnseen(s, config, now, true, cap);
    BeginUnseen(s, config, now, true);
    if Has(b.rows, id) {
      RowIsGet(s.rows, Get(b.rows, id));
    }
    JoinMirrors(b, config, id, now);
  }

  lemma AlarmUnseen(s: Room, now: int)
    ensures FifoOf(EnsureAlarm(s, now)) == FifoOf(s)
  {
    hide HasQueueWork, AlarmInterval, Earliest, TicketsIn, Guests;
  }

  lemma ForceEventMirrors(s: Room, config: QueueConfig, count: int, now: int, picks: seq<string>, cap: nat)
    requires TableOk(s) && QuietRoom(s, config, now, cap) && FifoInv(FifoOf(s), cap)
    requires ForcePicks(Begin(s, config, now, true), config, count, now, picks)
    ensures FifoOf(ForceAdmit(s, config, now, picks)) == FifoOf(s)
  {
    var b := Begin(s, config, now, true);
    StartUnseen(s, config, now, true, cap);
    NoBatch(b, config, now, true, ForceLimit(b, config, count), picks);
    AlarmUnseen(b, now);
    hide Begin, TableOk, CanAdmit, FifoInv, FifoOf, EnsureAlarm, QuietRoom, PicksAllowed;
  }

  lemma LeaveEventMirrors(s: Room, config: QueueConfig, id: string, now: int, picks: seq<string>, cap: nat)
    requires TableOk(s) && QuietRoom(s, config, now, cap) && FifoInv(FifoOf(s), cap)
    requires LeavePicks(Begin(s, config, now, true), config, id, now, picks)
    ensures FifoOf(Leave(s, config, id, now, picks).0) == Depart(FifoOf(s), cap, id)
  {
    StartUnseen(s, config, now, true, cap);
    LeaveMirrors(Begin(s, config, now, true), config, id, now, picks);
  }

  lemma CheckInEventMirrors(s: Room, config: QueueConfig, id: string, now: int, cap: nat)
    requires TableOk(s) && QuietRoom(s, config, now, cap)
    ensures FifoOf(CheckStatus(s, config, id, now).0) == FifoOf(s)
    ensures FifoOf(Heartbeat(s, config, id, now).0) == FifoOf(s)
    ensures FifoOf(Begin(s, config, now, false)) == FifoOf(s)
  {
    StartUnseen(s, config, now, false, cap);
    CheckInMirrors(Begin(s, config, now, false), config, id, now);
  }

  lemma EnterEventMirrors(s: Room, config: QueueConfig, id: string, now: int, cap: nat)
    requires TableOk(s) && QuietRoom(s, config, now, cap)
    ensures FifoOf(Enter(s, config, id, now).0) == FifoOf(s)
  {
    StartUnseen(s, config, now, true, cap);
    EnterMirrors(Begin(s, config, now, true), config, id, now);
  }

  lemma AlarmSweepMirrors(s: Room, now: int, cap: nat, rate: real)
    requires TableOk(s) && AlarmSweeps(s) && Quiet(s, AlarmSweepEvent(now), cap, rate)
    ensures FifoOf(AlarmSweep(s)) == FifoOf(s)
  {
    if s.meta.config.Some? {
      SweepUnseen(s, s.meta.config.value, s.handler.value.now, true);
    }
  }

  lemma OperateMirrors(s: Room, change: Change, now: int)
    ensures FifoOf(Operate(s, change, now)) == FifoOf(s)
  {
  }

  /** The queue after one quiet event. */
  function After(f: Fifo, cap: nat, rate: real, ops: seq<Op>): Fifo {
    if ops == [] then f else Apply(f, cap, rate, ops[0])
  }

  lemma StepMirrors(s: Room, e: Event, cap: nat, rate: real)
    requires TableOk(s) && Enabled(s, e) && Quiet(s, e, cap, rate) && FifoInv(FifoOf(s), cap)
    ensures FifoOf(Step(s, e)) == After(FifoOf(s), cap, rate, OpsOf(s, e))
  {
    hide FifoOf, FifoInv, NobodyTimesOut, Join, Leave, ForceAdmit, CheckStatus, Heartbeat, Enter, Begin, AlarmSweep, AlarmFinish, Operate, Arrive, Depart, Tick;
    match e
    case JoinEvent(id, config, now) => JoinEventMirrors(s, config, id, now, cap, rate);
    case StatusEvent(id, config, now) => CheckInEventMirrors(s, config, id, now, cap);
    case HeartbeatEvent(id, config, now) => CheckInEventMirrors(s, config, id, now, cap);
    case EnterEvent(id, config, now) => EnterEventMirrors(s, config, id, now, cap);
    case LeaveEvent(id, config, now, picks) => LeaveEventMirrors(s, config, id, now, picks, cap);
    case ForceAdmitEvent(count, config, now, picks) => ForceEventMirrors(s, config, count, now, picks, cap);
    case MetricsEvent(config, now) => CheckInEventMirrors(s, config, "", now, cap);
    case AlarmSweepEvent(now) => AlarmSweepMirrors(s, now, cap, rate);
    case AlarmFinishEvent(now, picks) => FinishMirrors(s, now, picks, cap, rate);
    case OperateEvent(change, now) => OperateMirrors(s, change, now);
    case _ => SameRows(s, Step(s, e));
  }

  lemma SameRows(s: Room, t: Room)
    requires t.rows == s.rows && t.meta.nextSequence == s.meta.nextSequence
    requires t.meta.admitRemainder == s.meta.admitRemainder
    ensures FifoOf(t) == FifoOf(s)
  {
  }

  // ---------- runs ----------

  ghost predicate QuietRun(s: Room, clock: int, es: seq<Event>, cap: nat, rate: real)
    requires Legal(s, clock, es)
    decreases |es|
  {
    es == [] || (Quiet(s, es[0], cap, rate) && QuietRun(Step(s, es[0]), es[0].now, es[1..], cap, rate))
  }

  ghost function OpsOfRun(s: Room, clock: int, es: seq<Event>): seq<Op>
    requires Legal(s, clock, es)
    decreases |es|
  {
    if es == [] then [] else OpsOf(s, es[0]) + OpsOfRun(Step(s, es[0]), es[0].now, es[1..])
  }

  lemma StepKeepsFifo(s: Room, e: Event, cap: nat, rate: real)
    requires TableOk(s) && Enabled(s, e) && Quiet(s, e, cap, rate) && FifoInv(FifoOf(s), cap)
    ensures TableOk(Step(s, e)) && FifoInv(FifoOf(Step(s, e)), cap)
    ensures FifoOf(Step(s, e)) == After(FifoOf(s), cap, rate, OpsOf(s, e))
  {
    hide TableOk, Enabled, Quiet, FifoInv, FifoOf, Step, Apply, WorkTime, CanAdmit;
    StepMoves(s, e);
    StepMirrors(s, e, cap, rate);
    if OpsOf(s, e) != [] {
      ApplyKeepsInv(FifoOf(s), cap, rate, OpsOf(s, e)[0]);
    }
  }

  /** Along a quiet run the room is the plain queue: same line, same guests, same numbers, same remainder. */
  lemma {:induction false} RunMirrors(s: Room, clock: int, es: seq<Event>, cap: nat, rate: real)
    requires TableOk(s) && Legal(s, clock, es) && QuietRun(s, clock, es, cap, rate) && FifoInv(FifoOf(s), cap)
    ensures FifoOf(Run(s, clock, es)) == ApplyAll(FifoOf(s), cap, rate, OpsOfRun(s, clock, es))
    ensures FifoInv(FifoOf(Run(s, clock, es)), cap)
    decreases |es|
  {
    hide TableOk, Enabled, Quiet, FifoInv, FifoOf, Step, Apply;
    if es != [] {
      var t := Step(s, es[0]);
      StepKeepsFifo(s, es[0], cap, rate);
      RunMirrors(t, es[0].now, es[1..], cap, rate);
      var first, rest := OpsOf(s, es[0]), OpsOfRun(t, es[0].now, es[1..]);
      assert first + rest == if first == [] then rest else [first[0]] + rest;
      assert first != [] ==> (first + rest)[1..] == rest;
    }
  }

  // ---------- the simulator beside the room ----------

  function Named(op: Op): set<string> {
    if op.OpArrive? then {op.id} else {}
  }

  /** The operation is no arrival under an id that was used before and is no longer present. */
  predicate FreshOp(f: Fifo, seen: set<string>, op: Op) {
    op.OpArrive? ==> InLine(f, op.id) || IsSeated(f, op.id) || op.id !in seen
  }

  predicate NoReuse(f: Fifo, cap: nat, rate: real, ops: seq<Op>, seen: set<string>)
    decreases |ops|
  {
    ops == [] ||
    (FreshOp(f, seen, ops[0]) && NoReuse(Apply(f, cap, rate, ops[0]), cap, rate, ops[1..], seen + Named(ops[0])))
  }

  method Perform(q: InMemoryQueue, op: Op, draws: nat -> real)
    requires q.Valid() && q.Tidy() && forall i :: 0.0 <= draws(i) < 1.0
    requires FreshOp(q.Model(), q.seen, op)
    modifies q
    ensures q.Valid() && q.Tidy()
    ensures q.Model() == Apply(old(q.Model()), q.config.maxConcurrentUsers, q.config.admitPerSecond, op)
    ensures q.seen == old(q.seen) + Named(op)
  {
    hide Arrive, Depart, FifoQueue.Tick, ModelOf, Counted, LineOf, InLine, IsSeated;
    match op
    case OpArrive(id) =>
      q.Presence(id);
      assert id in q.visitors ==> q.seen + {id} == q.seen;
      hide Orderly;
      var _ := q.Join(id);
    case OpDepart(id) =>
      q.Leave(id, draws);
    case OpTick =>
      var _ := q.Tick(1.0, draws);
  }

  /** The simulator carries out a run of operations as the plain queue does. */
  method Replay(q: InMemoryQueue, ops: seq<Op>, draws: nat -> real)
    requires q.Valid() && q.Tidy() && forall i :: 0.0 <= draws(i) < 1.0
    requires NoReuse(q.Model(), q.config.maxConcurrentUsers, q.config.admitPerSecond, ops, q.seen)
    modifies q
    ensures q.Valid() && q.Tidy()
    ensures q.Model() == ApplyAll(old(q.Model()), q.config.maxConcurrentUsers, q.config.admitPerSecond, ops)
  {
    hide Apply, ModelOf, Counted, Orderly, LineOf, FreshOp, Named;
    ghost var cap, rate := q.config.maxConcurrentUsers, q.config.admitPerSecond;
    for i := 0 to |ops|
      invariant q.Valid() && q.Tidy()
      invariant NoReuse(q.Model(), cap, rate, ops[i..], q.seen)
      invariant ApplyAll(q.Model(), cap, rate, ops[i..]) == ApplyAll(old(q.Model()), cap, rate, ops)
    {
      assert ops[i..][0] == ops[i] && ops[i..][1..] == ops[i + 1..];
      Perform(q, ops[i], draws);
    }
  }

  /**
   The mirror: from an empty room and an empty simulator, after any quiet run with ids that are not used again
   the waiting order, the admitted visitors, the sequence numbers and the budget remainder are equal.
   */
  method MirrorRun(config: SimConfig, ops: seq<Op>, draws: nat -> real, ghost clock: int, ghost es: seq<Event>)
    returns (q: InMemoryQueue)
    requires config.admissionMode == Queue && forall i :: 0.0 <= draws(i) < 1.0
    requires Legal(EMPTY_ROOM, clock, es)
    requires QuietRun(EMPTY_ROOM, clock, es, config.maxConcurrentUsers, config.admitPerSecond)
    requires ops == OpsOfRun(EMPTY_ROOM, clock, es)
    requires NoReuse(EMPTY_FIFO, config.maxConcurrentUsers, config.admitPerSecond, ops, {})
    ensures fresh(q) && q.Valid() && q.Model() == FifoOf(Run(EMPTY_ROOM, clock, es))
  {
    q := new InMemoryQueue(config);
    EmptyMirrors();
    Replay(q, ops, draws);
    hide QuietRun, Legal, FifoInv;
    RunMirrors(EMPTY_ROOM, clock, es, config.maxConcurrentUsers, config.admitPerSecond);
  }

  lemma EmptyMirrors()
    ensures TableOk(EMPTY_ROOM) && FifoOf(EMPTY_ROOM) == EMPTY_FIFO
    ensures forall cap: nat :: FifoInv(EMPTY_FIFO, cap)
  {
  }
}
