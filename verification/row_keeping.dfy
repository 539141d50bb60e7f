/** When one visitor's row survives a step untouched: the pieces, then whole requests. */
module RowKeeping {
  import opened Visitors
  import opened RoomState
  import opened RoomSteps
  import opened RoomRuns
  import opened TableMoves
  import opened Admission
  import opened RoomBounds

  // ---------- the row of one visitor under each piece of a step ----------

  /** The visitor's row is found where it was looked for. */
  lemma GetIsRow(rows: seq<Row>, r: Row)
    requires UniqueIds(rows) && r in rows
    ensures Has(rows, r.id) && Get(rows, r.id) == r
  {
    var k :| 0 <= k < |rows| && rows[k] == r;
    IndexOfUnique(rows, k);
  }

  /** The row is exactly as before, or it has just been admitted. */
  predicate KeptOrAdmitted(a: seq<Row>, b: seq<Row>, id: string)
    requires Has(a, id)
  {
    && Has(b, id)
    && (Get(b, id) == Get(a, id) || (Get(b, id).status == Admitted && Get(b, id).sequence == Get(a, id).sequence))
  }

  predicate Kept(a: seq<Row>, b: seq<Row>, id: string)
    requires Has(a, id)
  {
    Has(b, id) && Get(b, id) == Get(a, id)
  }

  lemma {:induction false} AppendKeeps(rows: seq<Row>, r: Row, id: string)
    requires Has(rows, id)
    ensures Kept(rows, rows + [r], id)
  {
    if rows[0].id != id {
      assert (rows + [r])[1..] == rows[1..] + [r];
      AppendKeeps(rows[1..], r, id);
    }
  }

  lemma UpdateKeeps(rows: seq<Row>, k: nat, r: Row, id: string)
    requires k < |rows| && r.id == rows[k].id && Has(rows, id) && rows[k].id != id
    ensures Kept(rows, rows[k := r], id)
  {
    UpdateKeepsIndex(rows, k, r, id);
  }

  /** The expiry of a sweep at this time leaves the present visitor's row alone. */
  predicate Spared(s: Room, config: QueueConfig, now: int, id: string) {
    IsPresent(s, id) &&
    var eff := EffectiveConfig(s.meta, config);
    Expire(Get(s.rows, id), eff, now, GraceMs(s.rows, eff)) == Get(s.rows, id)
  }

  /** The visitor's row comes through a sweep: the sweep is skipped, or it spares the row. */
  predicate Passes(s: Room, config: QueueConfig, now: int, force: bool, id: string) {
    IsPresent(s, id) && (SweepSkipped(s.meta, now, force) || Spared(s, config, now, id))
  }

  lemma SweepKeeps(s: Room, config: QueueConfig, now: int, force: bool, id: string)
    requires TableOk(s) && Passes(s, config, now, force, id)
    ensures Kept(s.rows, Sweep(s, config, now, force).rows, id)
  {
    if !SweepSkipped(s.meta, now, force) {
      var q, k := Get(s.rows, id), IndexOf(s.rows, id);
      var swept := Swept(s.rows, s.meta.(lastSweep := now), config, now);
      assert swept[k] == q && q in swept;
      var p := Survives(now - 60 * 60 * 1000);
      WhereMember(swept, p, q);
      SweepMoves(s, config, now, force);
      GetIsRow(Where(swept, p), q);
    }
  }

  lemma BatchKeeps(s: Room, config: QueueConfig, now: int, gate: bool, limit: nat, picks: seq<string>, id: string)
    requires TableOk(s) && PicksAllowed(s, config, gate, limit, picks) && Has(s.rows, id)
    ensures KeptOrAdmitted(s.rows, AdmitPicks(s, config, now, picks).rows, id)
    ensures Get(s.rows, id).status != Waiting ==> Kept(s.rows, AdmitPicks(s, config, now, picks).rows, id)
  {
    if picks != [] {
      SelectionTakesWaiters(s.rows, s.meta.nextSequence, ModeOf(s.meta, config), limit, picks);
      var entered := !EffectiveConfig(s.meta, config).requireClickToEnter;
      AdmitAllMoves(s.rows, picks, now, entered, s.meta.nextSequence);
      var b := AdmitAll(s.rows, picks, now, entered);
      assert IndexOf(b, id) == IndexOf(s.rows, id);
    }
  }

  /** The stay of one visitor is over for good: its row has expired or is not there any more. */
  ghost predicate Gone(rows: seq<Row>, id: string, sequence: nat) {
    forall r :: r in rows && r.id == id && r.sequence == sequence ==> r.status == Expired
  }

  /** Whatever a sweep does not let through has expired, and may be purged already. */
  lemma SweepTakes(s: Room, config: QueueConfig, now: int, force: bool, id: string)
    requires TableOk(s) && IsPresent(s, id) && !Passes(s, config, now, force, id)
    ensures Gone(Sweep(s, config, now, force).rows, id, Get(s.rows, id).sequence)
  {
    var k := IndexOf(s.rows, id);
    var swept := Swept(s.rows, s.meta.(lastSweep := now), config, now);
    var p := Survives(now - 60 * 60 * 1000);
    forall r | r in Where(swept, p) && r.id == id
      ensures r.status == Expired
    {
      WhereMember(swept, p, r);
      var i :| 0 <= i < |swept| && swept[i] == r;
      assert s.rows[i].id == s.rows[k].id;
    }
  }

  lemma GoneStays(s: Room, t: Room, id: string, sequence: nat, gate: bool, cap: nat, waitCap: nat)
    requires RoomMoves(s, t, gate, cap, waitCap) && Gone(s.rows, id, sequence) && sequence < s.meta.nextSequence
    ensures Gone(t.rows, id, sequence)
  {
    forall r | r in t.rows && r.id == id && r.sequence == sequence
      ensures r.status == Expired
    {
      var q :| q in s.rows && Descends(q, r);
    }
  }

  // ---------- the steps after their sweep ----------

  lemma AddVisitorKeeps(s: Room, config: QueueConfig, other: string, now: int, admit: bool, id: string)
    requires Has(s.rows, id)
    ensures Kept(s.rows, AddVisitor(s, config, other, now, admit).0.rows, id)
  {
    AppendKeeps(s.rows, NewRow(s, config, other, now, admit), id);
  }

  lemma JoinKeeps(s: Room, config: QueueConfig, other: string, now: int, id: string)
    requires Has(s.rows, id)
    ensures Kept(s.rows, JoinAfterSweep(s, config, other, now).0.rows, id)
  {
    AddVisitorKeeps(s, config, other, now, true, id);
    AddVisitorKeeps(s, config, other, now, false, id);
  }

  lemma CheckInKeeps(s: Room, config: QueueConfig, other: string, now: int, id: string)
    requires Has(s.rows, id) && (other != id || Get(s.rows, id).status != Waiting)
    ensures Kept(s.rows, StatusAfterSweep(s, config, other, now).0.rows, id)
    ensures Kept(s.rows, HeartbeatAfterSweep(s, config, other, now).0.rows, id)
  {
    if IsWaiting(s.rows, other) {
      var k := IndexOf(s.rows, other);
      UpdateKeeps(s.rows, k, CheckedIn(s, config, s.rows[k], now), id);
    }
  }

  lemma EnterKeeps(s: Room, config: QueueConfig, other: string, now: int, id: string)
    requires IsPresent(s, id) && (other != id || Get(s.rows, id).status == Waiting || Get(s.rows, id).entered)
    ensures Kept(s.rows, EnterAfterSweep(s, config, other, now).0.rows, id)
  {
    hide Where, ViewOf, HasQueueWork, AlarmInterval, Earliest;
    if Has(s.rows, other) && Get(s.rows, other).status == Admitted {
      var k := IndexOf(s.rows, other);
      var r := s.rows[k].(entered := true);
      assert EnterAfterSweep(s, config, other, now).0.rows == s.rows[k := r];
      hide EnterAfterSweep;
      if other == id {
        UpdateKeepsIndex(s.rows, k, r, id);
        assert Get(s.rows[k := r], id) == r;
      } else {
        UpdateKeeps(s.rows, k, r, id);
      }
    }
  }

  lemma VacateKeeps(s: Room, other: string, id: string)
    requires IsPresent(s, other) && Has(s.rows, id)
    ensures if other == id then Has(Vacate(s, id).rows, id) && Get(Vacate(s, id).rows, id).status == Left
            else Kept(s.rows, Vacate(s, other).rows, id)
  {
    var k := IndexOf(s.rows, other);
    UpdateKeepsIndex(s.rows, k, s.rows[k].(status := Left), id);
  }

  lemma LeaveKeeps(s: Room, config: QueueConfig, other: string, now: int, picks: seq<string>, id: string)
    requires TableOk(s) && IsPresent(s, id) && LeavePicks(s, config, other, now, picks)
    ensures var b := LeaveAfterSweep(s, config, other, now, picks).0.rows;
            if other == id then Has(b, id) && Get(b, id).status == Left
            else KeptOrAdmitted(s.rows, b, id) && (Get(s.rows, id).status != Waiting ==> Kept(s.rows, b, id))
  {
    if IsPresent(s, other) {
      var v := Vacate(s, other);
      VacateKeeps(s, other, id);
      VacateMoves(s, other, true, 0, 0);
      ForcedBatchKeeps(v, config, now, CanAdmit(s.meta, now), Slots(v, config), picks, id);
    }
  }

  lemma ForcedBatchKeeps(s: Room, config: QueueConfig, now: int, gate: bool, limit: nat, picks: seq<string>, id: string)
    requires TableOk(s) && PicksAllowed(s, config, gate, limit, picks) && Has(s.rows, id)
    ensures KeptOrAdmitted(s.rows, ForceAdmitAfterSweep(s, config, now, picks).rows, id)
    ensures Get(s.rows, id).status != Waiting ==> Kept(s.rows, ForceAdmitAfterSweep(s, config, now, picks).rows, id)
  {
    BatchKeeps(s, config, now, gate, limit, picks, id);
  }

  // ---------- whole requests ----------

  lemma BeginKeeps(s: Room, config: QueueConfig, now: int, force: bool, id: string)
    requires TableOk(s) && Passes(s, config, now, force, id)
    ensures Kept(s.rows, Begin(s, config, now, force).rows, id) && TableOk(Begin(s, config, now, force))
  {
    SweepKeeps(Remember(s, config), config, now, force, id);
    BeginMoves(s, config, now, force, true, 0, 0);
  }

  lemma JoinSpares(s: Room, config: QueueConfig, other: string, now: int, id: string)
    requires TableOk(s) && Spared(s, config, now, id)
    ensures Kept(s.rows, Join(s, config, other, now).0.rows, id)
  {
    BeginKeeps(s, config, now, true, id);
    JoinKeeps(Begin(s, config, now, true), config, other, now, id);
  }

  lemma CheckInSpares(s: Room, config: QueueConfig, other: string, now: int, id: string)
    requires TableOk(s) && Passes(s, config, now, false, id) && (other != id || Get(s.rows, id).status != Waiting)
    ensures Kept(s.rows, CheckStatus(s, config, other, now).0.rows, id)
    ensures Kept(s.rows, Heartbeat(s, config, other, now).0.rows, id)
  {
    BeginKeeps(s, config, now, false, id);
    CheckInKeeps(Begin(s, config, now, false), config, other, now, id);
  }

  lemma EnterSpares(s: Room, config: QueueConfig, other: string, now: int, id: string)
    requires TableOk(s) && Spared(s, config, now, id)
    requires other != id || Get(s.rows, id).status == Waiting || Get(s.rows, id).entered
    ensures Kept(s.rows, Enter(s, config, other, now).0.rows, id)
  {
    BeginKeeps(s, config, now, true, id);
    EnterKeeps(Begin(s, config, now, true), config, other, now, id);
  }

  lemma LeaveSpares(s: Room, config: QueueConfig, other: string, now: int, picks: seq<string>, id: string)
    requires TableOk(s) && Spared(s, config, now, id)
    requires LeavePicks(Begin(s, config, now, true), config, other, now, picks)
    ensures var b := Leave(s, config, other, now, picks).0.rows;
            if other == id then Has(b, id) && Get(b, id).status == Left
            else KeptOrAdmitted(s.rows, b, id) && (Get(s.rows, id).status != Waiting ==> Kept(s.rows, b, id))
  {
    BeginKeeps(s, config, now, true, id);
    LeaveKeeps(Begin(s, config, now, true), config, other, now, picks, id);
  }

  lemma ForceAdmitSpares(s: Room, config: QueueConfig, count: int, now: int, picks: seq<string>, id: string)
    requires TableOk(s) && Spared(s, config, now, id)
    requires ForcePicks(Begin(s, config, now, true), config, count, now, picks)
    ensures KeptOrAdmitted(s.rows, ForceAdmit(s, config, now, picks).rows, id)
    ensures Get(s.rows, id).status != Waiting ==> Kept(s.rows, ForceAdmit(s, config, now, picks).rows, id)
  {
    var b := Begin(s, config, now, true);
    BeginKeeps(s, config, now, true, id);
    BatchKeeps(b, config, now, CanAdmit(b.meta, now), ForceLimit(b, config, count), picks, id);
  }

  lemma AlarmSweepSpares(s: Room, id: string)
    requires TableOk(s) && AlarmSweeps(s) && IsPresent(s, id)
    requires s.meta.config.Some? ==> Spared(s, s.meta.config.value, s.handler.value.now, id)
    ensures Kept(s.rows, AlarmSweep(s).rows, id)
  {
    if s.meta.config.Some? {
      SweepKeeps(s, s.meta.config.value, s.handler.value.now, true, id);
    }
  }

  lemma BudgetKeeps(s: Room, config: QueueConfig, now: int, picks: seq<string>, id: string)
    requires TableOk(s) && Has(s.rows, id)
    requires PicksAllowed(s, config, CanAdmit(s.meta, now), BudgetLimit(s, config, now), picks)
    ensures KeptOrAdmitted(s.rows, AdmitFromBudget(s, config, now, picks).rows, id)
    ensures Get(s.rows, id).status != Waiting ==> Kept(s.rows, AdmitFromBudget(s, config, now, picks).rows, id)
  {
    var ticked := s.(meta := s.meta.(admitRemainder := TickBudget(s, config, now).nextRemainder));
    assert ModeOf(ticked.meta, config) == ModeOf(s.meta, config);
    hide TickBudget, BudgetLimit, CanAdmit, AdmitPicks, Get, Has, Selection, ModeOf, KeptOrAdmitted, Kept;
    BatchKeeps(ticked, config, now, CanAdmit(s.meta, now), BudgetLimit(s, config, now), picks, id);
  }

  lemma FinishRows(s: Room, now: int, picks: seq<string>)
    requires AlarmAdmits(s)
    ensures var h := s.handler.value;
            AlarmFinish(s, now, picks).rows ==
            if h.config.None? then s.rows else AdmitFromBudget(s, h.config.value, h.now, picks).rows
  {
    hide AdmitFromBudget;
  }

  lemma SameRowKept(rows: seq<Row>, id: string)
    requires Has(rows, id)
    ensures Kept(rows, rows, id) && KeptOrAdmitted(rows, rows, id)
  {
  }

  lemma FinishKeeps(s: Room, now: int, picks: seq<string>, id: string)
    requires TableOk(s) && AlarmAdmits(s) && FinishPicks(s, picks) && Has(s.rows, id)
    ensures KeptOrAdmitted(s.rows, AlarmFinish(s, now, picks).rows, id)
    ensures Get(s.rows, id).status != Waiting ==> Kept(s.rows, AlarmFinish(s, now, picks).rows, id)
  {
    var h := s.handler.value;
    if h.config.Some? {
      BudgetKeeps(s, h.config.value, h.now, picks, id);
    }
    FinishRows(s, now, picks);
    SameRowKept(s.rows, id);
    hide AlarmFinish, AdmitFromBudget, KeptOrAdmitted, Kept;
  }

  lemma {:induction false} AppendGet(rows: seq<Row>, r: Row)
    requires !Has(rows, r.id)
    ensures Has(rows + [r], r.id) && Get(rows + [r], r.id) == r
  {
    if rows != [] {
      assert (rows + [r])[1..] == rows[1..] + [r];
      AppendGet(rows[1..], r);
    }
  }

  // ---------- the other events ----------

  /** They leave the table alone. */
  lemma OthersKeepTheTable(s: Room, e: Event)
    requires Enabled(s, e) && !IsRequest(e) && !IsAlarmWork(e)
    ensures Step(s, e).rows == s.rows
  {
  }

  /** What a request does after its sweep brings nobody back. */
  lemma RestKeepsGone(s: Room, b: Room, e: Event, id: string, sequence: nat)
    requires Enabled(s, e) && IsRequest(e) && b == Begin(s, e.config, e.now, ForcesSweep(e))
    requires TableOk(b) && Gone(b.rows, id, sequence) && sequence < b.meta.nextSequence
    ensures Gone(Step(s, e).rows, id, sequence)
  {
    var t := Step(s, e);
    hide TableOk, Gone, Begin, RoomMoves, CanAdmit, MaxWaiting, JoinAfterSweep, CheckInAfterSweep, EnterAfterSweep,
      LeaveAfterSweep, ForceAdmitAfterSweep, PicksAllowed;
    match e
    case JoinEvent(other, config, now) =>
      JoinAfterSweepMoves(b, config, other, now);
      GoneStays(b, t, id, sequence, CanAdmit(b.meta, now), config.maxConcurrentUsers, MaxWaiting(b.meta));
    case StatusEvent(other, config, now) =>
      if IsWaiting(b.rows, other) {
        CheckInAfterSweepMoves(b, config, other, now, true, 0, 0);
        GoneStays(b, t, id, sequence, true, 0, 0);
      }
    case HeartbeatEvent(other, config, now) =>
      if IsWaiting(b.rows, other) {
        CheckInAfterSweepMoves(b, config, other, now, true, 0, 0);
        GoneStays(b, t, id, sequence, true, 0, 0);
      }
    case EnterEvent(other, config, now) =>
      EnterAfterSweepMoves(b, config, other, now, true, 0, 0);
      GoneStays(b, t, id, sequence, true, 0, 0);
    case LeaveEvent(other, config, now, picks) =>
      LeaveAfterSweepMoves(b, config, other, now, picks, 0);
      GoneStays(b, t, id, sequence, CanAdmit(b.meta, now), config.maxConcurrentUsers, 0);
    case ForceAdmitEvent(count, config, now, picks) =>
      ForceAdmitAfterSweepMoves(b, config, now, CanAdmit(b.meta, now), ForceLimit(b, config, count), picks, 0);
      GoneStays(b, t, id, sequence, CanAdmit(b.meta, now), config.maxConcurrentUsers, 0);
    case MetricsEvent(config, now) =>
  }

  lemma BeginTakes(s: Room, config: QueueConfig, now: int, force: bool, id: string)
    requires TableOk(s) && IsPresent(s, id) && !Passes(s, config, now, force, id)
    ensures var b := Begin(s, config, now, force);
            && TableOk(b) && Gone(b.rows, id, Get(s.rows, id).sequence)
            && Get(s.rows, id).sequence < b.meta.nextSequence
  {
    SweepTakes(Remember(s, config), config, now, force, id);
    BeginMoves(s, config, now, force, true, 0, 0);
    assert s.rows[IndexOf(s.rows, id)].sequence < s.meta.nextSequence;
    BeginKeepsSettings(s, config, now, force, 0);
    hide Begin, Gone, Sweep;
  }

  /** A request whose sweep does not let the row through ends the visitor's stay. */
  lemma RequestTakes(s: Room, e: Event, id: string)
    requires TableOk(s) && Enabled(s, e) && IsRequest(e) && IsPresent(s, id)
    requires !Passes(s, e.config, e.now, ForcesSweep(e), id)
    ensures Gone(Step(s, e).rows, id, Get(s.rows, id).sequence)
  {
    hide Begin, Step, Enabled, Gone, Get, TableOk, Passes;
    BeginTakes(s, e.config, e.now, ForcesSweep(e), id);
    RestKeepsGone(s, Begin(s, e.config, e.now, ForcesSweep(e)), e, id, Get(s.rows, id).sequence);
  }
}
