/**
 The Durable Object of one waiting room as the source runs it: a storage whose tables and keys are updated
 statement by statement, a depth counter mirrored in memory and in two meta keys, and a memoized count of
 people ahead. Every method is proved to take exactly the step RoomSteps describes on the tables alone, so
 the caches can never be noticed; Valid says that they always agree with the plain counts.
 */
module QueueRooms {
  import opened Wrappers
  import opened Engine
  import opened Health
  import opened Visitors
  import opened TrafficBuckets
  import opened WebhookOutbox
  import opened RoomState
  import RoomSteps
  import opened RoomRuns
  import opened TableMoves
  import opened Admission
  import opened Lottery
  import opened RowKeeping

  datatype Depth = Depth(waiting: int, admitted: int)

  // ---------- the UPDATE and DELETE statements of a sweep ----------

  function Overstayed(stayCutoff: int, missedSlotCutoff: int, heartbeatCutoff: int): Row -> bool {
    (r: Row) =>
      r.status == Waiting &&
      (|| r.joinedAt <= stayCutoff
       || (r.nextCheckAt.Some? && r.nextCheckAt.value <= missedSlotCutoff)
       || (r.nextCheckAt.None? && r.lastHeartbeatAt <= heartbeatCutoff))
  }

  function AdmissionLapsed(entered: bool, cutoff: int): Row -> bool {
    (r: Row) => r.status == Admitted && r.entered == entered && r.admittedAt.Some? && r.admittedAt.value <= cutoff
  }

  /** UPDATE visitors SET status = 'expired' WHERE p */
  function SetExpired(rows: seq<Row>, p: Row -> bool): (after: seq<Row>)
    ensures |after| == |rows|
    ensures forall i :: 0 <= i < |rows| ==> after[i] == if p(rows[i]) then rows[i].(status := Expired) else rows[i]
  {
    seq(|rows|, i requires 0 <= i < |rows| => if p(rows[i]) then rows[i].(status := Expired) else rows[i])
  }

  lemma {:induction false} NothingWritten(rows: seq<Row>, p: Row -> bool)
    requires Where(rows, p) == []
    ensures SetExpired(rows, p) == rows
  {
    forall i | 0 <= i < |rows|
      ensures !p(rows[i])
    {
      WhereMember(rows, p, rows[i]);
    }
  }

  class QueueRoom {
    /** SQL tables, meta keys and alarm; its two history counters are only ever added to. */
    var storage: Room
    /** The meta keys count_waiting and count_admitted. */
    var countWaiting: Option<int>
    var countAdmitted: Option<int>
    /** Memory only: lost when the object is evicted. */
    var depth: Option<Depth>
    var aheadCache: map<nat, nat>

    /** Both mirrors of the depth, where present, are the true row counts. */
    ghost predicate DepthCoherent()
      reads this
    {
      && (depth.Some? ==> depth.value == Depth(Count(storage.rows, Waiting), Count(storage.rows, Admitted)))
      && (countWaiting.Some? && countAdmitted.Some? ==>
            && countWaiting.value == Count(storage.rows, Waiting)
            && countAdmitted.value == Count(storage.rows, Admitted))
    }

    /** Every memoized count is what the query would return now. */
    ghost predicate AheadCoherent()
      reads this
    {
      forall q :: q in aheadCache ==>
        q < storage.meta.nextSequence && aheadCache[q] == CountAhead(storage.rows, q)
    }

    ghost predicate Valid()
      reads this
    {
      TableInv(storage.rows, storage.meta.nextSequence) && DepthCoherent() && AheadCoherent()
    }

    constructor ()
      ensures Valid() && storage == EMPTY_ROOM
    {
      storage := EMPTY_ROOM;
      depth, countWaiting, countAdmitted := Some(Depth(0, 0)), Some(0), Some(0);
      aheadCache := map[];
    }

    /** The object is evicted from memory and constructed again over the same storage. */
    method Evict()
      requires Valid() && storage.handler.None?
      modifies this`depth, this`aheadCache
      ensures Valid() && depth.None? && aheadCache == map[]
    {
      depth, aheadCache := None, map[];
    }

    // ---------- caches ----------

    method ReconcileDepth()
      modifies this`depth, this`aheadCache, this`countWaiting, this`countAdmitted
      ensures depth.Some? && DepthCoherent() && aheadCache == map[]
    {
      var waiting, admitted := Count(storage.rows, Waiting), Count(storage.rows, Admitted);
      depth := Some(Depth(waiting, admitted));
      countWaiting, countAdmitted := Some(waiting), Some(admitted);
      aheadCache := map[];
    }

    method EnsureDepth()
      modifies this`depth, this`aheadCache, this`countWaiting, this`countAdmitted
      ensures depth.Some? && (old(Valid()) ==> Valid())
      ensures old(depth).Some? ==> depth == old(depth) && aheadCache == old(aheadCache)
    {
      if depth.Some? {
        return;
      }
      if countWaiting.Some? && countAdmitted.Some? && countWaiting.value >= 0 && countAdmitted.value >= 0 {
        depth := Some(Depth(countWaiting.value, countAdmitted.value));
        return;
      }
      ReconcileDepth();
    }

    method CountByStatus(st: Status) returns (n: nat)
      requires Valid() && (st == Waiting || st == Admitted)
      modifies this`depth, this`aheadCache, this`countWaiting, this`countAdmitted
      ensures Valid() && depth.Some?
      ensures n == Count(storage.rows, st)
    {
      EnsureDepth();
      n := if st == Waiting then depth.value.waiting else depth.value.admitted;
    }

    method WaitingAhead(sequence: nat) returns (ahead: nat)
      requires Valid() && sequence < storage.meta.nextSequence
      modifies this`aheadCache
      ensures Valid() && ahead == CountAhead(storage.rows, sequence)
    {
      if sequence in aheadCache {
        return aheadCache[sequence];
      }
      ahead := CountAhead(storage.rows, sequence);
      aheadCache := aheadCache[sequence := ahead];
    }

    /**
     Whoever bumps the depth has counted before, and takes away no more than there is. The clamps at zero are the
     source's; they never act.
     */
    method BumpDepth(waitingDelta: int, admittedDelta: int)
      requires depth.Some?
      requires depth.value.waiting + waitingDelta >= 0 && depth.value.admitted + admittedDelta >= 0
      modifies this`depth, this`aheadCache, this`countWaiting, this`countAdmitted
      ensures depth == Some(Depth(old(depth).value.waiting + waitingDelta, old(depth).value.admitted + admittedDelta))
      ensures countWaiting == Some(depth.value.waiting) && countAdmitted == Some(depth.value.admitted)
      ensures aheadCache == old(aheadCache)
    {
      EnsureDepth();
      depth := Some(Depth(Max(0, depth.value.waiting + waitingDelta), Max(0, depth.value.admitted + admittedDelta)));
      countWaiting, countAdmitted := Some(depth.value.waiting), Some(depth.value.admitted);
    }

    // ---------- sweeping ----------

    method RememberConfig(config: QueueConfig)
      requires Valid()
      modifies this`storage
      ensures Valid() && storage == RoomSteps.Remember(old(storage), config)
    {
      if storage.meta.config == Some(config) {
        return;
      }
      storage := storage.(meta := storage.meta.(config := Some(config)));
    }

    method ExpireWhere(p: Row -> bool) returns (written: nat)
      modifies this`storage
      ensures storage == old(storage).(rows := SetExpired(old(storage).rows, p))
      ensures written == |Where(old(storage).rows, p)|
    {
      written := |Where(storage.rows, p)|;
      storage := storage.(rows := SetExpired(storage.rows, p));
    }

    /** The three expiry statements; they write nothing exactly when nobody is expired. */
    method ExpireRows(eff: QueueConfig, now: int, graceMs: int) returns (expired: nat)
      modifies this`storage
      ensures storage == old(storage).(rows := RoomSteps.ExpireAll(old(storage).rows, eff, now, graceMs))
      ensures expired == 0 ==> storage == old(storage)
    {
      var overstayed := Overstayed(now - eff.queueTimeoutSeconds * 1000, now - graceMs,
                                   now - eff.heartbeatTimeoutSeconds * 1000);
      var unentered := AdmissionLapsed(false, now - eff.admitHoldSeconds * 1000);
      var entered := AdmissionLapsed(true, now - eff.tokenTTLSeconds * 1000);
      ghost var before := storage.rows;
      var written := ExpireWhere(overstayed);
      expired := written;
      ghost var one := storage.rows;
      written := ExpireWhere(unentered);
      expired := expired + written;
      ghost var two := storage.rows;
      written := ExpireWhere(entered);
      expired := expired + written;
      assert storage.rows == RoomSteps.ExpireAll(before, eff, now, graceMs);
      if expired == 0 {
        NothingWritten(before, overstayed);
        NothingWritten(one, unentered);
        NothingWritten(two, entered);
      }
    }

    /** DELETE of the terminal rows that joined before the cutoff. */
    method PurgeRows(purgeBefore: int)
      modifies this`storage
      ensures var s, kept := old(storage), Where(old(storage).rows, Survives(purgeBefore));
              storage == s.(rows := kept, purged := s.purged + (|s.rows| - |kept|))
    {
      var kept := Where(storage.rows, Survives(purgeBefore));
      storage := storage.(rows := kept, purged := storage.purged + (|storage.rows| - |kept|));
    }

    method Sweep(config: QueueConfig, now: int, force: bool)
      requires Valid()
      modifies this`storage, this`depth, this`aheadCache, this`countWaiting, this`countAdmitted
      ensures Valid() && storage == RoomSteps.Sweep(old(storage), config, now, force)
      ensures force ==> depth.Some?
    {
      hide TableInv, Where, EffectiveConfig, RoomSteps.ExpireAll;
      if !force && now - storage.meta.lastSweep < 1000 {
        return;
      }
      storage := storage.(meta := storage.meta.(lastSweep := now));
      var eff := EffectiveConfig(storage.meta, config);
      var waiting := CountByStatus(Waiting);
      var periodSec := CheckInPeriodSeconds(waiting);
      var graceMs := MissedSlotGraceMs(periodSec, eff.missedSlotGraceSeconds);
      ExpireMoves(storage.rows, eff, now, graceMs, storage.meta.nextSequence);
      var expired := ExpireRows(eff, now, graceMs);
      PurgeKeepsCounts(storage.rows, now - 60 * 60 * 1000, storage.meta.nextSequence);
      PurgeRows(now - 60 * 60 * 1000);
      if expired > 0 {
        ReconcileDepth();
      }
    }

    // ---------- traffic ----------

    method FlushTrafficBucket(config: QueueConfig, now: int)
      requires Valid()
      modifies this`storage, this`depth, this`aheadCache, this`countWaiting, this`countAdmitted
      ensures Valid() && storage == RoomSteps.FlushTraffic(old(storage), config, now)
      ensures old(depth).Some? ==> depth.Some?
    {
      hide TableInv, Where, Upsert, Retained, Pruned, SumJoins, SumAdmits, EffectiveConfig;
      var t := storage.traffic;
      if t.openT <= 0 {
        storage := storage.(traffic := t.(openT := Align(now), joins := 0, admits := 0));
        return;
      }
      var current := Align(now);
      if t.openT >= current {
        return;
      }
      var maxOutflow := EffectiveConfig(storage.meta, config).admitPerSecond;
      var waiting := CountByStatus(Waiting);
      var entered := CountEntered(storage.rows);
      var stored := Upsert(t.buckets, Bucket(t.openT, t.joins, t.admits, maxOutflow, waiting, entered));
      var cutoff := now - TRAFFIC_RETENTION_MS;
      var pruned := Pruned(stored, cutoff);
      t := t.(buckets := Retained(stored, cutoff),
              prunedJoins := t.prunedJoins + SumJoins(pruned), prunedAdmits := t.prunedAdmits + SumAdmits(pruned));
      t := t.(openT := current, joins := 0, admits := 0);
      storage := storage.(traffic := t);
    }

    method RecordTraffic(config: QueueConfig, now: int, joins: nat, admits: nat)
      requires Valid()
      modifies this`storage, this`depth, this`aheadCache, this`countWaiting, this`countAdmitted
      ensures Valid() && storage == RoomSteps.RecordTraffic(old(storage), config, now, joins, admits)
      ensures storage == old(storage).(traffic := storage.traffic)
      ensures old(depth).Some? ==> depth.Some?
    {
      hide TableInv, Where, Flush, EffectiveConfig;
      FlushTrafficBucket(config, now);
      var t := storage.traffic;
      if t.openT != Align(now) {
        t := t.(openT := Align(now), joins := 0, admits := 0);
      }
      t := t.(joins := t.joins + joins, admits := t.admits + admits);
      if joins > 0 {
        t := t.(totalInflow := t.totalInflow + joins);
      }
      storage := storage.(traffic := t);
    }

    // ---------- the alarm ----------

    method EnsureAlarm(clock: int)
      requires Valid()
      modifies this`storage, this`depth, this`aheadCache, this`countWaiting, this`countAdmitted
      ensures Valid() && storage == RoomSteps.EnsureAlarm(old(storage), clock)
      ensures storage == old(storage).(alarm := storage.alarm)
    {
      hide TableInv, Where;
      var waiting := CountByStatus(Waiting);
      var admitted := CountByStatus(Admitted);
      var health := storage.meta.healthConfig;
      var opensAt := OpensAt(storage.meta);
      var waitingForOpen := opensAt.Some? && clock < opensAt.value && waiting > 0;
      var nextWebhook := RoomSteps.Earliest(storage.outbox.rows);
      if waiting == 0 && admitted == 0 && !health.enabled && !waitingForOpen && nextWebhook.None? {
        storage := storage.(alarm := None);
        return;
      }
      var interval := Max(QUEUE_ALARM_INTERVAL_MS * 15, 15000);
      if waiting > 0 && CanAdmit(storage.meta, clock) {
        interval := QUEUE_ALARM_INTERVAL_MS;
      } else if waiting > 0 {
        interval := Min(5000, interval);
      }
      if health.enabled {
        interval := Min(interval, health.intervalSeconds * 1000);
      }
      var scheduled := clock + interval;
      var hasQueueAlarmWork := waiting > 0 || admitted > 0 || health.enabled || waitingForOpen;
      var nextAt :=
        if nextWebhook.None? then scheduled
        else if hasQueueAlarmWork then Min(scheduled, nextWebhook.value)
        else nextWebhook.value;
      if storage.alarm.None? || storage.alarm.value > nextAt + 250 {
        storage := storage.(alarm := Some(nextAt));
      }
    }

    // ---------- views ----------

    method ToView(r: Row, config: QueueConfig) returns (v: View)
      requires Valid() && r in storage.rows
      modifies this`depth, this`aheadCache, this`countWaiting, this`countAdmitted
      ensures Valid() && v == ViewOf(storage.rows, storage.meta, config, r)
    {
      var mode := ModeOf(storage.meta, config);
      var waiting := CountByStatus(Waiting);
      var position: Option<nat>, ahead: Option<nat>, behind: Option<nat> := None, None, None;
      if r.status == Waiting && mode == Queue {
        var before := WaitingAhead(r.sequence);
        position := Some(before + 1);
        ahead := Some(position.value - 1);
        behind := Some(Max(0, waiting - position.value));
      }
      var nextCheckAt := if r.status == Waiting then r.nextCheckAt else None;
      v := View(r.id, r.status, r.joinedAt, r.lastHeartbeatAt, r.admittedAt, r.entered, mode, waiting,
                position, ahead, behind, nextCheckAt);
    }

    // ---------- inserting ----------

    method NextSequence() returns (sequence: nat)
      modifies this`storage
      ensures sequence == old(storage).meta.nextSequence && storage == RoomSteps.SpendSequence(old(storage))
    {
      sequence := storage.meta.nextSequence;
      storage := storage.(meta := storage.meta.(nextSequence := sequence + 1));
    }

    /** The INSERT fails on a known id, after the sequence number is spent. */
    method InsertVisitor(r: Row) returns (inserted: bool)
      requires Valid() && depth.Some? && (r.status == Waiting || r.status == Admitted)
      requires WellFormed(r.(sequence := storage.meta.nextSequence))
      modifies this`storage, this`depth, this`aheadCache, this`countWaiting, this`countAdmitted
      ensures Valid() && depth.Some? && inserted == !Has(old(storage).rows, r.id)
      ensures storage ==
              if inserted then RoomSteps.Insert(old(storage), r) else RoomSteps.SpendSequence(old(storage))
    {
      var sequence := NextSequence();
      if Has(storage.rows, r.id) {
        return false;
      }
      var row := r.(sequence := sequence);
      InsertKeepsCounts(storage.rows, row);
      AppendKeepsInv(storage.rows, row, sequence);
      hide TableInv, Where;
      storage := storage.(rows := storage.rows + [row]);
      if r.status == Waiting {
        BumpDepth(1, 0);
      } else {
        BumpDepth(0, 1);
        storage := storage.(admissions := storage.admissions + 1);
      }
      return true;
    }

    // ---------- admitting ----------

    method SelectWaiting(limit: int, config: QueueConfig, random: Random) returns (picks: seq<string>)
      requires Valid() && ValidRandom(random)
      modifies this`depth, this`aheadCache, this`countWaiting, this`countAdmitted
      ensures Valid() && (old(depth).Some? ==> depth.Some?)
      ensures if limit > 0 then Selection(storage.rows, ModeOf(storage.meta, config), limit, picks) else picks == []
    {
      if limit <= 0 {
        return [];
      }
      if ModeOf(storage.meta, config) == Lottery {
        var waiting := CountByStatus(Waiting);
        picks := SelectWaitingLottery(storage.rows, storage.meta.nextSequence, waiting, limit, random);
      } else {
        var line := Waiters(storage.rows);
        picks := Ids(line[..Min(limit, |line|)]);
      }
    }

    /** One UPDATE for each selected id; all of them find their row still waiting. */
    method AdmitRows(picks: seq<string>, now: int, entered: bool) returns (admittedIds: seq<string>)
      requires TableInv(storage.rows, storage.meta.nextSequence)
      requires Distinct(picks) && forall id :: id in picks ==> IsWaiting(storage.rows, id)
      modifies this`storage
      ensures storage == old(storage).(rows := RoomSteps.AdmitAll(old(storage).rows, picks, now, entered))
      ensures admittedIds == picks
    {
      hide TableInv, Where, RoomSteps.AdmitAll, IsWaiting, IndexOf;
      NoneAdmitted(storage.rows, now, entered);
      admittedIds := [];
      ghost var before := storage;
      for k := 0 to |picks|
        invariant storage == before.(rows := RoomSteps.AdmitAll(before.rows, picks[..k], now, entered))
        invariant admittedIds == picks[..k]
      {
        var id := picks[k];
        NextIsWaiting(before.rows, before.meta.nextSequence, picks, k, now, entered);
        WaitingIsThere(storage.rows, id);
        if IsWaiting(storage.rows, id) {
          var i := IndexOf(storage.rows, id);
          storage := storage.(rows := storage.rows[i := storage.rows[i].(
            status := Admitted, admittedAt := Some(now), lastHeartbeatAt := now, entered := entered, nextCheckAt := None)]);
          admittedIds := admittedIds + [id];
        }
        assert picks[..k + 1] == picks[..k] + [id];
      }
      assert picks[..|picks|] == picks;
    }

    method AdmitSelected(picks: seq<string>, config: QueueConfig, now: int) returns (admittedIds: seq<string>)
      requires Valid() && depth.Some?
      requires Distinct(picks) && forall id :: id in picks ==> IsWaiting(storage.rows, id)
      modifies this`storage, this`depth, this`aheadCache, this`countWaiting, this`countAdmitted
      ensures Valid() && storage == RoomSteps.AdmitPicks(old(storage), config, now, picks)
      ensures admittedIds == picks
    {
      if |picks| == 0 {
        return [];
      }
      var entered := !EffectiveConfig(storage.meta, config).requireClickToEnter;
      AdmitAllCounts(storage.rows, storage.meta.nextSequence, picks, now, entered);
      hide TableInv, Where, IsWaiting, RoomSteps.RecordTraffic, RoomSteps.AdmitAll, EffectiveConfig;
      admittedIds := AdmitRows(picks, now, entered);
      if |admittedIds| > 0 {
        assert depth.value.waiting >= |admittedIds|;
        BumpDepth(-|admittedIds|, |admittedIds|);
        aheadCache := map[];
        storage := storage.(admissions := storage.admissions + |admittedIds|);
        RecordTraffic(config, now, 0, |admittedIds|);
      }
    }

    // ---------- requests ----------

    /** Insert, record and re-arm, as both branches of a join do. */
    method AddVisitor(r: Row, config: QueueConfig, now: int) returns (result: RoomSteps.JoinResult)
      requires Valid() && depth.Some? && (r.status == Waiting || r.status == Admitted)
      requires r == RoomSteps.NewRow(storage, config, r.id, now, r.status == Admitted)
      modifies this`storage, this`depth, this`aheadCache, this`countWaiting, this`countAdmitted
      ensures Valid()
      ensures (storage, result) == RoomSteps.AddVisitor(old(storage), config, r.id, now, r.status == Admitted)
    {
      hide TableInv, Where, AssignCheckIn, EffectiveConfig, RoomSteps.EnsureAlarm, RoomSteps.RecordTraffic;
      ghost var before := storage.rows;
      var inserted := InsertVisitor(r);
      if !inserted {
        return RoomSteps.IdTaken;
      }
      RecordTraffic(config, now, 1, if r.status == Admitted then 1 else 0);
      EnsureAlarm(now);
      AppendGet(before, r);
      var view := ToView(Get(storage.rows, r.id), config);
      result := RoomSteps.Joined(view);
    }

    method Join(config: QueueConfig, id: string, now: int) returns (result: RoomSteps.JoinResult)
      requires Valid()
      modifies this`storage, this`depth, this`aheadCache, this`countWaiting, this`countAdmitted
      ensures Valid() && (storage, result) == RoomSteps.Join(old(storage), config, id, now)
    {
      hide TableInv, Where, AssignCheckIn, RoomSteps.EnsureAlarm, RoomSteps.AddVisitor, RoomSteps.Sweep, ViewOf;
      RememberConfig(config);
      Sweep(config, now, true);
      if Has(storage.rows, id) && IsActive(Get(storage.rows, id)) {
        EnsureAlarm(now);
        var view := ToView(Get(storage.rows, id), config);
        return RoomSteps.Joined(view);
      }
      var admitted := CountByStatus(Admitted);
      var slots := OpenSlots(config.maxConcurrentUsers, admitted);
      if CanAdmit(storage.meta, now) && slots > 0 {
        var entered := !EffectiveConfig(storage.meta, config).requireClickToEnter;
        result := AddVisitor(
          Row(id, Admitted, now, now, Some(now), storage.meta.nextSequence, entered, None), config, now);
        return;
      }
      var waiting := CountByStatus(Waiting);
      if waiting >= MaxWaiting(storage.meta) {
        return RoomSteps.QueueFull;
      }
      var nextCheckAt := AssignCheckIn(storage.meta, id, waiting + 1, config, now, Some(waiting + 1), 0,
                                       MIN_CHECK_IN_PERIOD_SEC * 1000);
      result := AddVisitor(
        Row(id, Waiting, now, now, None, storage.meta.nextSequence, false, Some(nextCheckAt)), config, now);
    }

    /** UPDATE of one row that changes neither its status nor its place. */
    method UpdateInPlace(k: nat, r: Row)
      requires Valid() && k < |storage.rows| && WellFormed(r)
      requires r.id == storage.rows[k].id && r.sequence == storage.rows[k].sequence
      requires r.status == storage.rows[k].status
      modifies this`storage
      ensures Valid() && storage == RoomSteps.UpdateRow(old(storage), k, r)
    {
      UpdateKeepsInv(storage.rows, k, r, storage.meta.nextSequence);
      UpdateKeepsCounts(storage.rows, k, r);
      hide TableInv, Where;
      storage := storage.(rows := storage.rows[k := r]);
    }

    /** The slot the room would give a waiter, from the cached counts. */
    method PositionOf(r: Row, config: QueueConfig) returns (position: Option<nat>)
      requires Valid() && r in storage.rows
      modifies this`aheadCache
      ensures Valid() && position == LinePosition(storage.rows, storage.meta, config, r)
    {
      if ModeOf(storage.meta, config) == Lottery {
        return None;
      }
      var ahead := WaitingAhead(r.sequence);
      return Some(ahead + 1);
    }

    method RepairCheckInBeforeOpen(id: string, config: QueueConfig, now: int) returns (repaired: bool)
      requires Valid() && IsWaiting(storage.rows, id)
      modifies this`storage, this`depth, this`aheadCache, this`countWaiting, this`countAdmitted
      ensures Valid() && repaired == NeedsRepair(storage.meta, Get(old(storage).rows, id), now)
      ensures var s, r := old(storage), Get(old(storage).rows, id);
              storage == if repaired
                         then RoomSteps.UpdateRow(s, IndexOf(s.rows, id), RoomSteps.Repaired(s, config, r, now))
                         else s
    {
      hide TableInv, Where, AssignCheckIn;
      var r := Get(storage.rows, id);
      var opensAt := OpensAt(storage.meta);
      if opensAt.None? || now >= opensAt.value {
        return false;
      }
      if r.nextCheckAt.Some? && r.nextCheckAt.value >= opensAt.value {
        return false;
      }
      var waiting := CountByStatus(Waiting);
      var position := PositionOf(r, config);
      var nextCheckAt := AssignCheckIn(storage.meta, r.id, waiting, config, now, position, 0, 0);
      RowOf(storage.rows, storage.meta.nextSequence, id);
      UpdateInPlace(IndexOf(storage.rows, id), r.(nextCheckAt := Some(nextCheckAt)));
      return true;
    }

    method RenewCheckIn(id: string, config: QueueConfig, now: int)
      requires Valid() && IsWaiting(storage.rows, id)
      modifies this`storage, this`depth, this`aheadCache, this`countWaiting, this`countAdmitted
      ensures Valid()
      ensures var s, r := old(storage), Get(old(storage).rows, id);
              storage == RoomSteps.UpdateRow(s, IndexOf(s.rows, id), RoomSteps.Renewed(s, config, r, now))
    {
      hide TableInv, Where, AssignCheckIn, EffectiveRate;
      var r := Get(storage.rows, id);
      var waiting := CountByStatus(Waiting);
      var position := PositionOf(r, config);
      var people := if position.Some? then position.value else waiting;
      var rate := EffectiveRate(storage.meta, config, now);
      var estimatedWaitSeconds := Ceil(people as real / (if rate < 0.0001 then 0.0001 else rate));
      var nextCheckAt := AssignCheckIn(storage.meta, r.id, waiting, config, now, position, estimatedWaitSeconds, 1000);
      RowOf(storage.rows, storage.meta.nextSequence, id);
      UpdateInPlace(IndexOf(storage.rows, id), r.(lastHeartbeatAt := now, nextCheckAt := Some(nextCheckAt)));
    }

    /** The waiting branch of `status` and `heartbeat`: repair, renew when due, or only look. */
    method CheckIn(id: string, config: QueueConfig, now: int) returns (view: View)
      requires Valid() && IsWaiting(storage.rows, id)
      modifies this`storage, this`depth, this`aheadCache, this`countWaiting, this`countAdmitted
      ensures Valid()
      ensures (storage, RoomSteps.Seen(view)) == RoomSteps.CheckInAfterSweep(old(storage), config, id, now)
    {
      hide TableInv, Where, AssignCheckIn, EffectiveRate, ViewOf, NeedsRepair, IsCheckInDue;
      ghost var before := storage.rows;
      var r := Get(storage.rows, id);
      var repaired := RepairCheckInBeforeOpen(id, config, now);
      if !repaired && IsCheckInDue(now, r.nextCheckAt) {
        RenewCheckIn(id, config, now);
      }
      assert before[IndexOf(before, id) := r] == before;
      UpdateKeepsIndex(before, IndexOf(before, id), storage.rows[IndexOf(before, id)], id);
      view := ToView(Get(storage.rows, id), config);
    }

    method Status(config: QueueConfig, id: string, now: int) returns (result: RoomSteps.CheckInResult)
      requires Valid()
      modifies this`storage, this`depth, this`aheadCache, this`countWaiting, this`countAdmitted
      ensures Valid() && (storage, result) == RoomSteps.CheckStatus(old(storage), config, id, now)
    {
      hide TableInv, Where, RoomSteps.Sweep, RoomSteps.CheckInAfterSweep, ViewOf;
      RememberConfig(config);
      Sweep(config, now, false);
      if !Has(storage.rows, id) || !IsActive(Get(storage.rows, id)) {
        return RoomSteps.NotFound;
      }
      var view: View;
      if Get(storage.rows, id).status == Waiting {
        view := CheckIn(id, config, now);
      } else {
        view := ToView(Get(storage.rows, id), config);
      }
      return RoomSteps.Seen(view);
    }

    method Heartbeat(config: QueueConfig, id: string, now: int) returns (result: RoomSteps.CheckInResult)
      requires Valid()
      modifies this`storage, this`depth, this`aheadCache, this`countWaiting, this`countAdmitted
      ensures Valid() && (storage, result) == RoomSteps.Heartbeat(old(storage), config, id, now)
    {
      hide TableInv, Where, RoomSteps.Sweep, RoomSteps.CheckInAfterSweep, ViewOf;
      RememberConfig(config);
      Sweep(config, now, false);
      if !Has(storage.rows, id) || Get(storage.rows, id).status != Waiting {
        return RoomSteps.NotFound;
      }
      var view := CheckIn(id, config, now);
      return RoomSteps.Seen(view);
    }

    method Enter(config: QueueConfig, id: string, now: int) returns (result: RoomSteps.EnterResult)
      requires Valid()
      modifies this`storage, this`depth, this`aheadCache, this`countWaiting, this`countAdmitted
      ensures Valid() && (storage, result) == RoomSteps.Enter(old(storage), config, id, now)
    {
      hide TableInv, Where, RoomSteps.Sweep, RoomSteps.EnsureAlarm, ViewOf;
      RememberConfig(config);
      Sweep(config, now, true);
      if !Has(storage.rows, id) || !IsActive(Get(storage.rows, id)) {
        return RoomSteps.EnterNotFound;
      }
      var r := Get(storage.rows, id);
      if r.status != Admitted {
        return RoomSteps.NotAdmitted;
      }
      ghost var before := storage.rows;
      RowOf(storage.rows, storage.meta.nextSequence, id);
      UpdateInPlace(IndexOf(storage.rows, id), r.(entered := true));
      EnsureAlarm(now);
      UpdateKeepsIndex(before, IndexOf(before, id), r.(entered := true), id);
      var view := ToView(Get(storage.rows, id), config);
      return RoomSteps.Entered(view);
    }

    method AdmitAvailable(config: QueueConfig, now: int, random: Random) returns (ghost picks: seq<string>)
      requires Valid() && ValidRandom(random) && depth.Some?
      modifies this`storage, this`depth, this`aheadCache, this`countWaiting, this`countAdmitted
      ensures Valid() && storage == RoomSteps.AdmitPicks(old(storage), config, now, picks)
      ensures RoomSteps.PicksAllowed(old(storage), config, CanAdmit(old(storage).meta, now),
                                     RoomSteps.Slots(old(storage), config), picks)
    {
      hide TableInv, Where, Selection, IsWaiting, EffectiveConfig, RoomSteps.RecordTraffic, RoomSteps.AdmitAll;
      picks := [];
      if !CanAdmit(storage.meta, now) {
        return;
      }
      var admitted := CountByStatus(Admitted);
      var slots := OpenSlots(config.maxConcurrentUsers, admitted);
      if slots <= 0 {
        return;
      }
      var selected := SelectWaiting(slots, config, random);
      SelectionTakesWaiters(storage.rows, storage.meta.nextSequence, ModeOf(storage.meta, config), slots, selected);
      var admittedIds := AdmitSelected(selected, config, now);
      picks := selected;
    }

    method Leave(config: QueueConfig, id: string, now: int, random: Random)
      returns (result: RoomSteps.LeaveResult, ghost picks: seq<string>)
      requires Valid() && ValidRandom(random)
      modifies this`storage, this`depth, this`aheadCache, this`countWaiting, this`countAdmitted
      ensures Valid() && (storage, result) == RoomSteps.Leave(old(storage), config, id, now, picks)
      ensures LeavePicks(RoomSteps.Begin(old(storage), config, now, true), config, id, now, picks)
    {
      hide TableInv, Where, RoomSteps.Sweep, RoomSteps.EnsureAlarm, RoomSteps.AdmitPicks, RoomSteps.PicksAllowed;
      RememberConfig(config);
      Sweep(config, now, true);
      picks := [];
      if !Has(storage.rows, id) {
        return RoomSteps.LeaveNotFound, picks;
      }
      if Get(storage.rows, id).status == Expired {
        return RoomSteps.WasExpired, picks;
      }
      if Get(storage.rows, id).status == Left {
        return RoomSteps.LeftRoom, picks;
      }
      VacateRow(id);
      picks := AdmitAvailable(config, now, random);
      EnsureAlarm(now);
      result := RoomSteps.LeftRoom;
    }

    /** The depth is bumped before the row is marked, as the source does. */
    method VacateRow(id: string)
      requires Valid() && depth.Some? && RoomSteps.IsPresent(storage, id)
      modifies this`storage, this`depth, this`aheadCache, this`countWaiting, this`countAdmitted
      ensures Valid() && depth.Some? && storage == RoomSteps.Vacate(old(storage), id)
    {
      var k := IndexOf(storage.rows, id);
      var r := storage.rows[k];
      VacateCounts(storage.rows, storage.meta.nextSequence, k);
      hide TableInv, Where;
      if r.status == Waiting {
        assert depth.value.waiting >= 1;
        BumpDepth(-1, 0);
        aheadCache := map[];
      } else if r.status == Admitted {
        assert depth.value.admitted >= 1;
        BumpDepth(0, -1);
      }
      storage := storage.(rows := storage.rows[k := r.(status := Left)]);
    }

    method ForceAdmit(config: QueueConfig, count: int, now: int, random: Random)
      returns (admittedIds: seq<string>, waiting: nat, openSlots: nat)
      requires Valid() && ValidRandom(random)
      modifies this`storage, this`depth, this`aheadCache, this`countWaiting, this`countAdmitted
      ensures Valid() && storage == RoomSteps.ForceAdmit(old(storage), config, now, admittedIds)
      ensures ForcePicks(RoomSteps.Begin(old(storage), config, now, true), config, count, now, admittedIds)
      ensures waiting == Count(storage.rows, Waiting) && openSlots == RoomSteps.Slots(storage, config)
    {
      hide TableInv, Where, Selection, IsWaiting, RoomSteps.Sweep, RoomSteps.EnsureAlarm, RoomSteps.AdmitPicks;
      RememberConfig(config);
      Sweep(config, now, true);
      admittedIds := [];
      if CanAdmit(storage.meta, now) {
        var admitted := CountByStatus(Admitted);
        var toAdmit := Min(OpenSlots(config.maxConcurrentUsers, admitted), count);
        if toAdmit > 0 {
          var selected := SelectWaiting(toAdmit, config, random);
          SelectionTakesWaiters(storage.rows, storage.meta.nextSequence, ModeOf(storage.meta, config), toAdmit, selected);
          admittedIds := AdmitSelected(selected, config, now);
        }
      }
      NoPicksNoChange(storage, config, now);
      EnsureAlarm(now);
      waiting := CountByStatus(Waiting);
      var admitted := CountByStatus(Admitted);
      openSlots := OpenSlots(config.maxConcurrentUsers, admitted);
    }

    method Metrics(config: QueueConfig, now: int)
      returns (waiting: nat, admitted: nat, entered: nat, holding: nat, openSlots: nat, totalInflow: nat, open: (nat, nat))
      requires Valid()
      modifies this`storage, this`depth, this`aheadCache, this`countWaiting, this`countAdmitted
      ensures Valid() && storage == RoomSteps.Begin(old(storage), config, now, false)
      ensures waiting == Count(storage.rows, Waiting) && admitted == Count(storage.rows, Admitted)
      ensures entered == CountEntered(storage.rows) && holding == CountHolding(storage.rows) && entered + holding == admitted
      ensures openSlots == Max(0, config.maxConcurrentUsers - Count(storage.rows, Admitted))
      ensures totalInflow == storage.traffic.totalInflow && open == CurrentOpen(storage.traffic, now)
    {
      hide TableInv, Where, RoomSteps.Sweep;
      RememberConfig(config);
      Sweep(config, now, false);
      waiting := CountByStatus(Waiting);
      admitted := CountByStatus(Admitted);
      entered := CountEntered(storage.rows);
      EnteredAndHolding(storage.rows);
      holding := Max(0, admitted - entered);
      openSlots := OpenSlots(config.maxConcurrentUsers, admitted);
      totalInflow := storage.traffic.totalInflow;
      open := CurrentOpen(storage.traffic, now);
    }

    method GetTraffic(config: QueueConfig, now: int)
      requires Valid()
      modifies this`storage, this`depth, this`aheadCache, this`countWaiting, this`countAdmitted
      ensures Valid() && storage == RoomSteps.FlushTraffic(RoomSteps.Remember(old(storage), config), config, now)
    {
      RememberConfig(config);
      FlushTrafficBucket(config, now);
    }

    method EnqueueWebhook(now: int)
      requires Valid()
      modifies this`storage, this`depth, this`aheadCache, this`countWaiting, this`countAdmitted
      ensures Valid() && storage == RoomSteps.EnqueueWebhook(old(storage), now)
    {
      hide TableInv, Where, RoomSteps.EnsureAlarm;
      var o := storage.outbox;
      var row := Delivery(o.nextId, 1, now + WEBHOOK_RETRY_DELAYS_MS[0], now, true);
      storage := storage.(outbox := o.(rows := o.rows + [row], nextId := o.nextId + 1));
      EnsureAlarm(now);
    }

    // ---------- operator settings ----------

    method SetMeta(m: Meta)
      requires Valid() && m.nextSequence == storage.meta.nextSequence
      modifies this`storage
      ensures Valid() && storage == old(storage).(meta := m)
    {
      hide TableInv, Where;
      storage := storage.(meta := m);
    }

    method SetMode(config: QueueConfig, mode: Mode, now: int)
      requires Valid()
      modifies this`storage, this`depth, this`aheadCache, this`countWaiting, this`countAdmitted
      ensures Valid() && storage == RoomSteps.Operate(old(storage), RoomSteps.SetMode(config, mode), now)
    {
      hide TableInv, Where, RoomSteps.EnsureAlarm;
      RememberConfig(config);
      SetMeta(storage.meta.(admissionMode := Some(mode)));
      var effective := EffectiveConfig(storage.meta, config);
      SetMeta(storage.meta.(config := Some(effective.(admissionMode := mode))));
      EnsureAlarm(now);
    }

    method SetAdmitUx(config: QueueConfig, requireClick: bool, holdSeconds: int, now: int)
      requires Valid()
      modifies this`storage, this`depth, this`aheadCache, this`countWaiting, this`countAdmitted
      ensures Valid() && storage == RoomSteps.Operate(old(storage), RoomSteps.SetAdmitUx(config, requireClick, holdSeconds), now)
    {
      hide TableInv, Where, RoomSteps.EnsureAlarm;
      SetMeta(storage.meta.(requireClick := Some(requireClick)));
      SetMeta(storage.meta.(admitHoldSeconds := Some(holdSeconds)));
      RememberConfig(config.(requireClickToEnter := requireClick, admitHoldSeconds := holdSeconds));
      EnsureAlarm(now);
    }

    method SetPaused(paused: bool, now: int)
      requires Valid()
      modifies this`storage, this`depth, this`aheadCache, this`countWaiting, this`countAdmitted
      ensures Valid() && storage == RoomSteps.Operate(old(storage), RoomSteps.SetPaused(paused), now)
    {
      hide TableInv, Where, RoomSteps.EnsureAlarm;
      SetMeta(storage.meta.(paused := paused));
      if !paused {
        EnsureAlarm(now);
      }
    }

    method SetSchedule(opensAt: Option<Option<int>>, closesAt: Option<Option<int>>, now: int)
      requires Valid()
      modifies this`storage, this`depth, this`aheadCache, this`countWaiting, this`countAdmitted
      ensures Valid() && storage == RoomSteps.Operate(old(storage), RoomSteps.SetSchedule(opensAt, closesAt), now)
    {
      hide TableInv, Where, RoomSteps.EnsureAlarm;
      if opensAt.Some? {
        SetMeta(storage.meta.(opensAt := opensAt.value));
      }
      if closesAt.Some? {
        SetMeta(storage.meta.(closesAt := closesAt.value));
      }
      EnsureAlarm(now);
    }

    method SetHealthConfig(config: QueueConfig, health: HealthConfig, urlUsable: bool, now: int)
      requires Valid()
      modifies this`storage, this`depth, this`aheadCache, this`countWaiting, this`countAdmitted
      ensures Valid() && storage == RoomSteps.Operate(old(storage), RoomSteps.SetHealthConfig(config, health, urlUsable), now)
    {
      hide TableInv, Where, RoomSteps.EnsureAlarm;
      RememberConfig(config);
      var parsed := ParseHealthConfig(health, urlUsable);
      SetMeta(storage.meta.(healthConfig := parsed));
      if !parsed.enabled {
        SetMeta(storage.meta.(healthState := DEFAULT_HEALTH_STATE));
      }
      EnsureAlarm(now);
    }

    method OverrideHealth(minutes: int, now: int)
      requires Valid()
      modifies this`storage, this`depth, this`aheadCache, this`countWaiting, this`countAdmitted
      ensures Valid() && storage == RoomSteps.Operate(old(storage), RoomSteps.OverrideHealth(now + Max(1, Min(minutes, 24 * 60)) * 60000), now)
    {
      hide TableInv, Where, RoomSteps.EnsureAlarm;
      var until := now + Max(1, Min(minutes, 24 * 60)) * 60000;
      SetMeta(storage.meta.(healthConfig := storage.meta.healthConfig.(overrideUntil := Some(until))));
      EnsureAlarm(now);
    }

    method ClearHealthOverride(now: int)
      requires Valid()
      modifies this`storage, this`depth, this`aheadCache, this`countWaiting, this`countAdmitted
      ensures Valid() && storage == RoomSteps.Operate(old(storage), RoomSteps.ClearHealthOverride, now)
    {
      hide TableInv, Where, RoomSteps.EnsureAlarm;
      SetMeta(storage.meta.(healthConfig := storage.meta.healthConfig.(overrideUntil := None)));
    }

    method SetAdmitRate(config: QueueConfig, rate: real, now: int) returns (accepted: bool)
      requires Valid()
      modifies this`storage, this`depth, this`aheadCache, this`countWaiting, this`countAdmitted
      ensures Valid() && storage == RoomSteps.Operate(old(storage), RoomSteps.SetAdmitRate(config, rate), now)
      ensures accepted <==> MIN_ADMIT_PER_SECOND <= rate <= MAX_ADMIT_PER_SECOND
    {
      hide TableInv, Where, RoomSteps.EnsureAlarm;
      RememberConfig(config);
      accepted := ParseAdmitPerSecond(rate).Some?;
      if accepted {
        SetMeta(storage.meta.(admitPerSecondOverride := Some(rate)));
        EnsureAlarm(now);
      }
    }

    method ClearAdmitRate(config: QueueConfig, now: int)
      requires Valid()
      modifies this`storage, this`depth, this`aheadCache, this`countWaiting, this`countAdmitted
      ensures Valid() && storage == RoomSteps.Operate(old(storage), RoomSteps.ClearAdmitRate(config), now)
    {
      hide TableInv, Where, RoomSteps.EnsureAlarm;
      RememberConfig(config);
      SetMeta(storage.meta.(admitPerSecondOverride := None));
      EnsureAlarm(now);
    }

    method SetMaxWaitingVisitors(limit: int, now: int) returns (accepted: bool)
      requires Valid()
      modifies this`storage, this`depth, this`aheadCache, this`countWaiting, this`countAdmitted
      ensures Valid() && storage == RoomSteps.Operate(old(storage), RoomSteps.SetMaxWaiting(limit), now)
      ensures accepted ==> MaxWaiting(storage.meta) == limit
    {
      hide TableInv, Where, RoomSteps.EnsureAlarm;
      accepted := 1 <= limit <= 50000000;
      if accepted {
        SetMeta(storage.meta.(maxWaitingVisitors := Some(limit)));
      }
    }

    method SetMissedSlotGraceSeconds(seconds: int, now: int) returns (accepted: bool)
      requires Valid()
      modifies this`storage, this`depth, this`aheadCache, this`countWaiting, this`countAdmitted
      ensures Valid() && storage == RoomSteps.Operate(old(storage), RoomSteps.SetMissedSlotGrace(seconds), now)
      ensures accepted <==> ClampMissedSlotGraceSeconds(seconds) == seconds
    {
      hide TableInv, Where, RoomSteps.EnsureAlarm;
      accepted := MIN_MISSED_SLOT_GRACE_SECONDS <= seconds <= MAX_MISSED_SLOT_GRACE_SECONDS;
      if accepted {
        SetMeta(storage.meta.(missedSlotGraceSeconds := Some(seconds)));
        EnsureAlarm(now);
      }
    }

    method BumpTokenEpoch(now: int) returns (epoch: nat)
      requires Valid()
      modifies this`storage, this`depth, this`aheadCache, this`countWaiting, this`countAdmitted
      ensures Valid() && storage == RoomSteps.Operate(old(storage), RoomSteps.BumpTokenEpoch, now)
      ensures epoch == storage.meta.tokenEpoch == old(storage).meta.tokenEpoch + 1
    {
      hide TableInv, Where, RoomSteps.EnsureAlarm;
      epoch := storage.meta.tokenEpoch + 1;
      SetMeta(storage.meta.(tokenEpoch := epoch));
    }

    // ---------- the alarm handler, from one suspension to the next ----------

    method AlarmFire(now: int)
      requires Valid() && RoomSteps.AlarmRings(storage, now)
      modifies this`storage
      ensures Valid() && storage == RoomSteps.AlarmFire(old(storage), now)
    {
      hide TableInv, Where;
      var deliveries := Due(storage.outbox.rows, now, OUTBOX_BATCH);
      storage := storage.(alarm := None, handler := Some(Handler(now, deliveries, None, Posting, 0, now)));
    }

    /** One selected delivery: dropped when unreadable or delivered, rescheduled or given up when it failed. */
    method AlarmPost(outcome: Outcome, now: int)
      requires Valid() && RoomSteps.AlarmPosts(storage)
      modifies this`storage
      ensures Valid() && storage == RoomSteps.AlarmPost(old(storage), outcome, now)
    {
      hide TableInv, Where, Delete, Reschedule;
      var h, o := storage.handler.value, storage.outbox;
      var row := h.pending[0];
      if row.readable {
        o := o.(log := o.log + [Post(row.id, now, h.now)]);
      }
      if !row.readable || outcome == Delivered {
        o := o.(rows := Delete(o.rows, row.id));
      } else {
        var attempts := row.attempts + 1;
        if attempts >= WEBHOOK_MAX_ATTEMPTS {
          o := o.(rows := Delete(o.rows, row.id));
        } else {
          var delay := WEBHOOK_RETRY_DELAYS_MS[Min(attempts - 1, |WEBHOOK_RETRY_DELAYS_MS| - 1)];
          o := o.(rows := Reschedule(o.rows, row.id, attempts, h.now + delay));
        }
      }
      storage := storage.(outbox := o,
                         handler := Some(h.(pending := h.pending[1..], settled := h.settled + 1, resumed := now)));
    }

    method AlarmSweep()
      requires Valid() && RoomSteps.AlarmSweeps(storage)
      modifies this`storage, this`depth, this`aheadCache, this`countWaiting, this`countAdmitted
      ensures Valid() && storage == RoomSteps.AlarmSweep(old(storage))
    {
      hide TableInv, Where, RoomSteps.Swept;
      var h, config := storage.handler.value, storage.meta.config;
      var stage := Admitting;
      if config.Some? {
        Sweep(config.value, h.now, true);
        if RoomSteps.ProbeDue(storage.meta, h.now) {
          stage := Probing(storage.meta.healthConfig, storage.meta.healthState);
        }
      }
      storage := storage.(handler := Some(h.(config := config, stage := stage)));
    }

    method AlarmProbe(probe: ProbeResult, now: int)
      requires Valid() && RoomSteps.AlarmProbes(storage)
      modifies this`storage
      ensures Valid() && storage == RoomSteps.AlarmProbe(old(storage), probe, now)
    {
      hide TableInv, Where;
      var h := storage.handler.value;
      var next := AdvanceHealthState(h.stage.config, h.stage.state, probe, h.now);
      SetMeta(storage.meta.(healthState := next));
      storage := storage.(handler := Some(h.(stage := Admitting, resumed := now)));
    }

    method AdmitFromBudget(config: QueueConfig, now: int, random: Random) returns (ghost picks: seq<string>)
      requires Valid() && ValidRandom(random)
      modifies this`storage, this`depth, this`aheadCache, this`countWaiting, this`countAdmitted
      ensures Valid() && storage == RoomSteps.AdmitFromBudget(old(storage), config, now, picks)
      ensures RoomSteps.PicksAllowed(old(storage), config, CanAdmit(old(storage).meta, now),
                                     RoomSteps.BudgetLimit(old(storage), config, now), picks)
    {
      hide TableInv, Where, Selection, IsWaiting, EffectiveConfig, RoomSteps.RecordTraffic, RoomSteps.AdmitAll;
      picks := [];
      if !CanAdmit(storage.meta, now) {
        return;
      }
      var rate := EffectiveRate(storage.meta, config, now);
      if rate <= 0.0 {
        return;
      }
      var tick := AdmissionsForTick(rate, QUEUE_ALARM_INTERVAL_MS, storage.meta.admitRemainder);
      SetMeta(storage.meta.(admitRemainder := tick.nextRemainder));
      if tick.admitCount <= 0 {
        return;
      }
      var admitted := CountByStatus(Admitted);
      var toAdmit := Min(OpenSlots(config.maxConcurrentUsers, admitted), tick.admitCount);
      if toAdmit <= 0 {
        return;
      }
      var selected := SelectWaiting(toAdmit, config, random);
      SelectionTakesWaiters(storage.rows, storage.meta.nextSequence, ModeOf(storage.meta, config), toAdmit, selected);
      var admittedIds := AdmitSelected(selected, config, now);
      picks := selected;
    }

    method AlarmFinish(now: int, random: Random) returns (ghost picks: seq<string>)
      requires Valid() && ValidRandom(random) && RoomSteps.AlarmAdmits(storage)
      modifies this`storage, this`depth, this`aheadCache, this`countWaiting, this`countAdmitted
      ensures Valid() && FinishPicks(old(storage), picks)
      ensures storage == RoomSteps.AlarmFinish(old(storage), now, picks)
    {
      hide TableInv, Where, RoomSteps.EnsureAlarm, RoomSteps.FlushTraffic, RoomSteps.AdmitFromBudget, RoomSteps.PicksAllowed;
      var h := storage.handler.value;
      picks := [];
      if h.config.Some? {
        picks := AdmitFromBudget(h.config.value, h.now, random);
        FlushTrafficBucket(h.config.value, h.now);
      }
      storage := storage.(handler := None);
      EnsureAlarm(now);
    }
  }

  /** The row found under a key is in the table, with the table's shape. */
  lemma RowOf(rows: seq<Row>, n: nat, id: string)
    requires TableInv(rows, n) && Has(rows, id)
    ensures WellFormed(Get(rows, id)) && Get(rows, id).sequence < n
  {
  }

  lemma UpdateKeepsCounts(rows: seq<Row>, k: nat, r: Row)
    requires k < |rows| && r.status == rows[k].status && r.sequence == rows[k].sequence
    ensures Count(rows[k := r], Waiting) == Count(rows, Waiting)
    ensures Count(rows[k := r], Admitted) == Count(rows, Admitted)
    ensures forall q: nat :: CountAhead(rows[k := r], q) == CountAhead(rows, q)
  {
    WhereUpdate(rows, k, r, HasStatus(Waiting));
    WhereUpdate(rows, k, r, HasStatus(Admitted));
    forall q: nat
      ensures CountAhead(rows[k := r], q) == CountAhead(rows, q)
    {
      WhereUpdate(rows, k, r, WaitsBelow(q));
    }
  }

  /** Marking a present visitor as left lowers the count of its old status, and no other. */
  lemma VacateCounts(rows: seq<Row>, n: nat, k: nat)
    requires TableInv(rows, n) && k < |rows| && IsActive(rows[k])
    ensures var b := rows[k := rows[k].(status := Left)];
            && TableInv(b, n)
            && Count(b, Waiting) == Count(rows, Waiting) - (if rows[k].status == Waiting then 1 else 0)
            && Count(b, Admitted) == Count(rows, Admitted) - (if rows[k].status == Admitted then 1 else 0)
            && (rows[k].status == Admitted ==> forall q: nat :: CountAhead(b, q) == CountAhead(rows, q))
  {
    var r := rows[k].(status := Left);
    UpdateKeepsInv(rows, k, r, n);
    WhereUpdate(rows, k, r, HasStatus(Waiting));
    WhereUpdate(rows, k, r, HasStatus(Admitted));
    if rows[k].status == Admitted {
      forall q: nat
        ensures CountAhead(rows[k := r], q) == CountAhead(rows, q)
      {
        WhereUpdate(rows, k, r, WaitsBelow(q));
      }
    }
  }

  lemma NoPicksNoChange(s: Room, config: QueueConfig, now: int)
    ensures RoomSteps.AdmitPicks(s, config, now, []) == s
  {
  }

  /** An appended row adds to the count of its status and to no cached count of people ahead. */
  lemma InsertKeepsCounts(rows: seq<Row>, row: Row)
    ensures Count(rows + [row], Waiting) == Count(rows, Waiting) + (if row.status == Waiting then 1 else 0)
    ensures Count(rows + [row], Admitted) == Count(rows, Admitted) + (if row.status == Admitted then 1 else 0)
    ensures forall q: nat :: q <= row.sequence ==> CountAhead(rows + [row], q) == CountAhead(rows, q)
  {
    WhereAppend(rows, row, HasStatus(Waiting));
    WhereAppend(rows, row, HasStatus(Admitted));
    forall q: nat | q <= row.sequence
      ensures CountAhead(rows + [row], q) == CountAhead(rows, q)
    {
      AppendKeepsAhead(rows, row, q);
    }
  }

  /** Admitting distinct waiters moves exactly that many from one count to the other. */
  lemma AdmitAllCounts(rows: seq<Row>, n: nat, picks: seq<string>, now: int, entered: bool)
    requires TableInv(rows, n) && Distinct(picks) && forall id :: id in picks ==> IsWaiting(rows, id)
    ensures var b := RoomSteps.AdmitAll(rows, picks, now, entered);
            && TableInv(b, n)
            && Count(b, Waiting) == Count(rows, Waiting) - |picks|
            && Count(b, Admitted) == Count(rows, Admitted) + |picks|
  {
    AdmitAllMoves(rows, picks, now, entered, n);
  }

  lemma NoneAdmitted(rows: seq<Row>, now: int, entered: bool)
    ensures RoomSteps.AdmitAll(rows, [], now, entered) == rows
  {
  }

  lemma WaitingIsThere(rows: seq<Row>, id: string)
    ensures IsWaiting(rows, id) ==> Has(rows, id)
  {
  }

  /** After the first k picks are admitted, the next one is still waiting, and AdmitAll unfolds by one. */
  lemma NextIsWaiting(rows: seq<Row>, n: nat, picks: seq<string>, k: nat, now: int, entered: bool)
    requires TableInv(rows, n) && Distinct(picks) && k < |picks|
    requires forall id :: id in picks ==> IsWaiting(rows, id)
    ensures var b := RoomSteps.AdmitAll(rows, picks[..k], now, entered);
            && IsWaiting(b, picks[k])
            && RoomSteps.AdmitAll(rows, picks[..k + 1], now, entered) == RoomSteps.AdmitOne(b, picks[k], now, entered)
  {
    var before := picks[..k];
    assert picks[..k + 1][..k] == before;
    PrefixOfPicks(rows, picks, k);
    hide Distinct, TableInv, IsWaiting, Where;
    OthersStillWait(rows, n, before, now, entered, picks[k]);
  }

  lemma PrefixOfPicks(rows: seq<Row>, picks: seq<string>, k: nat)
    requires Distinct(picks) && k < |picks|
    requires forall id :: id in picks ==> IsWaiting(rows, id)
    ensures Distinct(picks[..k]) && picks[k] !in picks[..k] && IsWaiting(rows, picks[k])
    ensures forall id :: id in picks[..k] ==> IsWaiting(rows, id)
  {
    hide IsWaiting;
    assert picks[k] in picks;
  }

  lemma OthersStillWait(rows: seq<Row>, n: nat, picks: seq<string>, now: int, entered: bool, id: string)
    requires TableInv(rows, n) && Distinct(picks) && forall p :: p in picks ==> IsWaiting(rows, p)
    requires IsWaiting(rows, id) && id !in picks
    ensures IsWaiting(RoomSteps.AdmitAll(rows, picks, now, entered), id)
  {
    hide Distinct, TableInv, IsWaiting, Where, Succeeds, RoomSteps.AdmitAll, RoomSteps.Promoted, IndexOf;
    AdmitAllMoves(rows, picks, now, entered, n);
    StillWaits(rows, RoomSteps.AdmitAll(rows, picks, now, entered), picks, now, entered, id);
  }

  /** Deleting terminal rows changes no count the room caches. */
  lemma PurgeKeepsCounts(rows: seq<Row>, purgeBefore: int, n: nat)
    requires TableInv(rows, n)
    ensures var kept := Where(rows, Survives(purgeBefore));
            && TableInv(kept, n)
            && Count(kept, Waiting) == Count(rows, Waiting)
            && Count(kept, Admitted) == Count(rows, Admitted)
            && forall q :: CountAhead(kept, q) == CountAhead(rows, q)
  {
    var p := Survives(purgeBefore);
    WhereKeepsInv(rows, p, n);
    WhereWhere(rows, p, HasStatus(Waiting), HasStatus(Waiting));
    WhereWhere(rows, p, HasStatus(Admitted), HasStatus(Admitted));
    forall q
      ensures CountAhead(Where(rows, p), q) == CountAhead(rows, q)
    {
      WhereWhere(rows, p, WaitsBelow(q), WaitsBelow(q));
    }
  }
}
