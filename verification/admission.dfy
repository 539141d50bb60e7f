/** What one admission from the waiting set takes and leaves, in both modes. */
module Admission {
  import opened Wrappers
  import opened Engine
  import opened Visitors
  import opened RoomState
  import opened RoomSteps
  import opened TableMoves

  /** Every legal selection is a set of distinct waiters of bounded size. */
  lemma SelectionTakesWaiters(rows: seq<Row>, n: nat, mode: Mode, limit: nat, picks: seq<string>)
    requires TableInv(rows, n) && Selection(rows, mode, limit, picks)
    ensures Distinct(picks) && |picks| <= limit && |picks| <= Count(rows, Waiting)
    ensures forall id :: id in picks ==> IsWaiting(rows, id)
  {
    if mode == Queue {
      var line := Waiters(rows);
      WhereKeepsInv(rows, HasStatus(Waiting), n);
      forall i | 0 <= i < |picks|
        ensures picks[i] == line[i].id && IsWaiting(rows, picks[i])
      {
        WaiterIsWaiting(rows, line[i]);
      }
    }
  }

  /** A selection is empty only when nobody is asked for or nobody waits. */
  lemma SelectionTakesSomebody(rows: seq<Row>, mode: Mode, limit: nat, picks: seq<string>)
    requires Selection(rows, mode, limit, picks)
    ensures picks != [] <==> limit > 0 && Count(rows, Waiting) > 0
  {
    assert Count(rows, Waiting) == |Waiters(rows)|;
    hide Where;
  }

  lemma WaiterIsWaiting(rows: seq<Row>, r: Row)
    requires UniqueIds(rows) && r in Waiters(rows)
    ensures IsWaiting(rows, r.id) && Get(rows, r.id) == r
  {
    WhereMember(rows, HasStatus(Waiting), r);
    var k :| 0 <= k < |rows| && rows[k] == r;
    IndexOfUnique(rows, k);
  }

  /** An admission of allowed picks is a bounded move; it never exceeds the open slots. */
  lemma AdmitPicksMoves(s: Room, config: QueueConfig, now: int, gate: bool, limit: nat, picks: seq<string>)
    requires TableInv(s.rows, s.meta.nextSequence)
    requires PicksAllowed(s, config, gate, limit, picks) && limit <= Slots(s, config)
    ensures var t := AdmitPicks(s, config, now, picks);
            && TableInv(t.rows, t.meta.nextSequence)
            && t.meta == s.meta
            && Moves(s.rows, s.meta.nextSequence, t.rows, t.meta.nextSequence, gate, config.maxConcurrentUsers, 0)
            && |t.rows| == |s.rows|
            && Count(t.rows, Admitted) == Count(s.rows, Admitted) + |picks|
            && Count(t.rows, Waiting) + |picks| == Count(s.rows, Waiting)
  {
    var n := s.meta.nextSequence;
    if picks == [] {
      MovesNowhere(s.rows, n, n, gate, config.maxConcurrentUsers, 0);
    } else {
      SelectionTakesWaiters(s.rows, n, ModeOf(s.meta, config), limit, picks);
      AdmitAllMoves(s.rows, picks, now, !EffectiveConfig(s.meta, config).requireClickToEnter, n);
    }
  }

  // ---------- Queue Mode: batches are prefixes of the line ----------

  function Unpicked(picks: seq<string>): Row -> bool {
    (r: Row) => r.id !in picks
  }

  function WaitsUnpicked(picks: seq<string>): Row -> bool {
    (r: Row) => r.status == Waiting && r.id !in picks
  }

  /** Tables of the same shape whose selected rows coincide give the same query result. */
  lemma {:induction false} WhereAgrees(a: seq<Row>, b: seq<Row>, p: Row -> bool, q: Row -> bool)
    requires |a| == |b|
    requires forall i :: 0 <= i < |a| ==> (q(b[i]) <==> p(a[i])) && (q(b[i]) ==> b[i] == a[i])
    ensures Where(b, q) == Where(a, p)
  {
    if a != [] {
      WhereAgrees(a[1..], b[1..], p, q);
    }
  }

  lemma {:induction false} WhereAll(rows: seq<Row>, p: Row -> bool, keep: bool)
    requires forall i :: 0 <= i < |rows| ==> p(rows[i]) == keep
    ensures Where(rows, p) == if keep then rows else []
  {
    if rows != [] {
      WhereAll(rows[1..], p, keep);
    }
  }

  /** Taking the front of the line by id leaves the rest of the line, in order. */
  lemma UnpickedIsRest(line: seq<Row>, take: nat)
    requires UniqueIds(line) && take <= |line|
    ensures Where(line, Unpicked(Ids(line[..take]))) == line[take..]
  {
    var picks := Ids(line[..take]);
    var p := Unpicked(picks);
    assert line == line[..take] + line[take..];
    WhereConcat(line[..take], line[take..], p);
    forall i | 0 <= i < take
      ensures !p(line[..take][i])
    {
      assert picks[i] == line[i].id;
    }
    WhereAll(line[..take], p, false);
    forall i | 0 <= i < |line| - take
      ensures p(line[take..][i])
    {
      assert forall j :: 0 <= j < take ==> picks[j] != line[take + i].id;
    }
    WhereAll(line[take..], p, true);
  }

  /** A Queue Mode batch is a prefix of the line in sequence order; what is left is the rest of it. */
  lemma BatchIsPrefix(rows: seq<Row>, n: nat, limit: nat, picks: seq<string>, now: int, entered: bool)
    requires TableInv(rows, n) && Selection(rows, Queue, limit, picks)
    ensures |picks| == Min(limit, Count(rows, Waiting))
    ensures picks == Ids(Waiters(rows)[..|picks|])
    ensures Waiters(AdmitAll(rows, picks, now, entered)) == Waiters(rows)[|picks|..]
  {
    SelectionTakesWaiters(rows, n, Queue, limit, picks);
    AdmitAllMoves(rows, picks, now, entered, n);
    var b := AdmitAll(rows, picks, now, entered);
    WhereAgrees(rows, b, WaitsUnpicked(picks), HasStatus(Waiting));
    var line := Waiters(rows);
    WhereUniqueIds(rows, HasStatus(Waiting));
    WhereWhere(rows, HasStatus(Waiting), Unpicked(picks), WaitsUnpicked(picks));
    UnpickedIsRest(line, |picks|);
  }

  // ---------- the line ----------

  /**
   The shown positions number the line: the waiter at place k is at position k + 1, with k people ahead
   and the rest behind. So positions are a bijection from the waiters onto 1..waiting.
   */
  lemma PositionsNumberTheLine(rows: seq<Row>, n: nat, m: Meta, config: QueueConfig, k: nat)
    requires TableInv(rows, n) && k < Count(rows, Waiting) && ModeOf(m, config) == Queue
    ensures var v := ViewOf(rows, m, config, Waiters(rows)[k]);
            && v.position == Some(k + 1)
            && v.ahead == Some(k)
            && v.behind == Some(Count(rows, Waiting) - (k + 1))
            && v.ahead.value + 1 + v.behind.value == v.waiting == Count(rows, Waiting)
  {
    AheadIsIndex(rows, k);
    WhereMember(rows, HasStatus(Waiting), Waiters(rows)[k]);
  }

  /** Distinct waiters see distinct positions, all of them between 1 and waiting, and every one is seen. */
  lemma PositionsAreABijection(rows: seq<Row>, n: nat)
    requires TableInv(rows, n)
    ensures forall r :: r in rows && r.status == Waiting ==>
              1 <= PositionIn(rows, r) <= Count(rows, Waiting) && r == Waiters(rows)[PositionIn(rows, r) - 1]
    ensures forall k :: 0 <= k < Count(rows, Waiting) ==>
              Waiters(rows)[k] in rows && Waiters(rows)[k].status == Waiting
              && PositionIn(rows, Waiters(rows)[k]) == k + 1
  {
    forall r | r in rows && r.status == Waiting
      ensures 1 <= PositionIn(rows, r) <= Count(rows, Waiting) && r == Waiters(rows)[PositionIn(rows, r) - 1]
    {
      var k := PlaceOf(rows, r);
      AheadIsIndex(rows, k);
    }
    forall k | 0 <= k < Count(rows, Waiting)
      ensures Waiters(rows)[k] in rows && Waiters(rows)[k].status == Waiting
      ensures PositionIn(rows, Waiters(rows)[k]) == k + 1
    {
      AheadIsIndex(rows, k);
      WhereMember(rows, HasStatus(Waiting), Waiters(rows)[k]);
    }
  }

  // ---------- positions never rise ----------

  function Sequences(rows: seq<Row>): set<nat> {
    set r | r in rows :: r.sequence
  }

  lemma FirstSequence(rows: seq<Row>)
    requires rows != []
    ensures Sequences(rows) == {rows[0].sequence} + Sequences(rows[1..])
  {
    var rest := rows[1..];
    assert rows == [rows[0]] + rest;
    forall x
      ensures x in Sequences(rows) <==> x == rows[0].sequence || x in Sequences(rest)
    {
      if x in Sequences(rows) {
        var r :| r in rows && r.sequence == x;
        assert r == rows[0] || r in rest;
      }
    }
  }

  lemma {:induction false} OrderedCount(rows: seq<Row>)
    requires Ordered(rows)
    ensures |Sequences(rows)| == |rows|
  {
    if rows != [] {
      var rest := rows[1..];
      assert Ordered(rest);
      OrderedCount(rest);
      assert rows[0].sequence !in Sequences(rest);
      FirstSequence(rows);
      hide Sequences;
    }
  }

  lemma SubsetCount(a: set<nat>, b: set<nat>)
    requires a <= b
    ensures |a| <= |b|
  {
    assert b == a + (b - a);
  }

  /** Whoever still waits has nobody new ahead: its position has not risen. */
  lemma PositionNeverRises(a: seq<Row>, n: nat, b: seq<Row>, m: nat, r: Row)
    requires TableInv(a, n) && TableInv(b, m) && Succeeds(a, n, b, m)
    requires r in b && r.status == Waiting && r.sequence < n
    ensures exists q :: q in a && q.status == Waiting && q.id == r.id && q.sequence == r.sequence &&
                        PositionIn(b, r) <= PositionIn(a, q)
  {
    var q :| q in a && Descends(q, r);
    var p := WaitsBelow(r.sequence);
    var before, after := Where(a, p), Where(b, p);
    WhereOrdered(a, p);
    WhereOrdered(b, p);
    forall x | x in Sequences(after)
      ensures x in Sequences(before)
    {
      var w :| w in after && w.sequence == x;
      WhereMember(b, p, w);
      var v :| v in a && Descends(v, w);
      WhereMember(a, p, v);
    }
    OrderedCount(before);
    OrderedCount(after);
    SubsetCount(Sequences(after), Sequences(before));
  }
}
