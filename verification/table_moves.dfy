/**
 How the table operations of the room change the visitor table: what they keep, how a row may evolve, and
 the two bounds every step must respect.
 */
module TableMoves {
  import opened Wrappers
  import opened Visitors
  import opened RoomState
  import opened RoomSteps

  /** A row keeps its identity; waiting may become anything, admitted may only end, and an end is final. */
  predicate Descends(a: Row, b: Row) {
    && b.id == a.id && b.sequence == a.sequence && b.joinedAt == a.joinedAt
    && (b.status == Waiting ==> a.status == Waiting)
    && (a.status != Waiting ==> b.admittedAt == a.admittedAt && (a.entered ==> b.entered))
    && (!IsActive(a) ==> b.status == a.status)
  }

  /** Every row of b descends from a row of a, or carries a sequence number not spent before. */
  ghost predicate Succeeds(a: seq<Row>, n: nat, b: seq<Row>, m: nat) {
    && n <= m
    && forall r :: r in b ==> r.sequence >= n || exists q :: q in a && Descends(q, r)
  }

  ghost predicate NoNewAdmits(a: seq<Row>, b: seq<Row>) {
    forall r :: r in b && r.status == Admitted ==>
      exists q :: q in a && q.status == Admitted && Descends(q, r)
  }

  /** A bounded move: the table evolves, the two caps hold, and a shut gate admits nobody new. */
  ghost predicate Moves(a: seq<Row>, n: nat, b: seq<Row>, m: nat, gate: bool, cap: nat, waitCap: nat) {
    && Succeeds(a, n, b, m)
    && (gate || NoNewAdmits(a, b))
    && Count(b, Admitted) <= Max(Count(a, Admitted), cap)
    && Count(b, Waiting) <= Max(Count(a, Waiting), waitCap)
  }

  lemma DescendsTransitive(a: Row, b: Row, c: Row)
    requires Descends(a, b) && Descends(b, c)
    ensures Descends(a, c)
  {
  }

  lemma SucceedsTransitive(a: seq<Row>, n: nat, b: seq<Row>, m: nat, c: seq<Row>, l: nat)
    requires Succeeds(a, n, b, m) && Succeeds(b, m, c, l)
    ensures Succeeds(a, n, c, l)
  {
    forall r | r in c && r.sequence < n
      ensures exists q :: q in a && Descends(q, r)
    {
      var q :| q in b && Descends(q, r);
      var p :| p in a && Descends(p, q);
      DescendsTransitive(p, q, r);
    }
  }

  lemma NoNewAdmitsTransitive(a: seq<Row>, b: seq<Row>, c: seq<Row>)
    requires NoNewAdmits(a, b) && NoNewAdmits(b, c)
    ensures NoNewAdmits(a, c)
  {
    forall r | r in c && r.status == Admitted
      ensures exists q :: q in a && q.status == Admitted && Descends(q, r)
    {
      var q :| q in b && q.status == Admitted && Descends(q, r);
      var p :| p in a && p.status == Admitted && Descends(p, q);
      DescendsTransitive(p, q, r);
    }
  }

  lemma MovesTransitive(a: seq<Row>, n: nat, b: seq<Row>, m: nat, c: seq<Row>, l: nat,
                        gate: bool, cap: nat, waitCap: nat)
    requires Moves(a, n, b, m, gate, cap, waitCap) && Moves(b, m, c, l, gate, cap, waitCap)
    ensures Moves(a, n, c, l, gate, cap, waitCap)
  {
    SucceedsTransitive(a, n, b, m, c, l);
    if !gate {
      NoNewAdmitsTransitive(a, b, c);
    }
  }

  lemma MovesNowhere(a: seq<Row>, n: nat, m: nat, gate: bool, cap: nat, waitCap: nat)
    requires n <= m
    ensures Moves(a, n, a, m, gate, cap, waitCap)
  {
    forall r | r in a
      ensures exists q :: q in a && Descends(q, r)
      ensures r.status == Admitted ==> exists q :: q in a && q.status == Admitted && Descends(q, r)
    {
      assert Descends(r, r);
    }
  }

  // ---------- rows changed in place ----------

  lemma PointwiseSucceeds(a: seq<Row>, b: seq<Row>, n: nat)
    requires |a| == |b| && forall i :: 0 <= i < |a| ==> Descends(a[i], b[i])
    ensures Succeeds(a, n, b, n)
  {
    forall r | r in b
      ensures exists q :: q in a && Descends(q, r)
    {
      var i :| 0 <= i < |b| && b[i] == r;
      assert a[i] in a;
    }
  }

  lemma PointwiseNoNewAdmits(a: seq<Row>, b: seq<Row>)
    requires |a| == |b| && forall i :: 0 <= i < |a| ==> Descends(a[i], b[i])
    requires forall i :: 0 <= i < |a| && b[i].status == Admitted ==> a[i].status == Admitted
    ensures NoNewAdmits(a, b)
  {
    forall r | r in b && r.status == Admitted
      ensures exists q :: q in a && q.status == Admitted && Descends(q, r)
    {
      var i :| 0 <= i < |b| && b[i] == r;
      assert a[i] in a;
    }
  }

  /** One UPDATE that admits nobody. */
  lemma UpdateMoves(a: seq<Row>, k: nat, r: Row, n: nat, cap: nat, waitCap: nat)
    requires k < |a| && Descends(a[k], r) && (r.status == Admitted ==> a[k].status == Admitted)
    ensures Moves(a, n, a[k := r], n, false, cap, waitCap)
  {
    var b := a[k := r];
    forall i | 0 <= i < |a|
      ensures Descends(a[i], b[i])
    {
      if i != k {
        assert Descends(a[i], a[i]);
      }
    }
    PointwiseSucceeds(a, b, n);
    PointwiseNoNewAdmits(a, b);
    WhereUpdate(a, k, r, HasStatus(Admitted));
    WhereUpdate(a, k, r, HasStatus(Waiting));
  }

  // ---------- sweeping ----------

  lemma WhereMoves(a: seq<Row>, p: Row -> bool, n: nat)
    requires forall i :: 0 <= i < |a| && IsActive(a[i]) ==> p(a[i])
    ensures Moves(a, n, Where(a, p), n, false, 0, 0)
    ensures Count(Where(a, p), Waiting) == Count(a, Waiting)
    ensures Count(Where(a, p), Admitted) == Count(a, Admitted)
  {
    var b := Where(a, p);
    forall r | r in b
      ensures exists q :: q in a && Descends(q, r)
      ensures r.status == Admitted ==> exists q :: q in a && q.status == Admitted && Descends(q, r)
    {
      WhereMember(a, p, r);
      assert Descends(r, r);
    }
    WhereWhere(a, p, HasStatus(Waiting), HasStatus(Waiting));
    WhereWhere(a, p, HasStatus(Admitted), HasStatus(Admitted));
  }

  lemma ExpireMoves(a: seq<Row>, eff: QueueConfig, now: int, graceMs: int, n: nat)
    requires TableInv(a, n)
    ensures var b := ExpireAll(a, eff, now, graceMs);
            TableInv(b, n) && Moves(a, n, b, n, false, 0, 0)
  {
    var b := ExpireAll(a, eff, now, graceMs);
    PointwiseSucceeds(a, b, n);
    PointwiseNoNewAdmits(a, b);
    WhereShrinks(a, b, HasStatus(Admitted));
    WhereShrinks(a, b, HasStatus(Waiting));
  }

  lemma SweepMoves(s: Room, config: QueueConfig, now: int, force: bool)
    requires TableInv(s.rows, s.meta.nextSequence)
    ensures var t := Sweep(s, config, now, force);
            && TableInv(t.rows, t.meta.nextSequence)
            && Moves(s.rows, s.meta.nextSequence, t.rows, t.meta.nextSequence, false, 0, 0)
            && |t.rows| + t.purged == |s.rows| + s.purged
  {
    var n := s.meta.nextSequence;
    if SweepSkipped(s.meta, now, force) {
      MovesNowhere(s.rows, n, n, false, 0, 0);
    } else {
      var marked := s.meta.(lastSweep := now);
      var eff := EffectiveConfig(marked, config);
      var swept := Swept(s.rows, marked, config, now);
      var p := Survives(now - 60 * 60 * 1000);
      ExpireMoves(s.rows, eff, now, GraceMs(s.rows, eff), n);
      WhereMoves(swept, p, n);
      WhereKeepsInv(swept, p, n);
      MovesTransitive(s.rows, n, swept, n, Where(swept, p), n, false, 0, 0);
    }
  }

  // ---------- inserting ----------

  lemma InsertMoves(s: Room, r: Row, gate: bool, cap: nat, waitCap: nat)
    requires TableInv(s.rows, s.meta.nextSequence) && !Has(s.rows, r.id)
    requires WellFormed(r.(sequence := s.meta.nextSequence))
    requires r.status == Admitted ==> gate && Count(s.rows, Admitted) < cap
    requires r.status == Waiting ==> Count(s.rows, Waiting) < waitCap
    ensures var t := Insert(s, r);
            && TableInv(t.rows, t.meta.nextSequence)
            && Moves(s.rows, s.meta.nextSequence, t.rows, t.meta.nextSequence, gate, cap, waitCap)
  {
    var n := s.meta.nextSequence;
    var row := r.(sequence := n);
    AppendKeepsInv(s.rows, row, n);
    MovesNowhere(s.rows, n, n, gate, cap, waitCap);
    var b := s.rows + [row];
    forall x | x in b
      ensures x.sequence >= n || exists q :: q in s.rows && Descends(q, x)
      ensures x.status == Admitted && !gate ==> exists q :: q in s.rows && q.status == Admitted && Descends(q, x)
    {
      assert x in s.rows || x == row;
      assert Descends(x, x);
    }
    WhereAppend(s.rows, row, HasStatus(Admitted));
    WhereAppend(s.rows, row, HasStatus(Waiting));
  }

  // ---------- admitting ----------

  lemma AdmitOneMoves(a: seq<Row>, id: string, now: int, entered: bool, n: nat)
    requires TableInv(a, n) && IsWaiting(a, id)
    ensures var b := AdmitOne(a, id, now, entered);
            && TableInv(b, n)
            && Succeeds(a, n, b, n)
            && Count(b, Waiting) + 1 == Count(a, Waiting)
            && Count(b, Admitted) == Count(a, Admitted) + 1
            && |b| == |a|
  {
    var k := IndexOf(a, id);
    var r := Promoted(a[k], now, entered);
    var b := a[k := r];
    UpdateKeepsInv(a, k, r, n);
    forall i | 0 <= i < |a|
      ensures Descends(a[i], b[i])
    {
      if i != k {
        assert Descends(a[i], a[i]);
      }
    }
    PointwiseSucceeds(a, b, n);
    WhereUpdate(a, k, r, HasStatus(Waiting));
    WhereUpdate(a, k, r, HasStatus(Admitted));
  }

  /** An UPDATE at one key leaves every other key where it was. */
  lemma {:induction false} UpdateKeepsIndex(rows: seq<Row>, k: nat, r: Row, id: string)
    requires k < |rows| && r.id == rows[k].id
    ensures IndexOf(rows[k := r], id) == IndexOf(rows, id)
  {
    if rows[0].id != id && k > 0 {
      assert rows[k := r][1..] == rows[1..][k - 1 := r];
      UpdateKeepsIndex(rows[1..], k - 1, r, id);
    } else if k == 0 {
      assert rows[k := r][1..] == rows[1..];
    }
  }

  /** Who is not among those admitted still waits. */
  lemma StillWaits(a: seq<Row>, b: seq<Row>, picks: seq<string>, now: int, entered: bool, id: string)
    requires |b| == |a| && IsWaiting(a, id) && id !in picks && IndexOf(b, id) == IndexOf(a, id)
    requires forall k :: 0 <= k < |a| ==> b[k] == if a[k].id in picks then Promoted(a[k], now, entered) else a[k]
    ensures IsWaiting(b, id)
  {
    var k := IndexOf(a, id);
    assert a[k].id == id && b[k] == a[k];
  }

  /** Admitting distinct waiters moves exactly that many rows, and touches no other row. */
  lemma {:induction false} AdmitAllMoves(a: seq<Row>, picks: seq<string>, now: int, entered: bool, n: nat)
    requires TableInv(a, n) && Distinct(picks) && forall id :: id in picks ==> IsWaiting(a, id)
    ensures var b := AdmitAll(a, picks, now, entered);
            && TableInv(b, n)
            && Succeeds(a, n, b, n)
            && Count(b, Waiting) + |picks| == Count(a, Waiting)
            && Count(b, Admitted) == Count(a, Admitted) + |picks|
            && |b| == |a|
            && (forall id :: IndexOf(b, id) == IndexOf(a, id))
            && (forall k :: 0 <= k < |a| ==>
                  b[k] == if a[k].id in picks then Promoted(a[k], now, entered) else a[k])
  {
    if picks == [] {
      MovesNowhere(a, n, n, true, 0, 0);
    } else {
      var last := |picks| - 1;
      var before := picks[..last];
      var id := picks[last];
      assert id in picks && id !in before;
      AdmitAllMoves(a, before, now, entered, n);
      var b := AdmitAll(a, before, now, entered);
      var k := IndexOf(a, id);
      StillWaits(a, b, before, now, entered, id);
      hide Where, Succeeds;
      AdmitOneMoves(b, id, now, entered, n);
      var c := AdmitOne(b, id, now, entered);
      SucceedsTransitive(a, n, b, n, c, n);
      forall other
        ensures IndexOf(c, other) == IndexOf(a, other)
      {
        UpdateKeepsIndex(b, k, c[k], other);
      }
      PickedRows(a, b, c, picks, k, now, entered);
    }
  }

  lemma PickedRows(a: seq<Row>, b: seq<Row>, c: seq<Row>, picks: seq<string>, k: nat, now: int, entered: bool)
    requires |picks| > 0 && |a| == |b| && k < |a| && UniqueIds(a)
    requires a[k].id == picks[|picks| - 1] && a[k].id !in picks[..|picks| - 1]
    requires forall i :: 0 <= i < |a| ==>
               b[i] == if a[i].id in picks[..|picks| - 1] then Promoted(a[i], now, entered) else a[i]
    requires c == b[k := Promoted(b[k], now, entered)]
    ensures forall i :: 0 <= i < |a| ==> c[i] == if a[i].id in picks then Promoted(a[i], now, entered) else a[i]
  {
    var before := picks[..|picks| - 1];
    assert picks == before + [a[k].id];
    forall i | 0 <= i < |a|
      ensures c[i] == if a[i].id in picks then Promoted(a[i], now, entered) else a[i]
    {
      if i != k {
        assert a[i].id != a[k].id;
      }
    }
  }
}
