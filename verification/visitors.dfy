/**
 The visitor table of one room (src/durable-object/visitor-sql.ts, src/durable-object/schema.ts).
 Rows are kept in insertion order, which is the order of their sequence numbers, so ORDER BY sequence
 is the order of the table. The counts here are the plain COUNT(*) queries the room's caches must match.
 */
module Visitors {
  import opened Wrappers

  datatype Status = Waiting | Admitted | Left | Expired

  datatype Row = Row(
    id: string,
    status: Status,
    joinedAt: int,
    lastHeartbeatAt: int,
    admittedAt: Option<int>,
    sequence: nat,
    entered: bool,
    nextCheckAt: Option<int>)

  predicate IsActive(r: Row) {
    r.status == Waiting || r.status == Admitted
  }

  // ---------- queries ----------

  /** SELECT * WHERE p ORDER BY sequence. */
  function Where(rows: seq<Row>, p: Row -> bool): (found: seq<Row>)
    ensures |found| <= |rows|
  {
    if rows == [] then [] else (if p(rows[0]) then [rows[0]] else []) + Where(rows[1..], p)
  }

  function HasStatus(st: Status): Row -> bool {
    (r: Row) => r.status == st
  }

  function HasEntered(): Row -> bool {
    (r: Row) => r.status == Admitted && r.entered
  }

  function WaitsBelow(sequence: nat): Row -> bool {
    (r: Row) => r.status == Waiting && r.sequence < sequence
  }

  /** Every row but the terminal ones that joined before the cutoff. */
  function Survives(purgeBefore: int): Row -> bool {
    (r: Row) => IsActive(r) || r.joinedAt >= purgeBefore
  }

  function Waiters(rows: seq<Row>): seq<Row> {
    Where(rows, HasStatus(Waiting))
  }

  /** countVisitorsByStatus */
  function Count(rows: seq<Row>, st: Status): nat {
    |Where(rows, HasStatus(st))|
  }

  /** countEnteredVisitors */
  function CountEntered(rows: seq<Row>): nat {
    |Where(rows, HasEntered())|
  }

  /** Admitted, but not entered yet. */
  function IsHolding(): Row -> bool {
    (r: Row) => r.status == Admitted && !r.entered
  }

  function CountHolding(rows: seq<Row>): nat {
    |Where(rows, IsHolding())|
  }

  /** countWaitingAhead */
  function CountAhead(rows: seq<Row>, sequence: nat): nat {
    |Where(rows, WaitsBelow(sequence))|
  }

  /** The row with a primary key, or the length of the table. */
  function IndexOf(rows: seq<Row>, id: string): (k: nat)
    ensures k <= |rows|
    ensures k < |rows| ==> rows[k].id == id
    ensures forall i :: 0 <= i < k ==> rows[i].id != id
  {
    if rows == [] then 0 else if rows[0].id == id then 0 else 1 + IndexOf(rows[1..], id)
  }

  predicate Has(rows: seq<Row>, id: string) {
    IndexOf(rows, id) < |rows|
  }

  function Get(rows: seq<Row>, id: string): (r: Row)
    requires Has(rows, id)
    ensures r.id == id && r in rows
  {
    rows[IndexOf(rows, id)]
  }

  // ---------- table invariant ----------

  ghost predicate Ordered(rows: seq<Row>) {
    forall i, j :: 0 <= i < j < |rows| ==> rows[i].sequence < rows[j].sequence
  }

  ghost predicate UniqueIds(rows: seq<Row>) {
    forall i, j :: 0 <= i < j < |rows| ==> rows[i].id != rows[j].id
  }

  /** What the columns of a row hold in each status. */
  predicate WellFormed(r: Row) {
    && (r.status == Waiting ==>
          r.nextCheckAt.Some? && r.nextCheckAt.value % 1000 == 0 && r.admittedAt.None? && !r.entered)
    && (r.status == Admitted ==> r.admittedAt.Some? && r.nextCheckAt.None?)
    && (r.entered ==> r.admittedAt.Some?)
  }

  ghost predicate TableInv(rows: seq<Row>, nextSequence: nat) {
    && Ordered(rows)
    && UniqueIds(rows)
    && (forall i :: 0 <= i < |rows| ==> rows[i].sequence < nextSequence)
    && (forall i :: 0 <= i < |rows| ==> WellFormed(rows[i]))
  }

  // ---------- queries under the table operations ----------

  lemma {:induction false} WhereConcat(a: seq<Row>, b: seq<Row>, p: Row -> bool)
    ensures Where(a + b, p) == Where(a, p) + Where(b, p)
  {
    if a == [] {
      assert a + b == b;
    } else {
      var rest, first := a[1..], if p(a[0]) then [a[0]] else [];
      WhereConcat(rest, b, p);
      WhereTail(a + b, p);
      assert (a + b)[0] == a[0] && (a + b)[1..] == rest + b;
      WhereTail(a, p);
      Associative(first, Where(rest, p), Where(b, p));
      hide Where;
    }
  }

  lemma WhereTail(rows: seq<Row>, p: Row -> bool)
    requires rows != []
    ensures Where(rows, p) == (if p(rows[0]) then [rows[0]] else []) + Where(rows[1..], p)
  {
  }

  lemma Associative(a: seq<Row>, b: seq<Row>, c: seq<Row>)
    ensures a + (b + c) == (a + b) + c
  {
  }

  lemma WhereOne(r: Row, p: Row -> bool)
    ensures Where([r], p) == if p(r) then [r] else []
  {
    assert [r][1..] == [];
  }

  lemma WhereAppend(rows: seq<Row>, r: Row, p: Row -> bool)
    ensures Where(rows + [r], p) == Where(rows, p) + (if p(r) then [r] else [])
  {
    WhereConcat(rows, [r], p);
    WhereOne(r, p);
  }

  lemma WhereSplit(rows: seq<Row>, k: nat, p: Row -> bool)
    requires k < |rows|
    ensures Where(rows, p) ==
            Where(rows[..k], p) + (if p(rows[k]) then [rows[k]] else []) + Where(rows[k + 1..], p)
  {
    assert rows == rows[..k] + rows[k..];
    WhereConcat(rows[..k], rows[k..], p);
    WhereTail(rows[k..], p);
    assert rows[k..][1..] == rows[k + 1..];
    Associative(Where(rows[..k], p), if p(rows[k]) then [rows[k]] else [], Where(rows[k + 1..], p));
    hide Where;
  }

  /** How one UPDATE changes the size of a query. */
  lemma WhereUpdate(rows: seq<Row>, k: nat, r: Row, p: Row -> bool)
    requires k < |rows|
    ensures |Where(rows[k := r], p)| + (if p(rows[k]) then 1 else 0) == |Where(rows, p)| + (if p(r) then 1 else 0)
  {
    var after := rows[k := r];
    WhereSplit(rows, k, p);
    WhereSplit(after, k, p);
    assert after[..k] == rows[..k] && after[k + 1..] == rows[k + 1..];
  }

  lemma {:induction false} WhereMember(rows: seq<Row>, p: Row -> bool, r: Row)
    ensures r in Where(rows, p) <==> r in rows && p(r)
  {
    if rows != [] {
      WhereMember(rows[1..], p, r);
    }
  }

  /** A query of a query is the query for both conditions. */
  lemma {:induction false} WhereWhere(rows: seq<Row>, p: Row -> bool, q: Row -> bool, both: Row -> bool)
    requires forall i :: 0 <= i < |rows| ==> (both(rows[i]) <==> p(rows[i]) && q(rows[i]))
    ensures Where(Where(rows, p), q) == Where(rows, both)
  {
    if rows != [] {
      var rest := rows[1..];
      WhereWhere(rest, p, q, both);
      var first := if p(rows[0]) then [rows[0]] else [];
      assert Where(rows, p) == first + Where(rest, p);
      WhereConcat(first, Where(rest, p), q);
      if p(rows[0]) {
        WhereOne(rows[0], q);
      }
    }
  }

  lemma {:induction false} WhereOrdered(rows: seq<Row>, p: Row -> bool)
    requires Ordered(rows)
    ensures Ordered(Where(rows, p))
  {
    if rows != [] {
      var rest := rows[1..];
      assert Ordered(rest);
      WhereOrdered(rest, p);
      var tail := Where(rest, p);
      forall i | 0 <= i < |tail|
        ensures rows[0].sequence < tail[i].sequence
      {
        WhereMember(rest, p, tail[i]);
      }
    }
  }

  lemma {:induction false} WhereUniqueIds(rows: seq<Row>, p: Row -> bool)
    requires UniqueIds(rows)
    ensures UniqueIds(Where(rows, p))
  {
    if rows != [] {
      var rest := rows[1..];
      assert UniqueIds(rest);
      WhereUniqueIds(rest, p);
      var tail := Where(rest, p);
      forall i | 0 <= i < |tail|
        ensures rows[0].id != tail[i].id
      {
        WhereMember(rest, p, tail[i]);
      }
    }
  }

  /** A query keeps the order and the distinctness of the table. */
  lemma WhereKeepsInv(rows: seq<Row>, p: Row -> bool, n: nat)
    requires TableInv(rows, n)
    ensures TableInv(Where(rows, p), n)
  {
    WhereOrdered(rows, p);
    WhereUniqueIds(rows, p);
    var kept := Where(rows, p);
    forall i | 0 <= i < |kept|
      ensures kept[i].sequence < n && WellFormed(kept[i])
    {
      WhereMember(rows, p, kept[i]);
    }
  }

  /** Two tables of the same shape: if a query admits fewer rows pointwise, it returns no more. */
  lemma {:induction false} WhereShrinks(a: seq<Row>, b: seq<Row>, p: Row -> bool)
    requires |a| == |b| && forall i :: 0 <= i < |a| && p(b[i]) ==> p(a[i])
    ensures |Where(b, p)| <= |Where(a, p)|
  {
    if a != [] {
      WhereShrinks(a[1..], b[1..], p);
    }
  }

  // ---------- the waiting line ----------

  /** Every admitted visitor has entered or is holding a seat. */
  lemma {:induction false} EnteredAndHolding(rows: seq<Row>)
    ensures CountEntered(rows) + CountHolding(rows) == Count(rows, Admitted)
  {
    if rows != [] {
      EnteredAndHolding(rows[1..]);
    }
  }

  lemma {:induction false} NoneBelow(rows: seq<Row>, sequence: nat)
    requires forall i :: 0 <= i < |rows| ==> rows[i].sequence >= sequence
    ensures Where(rows, WaitsBelow(sequence)) == []
  {
    if rows != [] {
      NoneBelow(rows[1..], sequence);
    }
  }

  lemma WaitersTail(rows: seq<Row>, sequence: nat)
    requires rows != []
    ensures Waiters(rows) == (if rows[0].status == Waiting then [rows[0]] else []) + Waiters(rows[1..])
    ensures CountAhead(rows, sequence) ==
            (if rows[0].status == Waiting && rows[0].sequence < sequence then 1 else 0) + CountAhead(rows[1..], sequence)
  {
  }

  /** The k-th waiter in sequence order has exactly k waiters ahead. */
  lemma {:induction false} AheadIsIndex(rows: seq<Row>, k: nat)
    requires Ordered(rows) && k < |Waiters(rows)|
    ensures CountAhead(rows, Waiters(rows)[k].sequence) == k
  {
    FirstWaits(rows);
    hide Where, Waiters, CountAhead;
    var rest, w := rows[1..], Waiters(rows)[k];
    WaitersTail(rows, w.sequence);
    if rows[0].status != Waiting {
      AheadIsIndex(rest, k);
    } else if k == 0 {
      NoneAhead(rows, w.sequence);
    } else {
      AheadIsIndex(rest, k - 1);
      LaterWaiter(rows, k - 1);
    }
  }

  lemma FirstWaits(rows: seq<Row>)
    requires |Waiters(rows)| > 0
    ensures rows != []
  {
  }

  lemma NoneAhead(rows: seq<Row>, sequence: nat)
    requires forall i :: 0 <= i < |rows| ==> rows[i].sequence >= sequence
    ensures CountAhead(rows, sequence) == 0
  {
    NoneBelow(rows, sequence);
  }

  lemma LaterWaiter(rows: seq<Row>, k: nat)
    requires Ordered(rows) && rows != [] && k < |Waiters(rows[1..])|
    ensures rows[0].sequence < Waiters(rows[1..])[k].sequence
  {
    var w := Waiters(rows[1..])[k];
    WhereMember(rows[1..], HasStatus(Waiting), w);
    var i :| 0 <= i < |rows[1..]| && rows[1..][i] == w;
    assert rows[i + 1] == w;
  }

  /** The place of a waiting row in the line. */
  lemma {:induction false} PlaceOf(rows: seq<Row>, r: Row) returns (k: nat)
    requires r in rows && r.status == Waiting
    ensures k < |Waiters(rows)| && Waiters(rows)[k] == r
  {
    WhereMember(rows, HasStatus(Waiting), r);
    k :| 0 <= k < |Waiters(rows)| && Waiters(rows)[k] == r;
  }

  /** Nothing waits below a sequence number that no row has reached. */
  lemma AppendKeepsAhead(rows: seq<Row>, r: Row, sequence: nat)
    requires r.sequence >= sequence
    ensures CountAhead(rows + [r], sequence) == CountAhead(rows, sequence)
  {
    WhereAppend(rows, r, WaitsBelow(sequence));
  }

  /** IndexOf finds the only row with its key. */
  lemma IndexOfUnique(rows: seq<Row>, k: nat)
    requires UniqueIds(rows) && k < |rows|
    ensures IndexOf(rows, rows[k].id) == k
  {
    var i := IndexOf(rows, rows[k].id);
    assert !(i < k);
  }

  lemma AppendKeepsInv(rows: seq<Row>, r: Row, n: nat)
    requires TableInv(rows, n) && !Has(rows, r.id) && r.sequence == n && WellFormed(r)
    ensures TableInv(rows + [r], n + 1)
  {
  }

  lemma UpdateKeepsInv(rows: seq<Row>, k: nat, r: Row, n: nat)
    requires TableInv(rows, n) && k < |rows|
    requires r.id == rows[k].id && r.sequence == rows[k].sequence && WellFormed(r)
    ensures TableInv(rows[k := r], n)
  {
  }
}
