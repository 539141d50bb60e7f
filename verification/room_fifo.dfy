/**
 The plain queue that a room's tables stand for, and what the pieces of a step do to it.
 */
module RoomFifo {
  import opened Wrappers
  import opened Engine
  import opened Visitors
  import opened RoomState
  import opened RoomSteps
  import opened TableMoves
  import opened Admission
  import opened RoomBounds
  import opened FifoQueue

  function TicketFor(r: Row): Ticket {
    Ticket(r.id, r.sequence)
  }

  function Tickets(rows: seq<Row>): (tickets: seq<Ticket>)
    ensures |tickets| == |rows|
    ensures forall i :: 0 <= i < |rows| ==> tickets[i] == TicketFor(rows[i])
  {
    seq(|rows|, i requires 0 <= i < |rows| => TicketFor(rows[i]))
  }

  /** The tickets of the rows in one status, in sequence order. */
  function TicketsIn(rows: seq<Row>, st: Status): (tickets: seq<Ticket>)
    ensures |tickets| == Count(rows, st)
  {
    Tickets(Where(rows, HasStatus(st)))
  }

  function TicketSet(tickets: seq<Ticket>): set<Ticket> {
    set t | t in tickets
  }

  function Guests(rows: seq<Row>): set<Ticket> {
    TicketSet(TicketsIn(rows, Admitted))
  }

  function FifoOf(s: Room): Fifo {
    Fifo(TicketsIn(s.rows, Waiting), Guests(s.rows), s.meta.nextSequence, s.meta.admitRemainder)
  }

  // ---------- the projection ----------

  lemma TicketMember(rows: seq<Row>, st: Status, t: Ticket)
    ensures t in TicketsIn(rows, st) <==> exists r :: r in rows && r.status == st && TicketFor(r) == t
  {
    var found := Where(rows, HasStatus(st));
    if i :| 0 <= i < |found| && TicketsIn(rows, st)[i] == t {
      WhereMember(rows, HasStatus(st), found[i]);
    }
    if r :| r in rows && r.status == st && TicketFor(r) == t {
      WhereMember(rows, HasStatus(st), r);
      var i :| 0 <= i < |found| && found[i] == r;
      assert TicketsIn(rows, st)[i] == t;
    }
  }

  lemma {:induction false} DistinctCount(tickets: seq<Ticket>)
    requires NumbersAscend(tickets)
    ensures |TicketSet(tickets)| == |tickets|
  {
    if tickets != [] {
      var rest := tickets[1..];
      DistinctCount(rest);
      assert tickets[0] !in rest;
      assert TicketSet(tickets) == {tickets[0]} + TicketSet(rest) by {
        assert tickets == [tickets[0]] + rest;
      }
    }
  }

  /** There are as many guests as admitted rows. */
  lemma GuestsAreCounted(rows: seq<Row>, n: nat)
    requires TableInv(rows, n)
    ensures |Guests(rows)| == Count(rows, Admitted)
  {
    WhereOrdered(rows, HasStatus(Admitted));
    DistinctCount(TicketsIn(rows, Admitted));
  }

  /** Who is present in the table is present in the queue, in the same place. */
  lemma WhoIsPresent(s: Room, id: string)
    requires TableOk(s)
    ensures InLine(FifoOf(s), id) <==> IsWaiting(s.rows, id)
    ensures IsSeated(FifoOf(s), id) <==> Has(s.rows, id) && Get(s.rows, id).status == Admitted
  {
    var f := FifoOf(s);
    if i :| 0 <= i < |f.line| && f.line[i].id == id {
      TicketMember(s.rows, Waiting, f.line[i]);
      var r :| r in s.rows && r.status == Waiting && TicketFor(r) == f.line[i];
      RowIsGet(s.rows, r);
    }
    if t :| t in f.admitted && t.id == id {
      TicketMember(s.rows, Admitted, t);
      var r :| r in s.rows && r.status == Admitted && TicketFor(r) == t;
      RowIsGet(s.rows, r);
    }
    if Has(s.rows, id) {
      var r := Get(s.rows, id);
      TicketMember(s.rows, r.status, TicketFor(r));
      assert r in s.rows && r.status == r.status && TicketFor(r) == TicketFor(r);
    }
  }

  lemma RowIsGet(rows: seq<Row>, r: Row)
    requires UniqueIds(rows) && r in rows
    ensures Has(rows, r.id) && Get(rows, r.id) == r
  {
    var k :| 0 <= k < |rows| && rows[k] == r;
    IndexOfUnique(rows, k);
  }

  // ---------- changes that the queue does not see ----------

  predicate SameTicket(a: Row, b: Row) {
    b.id == a.id && b.sequence == a.sequence && b.status == a.status
  }

  lemma {:induction false} SameTickets(a: seq<Row>, b: seq<Row>, st: Status)
    requires |a| == |b| && forall i :: 0 <= i < |a| ==> SameTicket(a[i], b[i])
    ensures TicketsIn(b, st) == TicketsIn(a, st)
  {
    if a != [] {
      assert SameTicket(a[0], b[0]);
      SameTickets(a[1..], b[1..], st);
    }
  }

  lemma UpdateUnseen(s: Room, k: nat, r: Row)
    requires k < |s.rows| && SameTicket(s.rows[k], r)
    ensures FifoOf(UpdateRow(s, k, r)) == FifoOf(s)
  {
    SameTickets(s.rows, s.rows[k := r], Waiting);
    SameTickets(s.rows, s.rows[k := r], Admitted);
  }

  /** No timeout has passed for any row at this time. */
  ghost predicate NobodyTimesOut(s: Room, config: QueueConfig, now: int) {
    var eff := EffectiveConfig(s.meta, config);
    forall i :: 0 <= i < |s.rows| ==> Expire(s.rows[i], eff, now, GraceMs(s.rows, eff)) == s.rows[i]
  }

  /** Retention only deletes rows that have left or expired. */
  lemma SweepUnseen(s: Room, config: QueueConfig, now: int, force: bool)
    requires NobodyTimesOut(s, config, now)
    ensures FifoOf(Sweep(s, config, now, force)) == FifoOf(s)
    ensures forall r :: r in Sweep(s, config, now, force).rows ==> r in s.rows
  {
    if !SweepSkipped(s.meta, now, force) {
      var swept := Swept(s.rows, s.meta.(lastSweep := now), config, now);
      assert swept == s.rows;
      var p := Survives(now - 60 * 60 * 1000);
      WhereWhere(s.rows, p, HasStatus(Waiting), HasStatus(Waiting));
      WhereWhere(s.rows, p, HasStatus(Admitted), HasStatus(Admitted));
      forall r | r in Where(s.rows, p)
        ensures r in s.rows
      {
        WhereMember(s.rows, p, r);
      }
    }
  }

  lemma BeginUnseen(s: Room, config: QueueConfig, now: int, force: bool)
    requires TableOk(s) && NobodyTimesOut(s, config, now)
    ensures var b := Begin(s, config, now, force);
            TableOk(b) && FifoOf(b) == FifoOf(s) && forall r :: r in b.rows ==> r in s.rows
  {
    SweepUnseen(Remember(s, config), config, now, force);
    BeginMoves(s, config, now, force, true, 0, 0);
  }

  // ---------- changes that it does see ----------

  lemma TicketAppended(rows: seq<Row>, r: Row, st: Status)
    ensures TicketsIn(rows + [r], st) == TicketsIn(rows, st) + (if r.status == st then [TicketFor(r)] else [])
  {
    WhereAppend(rows, r, HasStatus(st));
  }

  lemma TicketSetAppend(tickets: seq<Ticket>, t: Ticket)
    ensures TicketSet(tickets + [t]) == TicketSet(tickets) + {t}
  {
  }

  lemma InsertSeen(s: Room, r: Row)
    ensures var t := TicketFor(r.(sequence := s.meta.nextSequence));
            var line := FifoOf(s).line + (if r.status == Waiting then [t] else []);
            var seats := FifoOf(s).admitted + (if r.status == Admitted then {t} else {});
            FifoOf(Insert(s, r)) == FifoOf(s).(line := line, admitted := seats, nextNumber := s.meta.nextSequence + 1)
  {
    hide TicketsIn, TicketSet;
    var row := r.(sequence := s.meta.nextSequence);
    TicketAppended(s.rows, row, Waiting);
    TicketAppended(s.rows, row, Admitted);
    TicketSetAppend(TicketsIn(s.rows, Admitted), TicketFor(row));
    assert TicketsIn(s.rows, Admitted) + [] == TicketsIn(s.rows, Admitted);
  }

  /** A row that changes its status takes its ticket out of the old one's list. */
  lemma TicketLeaves(rows: seq<Row>, k: nat, r: Row) returns (i: nat)
    requires k < |rows| && r.status != rows[k].status
    ensures var tickets := TicketsIn(rows, rows[k].status);
            && i < |tickets| && tickets[i] == TicketFor(rows[k])
            && TicketsIn(rows[k := r], rows[k].status) == tickets[..i] + tickets[i + 1..]
  {
    var after, p := rows[k := r], HasStatus(rows[k].status);
    assert after[..k] == rows[..k] && after[k + 1..] == rows[k + 1..];
    WhereSplit(rows, k, p);
    WhereSplit(after, k, p);
    i := |Where(rows[..k], p)|;
  }

  lemma TicketElsewhere(rows: seq<Row>, k: nat, r: Row, st: Status)
    requires k < |rows| && r.status != st && rows[k].status != st
    ensures TicketsIn(rows[k := r], st) == TicketsIn(rows, st)
  {
    var after, p := rows[k := r], HasStatus(st);
    assert after[..k] == rows[..k] && after[k + 1..] == rows[k + 1..];
    WhereSplit(rows, k, p);
    WhereSplit(after, k, p);
  }

  /** Taking one waiter out of the table takes its ticket out of the line. */
  lemma VacateLine(s: Room, id: string)
    requires TableOk(s) && IsWaiting(s.rows, id)
    ensures FifoOf(Vacate(s, id)) == FifoOf(s).(line := Without(FifoOf(s).line, id))
  {
    var k := IndexOf(s.rows, id);
    var r := s.rows[k].(status := Left);
    var i := TicketLeaves(s.rows, k, r);
    TicketElsewhere(s.rows, k, r, Admitted);
    WhereUniqueIds(s.rows, HasStatus(Waiting));
    WithoutOne(FifoOf(s).line, i);
  }

  lemma SetWithout(tickets: seq<Ticket>, i: nat)
    requires i < |tickets| && NumbersAscend(tickets)
    ensures TicketSet(tickets[..i] + tickets[i + 1..]) == TicketSet(tickets) - {tickets[i]}
  {
    var rest := tickets[..i] + tickets[i + 1..];
    forall t
      ensures t in rest <==> t in tickets && t != tickets[i]
    {
      if j :| 0 <= j < |tickets| && tickets[j] == t && j != i {
        assert rest[if j < i then j else j - 1] == t;
      }
    }
  }

  /** Taking one guest out of the table frees its seat. */
  lemma VacateSeat(s: Room, id: string)
    requires TableOk(s) && Has(s.rows, id) && Get(s.rows, id).status == Admitted
    ensures var t := TicketFor(Get(s.rows, id));
            t in FifoOf(s).admitted && FifoOf(Vacate(s, id)) == FifoOf(s).(admitted := FifoOf(s).admitted - {t})
  {
    var k := IndexOf(s.rows, id);
    var r := s.rows[k].(status := Left);
    var i := TicketLeaves(s.rows, k, r);
    TicketElsewhere(s.rows, k, r, Waiting);
    WhereOrdered(s.rows, HasStatus(Admitted));
    SetWithout(TicketsIn(s.rows, Admitted), i);
  }

  /** A Queue Mode batch of n seats the first n of the line. */
  lemma BatchSeen(s: Room, config: QueueConfig, now: int, gate: bool, limit: nat, picks: seq<string>)
    requires TableOk(s) && PicksAllowed(s, config, gate, limit, picks) && ModeOf(s.meta, config) == Queue
    ensures |picks| == if gate then Min(limit, Count(s.rows, Waiting)) else 0
    ensures |picks| <= |FifoOf(s).line|
    ensures var f := FifoOf(s);
            FifoOf(AdmitPicks(s, config, now, picks))
            == f.(line := f.line[|picks|..], admitted := f.admitted + Front(f.line, |picks|))
  {
    var f, n := FifoOf(s), |picks|;
    if gate && limit > 0 {
      var entered := !EffectiveConfig(s.meta, config).requireClickToEnter;
      var after := AdmitAll(s.rows, picks, now, entered);
      BatchIsPrefix(s.rows, s.meta.nextSequence, limit, picks, now, entered);
      BatchSeats(s.rows, s.meta.nextSequence, limit, picks, now, entered);
      assert TicketsIn(after, Waiting) == f.line[n..];
    } else {
      assert f.line[0..] == f.line;
    }
  }

  lemma BatchSeats(rows: seq<Row>, n: nat, limit: nat, picks: seq<string>, now: int, entered: bool)
    requires TableInv(rows, n) && Selection(rows, Queue, limit, picks)
    ensures |picks| <= |TicketsIn(rows, Waiting)|
    ensures Guests(AdmitAll(rows, picks, now, entered)) == Guests(rows) + Front(TicketsIn(rows, Waiting), |picks|)
  {
    SelectionTakesWaiters(rows, n, Queue, limit, picks);
    AdmitAllMoves(rows, picks, now, entered, n);
    var after, line := AdmitAll(rows, picks, now, entered), Waiters(rows);
    var front := Front(TicketsIn(rows, Waiting), |picks|);
    forall u
      ensures u in Guests(after) <==> u in Guests(rows) || u in front
    {
      TicketMember(rows, Admitted, u);
      TicketMember(after, Admitted, u);
      if u in front {
        PickedIsSeated(rows, n, after, picks, now, entered, u);
      }
      if r :| r in rows && r.status == Admitted && TicketFor(r) == u {
        SeatedStays(rows, n, after, picks, now, entered, r);
      }
      if r :| r in after && r.status == Admitted && TicketFor(r) == u {
        SeatedWasPicked(rows, after, picks, now, entered, r);
      }
    }
  }

  lemma PickedIsSeated(rows: seq<Row>, n: nat, after: seq<Row>, picks: seq<string>, now: int, entered: bool, u: Ticket)
    requires TableInv(rows, n) && |after| == |rows| && |picks| <= |Waiters(rows)|
    requires picks == Ids(Waiters(rows)[..|picks|])
    requires forall k :: 0 <= k < |rows| ==> after[k] == if rows[k].id in picks then Promoted(rows[k], now, entered) else rows[k]
    requires u in Front(TicketsIn(rows, Waiting), |picks|)
    ensures exists r :: r in after && r.status == Admitted && TicketFor(r) == u
  {
    var line := Waiters(rows);
    var i :| 0 <= i < |picks| && TicketFor(line[i]) == u;
    WhereMember(rows, HasStatus(Waiting), line[i]);
    var k :| 0 <= k < |rows| && rows[k] == line[i];
    assert picks[i] == rows[k].id;
    assert after[k] in after;
  }

  lemma SeatedStays(rows: seq<Row>, n: nat, after: seq<Row>, picks: seq<string>, now: int, entered: bool, r: Row)
    requires TableInv(rows, n) && |after| == |rows|
    requires forall id :: id in picks ==> IsWaiting(rows, id)
    requires forall k :: 0 <= k < |rows| ==> after[k] == if rows[k].id in picks then Promoted(rows[k], now, entered) else rows[k]
    requires r in rows && r.status == Admitted
    ensures r in after
  {
    var k :| 0 <= k < |rows| && rows[k] == r;
    IndexOfUnique(rows, k);
    assert after[k] == r;
  }

  lemma SeatedWasPicked(rows: seq<Row>, after: seq<Row>, picks: seq<string>, now: int, entered: bool, r: Row)
    requires UniqueIds(rows) && |after| == |rows| && |picks| <= |Waiters(rows)|
    requires picks == Ids(Waiters(rows)[..|picks|])
    requires forall k :: 0 <= k < |rows| ==> after[k] == if rows[k].id in picks then Promoted(rows[k], now, entered) else rows[k]
    requires r in after && r.status == Admitted
    ensures TicketFor(r) in Front(TicketsIn(rows, Waiting), |picks|) ||
            exists q :: q in rows && q.status == Admitted && TicketFor(q) == TicketFor(r)
  {
    var line := Waiters(rows);
    var k :| 0 <= k < |rows| && after[k] == r;
    if rows[k].id in picks {
      var i :| 0 <= i < |picks| && picks[i] == rows[k].id;
      WhereMember(rows, HasStatus(Waiting), line[i]);
      RowIsGet(rows, line[i]);
      IndexOfUnique(rows, k);
      assert line[i] == rows[k];
      assert TicketsIn(rows, Waiting)[..|picks|][i] == TicketFor(r);
    }
  }
}
