/**
 A plain first-come-first-served queue with a fixed number of seats: what both the room in Queue Mode and
 the in-memory simulator are meant to be. A ticket is a visitor with its arrival number.
 */
module FifoQueue {
  import opened Wrappers

  datatype Ticket = Ticket(id: string, number: nat)

  datatype Fifo = Fifo(line: seq<Ticket>, admitted: set<Ticket>, nextNumber: nat, remainder: real)

  const EMPTY_FIFO := Fifo([], {}, 1, 0.0)

  predicate InLine(f: Fifo, id: string) {
    exists i :: 0 <= i < |f.line| && f.line[i].id == id
  }

  predicate IsSeated(f: Fifo, id: string) {
    exists t :: t in f.admitted && t.id == id
  }

  /** Seat the first waiters, at most `limit` of them and no more than there are seats. */
  function Seats(f: Fifo, capacity: nat, limit: int): (n: nat)
    ensures n <= |f.line|
  {
    Max(0, Min(limit, Min(capacity - |f.admitted|, |f.line|)))
  }

  function Front(line: seq<Ticket>, n: nat): (front: set<Ticket>)
    requires n <= |line|
    ensures n == 0 ==> front == {}
    ensures n == 1 ==> front == {line[0]}
  {
    set t | t in line[..n]
  }

  function Fill(f: Fifo, capacity: nat, limit: int): Fifo {
    var n := Seats(f, capacity, limit);
    f.(line := f.line[n..], admitted := f.admitted + Front(f.line, n))
  }

  function Arrive(f: Fifo, capacity: nat, id: string): Fifo {
    var t := Ticket(id, f.nextNumber);
    if InLine(f, id) || IsSeated(f, id) then f
    else if |f.admitted| < capacity then f.(admitted := f.admitted + {t}, nextNumber := f.nextNumber + 1)
    else f.(line := f.line + [t], nextNumber := f.nextNumber + 1)
  }

  function Without(line: seq<Ticket>, id: string): (rest: seq<Ticket>)
    ensures |rest| <= |line|
  {
    if line == [] then []
    else if line[0].id == id then Without(line[1..], id)
    else [line[0]] + Without(line[1..], id)
  }

  /** A seated visitor's seat goes to the front of the line; a waiting visitor just steps out. */
  function Depart(f: Fifo, capacity: nat, id: string): Fifo {
    if IsSeated(f, id) then
      Fill(f.(admitted := set t | t in f.admitted && t.id != id), capacity, 1)
    else
      f.(line := Without(f.line, id))
  }

  function Accrue(f: Fifo, amount: real): Fifo {
    var budget := f.remainder + amount;
    f.(remainder := budget - budget.Floor as real)
  }

  /** One tick of the admission budget. */
  function Tick(f: Fifo, capacity: nat, amount: real): Fifo {
    Fill(Accrue(f, amount), capacity, (f.remainder + amount).Floor)
  }

  datatype Op = OpArrive(id: string) | OpDepart(id: string) | OpTick

  function Apply(f: Fifo, capacity: nat, rate: real, op: Op): Fifo {
    match op
    case OpArrive(id) => Arrive(f, capacity, id)
    case OpDepart(id) => Depart(f, capacity, id)
    case OpTick => Tick(f, capacity, rate)
  }

  function ApplyAll(f: Fifo, capacity: nat, rate: real, ops: seq<Op>): Fifo
    decreases |ops|
  {
    if ops == [] then f else ApplyAll(Apply(f, capacity, rate, ops[0]), capacity, rate, ops[1..])
  }

  // ---------- invariant ----------

  ghost predicate NumbersAscend(line: seq<Ticket>) {
    forall i, j :: 0 <= i < j < |line| ==> line[i].number < line[j].number
  }

  /** Somebody waits only when every seat is taken; arrival numbers order the line. */
  ghost predicate FifoInv(f: Fifo, capacity: nat) {
    && |f.admitted| <= capacity
    && (f.line != [] ==> |f.admitted| == capacity)
    && NumbersAscend(f.line)
    && (forall i :: 0 <= i < |f.line| ==> f.line[i].number < f.nextNumber)
    && (forall i, t :: 0 <= i < |f.line| && t in f.admitted ==> f.line[i].id != t.id)
    && (forall i, j :: 0 <= i < j < |f.line| ==> f.line[i].id != f.line[j].id)
    && (forall t :: t in f.admitted ==> t.number < f.nextNumber)
    && (forall t, u :: t in f.admitted && u in f.admitted && t.id == u.id ==> t == u)
  }

  lemma SeatedOnce(f: Fifo, capacity: nat, t: Ticket)
    requires FifoInv(f, capacity) && t in f.admitted
    ensures (set u | u in f.admitted && u.id != t.id) == f.admitted - {t}
    ensures |set u | u in f.admitted && u.id != t.id| == |f.admitted| - 1
  {
  }

  lemma {:induction false} WithoutAbsent(line: seq<Ticket>, id: string)
    requires forall i :: 0 <= i < |line| ==> line[i].id != id
    ensures Without(line, id) == line
  {
    if line != [] {
      WithoutAbsent(line[1..], id);
    }
  }

  /** Stepping out removes exactly one ticket and keeps the order of the others. */
  lemma {:induction false} WithoutOne(line: seq<Ticket>, k: nat)
    requires k < |line| && forall i, j :: 0 <= i < j < |line| ==> line[i].id != line[j].id
    ensures Without(line, line[k].id) == line[..k] + line[k + 1..]
  {
    if k == 0 {
      WithoutAbsent(line[1..], line[0].id);
    } else {
      var rest := line[1..];
      WithoutOne(rest, k - 1);
      assert line[..k] + line[k + 1..] == [line[0]] + (rest[..k - 1] + rest[k..]);
    }
  }

  /** Since waiting means full, no tick ever admits anyone: seats are only refilled by departures. */
  lemma TickAdmitsNobody(f: Fifo, capacity: nat, amount: real)
    requires FifoInv(f, capacity)
    ensures Tick(f, capacity, amount) == Accrue(f, amount)
  {
    var a := Accrue(f, amount);
    assert Seats(a, capacity, (f.remainder + amount).Floor) == 0;
    assert a.line[0..] == a.line;
    assert a.admitted + Front(a.line, 0) == a.admitted;
  }

  /** A departure from a seat gives it to the first waiter, if there is one. */
  lemma DepartSeat(f: Fifo, capacity: nat, t: Ticket)
    requires FifoInv(f, capacity) && t in f.admitted
    ensures Depart(f, capacity, t.id) ==
            if f.line == [] then f.(admitted := f.admitted - {t})
            else f.(line := f.line[1..], admitted := f.admitted - {t} + {f.line[0]})
  {
    SeatedOnce(f, capacity, t);
    var g := f.(admitted := set u | u in f.admitted && u.id != t.id);
    if f.line == [] {
      assert Seats(g, capacity, 1) == 0;
      assert g.admitted + Front(g.line, 0) == g.admitted;
    } else {
      assert Seats(g, capacity, 1) == 1;
    }
  }

  lemma NewSeatKeepsInv(f: Fifo, capacity: nat, id: string)
    requires FifoInv(f, capacity) && !InLine(f, id) && !IsSeated(f, id) && |f.admitted| < capacity
    ensures FifoInv(f.(admitted := f.admitted + {Ticket(id, f.nextNumber)}, nextNumber := f.nextNumber + 1), capacity)
  {
    assert f.line == [];
  }

  lemma NewPlaceKeepsInv(f: Fifo, capacity: nat, id: string)
    requires FifoInv(f, capacity) && !InLine(f, id) && !IsSeated(f, id) && |f.admitted| >= capacity
    ensures FifoInv(f.(line := f.line + [Ticket(id, f.nextNumber)], nextNumber := f.nextNumber + 1), capacity)
  {
  }

  lemma ArriveKeepsInv(f: Fifo, capacity: nat, id: string)
    requires FifoInv(f, capacity)
    ensures FifoInv(Arrive(f, capacity, id), capacity)
  {
    hide FifoInv, InLine, IsSeated;
    if !InLine(f, id) && !IsSeated(f, id) {
      if |f.admitted| < capacity {
        NewSeatKeepsInv(f, capacity, id);
      } else {
        NewPlaceKeepsInv(f, capacity, id);
      }
    }
  }

  /** Moving the first ticket of the line to a seat just vacated. */
  lemma PassSeatKeepsInv(f: Fifo, capacity: nat, t: Ticket)
    requires FifoInv(f, capacity) && t in f.admitted && f.line != []
    ensures FifoInv(f.(line := f.line[1..], admitted := f.admitted - {t} + {f.line[0]}), capacity)
  {
    var first := f.line[0];
    var g := f.(line := f.line[1..], admitted := f.admitted - {t} + {first});
    assert first !in f.admitted;
    assert |g.admitted| == |f.admitted|;
    forall i, u | 0 <= i < |g.line| && u in g.admitted
      ensures g.line[i].id != u.id
    {
      assert g.line[i] == f.line[i + 1];
    }
  }

  lemma DepartSeatKeepsInv(f: Fifo, capacity: nat, t: Ticket)
    requires FifoInv(f, capacity) && t in f.admitted
    ensures FifoInv(Depart(f, capacity, t.id), capacity)
  {
    DepartSeat(f, capacity, t);
    if f.line != [] {
      PassSeatKeepsInv(f, capacity, t);
    }
  }

  /** A line with one ticket taken out is still in order. */
  lemma TakeOut(line: seq<Ticket>, k: nat)
    requires k < |line|
    ensures var rest := line[..k] + line[k + 1..];
            && |rest| == |line| - 1
            && forall i :: 0 <= i < |rest| ==> rest[i] == line[if i < k then i else i + 1]
  {
  }

  lemma ShorterLineKeepsInv(f: Fifo, capacity: nat, rest: seq<Ticket>, k: nat)
    requires FifoInv(f, capacity) && |rest| == |f.line| - 1
    requires forall i :: 0 <= i < |rest| ==> rest[i] == f.line[if i < k then i else i + 1]
    ensures FifoInv(f.(line := rest), capacity)
  {
  }

  lemma DepartLineKeepsInv(f: Fifo, capacity: nat, id: string)
    requires FifoInv(f, capacity) && !IsSeated(f, id)
    ensures FifoInv(Depart(f, capacity, id), capacity)
  {
    if k :| 0 <= k < |f.line| && f.line[k].id == id {
      WithoutOne(f.line, k);
      TakeOut(f.line, k);
      var rest := f.line[..k] + f.line[k + 1..];
      assert Depart(f, capacity, id) == f.(line := rest);
      hide Depart, Without;
      ShorterLineKeepsInv(f, capacity, rest, k);
    } else {
      WithoutAbsent(f.line, id);
    }
  }

  lemma ApplyKeepsInv(f: Fifo, capacity: nat, rate: real, op: Op)
    requires FifoInv(f, capacity)
    ensures FifoInv(Apply(f, capacity, rate, op), capacity)
  {
    match op
    case OpArrive(id) => ArriveKeepsInv(f, capacity, id);
    case OpDepart(id) =>
      if t :| t in f.admitted && t.id == id {
        DepartSeatKeepsInv(f, capacity, t);
      } else {
        DepartLineKeepsInv(f, capacity, id);
      }
    case OpTick => TickAdmitsNobody(f, capacity, rate);
  }

  // ---------- admissions follow arrival order ----------

  /** The tickets seated by one operation, in the order in which they are seated. */
  function Seated(f: Fifo, capacity: nat, rate: real, op: Op): seq<Ticket> {
    match op
    case OpArrive(id) =>
      if !InLine(f, id) && !IsSeated(f, id) && |f.admitted| < capacity then [Ticket(id, f.nextNumber)] else []
    case OpDepart(id) =>
      if IsSeated(f, id)
      then f.line[..Seats(f.(admitted := set t | t in f.admitted && t.id != id), capacity, 1)]
      else []
    case OpTick => f.line[..Seats(Accrue(f, rate), capacity, (f.remainder + rate).Floor)]
  }

  /** The tickets seated along a run, in order. */
  function SeatedAll(f: Fifo, capacity: nat, rate: real, ops: seq<Op>): seq<Ticket>
    decreases |ops|
  {
    if ops == [] then []
    else Seated(f, capacity, rate, ops[0]) + SeatedAll(Apply(f, capacity, rate, ops[0]), capacity, rate, ops[1..])
  }

  /** Every ticket that may still be seated later has a number of at least this. */
  ghost predicate NextAtLeast(f: Fifo, low: nat) {
    && low <= f.nextNumber
    && forall i :: 0 <= i < |f.line| ==> low <= f.line[i].number
  }

  ghost predicate InOrder(now: seq<Ticket>, g: Fifo, low: nat) {
    && |now| <= 1
    && (now == [] ==> NextAtLeast(g, low))
    && (|now| == 1 ==> low <= now[0].number && NextAtLeast(g, now[0].number + 1))
  }

  lemma SeatsAfterDeparture(f: Fifo, capacity: nat, t: Ticket)
    requires FifoInv(f, capacity) && t in f.admitted
    ensures Seats(f.(admitted := set u | u in f.admitted && u.id != t.id), capacity, 1) == if f.line == [] then 0 else 1
  {
    SeatedOnce(f, capacity, t);
  }

  lemma DepartSeatInOrder(f: Fifo, capacity: nat, rate: real, t: Ticket, low: nat)
    requires FifoInv(f, capacity) && NextAtLeast(f, low) && t in f.admitted
    ensures InOrder(Seated(f, capacity, rate, OpDepart(t.id)), Depart(f, capacity, t.id), low)
  {
    hide Seats, Depart;
    SeatsAfterDeparture(f, capacity, t);
    DepartSeat(f, capacity, t);
  }

  lemma DepartLineInOrder(f: Fifo, capacity: nat, rate: real, id: string, low: nat)
    requires FifoInv(f, capacity) && NextAtLeast(f, low) && !IsSeated(f, id)
    ensures InOrder(Seated(f, capacity, rate, OpDepart(id)), Depart(f, capacity, id), low)
  {
    if k :| 0 <= k < |f.line| && f.line[k].id == id {
      WithoutOne(f.line, k);
      TakeOut(f.line, k);
    } else {
      WithoutAbsent(f.line, id);
    }
    hide Without;
  }

  lemma DepartInOrder(f: Fifo, capacity: nat, rate: real, id: string, low: nat)
    requires FifoInv(f, capacity) && NextAtLeast(f, low)
    ensures InOrder(Seated(f, capacity, rate, OpDepart(id)), Depart(f, capacity, id), low)
  {
    hide FifoInv, NextAtLeast, InOrder, Seated, Depart;
    if t :| t in f.admitted && t.id == id {
      DepartSeatInOrder(f, capacity, rate, t, low);
    } else {
      DepartLineInOrder(f, capacity, rate, id, low);
    }
  }

  /** One operation seats at most one ticket, and everyone seated later comes after it. */
  lemma SeatedInOrder(f: Fifo, capacity: nat, rate: real, op: Op, low: nat)
    requires FifoInv(f, capacity) && NextAtLeast(f, low)
    ensures InOrder(Seated(f, capacity, rate, op), Apply(f, capacity, rate, op), low)
  {
    match op
    case OpArrive(id) =>
    case OpDepart(id) => DepartInOrder(f, capacity, rate, id, low);
    case OpTick =>
      TickAdmitsNobody(f, capacity, rate);
      assert Seats(Accrue(f, rate), capacity, (f.remainder + rate).Floor) == 0;
  }

  ghost predicate AtLeast(tickets: seq<Ticket>, low: nat) {
    forall i :: 0 <= i < |tickets| ==> low <= tickets[i].number
  }

  lemma PrependInOrder(now: seq<Ticket>, later: seq<Ticket>, low: nat)
    requires |now| <= 1 && NumbersAscend(later)
    requires AtLeast(later, if now == [] then low else now[0].number + 1) && AtLeast(now, low)
    ensures NumbersAscend(now + later) && AtLeast(now + later, low)
  {
    hide FifoInv;
    forall i | 0 <= i < |later|
      ensures (now + later)[|now| + i] == later[i] && low <= later[i].number
    {
    }
  }

  lemma SeatsFirst(f: Fifo, capacity: nat, rate: real, op: Op, low: nat)
    requires FifoInv(f, capacity) && NextAtLeast(f, low)
    ensures var now, g := Seated(f, capacity, rate, op), Apply(f, capacity, rate, op);
            && |now| <= 1 && AtLeast(now, low)
            && FifoInv(g, capacity) && NextAtLeast(g, if now == [] then low else now[0].number + 1)
  {
    SeatedInOrder(f, capacity, rate, op, low);
    ApplyKeepsInv(f, capacity, rate, op);
    hide FifoInv, NextAtLeast, Seated, Apply;
  }

  /** Over any run, visitors are seated in the order of their arrival numbers. */
  lemma {:induction false} AdmissionsFollowArrivals(f: Fifo, capacity: nat, rate: real, ops: seq<Op>, low: nat)
    requires FifoInv(f, capacity) && NextAtLeast(f, low)
    ensures NumbersAscend(SeatedAll(f, capacity, rate, ops)) && AtLeast(SeatedAll(f, capacity, rate, ops), low)
    decreases |ops|
  {
    hide FifoInv, NextAtLeast, Seated, Apply;
    if ops != [] {
      var now, g := Seated(f, capacity, rate, ops[0]), Apply(f, capacity, rate, ops[0]);
      var next := if now == [] then low else now[0].number + 1;
      SeatsFirst(f, capacity, rate, ops[0], low);
      AdmissionsFollowArrivals(g, capacity, rate, ops[1..], next);
      PrependInOrder(now, SeatedAll(g, capacity, rate, ops[1..]), low);
    }
  }
}
