/**
 The in-memory queue of src/queue/simulator.ts: a soft-deleting, head-indexed, lazily compacted deque
 beside a visitor map and running counters. For ids that are not used again after leaving it behaves as
 the plain FIFO queue; the counters are right without that condition.
 */
module Simulator {
  import opened Wrappers
  import opened Engine
  import opened FifoQueue

  datatype SimStatus = SimWaiting | SimAdmitted

  datatype SimVisitor = SimVisitor(id: string, status: SimStatus, sequence: nat)

  datatype SimConfig = SimConfig(maxConcurrentUsers: nat, admitPerSecond: real, admissionMode: Mode)

  type VisitorMap = map<string, SimVisitor>

  predicate IsLive(visitors: VisitorMap, id: string) {
    id in visitors && visitors[id].status == SimWaiting
  }

  function TicketOf(visitors: VisitorMap, id: string): Ticket
    requires id in visitors
  {
    Ticket(id, visitors[id].sequence)
  }

  /** The waiters among the deque entries, in order. */
  function LineOf(entries: seq<string>, visitors: VisitorMap): (line: seq<Ticket>)
    ensures |line| <= |entries|
  {
    if entries == [] then []
    else
      (if IsLive(visitors, entries[0]) then [TicketOf(visitors, entries[0])] else []) + LineOf(entries[1..], visitors)
  }

  function WaitingIds(visitors: VisitorMap): set<string> {
    set id | id in visitors && visitors[id].status == SimWaiting
  }

  function SeatedTickets(visitors: VisitorMap): set<Ticket> {
    set id | id in visitors && visitors[id].status == SimAdmitted :: TicketOf(visitors, id)
  }

  ghost predicate AllDistinct(entries: seq<string>) {
    forall i, j :: 0 <= i < j < |entries| ==> entries[i] != entries[j]
  }

  /** The counters count, and every waiter has an entry that has not been popped. */
  ghost predicate Counted(visitors: VisitorMap, entries: seq<string>, waiting: int, admitted: int) {
    && (forall id :: id in visitors ==> visitors[id].id == id)
    && waiting == |WaitingIds(visitors)|
    && admitted == |SeatedTickets(visitors)|
    && forall id :: id in WaitingIds(visitors) ==> id in entries
  }

  /** No id has been used again after leaving, so each has at most one entry. */
  ghost predicate Orderly(visitors: VisitorMap, entries: seq<string>, seen: set<string>) {
    && AllDistinct(entries)
    && (forall id :: id in entries ==> id in seen)
    && (forall id :: id in visitors ==> id in seen)
  }

  function SeatIn(visitors: VisitorMap, id: string): (after: VisitorMap)
    requires id in visitors
    ensures after.Keys == visitors.Keys
  {
    visitors[id := visitors[id].(status := SimAdmitted)]
  }

  /** What a poll finds, and what it leaves of the deque. */
  ghost predicate Polled(mode: Mode, visitors: VisitorMap, entries: seq<string>, rest: seq<string>,
                         r: Option<string>, k: nat) {
    && (r.None? ==> forall i :: 0 <= i < |entries| ==> !IsLive(visitors, entries[i]))
    && (r.Some? ==> IsLive(visitors, r.value))
    && match mode
       case Lottery => rest == entries
       case Queue =>
         if r.None? then rest == []
         else
           && k < |entries| && entries[k] == r.value && rest == entries[k + 1..]
           && forall i :: 0 <= i < k ==> !IsLive(visitors, entries[i])
  }

  // ---------- the line under changes of the map and the deque ----------

  lemma {:induction false} LineConcat(a: seq<string>, b: seq<string>, visitors: VisitorMap)
    ensures LineOf(a + b, visitors) == LineOf(a, visitors) + LineOf(b, visitors)
  {
    if a == [] {
      assert a + b == b;
    } else {
      assert (a + b)[1..] == a[1..] + b;
      LineConcat(a[1..], b, visitors);
    }
  }

  lemma NoEntries(visitors: VisitorMap)
    ensures LineOf([], visitors) == []
  {
  }

  lemma LineOne(id: string, visitors: VisitorMap)
    ensures LineOf([id], visitors) == if IsLive(visitors, id) then [TicketOf(visitors, id)] else []
  {
  }

  /** Entries that are no waiters do not show. */
  lemma {:induction false} LineOfDead(entries: seq<string>, visitors: VisitorMap)
    requires forall i :: 0 <= i < |entries| ==> !IsLive(visitors, entries[i])
    ensures LineOf(entries, visitors) == []
  {
    if entries != [] {
      LineOfDead(entries[1..], visitors);
    }
  }

  /** The line depends only on the visitors named by the entries. */
  lemma {:induction false} LineAgrees(entries: seq<string>, a: VisitorMap, b: VisitorMap)
    requires forall i :: 0 <= i < |entries| ==>
               (IsLive(a, entries[i]) <==> IsLive(b, entries[i])) &&
               (IsLive(a, entries[i]) ==> a[entries[i]] == b[entries[i]])
    ensures LineOf(entries, a) == LineOf(entries, b)
  {
    if entries != [] {
      assert IsLive(a, entries[0]) <==> IsLive(b, entries[0]);
      LineAgrees(entries[1..], a, b);
    }
  }

  lemma {:induction false} LineMember(entries: seq<string>, visitors: VisitorMap, id: string)
    requires IsLive(visitors, id) && id in entries
    ensures TicketOf(visitors, id) in LineOf(entries, visitors)
  {
    if entries[0] != id {
      LineMember(entries[1..], visitors, id);
    }
  }

  lemma {:induction false} LineMemberBack(entries: seq<string>, visitors: VisitorMap, t: Ticket)
    requires t in LineOf(entries, visitors)
    ensures t.id in entries && IsLive(visitors, t.id) && t == TicketOf(visitors, t.id)
  {
    if entries != [] && !(IsLive(visitors, entries[0]) && t == TicketOf(visitors, entries[0])) {
      LineMemberBack(entries[1..], visitors, t);
    }
  }

  /** Stepping out of the line by deleting the visitor leaves its dead entry behind. */
  lemma {:induction false} LineWithout(entries: seq<string>, visitors: VisitorMap, id: string)
    ensures LineOf(entries, visitors - {id}) == Without(LineOf(entries, visitors), id)
  {
    if entries != [] {
      LineWithout(entries[1..], visitors, id);
      var rest := LineOf(entries[1..], visitors);
      var line := LineOf(entries, visitors);
      if IsLive(visitors, entries[0]) {
        assert line[0] == TicketOf(visitors, entries[0]) && line[1..] == rest;
        if entries[0] == id {
          assert LineOf(entries, visitors - {id}) == LineOf(entries[1..], visitors - {id});
        }
      } else {
        assert line == rest;
        assert LineOf(entries, visitors - {id}) == LineOf(entries[1..], visitors - {id});
      }
    }
  }

  /**
   A new waiter appears once, at the end of the line, if and only if no stale entry of the same id is left
   in the deque: a stale entry would come alive again ahead of it.
   */
  lemma NewWaiterAtEnd(entries: seq<string>, visitors: VisitorMap, v: SimVisitor)
    requires v.id !in visitors && v.status == SimWaiting
    ensures LineOf(entries + [v.id], visitors[v.id := v]) == LineOf(entries, visitors) + [Ticket(v.id, v.sequence)]
            <==> v.id !in entries
  {
    var after := visitors[v.id := v];
    LineConcat(entries, [v.id], after);
    LineOne(v.id, after);
    if v.id in entries {
      LineMember(entries, after, v.id);
      var x, y, t := LineOf(entries, after), LineOf(entries, visitors), TicketOf(after, v.id);
      if x + [t] == y + [t] {
        assert x == (x + [t])[..|x|] == (y + [t])[..|y|] == y;
        LineMemberBack(entries, visitors, t);
      }
    } else {
      LineAgrees(entries, visitors, after);
    }
  }

  class InMemoryQueue {
    const config: SimConfig
    var sequence: nat
    var visitors: VisitorMap
    var waiting: seq<string>
    var waitingHead: nat
    var admittedCount: int
    var waitingCount: int
    var admitRemainder: real
    /** Every id that ever joined. */
    ghost var seen: set<string>

    ghost predicate Counts()
      reads this
    {
      && waitingHead <= |waiting|
      && Counted(visitors, waiting[waitingHead..], waitingCount, admittedCount)
      && admittedCount <= config.maxConcurrentUsers
    }

    /** A waiter exists only when every slot is full. */
    ghost predicate Valid()
      reads this
    {
      Counts() && (waitingCount > 0 ==> admittedCount == config.maxConcurrentUsers)
    }

    ghost predicate Tidy()
      reads this
    {
      config.admissionMode == Queue && waitingHead <= |waiting| && Orderly(visitors, waiting[waitingHead..], seen)
    }

    ghost function Line(): seq<Ticket>
      reads this
      requires waitingHead <= |waiting|
    {
      LineOf(waiting[waitingHead..], visitors)
    }

    ghost function Model(): Fifo
      reads this
      requires waitingHead <= |waiting|
    {
      ModelOf(waiting[waitingHead..], visitors, sequence, admitRemainder)
    }

    /** The model knows exactly the visitors of the map. */
    lemma Presence(id: string)
      requires Counts()
      ensures InLine(Model(), id) || IsSeated(Model(), id) <==> id in visitors
    {
      WhoIsThere(visitors, waiting[waitingHead..], waitingCount, admittedCount, id, Model());
    }

    constructor (config: SimConfig)
      ensures Valid() && this.config == config && Model() == EMPTY_FIFO && seen == {}
      ensures config.admissionMode == Queue ==> Tidy()
    {
      this.config := config;
      sequence := 1;
      visitors := map[];
      waiting := [];
      waitingHead := 0;
      admittedCount, waitingCount, admitRemainder := 0, 0, 0.0;
      seen := {};
    }

    /** A uniform choice among the live entries; the deque is left as it is. */
    method PollWaitingLottery(draw: real) returns (r: Option<string>)
      requires Counts() && 0.0 <= draw < 1.0
      modifies this`waitingCount
      ensures r.None? ==> forall id :: id in waiting[waitingHead..] ==> !IsLive(visitors, id)
      ensures r.None? ==> waitingCount == old(waitingCount)
      ensures r.Some? ==> IsLive(visitors, r.value) && waitingCount == old(waitingCount) - 1
    {
      var candidates: seq<string> := [];
      for i := waitingHead to |waiting|
        invariant forall c :: c in candidates ==> IsLive(visitors, c)
        invariant candidates == [] ==> forall j :: waitingHead <= j < i ==> !IsLive(visitors, waiting[j])
      {
        if IsLive(visitors, waiting[i]) {
          candidates := candidates + [waiting[i]];
        }
      }
      if |candidates| == 0 {
        return None;
      }
      var pick := DrawnIndex(draw, |candidates|);
      waitingCount := waitingCount - 1;
      return Some(candidates[pick]);
    }

    /**
     Queue Mode pops the first live entry, skipping the dead ones; the deque behind it is unchanged,
     compacted or not. The caller seats the visitor.
     */
    method PollWaiting(draw: real) returns (r: Option<string>, ghost k: nat)
      requires Counts() && 0.0 <= draw < 1.0
      modifies this`waiting, this`waitingHead, this`waitingCount
      ensures waitingHead <= |waiting|
      ensures Polled(config.admissionMode, visitors, old(waiting[waitingHead..]), waiting[waitingHead..], r, k)
      ensures waitingCount == old(waitingCount) - if r.Some? then 1 else 0
    {
      k := 0;
      if config.admissionMode == Lottery {
        r := PollWaitingLottery(draw);
        return r, k;
      }
      ghost var entries := waiting[waitingHead..];
      while waitingHead < |waiting|
        invariant waitingHead == old(waitingHead) + k <= |waiting| && waiting == old(waiting)
        invariant waitingCount == old(waitingCount)
        invariant forall i :: 0 <= i < k ==> !IsLive(visitors, entries[i])
      {
        var id := waiting[waitingHead];
        assert id == entries[k];
        waitingHead := waitingHead + 1;
        if IsLive(visitors, id) {
          waitingCount := waitingCount - 1;
          assert waiting[waitingHead..] == entries[k + 1..];
          if waitingHead > 1024 && waitingHead * 2 > |waiting| {
            waiting := waiting[waitingHead..];
            waitingHead := 0;
          }
          return Some(id), k;
        }
        k := k + 1;
      }
      return None, k;
    }

    /** The first n of the line of an earlier state have been seated since. */
    ghost predicate HasSeated(start: Fifo, n: nat)
      reads this
    {
      Tidy() && TakenFrom(start, n, Model())
    }

    /** Seat the visitor that the poll finds; fails only when nobody waits. */
    method SeatNext(draw: real, ghost tidy: bool, ghost start: Fifo, ghost n: nat) returns (found: bool)
      requires Counts() && admittedCount < config.maxConcurrentUsers && 0.0 <= draw < 1.0
      requires tidy ==> HasSeated(start, n)
      modifies this`waiting, this`waitingHead, this`waitingCount, this`visitors, this`admittedCount
      ensures Counts() && visitors.Keys == old(visitors).Keys
      ensures if found then waitingCount == old(waitingCount) - 1 && admittedCount == old(admittedCount) + 1
              else waitingCount == 0 == old(waitingCount) && visitors == old(visitors) && admittedCount == old(admittedCount)
      ensures 0 <= waitingCount
      ensures tidy ==> HasSeated(start, if found then n + 1 else n)
    {
      hide HeadSeated, Counted, Orderly, LineOf, SeatedTickets, TakenFrom;
      ghost var entries, line := waiting[waitingHead..], Line();
      var next, k := PollWaiting(draw);
      PollCounted(config.admissionMode, visitors, entries, waiting[waitingHead..], next, k, seen, old(waitingCount), admittedCount);
      hide Polled;
      if next.None? {
        return false;
      }
      visitors := SeatIn(visitors, next.value);
      admittedCount := admittedCount + 1;
      if tidy {
        TakeOneMore(start, n, old(Model()), old(visitors), Model(), visitors);
      }
      return true;
    }

    /** Seat waiters while slots are open, at most `limit` of them. */
    method FillSlots(limit: int, draws: nat -> real) returns (admitted: nat)
      requires Counts() && forall i :: 0.0 <= draws(i) < 1.0
      modifies this`waiting, this`waitingHead, this`waitingCount, this`visitors, this`admittedCount
      ensures Counts() && visitors.Keys == old(visitors).Keys
      ensures admittedCount == old(admittedCount) + admitted && waitingCount == old(waitingCount) - admitted
      ensures admitted == Max(0, Min(limit, Min(config.maxConcurrentUsers - old(admittedCount), old(waitingCount))))
      ensures old(Tidy()) ==> Tidy() && Model() == Fill(old(Model()), config.maxConcurrentUsers, limit)
    {
      ghost var tidy, start := Tidy(), Model();
      admitted := 0;
      LineCounts(visitors, waiting[waitingHead..], waitingCount, admittedCount);
      NoneSeated(start);
      assert |start.admitted| == admittedCount && (tidy ==> |start.line| == waitingCount);
      hide Counted, Orderly, LineOf, SeatedTickets, HeadSeated, TakenFrom, Fill, Seats;
      while admitted < limit && admittedCount < config.maxConcurrentUsers
        invariant Counts() && visitors.Keys == old(visitors).Keys
        invariant admittedCount == old(admittedCount) + admitted && waitingCount == old(waitingCount) - admitted
        invariant 0 <= admitted <= Max(0, limit) && 0 <= waitingCount
        invariant tidy ==> HasSeated(start, admitted)
        decreases limit - admitted
      {
        var found := SeatNext(draws(admitted), tidy, start, admitted);
        if !found {
          break;
        }
        admitted := admitted + 1;
      }
      if tidy {
        FilledUp(start, config.maxConcurrentUsers, limit, admitted, Model());
      }
    }

    /** A new visitor takes a free slot. */
    method TakeSlot(id: string) returns (v: SimVisitor)
      requires Valid() && id !in visitors && admittedCount < config.maxConcurrentUsers
      modifies this`sequence, this`visitors, this`admittedCount, this`seen
      ensures Valid() && v == SimVisitor(id, SimAdmitted, old(sequence)) && visitors == old(visitors)[id := v]
      ensures sequence == old(sequence) + 1 && admittedCount == old(admittedCount) + 1 && seen == old(seen) + {id}
      ensures old(Tidy()) ==> Tidy() && Model() == Arrive(old(Model()), config.maxConcurrentUsers, id)
    {
      v := SimVisitor(id, SimAdmitted, sequence);
      AddSeated(visitors, waiting[waitingHead..], v, waitingCount, admittedCount, seen, admitRemainder,
                config.maxConcurrentUsers);
      hide Counted, Orderly, LineOf, SeatedTickets, Arrive;
      seen := seen + {id};
      sequence := sequence + 1;
      visitors := visitors[id := v];
      admittedCount := admittedCount + 1;
    }

    /**
     A new visitor is pushed onto the deque. It stands once, at the end of the line, if and only if no dead
     entry of the same id is left in the deque.
     */
    method TakePlace(id: string) returns (v: SimVisitor)
      requires Valid() && id !in visitors && admittedCount >= config.maxConcurrentUsers
      modifies this`sequence, this`visitors, this`waiting, this`waitingCount, this`seen
      ensures Valid() && v == SimVisitor(id, SimWaiting, old(sequence)) && visitors == old(visitors)[id := v]
      ensures sequence == old(sequence) + 1 && waitingCount == old(waitingCount) + 1 && seen == old(seen) + {id}
      ensures old(Tidy()) && id !in old(seen) ==>
                Tidy() && Model() == Arrive(old(Model()), config.maxConcurrentUsers, id)
      ensures Line() == old(Line()) + [Ticket(id, old(sequence))] <==> id !in old(waiting[waitingHead..])
    {
      hide Counted, Orderly, LineOf, SeatedTickets, ModelOf, Arrive;
      ghost var entries := waiting[waitingHead..];
      v := SimVisitor(id, SimWaiting, sequence);
      AddWaiting(visitors, entries, v, waitingCount, admittedCount, seen, admitRemainder, config.maxConcurrentUsers);
      seen := seen + {id};
      sequence := sequence + 1;
      visitors := visitors[id := v];
      waiting := waiting + [id];
      assert waiting[waitingHead..] == entries + [id];
      waitingCount := waitingCount + 1;
    }

    /** A visitor that is present is left alone; a new one takes a free slot or the end of the line. */
    method Join(id: string) returns (v: SimVisitor)
      requires Valid()
      modifies this`sequence, this`visitors, this`waiting, this`admittedCount, this`waitingCount, this`seen
      ensures Valid() && id in visitors && v == visitors[id] && v.id == id
      ensures var isNew, full := id !in old(visitors), old(admittedCount) == config.maxConcurrentUsers;
              && visitors == (if isNew then old(visitors)[id := v] else old(visitors))
              && (isNew ==> v == SimVisitor(id, if full then SimWaiting else SimAdmitted, old(sequence)))
              && sequence == old(sequence) + (if isNew then 1 else 0)
              && waitingCount == old(waitingCount) + (if isNew && full then 1 else 0)
              && admittedCount == old(admittedCount) + (if isNew && !full then 1 else 0)
              && seen == old(seen) + (if isNew then {id} else {})
      ensures old(Tidy()) && (id in old(visitors) || id !in old(seen)) ==>
                Tidy() && Model() == Arrive(old(Model()), config.maxConcurrentUsers, id)
      ensures id !in old(visitors) && old(admittedCount) == config.maxConcurrentUsers ==>
                (Line() == old(Line()) + [Ticket(id, old(sequence))] <==> id !in old(waiting[waitingHead..]))
    {
      if id in visitors {
        PresentVisitor(visitors, waiting[waitingHead..], waitingCount, admittedCount, id, sequence, admitRemainder,
                       config.maxConcurrentUsers);
        return visitors[id];
      }
      hide Counted, Orderly, LineOf, SeatedTickets, Arrive;
      if admittedCount < config.maxConcurrentUsers {
        v := TakeSlot(id);
      } else {
        v := TakePlace(id);
      }
    }

    /** A departure from a slot gives it to the next waiter. */
    method LeaveSlot(id: string, draws: nat -> real)
      requires Valid() && forall i :: 0.0 <= draws(i) < 1.0
      requires id in visitors && visitors[id].status == SimAdmitted
      modifies this`visitors, this`waiting, this`waitingHead, this`admittedCount, this`waitingCount
      ensures Valid() && visitors.Keys == old(visitors).Keys - {id}
      ensures waitingCount == Max(0, old(waitingCount) - 1)
      ensures waitingCount + admittedCount == old(waitingCount) + old(admittedCount) - 1
      ensures old(Tidy()) ==> Tidy() && Model() == Depart(old(Model()), config.maxConcurrentUsers, id)
    {
      hide Counted, Orderly, LineOf, SeatedTickets, ModelOf, Fill, Depart;
      RemoveSeated(visitors, waiting[waitingHead..], id, waitingCount, admittedCount, seen, sequence, admitRemainder,
                   config.maxConcurrentUsers);
      visitors := visitors - {id};
      admittedCount := admittedCount - 1;
      var _ := FillSlots(1, draws);
    }

    /** A departure from the line leaves a dead entry in the deque. */
    method LeaveLine(id: string)
      requires Valid() && IsLive(visitors, id)
      modifies this`visitors, this`waitingCount
      ensures Valid() && visitors == old(visitors) - {id} && waitingCount == old(waitingCount) - 1
      ensures old(Tidy()) ==> Tidy() && Model() == Depart(old(Model()), config.maxConcurrentUsers, id)
    {
      RemoveWaiting(visitors, waiting[waitingHead..], id, waitingCount, admittedCount, seen, sequence, admitRemainder,
                    config.maxConcurrentUsers);
      hide Counted, Orderly, LineOf, SeatedTickets, Depart;
      visitors := visitors - {id};
      waitingCount := waitingCount - 1;
    }

    method Leave(id: string, draws: nat -> real)
      requires Valid() && forall i :: 0.0 <= draws(i) < 1.0
      modifies this`visitors, this`waiting, this`waitingHead, this`admittedCount, this`waitingCount
      ensures Valid() && visitors.Keys == old(visitors).Keys - {id}
      ensures waitingCount + admittedCount == old(waitingCount) + old(admittedCount) - (if id in old(visitors) then 1 else 0)
      ensures id in old(visitors) ==> waitingCount == Max(0, old(waitingCount) - 1)
      ensures old(Tidy()) ==> Tidy() && Model() == Depart(old(Model()), config.maxConcurrentUsers, id)
    {
      if id !in visitors {
        NobodyDeparts(visitors, waiting[waitingHead..], waitingCount, admittedCount, id, sequence, admitRemainder,
                      config.maxConcurrentUsers);
        return;
      }
      hide Orderly, LineOf, SeatedTickets, Fill, Depart;
      if visitors[id].status == SimAdmitted {
        LeaveSlot(id, draws);
      } else {
        assert id in WaitingIds(visitors);
        LeaveLine(id);
      }
    }

    /** Advance the admission budget. Nobody can be admitted by it: whoever waits, waits because all slots are full. */
    method Tick(seconds: real, draws: nat -> real) returns (admitted: nat)
      requires Valid() && forall i :: 0.0 <= draws(i) < 1.0
      modifies this`visitors, this`waiting, this`waitingHead, this`admittedCount, this`waitingCount, this`admitRemainder
      ensures Valid() && visitors.Keys == old(visitors).Keys
      ensures admitted == 0 && waitingCount == old(waitingCount) && admittedCount == old(admittedCount)
      ensures old(Tidy()) ==>
                Tidy() && Model() == FifoQueue.Tick(old(Model()), config.maxConcurrentUsers, config.admitPerSecond * seconds)
    {
      LineCounts(visitors, waiting[waitingHead..], waitingCount, admittedCount);
      var amount := config.admitPerSecond * seconds;
      BudgetAccrues(waiting[waitingHead..], visitors, sequence, admitRemainder, amount);
      hide Counted, Orderly, LineOf, SeatedTickets, Fill, IsLive, WaitingIds, Seats, ModelOf, Accrue;
      admitRemainder := admitRemainder + amount;
      var budget := admitRemainder.Floor;
      admitRemainder := admitRemainder - budget as real;
      admitted := FillSlots(budget, draws);
    }

    /** The place in the line, counted over the live entries only. */
    method Position(id: string) returns (r: Option<nat>)
      requires Valid()
      ensures r.Some? <==> config.admissionMode == Queue && IsLive(visitors, id)
      ensures r.Some? ==>
                && 1 <= r.value <= |Line()| && Line()[r.value - 1] == TicketOf(visitors, id)
                && forall i :: 0 <= i < r.value - 1 ==> Line()[i].id != id
    {
      if config.admissionMode == Lottery || !IsLive(visitors, id) {
        return None;
      }
      ghost var entries := waiting[waitingHead..];
      assert id in WaitingIds(visitors);
      NoEntries(visitors);
      hide WaitingIds, SeatedTickets, LineOf;
      var ahead := 0;
      for i := waitingHead to |waiting|
        invariant ahead == |LineOf(entries[..i - waitingHead], visitors)|
        invariant forall j :: 0 <= j < i - waitingHead ==> entries[j] != id
      {
        ghost var k := i - waitingHead;
        SplitLine(entries, k, visitors);
        if waiting[i] == id {
          StandsAt(entries, k, visitors);
          return Some(ahead + 1);
        }
        if IsLive(visitors, waiting[i]) {
          ahead := ahead + 1;
        }
      }
      return None;
    }

    method WaitingIdsInOrder() returns (ids: seq<string>)
      requires Valid()
      ensures |ids| == |Line()| && forall i :: 0 <= i < |ids| ==> ids[i] == Line()[i].id
    {
      ghost var entries := waiting[waitingHead..];
      NoEntries(visitors);
      hide Counted, LineOf;
      ids := [];
      for i := waitingHead to |waiting|
        invariant var line := LineOf(entries[..i - waitingHead], visitors);
                  |ids| == |line| && forall j :: 0 <= j < |ids| ==> ids[j] == line[j].id
      {
        SplitLine(entries, i - waitingHead, visitors);
        if IsLive(visitors, waiting[i]) {
          ids := ids + [waiting[i]];
        }
      }
      assert entries[..|entries|] == entries;
    }
  }

  // ---------- joining and leaving ----------

  function ModelOf(entries: seq<string>, visitors: VisitorMap, n: nat, x: real): Fifo {
    Fifo(LineOf(entries, visitors), SeatedTickets(visitors), n, x)
  }

  /** The model sees exactly the visitors of the map. */
  lemma WhoIsThere(visitors: VisitorMap, entries: seq<string>, waiting: int, admitted: int, id: string, f: Fifo)
    requires Counted(visitors, entries, waiting, admitted)
    requires f.line == LineOf(entries, visitors) && f.admitted == SeatedTickets(visitors)
    ensures InLine(f, id) <==> IsLive(visitors, id)
    ensures IsSeated(f, id) <==> id in visitors && visitors[id].status == SimAdmitted
    ensures |f.admitted| == admitted
  {
    if IsLive(visitors, id) {
      assert id in WaitingIds(visitors);
      LineMember(entries, visitors, id);
    } else if i :| 0 <= i < |f.line| && f.line[i].id == id {
      LineMemberBack(entries, visitors, f.line[i]);
    }
    if id in visitors && visitors[id].status == SimAdmitted {
      assert TicketOf(visitors, id) in f.admitted;
    }
  }

  lemma PresentVisitor(visitors: VisitorMap, entries: seq<string>, waiting: int, admitted: int, id: string,
                       n: nat, x: real, cap: nat)
    requires Counted(visitors, entries, waiting, admitted) && id in visitors
    ensures var f := ModelOf(entries, visitors, n, x); Arrive(f, cap, id) == f
    ensures visitors[id].id == id
  {
    WhoIsThere(visitors, entries, waiting, admitted, id, ModelOf(entries, visitors, n, x));
  }

  lemma AddSeated(visitors: VisitorMap, entries: seq<string>, v: SimVisitor, waiting: int, admitted: int,
                  seen: set<string>, x: real, cap: nat)
    requires Counted(visitors, entries, waiting, admitted) && v.id !in visitors && v.status == SimAdmitted
    requires admitted < cap
    ensures var after := visitors[v.id := v];
            && Counted(after, entries, waiting, admitted + 1)
            && ModelOf(entries, after, v.sequence + 1, x) == Arrive(ModelOf(entries, visitors, v.sequence, x), cap, v.id)
            && (Orderly(visitors, entries, seen) ==> Orderly(after, entries, seen + {v.id}))
  {
    var after := visitors[v.id := v];
    WhoIsThere(visitors, entries, waiting, admitted, v.id, ModelOf(entries, visitors, v.sequence, x));
    LineAgrees(entries, visitors, after);
    assert WaitingIds(after) == WaitingIds(visitors);
    SeatsGrow(visitors, v);
  }

  lemma SeatsGrow(visitors: VisitorMap, v: SimVisitor)
    requires v.id !in visitors && v.status == SimAdmitted && forall x :: x in visitors ==> visitors[x].id == x
    ensures SeatedTickets(visitors[v.id := v]) == SeatedTickets(visitors) + {Ticket(v.id, v.sequence)}
    ensures Ticket(v.id, v.sequence) !in SeatedTickets(visitors)
  {
    var after := visitors[v.id := v];
    var t := Ticket(v.id, v.sequence);
    assert t == TicketOf(after, v.id) && t in SeatedTickets(after);
    forall u
      ensures u in SeatedTickets(after) <==> u in SeatedTickets(visitors) || u == t
    {
      if u in SeatedTickets(visitors) {
        assert u == TicketOf(after, u.id);
      }
    }
  }

  lemma SeatsStay(visitors: VisitorMap, v: SimVisitor)
    requires v.id !in visitors && v.status == SimWaiting
    ensures SeatedTickets(visitors[v.id := v]) == SeatedTickets(visitors)
  {
    var after := visitors[v.id := v];
    forall u
      ensures u in SeatedTickets(after) <==> u in SeatedTickets(visitors)
    {
      if u in SeatedTickets(visitors) {
        assert u == TicketOf(after, u.id);
      }
    }
  }

  lemma AddWaiting(visitors: VisitorMap, entries: seq<string>, v: SimVisitor, waiting: int, admitted: int,
                   seen: set<string>, x: real, cap: nat)
    requires Counted(visitors, entries, waiting, admitted) && v.id !in visitors && v.status == SimWaiting
    requires admitted >= cap
    ensures var after := visitors[v.id := v];
            && Counted(after, entries + [v.id], waiting + 1, admitted)
            && (LineOf(entries + [v.id], after) == LineOf(entries, visitors) + [Ticket(v.id, v.sequence)]
                <==> v.id !in entries)
            && (Orderly(visitors, entries, seen) && v.id !in seen ==>
                  && Orderly(after, entries + [v.id], seen + {v.id})
                  && ModelOf(entries + [v.id], after, v.sequence + 1, x)
                     == Arrive(ModelOf(entries, visitors, v.sequence, x), cap, v.id))
  {
    var after := visitors[v.id := v];
    WhoIsThere(visitors, entries, waiting, admitted, v.id, ModelOf(entries, visitors, v.sequence, x));
    NewWaiterAtEnd(entries, visitors, v);
    SeatsStay(visitors, v);
    NewWaiterCounts(visitors, entries, v, waiting, admitted);
    NewWaiterOrderly(visitors, entries, v, seen);
    hide Counted, Orderly, LineOf, SeatedTickets, InLine, IsSeated, IsLive;
  }

  lemma NewWaiterCounts(visitors: VisitorMap, entries: seq<string>, v: SimVisitor, waiting: int, admitted: int)
    requires Counted(visitors, entries, waiting, admitted) && v.id !in visitors && v.status == SimWaiting
    ensures Counted(visitors[v.id := v], entries + [v.id], waiting + 1, admitted)
  {
    SeatsStay(visitors, v);
    assert WaitingIds(visitors[v.id := v]) == WaitingIds(visitors) + {v.id};
  }

  lemma NewWaiterOrderly(visitors: VisitorMap, entries: seq<string>, v: SimVisitor, seen: set<string>)
    ensures Orderly(visitors, entries, seen) && v.id !in seen ==>
              v.id !in entries && Orderly(visitors[v.id := v], entries + [v.id], seen + {v.id})
  {
  }

  lemma NobodyDeparts(visitors: VisitorMap, entries: seq<string>, waiting: int, admitted: int, id: string,
                      n: nat, x: real, cap: nat)
    requires Counted(visitors, entries, waiting, admitted) && id !in visitors
    ensures var f := ModelOf(entries, visitors, n, x); Depart(f, cap, id) == f
    ensures visitors.Keys == visitors.Keys - {id}
  {
    WhoIsThere(visitors, entries, waiting, admitted, id, ModelOf(entries, visitors, n, x));
    LineWithout(entries, visitors, id);
    assert visitors - {id} == visitors;
  }

  lemma SeatsWithout(visitors: VisitorMap, id: string)
    requires forall x :: x in visitors ==> visitors[x].id == x
    ensures SeatedTickets(visitors - {id}) == set t | t in SeatedTickets(visitors) && t.id != id
  {
    var after := visitors - {id};
    forall u
      ensures u in SeatedTickets(after) <==> u in SeatedTickets(visitors) && u.id != id
    {
      if u in SeatedTickets(visitors) && u.id != id {
        assert u == TicketOf(after, u.id);
      }
    }
  }

  lemma RemoveSeated(visitors: VisitorMap, entries: seq<string>, id: string, waiting: int, admitted: int,
                     seen: set<string>, n: nat, x: real, cap: nat)
    requires Counted(visitors, entries, waiting, admitted) && id in visitors && visitors[id].status == SimAdmitted
    ensures var after := visitors - {id};
            && Counted(after, entries, waiting, admitted - 1)
            && Depart(ModelOf(entries, visitors, n, x), cap, id) == Fill(ModelOf(entries, after, n, x), cap, 1)
            && (Orderly(visitors, entries, seen) ==> Orderly(after, entries, seen))
  {
    var after, t := visitors - {id}, TicketOf(visitors, id);
    WhoIsThere(visitors, entries, waiting, admitted, id, ModelOf(entries, visitors, n, x));
    SeatsWithout(visitors, id);
    LineAgrees(entries, visitors, after);
    assert SeatedTickets(after) == SeatedTickets(visitors) - {t} && t in SeatedTickets(visitors);
    assert WaitingIds(after) == WaitingIds(visitors);
  }

  lemma RemoveWaiting(visitors: VisitorMap, entries: seq<string>, id: string, waiting: int, admitted: int,
                      seen: set<string>, n: nat, x: real, cap: nat)
    requires Counted(visitors, entries, waiting, admitted) && IsLive(visitors, id)
    ensures var after := visitors - {id};
            && Counted(after, entries, waiting - 1, admitted)
            && Depart(ModelOf(entries, visitors, n, x), cap, id) == ModelOf(entries, after, n, x)
            && (Orderly(visitors, entries, seen) ==> Orderly(after, entries, seen))
  {
    var after := visitors - {id};
    WhoIsThere(visitors, entries, waiting, admitted, id, ModelOf(entries, visitors, n, x));
    SeatsWithout(visitors, id);
    LineWithout(entries, visitors, id);
    assert SeatedTickets(after) == SeatedTickets(visitors);
    assert id in WaitingIds(visitors);
    assert WaitingIds(after) == WaitingIds(visitors) - {id};
  }

  // ---------- reading the line ----------

  lemma SplitLine(entries: seq<string>, k: nat, visitors: VisitorMap)
    requires k < |entries|
    ensures LineOf(entries[..k + 1], visitors) ==
            LineOf(entries[..k], visitors) + (if IsLive(visitors, entries[k]) then [TicketOf(visitors, entries[k])] else [])
    ensures LineOf(entries[..k + 1], visitors) <= LineOf(entries, visitors)
  {
    assert entries[..k + 1] == entries[..k] + [entries[k]];
    LineConcat(entries[..k], [entries[k]], visitors);
    LineOne(entries[k], visitors);
    assert entries == entries[..k + 1] + entries[k + 1..];
    LineConcat(entries[..k + 1], entries[k + 1..], visitors);
  }

  /** A waiter stands behind the waiters of the entries before its own. */
  lemma StandsAt(entries: seq<string>, k: nat, visitors: VisitorMap)
    requires k < |entries| && IsLive(visitors, entries[k]) && entries[k] !in entries[..k]
    ensures var line, n := LineOf(entries, visitors), |LineOf(entries[..k], visitors)|;
            && n < |line| && line[n] == TicketOf(visitors, entries[k])
            && forall i :: 0 <= i < n ==> line[i].id != entries[k]
  {
    SplitLine(entries, k, visitors);
    var before, line := LineOf(entries[..k], visitors), LineOf(entries, visitors);
    NotAmong(entries[..k], visitors, entries[k]);
    assert before + [TicketOf(visitors, entries[k])] <= line;
    hide LineOf;
    forall i | 0 <= i < |before|
      ensures line[i].id != entries[k]
    {
      assert line[i] == before[i];
    }
  }

  lemma NotAmong(entries: seq<string>, visitors: VisitorMap, id: string)
    requires id !in entries
    ensures forall i :: 0 <= i < |LineOf(entries, visitors)| ==> LineOf(entries, visitors)[i].id != id
  {
    forall i | 0 <= i < |LineOf(entries, visitors)|
      ensures LineOf(entries, visitors)[i].id != id
    {
      LineMemberBack(entries, visitors, LineOf(entries, visitors)[i]);
    }
  }

  /**
   Why ids must not be used again: with c waiting behind the dead entry of b, a second visitor called b
   is served before c, and stands in the line twice.
   */
  lemma ReusedIdOvertakes()
    ensures var visitors := map["a" := SimVisitor("a", SimAdmitted, 1), "c" := SimVisitor("c", SimWaiting, 3)];
            var b := SimVisitor("b", SimWaiting, 4);
            && LineOf(["b", "c"], visitors) == [Ticket("c", 3)]
            && LineOf(["b", "c", "b"], visitors["b" := b]) == [Ticket("b", 4), Ticket("c", 3), Ticket("b", 4)]
  {
    var visitors := map["a" := SimVisitor("a", SimAdmitted, 1), "c" := SimVisitor("c", SimWaiting, 3)];
    var after := visitors["b" := SimVisitor("b", SimWaiting, 4)];
    LineOne("c", visitors);
    LineOne("b", after);
    assert ["b", "c"][1..] == ["c"];
    assert ["b", "c", "b"][1..] == ["c", "b"] && ["c", "b"][1..] == ["b"];
  }

  // ---------- seating one visitor ----------

  /** The head of the line has been seated, and the line has moved up. */
  ghost predicate HeadSeated(line: seq<Ticket>, visitors: VisitorMap, line': seq<Ticket>, visitors': VisitorMap) {
    && line != [] && line' == line[1..]
    && SeatedTickets(visitors') == SeatedTickets(visitors) + {line[0]}
  }

  /** The first n of the line have been seated, and nothing else has happened. */
  ghost predicate TakenFrom(f: Fifo, n: nat, f': Fifo) {
    && n <= |f.line|
    && f' == f.(line := f.line[n..], admitted := f.admitted + Front(f.line, n))
  }

  lemma NoneSeated(f: Fifo)
    ensures TakenFrom(f, 0, f)
  {
  }

  lemma TakeOneMore(start: Fifo, n: nat, f: Fifo, visitors: VisitorMap, f': Fifo, visitors': VisitorMap)
    requires TakenFrom(start, n, f) && f.admitted == SeatedTickets(visitors)
    requires HeadSeated(f.line, visitors, f'.line, visitors')
    requires f' == f.(line := f'.line, admitted := SeatedTickets(visitors'))
    ensures TakenFrom(start, n + 1, f')
  {
    var line := start.line;
    assert line[..n + 1] == line[..n] + [line[n]];
    assert Front(line, n + 1) == Front(line, n) + {line[n]};
  }

  lemma SeatVisitor(visitors: VisitorMap, id: string)
    requires IsLive(visitors, id) && forall x :: x in visitors ==> visitors[x].id == x
    ensures var after := SeatIn(visitors, id);
            && after.Keys == visitors.Keys
            && WaitingIds(after) == WaitingIds(visitors) - {id}
            && |WaitingIds(after)| == |WaitingIds(visitors)| - 1
            && SeatedTickets(after) == SeatedTickets(visitors) + {TicketOf(visitors, id)}
            && |SeatedTickets(after)| == |SeatedTickets(visitors)| + 1
  {
    var after := SeatIn(visitors, id);
    assert WaitingIds(after) == WaitingIds(visitors) - {id};
    assert id in WaitingIds(visitors);
    var t := TicketOf(visitors, id);
    assert t !in SeatedTickets(visitors);
    assert TicketOf(after, id) in SeatedTickets(after);
    forall u
      ensures u in SeatedTickets(after) <==> u in SeatedTickets(visitors) || u == t
    {
      if u in SeatedTickets(visitors) {
        assert u == TicketOf(after, u.id);
      }
    }
    assert SeatedTickets(after) == SeatedTickets(visitors) + {t};
  }

  lemma NobodyWaits(entries: seq<string>, visitors: VisitorMap)
    requires forall id :: id in WaitingIds(visitors) ==> id in entries
    requires forall id :: id in entries ==> !IsLive(visitors, id)
    ensures WaitingIds(visitors) == {} && LineOf(entries, visitors) == []
  {
    LineOfDead(entries, visitors);
  }

  lemma FilledUp(f: Fifo, capacity: nat, limit: int, n: nat, f': Fifo)
    requires TakenFrom(f, n, f') && n == Seats(f, capacity, limit)
    ensures f' == Fill(f, capacity, limit)
  {
  }

  /** Popping up to the first live entry takes the head of the line. */
  lemma PoppedLine(entries: seq<string>, k: nat, visitors: VisitorMap)
    requires k < |entries| && IsLive(visitors, entries[k])
    requires forall i :: 0 <= i < k ==> !IsLive(visitors, entries[i])
    ensures LineOf(entries, visitors) == [TicketOf(visitors, entries[k])] + LineOf(entries[k + 1..], visitors)
  {
    assert entries == entries[..k] + entries[k..];
    LineConcat(entries[..k], entries[k..], visitors);
    LineOfDead(entries[..k], visitors);
    assert entries[k..][1..] == entries[k + 1..];
  }

  lemma SeatCounted(visitors: VisitorMap, entries: seq<string>, rest: seq<string>, id: string, waiting: int, admitted: int)
    requires Counted(visitors, entries, waiting, admitted) && IsLive(visitors, id)
    requires forall x :: x in entries && x != id && IsLive(visitors, x) ==> x in rest
    ensures Counted(SeatIn(visitors, id), rest, waiting - 1, admitted + 1)
    ensures waiting >= 1
  {
    SeatVisitor(visitors, id);
  }

  /** Seating the first live entry of a deque without duplicates seats the head of the line. */
  lemma SeatHead(visitors: VisitorMap, entries: seq<string>, k: nat, seen: set<string>)
    requires k < |entries| && IsLive(visitors, entries[k]) && Orderly(visitors, entries, seen)
    requires forall i :: 0 <= i < k ==> !IsLive(visitors, entries[i])
    requires forall x :: x in visitors ==> visitors[x].id == x
    ensures var after := SeatIn(visitors, entries[k]);
            && HeadSeated(LineOf(entries, visitors), visitors, LineOf(entries[k + 1..], after), after)
            && Orderly(after, entries[k + 1..], seen)
  {
    var id := entries[k];
    PoppedLine(entries, k, visitors);
    SeatVisitor(visitors, id);
    LineAgrees(entries[k + 1..], visitors, SeatIn(visitors, id));
  }

  lemma PollCounted(mode: Mode, visitors: VisitorMap, entries: seq<string>, rest: seq<string>, r: Option<string>, k: nat,
                    seen: set<string>, waiting: int, admitted: int)
    requires Polled(mode, visitors, entries, rest, r, k) && Counted(visitors, entries, waiting, admitted)
    ensures r.None? ==> waiting == 0 && Counted(visitors, rest, 0, admitted)
    ensures r.None? && mode == Queue && Orderly(visitors, entries, seen) ==>
              Orderly(visitors, rest, seen) && LineOf(rest, visitors) == LineOf(entries, visitors)
    ensures r.Some? ==>
              waiting >= 1 && r.value in visitors && Counted(SeatIn(visitors, r.value), rest, waiting - 1, admitted + 1)
    ensures r.Some? && mode == Queue && Orderly(visitors, entries, seen) ==>
              var after := SeatIn(visitors, r.value);
              Orderly(after, rest, seen) && HeadSeated(LineOf(entries, visitors), visitors, LineOf(rest, after), after)
  {
    if r.None? {
      NobodyWaits(entries, visitors);
    } else {
      SeatCounted(visitors, entries, rest, r.value, waiting, admitted);
      if mode == Queue && Orderly(visitors, entries, seen) {
        SeatHead(visitors, entries, k, seen);
      }
    }
  }

  /** Without duplicate entries the line is exactly as long as the number of waiters. */
  lemma {:induction false} DistinctLine(entries: seq<string>, visitors: VisitorMap, ids: set<string>)
    requires AllDistinct(entries)
    requires forall id :: id in ids <==> id in entries && IsLive(visitors, id)
    ensures |LineOf(entries, visitors)| == |ids|
  {
    if entries == [] {
      assert ids == {};
    } else {
      var first, rest := entries[0], entries[1..];
      assert entries == [first] + rest;
      if IsLive(visitors, first) {
        DistinctLine(rest, visitors, ids - {first});
      } else {
        DistinctLine(rest, visitors, ids);
      }
    }
  }

  lemma BudgetAccrues(entries: seq<string>, visitors: VisitorMap, n: nat, x: real, amount: real)
    ensures var sum := x + amount;
            ModelOf(entries, visitors, n, sum - sum.Floor as real) == Accrue(ModelOf(entries, visitors, n, x), amount)
  {
  }

  lemma LineCounts(visitors: VisitorMap, entries: seq<string>, waiting: int, admitted: int)
    requires Counted(visitors, entries, waiting, admitted)
    ensures waiting >= 0
    ensures AllDistinct(entries) ==> |LineOf(entries, visitors)| == waiting
  {
    if AllDistinct(entries) {
      DistinctLine(entries, visitors, WaitingIds(visitors));
    }
  }
}
