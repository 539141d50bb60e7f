/** Choosing waiters for admission, in both modes (src/durable-object/queue-room.ts, selectWaiting*). */
module Lottery {
  import opened Wrappers
  import opened Engine
  import opened Visitors
  import opened RoomState
  import opened Admission

  /** The random sources: `Math.random` draws, and the order ORDER BY RANDOM() gives to n rows. */
  datatype Random = Random(draw: nat -> real, shuffle: nat -> seq<nat>)

  ghost predicate IsShuffle(order: seq<nat>, n: nat) {
    && |order| == n
    && (forall i :: 0 <= i < n ==> order[i] < n)
    && forall i, j :: 0 <= i < j < n ==> order[i] != order[j]
  }

  ghost predicate ValidRandom(random: Random) {
    && (forall i :: 0.0 <= random.draw(i) < 1.0)
    && forall n :: IsShuffle(random.shuffle(n), n)
  }

  /** Distinct places in the line name distinct waiters. */
  lemma PlacesAreWaiters(rows: seq<Row>, n: nat, places: seq<nat>, picks: seq<string>)
    requires TableInv(rows, n)
    requires |picks| == |places|
    requires forall i :: 0 <= i < |places| ==> places[i] < Count(rows, Waiting) && picks[i] == Waiters(rows)[places[i]].id
    requires forall i, j :: 0 <= i < j < |places| ==> places[i] != places[j]
    ensures Distinct(picks) && forall id :: id in picks ==> IsWaiting(rows, id)
  {
    var line := Waiters(rows);
    WhereUniqueIds(rows, HasStatus(Waiting));
    forall i | 0 <= i < |picks|
      ensures IsWaiting(rows, picks[i])
    {
      WaiterIsWaiting(rows, line[places[i]]);
    }
  }

  predicate AllDifferent(places: seq<nat>) {
    forall i, j :: 0 <= i < j < |places| ==> places[i] != places[j]
  }

  /** Between one and `take` distinct offsets below `waiting`, giving up after eight times as many draws. */
  method DrawOffsets(waiting: nat, take: nat, random: Random) returns (offsets: seq<nat>)
    requires 0 < take < waiting && ValidRandom(random)
    ensures 0 < |offsets| <= take && AllDifferent(offsets)
    ensures forall i :: 0 <= i < |offsets| ==> offsets[i] < waiting
  {
    offsets := [];
    var guard := 0;
    while |offsets| < take && guard < take * 8
      invariant |offsets| <= take && AllDifferent(offsets)
      invariant guard > 0 ==> offsets != []
      invariant forall i :: 0 <= i < |offsets| ==> offsets[i] < waiting
      decreases take * 8 - guard
    {
      var offset := DrawnIndex(random.draw(guard), waiting);
      if offset !in offsets {
        offsets := offsets + [offset];
      }
      guard := guard + 1;
    }
  }

  /** The rows at the drawn offsets, each taken once. */
  method IdsAtOffsets(rows: seq<Row>, n: nat, offsets: seq<nat>) returns (picks: seq<string>)
    requires TableInv(rows, n) && AllDifferent(offsets)
    requires forall i :: 0 <= i < |offsets| ==> offsets[i] < |Waiters(rows)|
    ensures |picks| == |offsets|
    ensures forall i :: 0 <= i < |offsets| ==> picks[i] == Waiters(rows)[offsets[i]].id
  {
    var line := Waiters(rows);
    WhereUniqueIds(rows, HasStatus(Waiting));
    picks := [];
    for k := 0 to |offsets|
      invariant |picks| == k
      invariant forall i :: 0 <= i < k ==> picks[i] == line[offsets[i]].id
    {
      var id := line[offsets[k]].id;
      if id !in picks {
        picks := picks + [id];
      }
    }
  }

  /**
   A lottery draw. `waiting` is the cached depth; because it is the true count every offset hits a row, and
   the result is a duplicate-free set of waiters of at most the size asked for, and empty only when nothing is asked for.
   */
  method SelectWaitingLottery(rows: seq<Row>, n: nat, waiting: nat, limit: nat, random: Random)
    returns (picks: seq<string>)
    requires TableInv(rows, n) && waiting == Count(rows, Waiting) && ValidRandom(random)
    ensures Selection(rows, Lottery, limit, picks)
  {
    var take := Min(limit, waiting);
    if take <= 0 {
      return [];
    }
    if take > 32 {
      var order := random.shuffle(waiting);
      assert IsShuffle(order, waiting);
      picks := seq(take, i requires 0 <= i < take => Waiters(rows)[order[i]].id);
      PlacesAreWaiters(rows, n, order[..take], picks);
    } else if take == waiting {
      picks := Ids(Waiters(rows)[..take]);
      PlacesAreWaiters(rows, n, seq(take, i => i), picks);
    } else {
      var offsets := DrawOffsets(waiting, take, random);
      picks := IdsAtOffsets(rows, n, offsets);
      PlacesAreWaiters(rows, n, offsets, picks);
    }
  }
}
