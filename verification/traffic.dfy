/**
 Open-bucket traffic accounting (src/durable-object/traffic-buckets.ts, src/queue/traffic.ts).
 The two pruned counters are history: they remember what retention deleted, so that conservation can
 be stated.
 */
module TrafficBuckets {
  const TRAFFIC_BUCKET_MS: int := 15000
  const TRAFFIC_RETENTION_MS: int := 24 * 60 * 60 * 1000

  datatype Bucket = Bucket(t: int, joins: nat, admits: nat, maxOutflow: real, waiting: nat, entered: nat)

  /** The gauges stored with a bucket when it is flushed. */
  datatype Sample = Sample(maxOutflow: real, waiting: nat, entered: nat)

  datatype Traffic = Traffic(
    openT: int,
    joins: nat,
    admits: nat,
    totalInflow: nat,
    buckets: seq<Bucket>,
    prunedJoins: nat,
    prunedAdmits: nat)

  const NO_TRAFFIC := Traffic(0, 0, 0, 0, [], 0, 0)

  function Align(now: int): (t: int)
    ensures t % TRAFFIC_BUCKET_MS == 0 && t <= now < t + TRAFFIC_BUCKET_MS
  {
    now / TRAFFIC_BUCKET_MS * TRAFFIC_BUCKET_MS
  }

  /** INSERT ... ON CONFLICT(t) DO UPDATE: counts add up, gauges are replaced. */
  function Upsert(buckets: seq<Bucket>, b: Bucket): seq<Bucket> {
    if buckets == [] then [b]
    else if buckets[0].t == b.t then
      [b.(joins := buckets[0].joins + b.joins, admits := buckets[0].admits + b.admits)] + buckets[1..]
    else [buckets[0]] + Upsert(buckets[1..], b)
  }

  /** The buckets on one side of a retention cutoff. */
  function Retained(buckets: seq<Bucket>, cutoff: int): seq<Bucket> {
    if buckets == [] then []
    else if buckets[0].t >= cutoff then [buckets[0]] + Retained(buckets[1..], cutoff)
    else Retained(buckets[1..], cutoff)
  }

  function Pruned(buckets: seq<Bucket>, cutoff: int): seq<Bucket> {
    if buckets == [] then []
    else if buckets[0].t >= cutoff then Pruned(buckets[1..], cutoff)
    else [buckets[0]] + Pruned(buckets[1..], cutoff)
  }

  function SumJoins(buckets: seq<Bucket>): nat {
    if buckets == [] then 0 else buckets[0].joins + SumJoins(buckets[1..])
  }

  function SumAdmits(buckets: seq<Bucket>): nat {
    if buckets == [] then 0 else buckets[0].admits + SumAdmits(buckets[1..])
  }

  function Flush(t: Traffic, now: int, sample: Sample): Traffic {
    if t.openT <= 0 then
      t.(openT := Align(now), joins := 0, admits := 0)
    else if t.openT >= Align(now) then
      t
    else
      var stored := Upsert(t.buckets, Bucket(t.openT, t.joins, t.admits, sample.maxOutflow, sample.waiting, sample.entered));
      var cutoff := now - TRAFFIC_RETENTION_MS;
      var pruned := Pruned(stored, cutoff);
      t.(openT := Align(now), joins := 0, admits := 0,
         buckets := Retained(stored, cutoff),
         prunedJoins := t.prunedJoins + SumJoins(pruned),
         prunedAdmits := t.prunedAdmits + SumAdmits(pruned))
  }

  function Record(t: Traffic, now: int, sample: Sample, joins: nat, admits: nat): Traffic {
    var f := Flush(t, now, sample);
    var stale := f.openT != Align(now);
    f.(openT := Align(now),
       joins := (if stale then 0 else f.joins) + joins,
       admits := (if stale then 0 else f.admits) + admits,
       totalInflow := f.totalInflow + joins)
  }

  /** The joins and admissions shown for the bucket of this instant. */
  function CurrentOpen(t: Traffic, now: int): (nat, nat) {
    if t.openT != Align(now) then (0, 0) else (t.joins, t.admits)
  }

  /** The open counts shown are those recorded since the start of the current bucket, and none before it. */
  lemma CurrentOpenAccumulates(t: Traffic, now: int, sample: Sample, joins: nat, admits: nat, at: int)
    requires t.openT <= Align(now) && 0 < Align(now)
    ensures CurrentOpen(Record(t, now, sample, joins, admits), at) ==
            if Align(at) == Align(now) then (CurrentOpen(t, now).0 + joins, CurrentOpen(t, now).1 + admits) else (0, 0)
  {
  }

  // ---------- what is stored ----------

  /** Retention is a day: exactly the buckets that began within it are kept. */
  lemma {:induction false} RetainedIsADay(buckets: seq<Bucket>, now: int, b: Bucket)
    ensures b in Retained(buckets, now - TRAFFIC_RETENTION_MS) <==> b in buckets && now - b.t <= 86400000
  {
    if buckets != [] {
      RetainedIsADay(buckets[1..], now, b);
    }
  }

  lemma {:induction false} UpsertMember(buckets: seq<Bucket>, b: Bucket, x: Bucket)
    requires forall i :: 0 <= i < |buckets| ==> buckets[i].t < b.t
    ensures x in Upsert(buckets, b) <==> x in buckets || x == b
  {
    if buckets != [] {
      UpsertMember(buckets[1..], b, x);
    }
  }

  /** When the open bucket is over it is stored with its counts and the gauges of the moment, and older ones run out. */
  lemma FlushedBuckets(t: Traffic, now: int, sample: Sample, x: Bucket)
    requires 0 < t.openT < Align(now) && forall i :: 0 <= i < |t.buckets| ==> t.buckets[i].t < t.openT
    ensures var f := Flush(t, now, sample);
            && f.openT == Align(now) && f.joins == 0 && f.admits == 0
            && (x in f.buckets <==>
                  && now - x.t <= 86400000
                  && (x in t.buckets
                      || x == Bucket(t.openT, t.joins, t.admits, sample.maxOutflow, sample.waiting, sample.entered)))
  {
    var b := Bucket(t.openT, t.joins, t.admits, sample.maxOutflow, sample.waiting, sample.entered);
    UpsertMember(t.buckets, b, x);
    RetainedIsADay(Upsert(t.buckets, b), now, x);
    hide Upsert, Retained, Pruned, SumJoins, SumAdmits;
  }

  // ---------- conservation ----------

  /** Every join and every admission the accounts can still show, stored, open or pruned. */
  function AllJoins(t: Traffic): nat {
    SumJoins(t.buckets) + t.joins + t.prunedJoins
  }

  function AllAdmits(t: Traffic): nat {
    SumAdmits(t.buckets) + t.admits + t.prunedAdmits
  }

  lemma {:induction false} UpsertSums(buckets: seq<Bucket>, b: Bucket)
    ensures SumJoins(Upsert(buckets, b)) == SumJoins(buckets) + b.joins
    ensures SumAdmits(Upsert(buckets, b)) == SumAdmits(buckets) + b.admits
  {
    if buckets != [] && buckets[0].t != b.t {
      UpsertSums(buckets[1..], b);
    }
  }

  lemma {:induction false} PruneSums(buckets: seq<Bucket>, cutoff: int)
    ensures SumJoins(Retained(buckets, cutoff)) + SumJoins(Pruned(buckets, cutoff)) == SumJoins(buckets)
    ensures SumAdmits(Retained(buckets, cutoff)) + SumAdmits(Pruned(buckets, cutoff)) == SumAdmits(buckets)
  {
    if buckets != [] {
      var rest := buckets[1..];
      PruneSums(rest, cutoff);
      assert ([buckets[0]] + Retained(rest, cutoff))[1..] == Retained(rest, cutoff);
      assert ([buckets[0]] + Pruned(rest, cutoff))[1..] == Pruned(rest, cutoff);
    }
  }

  /** The clock has not run behind the open bucket, or nothing is open. */
  predicate ClockKept(t: Traffic, now: int) {
    0 < t.openT <= Align(now) || (t.joins == 0 && t.admits == 0)
  }

  lemma FlushConserves(t: Traffic, now: int, sample: Sample)
    requires t.openT > 0 || (t.joins == 0 && t.admits == 0)
    ensures AllJoins(Flush(t, now, sample)) == AllJoins(t)
    ensures AllAdmits(Flush(t, now, sample)) == AllAdmits(t)
  {
    if 0 < t.openT < Align(now) {
      var b := Bucket(t.openT, t.joins, t.admits, sample.maxOutflow, sample.waiting, sample.entered);
      UpsertSums(t.buckets, b);
      PruneSums(Upsert(t.buckets, b), now - TRAFFIC_RETENTION_MS);
    }
  }

  /**
   Recording conserves both counts if and only if the clock was kept. The counts of a bucket that opened
   later than `now` (or of bucket 0) are thrown away; nothing is ever gained.
   */
  lemma RecordConserves(t: Traffic, now: int, sample: Sample, joins: nat, admits: nat)
    ensures var r := Record(t, now, sample, joins, admits);
            && r.totalInflow == t.totalInflow + joins
            && (ClockKept(t, now) <==>
                AllJoins(r) == AllJoins(t) + joins && AllAdmits(r) == AllAdmits(t) + admits)
            && AllJoins(r) <= AllJoins(t) + joins && AllAdmits(r) <= AllAdmits(t) + admits
  {
    if t.openT > 0 {
      FlushConserves(t, now, sample);
    }
  }

  // ---------- the shape of the stored buckets ----------

  ghost predicate Ascending(buckets: seq<Bucket>) {
    forall i, j :: 0 <= i < j < |buckets| ==> buckets[i].t < buckets[j].t
  }

  ghost predicate AlignedBefore(buckets: seq<Bucket>, t: int) {
    forall i :: 0 <= i < |buckets| ==> buckets[i].t % TRAFFIC_BUCKET_MS == 0 && buckets[i].t < t
  }

  /** Stored buckets are aligned, in time order, and strictly before the open one. */
  ghost predicate BucketsInv(t: Traffic) {
    && t.openT % TRAFFIC_BUCKET_MS == 0
    && Ascending(t.buckets)
    && AlignedBefore(t.buckets, t.openT)
    && (t.openT <= 0 ==> t.joins == 0 && t.admits == 0 && t.buckets == [])
  }

  /** A bucket that is stored already takes up the new counts and the new gauges; the others stay. */
  lemma {:induction false} UpsertMerges(buckets: seq<Bucket>, b: Bucket, earlier: Bucket, x: Bucket)
    requires Ascending(buckets) && earlier in buckets && earlier.t == b.t
    ensures x in Upsert(buckets, b) <==>
            (x in buckets && x.t != b.t) || x == b.(joins := earlier.joins + b.joins, admits := earlier.admits + b.admits)
  {
    if buckets[0].t == b.t {
      assert buckets[0] == earlier;
    } else {
      assert Ascending(buckets[1..]);
      UpsertMerges(buckets[1..], b, earlier, x);
    }
  }

  lemma {:induction false} UpsertAppends(buckets: seq<Bucket>, b: Bucket)
    requires forall i :: 0 <= i < |buckets| ==> buckets[i].t < b.t
    ensures Upsert(buckets, b) == buckets + [b]
  {
    if buckets != [] {
      UpsertAppends(buckets[1..], b);
    }
  }

  lemma {:induction false} RetainedIsSuffix(buckets: seq<Bucket>, cutoff: int) returns (k: nat)
    requires Ascending(buckets)
    ensures k <= |buckets| && Retained(buckets, cutoff) == buckets[k..]
    ensures forall i :: 0 <= i < |buckets| ==> (i >= k <==> buckets[i].t >= cutoff)
  {
    if buckets == [] {
      k := 0;
    } else {
      assert Ascending(buckets[1..]);
      var k' := RetainedIsSuffix(buckets[1..], cutoff);
      assert buckets[1..][k'..] == buckets[k' + 1..];
      if buckets[0].t >= cutoff {
        if |buckets| > 1 {
          assert buckets[1..][0].t >= cutoff;
        }
        assert buckets == buckets[0..];
        k := 0;
      } else {
        k := k' + 1;
      }
    }
  }

  lemma StoreKeepsShape(buckets: seq<Bucket>, b: Bucket, cutoff: int, t: int)
    requires Ascending(buckets) && AlignedBefore(buckets, b.t)
    requires b.t % TRAFFIC_BUCKET_MS == 0 && b.t < t
    ensures var kept := Retained(Upsert(buckets, b), cutoff);
            Ascending(kept) && AlignedBefore(kept, t)
  {
    UpsertAppends(buckets, b);
    var stored := buckets + [b];
    assert Ascending(stored);
    assert AlignedBefore(stored, t);
    var k := RetainedIsSuffix(stored, cutoff);
  }

  lemma FlushKeepsBuckets(t: Traffic, now: int, sample: Sample)
    requires BucketsInv(t) && t.openT <= Align(now)
    ensures BucketsInv(Flush(t, now, sample))
    ensures Flush(t, now, sample).openT == Align(now)
  {
    if 0 < t.openT < Align(now) {
      var b := Bucket(t.openT, t.joins, t.admits, sample.maxOutflow, sample.waiting, sample.entered);
      StoreKeepsShape(t.buckets, b, now - TRAFFIC_RETENTION_MS, Align(now));
    }
  }

  lemma RecordKeepsBuckets(t: Traffic, now: int, sample: Sample, joins: nat, admits: nat)
    requires BucketsInv(t) && t.openT <= Align(now) && 0 < Align(now)
    ensures BucketsInv(Record(t, now, sample, joins, admits))
    ensures Record(t, now, sample, joins, admits).openT == Align(now)
  {
    FlushKeepsBuckets(t, now, sample);
  }

  /** Recording at `now` reopens no bucket that is stored already. */
  ghost predicate ShapeKept(t: Traffic, now: int) {
    t.openT <= Align(now) || AlignedBefore(t.buckets, Align(now))
  }

  /** The shape survives a recording if and only if no stored bucket is reopened by it. */
  lemma RecordKeepsShape(t: Traffic, now: int, sample: Sample, joins: nat, admits: nat)
    requires BucketsInv(t) && 0 < Align(now)
    ensures BucketsInv(Record(t, now, sample, joins, admits)) <==> ShapeKept(t, now)
  {
    if t.openT <= Align(now) {
      RecordKeepsBuckets(t, now, sample, joins, admits);
    } else {
      assert Flush(t, now, sample) == t;
    }
  }

  /** An instance: with 30000 open and 15000 stored, a recording at 29999 opens 15000 again. */
  lemma StoredBucketReopened(sample: Sample, stored: Bucket, admits: nat)
    requires stored.t == 15000
    ensures var t := Traffic(30000, 1, 0, 1 + stored.joins, [stored], 0, 0);
            var r := Record(t, 29999, sample, 0, admits);
            && BucketsInv(t) && !ShapeKept(t, 29999) && !BucketsInv(r)
            && r.openT == stored.t && r.buckets == [stored]
  {
    var t := Traffic(30000, 1, 0, 1 + stored.joins, [stored], 0, 0);
    assert Flush(t, 29999, sample) == t;
    assert t.buckets[0].t == 15000;
  }
}
