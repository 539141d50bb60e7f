/**
 What the timeslot arithmetic of Engine promises: the assigned slot is the earliest one a visitor may
 have, renewals keep a visitor on its cadence, and the load of check-ins is bounded.
 */
module CheckInSlots {
  import opened Wrappers
  import opened Engine

  /** A second-aligned instant in the residue class of a visitor's slot. */
  predicate IsSlotOf(t: int, key: string, periodSec: nat)
    requires periodSec >= 1
  {
    t % 1000 == 0 && (t / 1000) % periodSec == StableSlotIndex(key, periodSec)
  }

  // ---------- residues ----------

  lemma SameResidue(u: int, v: int, p: int)
    requires p > 0 && u % p == v % p && u < v
    ensures u + p <= v
  {
    var i, j, r := u / p, v / p, u % p;
    assert u == i * p + r && v == j * p + r;
    var k := j - i;
    assert k * p == v - u;
    if k > 0 {
      Grows(k, p);
    }
  }

  lemma AddMod(a: int, b: int, p: int)
    requires p > 0
    ensures (a % p + b) % p == (a + b) % p
  {
    ModUnique(a + b, p, a / p + (a % p + b) / p, (a % p + b) % p);
  }

  lemma ShiftedResidue(a: int, n: int, slot: int, p: int)
    requires 0 <= n < p && 0 <= slot < p
    ensures (a + n) % p == slot <==> n == (slot - a) % p
  {
    var d := (slot - a) % p;
    var u, v := a + n, a + d;
    AddMod(slot - a, a, p);
    ModUnique(slot, p, 0, slot);
    assert slot - a + a == slot;
    assert v % p == slot;
    if u % p == slot {
      if u < v {
        SameResidue(u, v, p);
      } else if v < u {
        SameResidue(v, u, p);
      }
    }
  }

  // ---------- the assigned slot ----------

  /** The three remainders of the source amount to one Euclidean remainder. */
  lemma SlotDelta(earliestSec: int, slot: int, period: int)
    requires period > 0 && 0 <= slot < period
    ensures var m := Remainder(Remainder(earliestSec, period) + period, period);
            Remainder(slot - m + period, period) == (slot - earliestSec) % period
  {
    var m := earliestSec % period;
    assert Remainder(Remainder(earliestSec, period) + period, period) == m by {
      assert Remainder(earliestSec, period) + period >= 0;
    }
    ModUnique(slot - m + period, period,
              (slot - earliestSec) / period + earliestSec / period + 1, (slot - earliestSec) % period);
  }

  /** `nextCheckAtMs` returns the least instant of the visitor's residue class at or after now + lead. */
  lemma NextCheckIsLeast(now: int, periodSec: nat, key: string, minLeadMs: int)
    requires periodSec >= 1
    ensures var r := NextCheckAtMs(now, periodSec, key, minLeadMs);
            var floor := now + Max(0, minLeadMs);
            && IsSlotOf(r, key, periodSec)
            && floor <= r < floor + 1000 * periodSec
            && forall t :: t >= floor && IsSlotOf(t, key, periodSec) ==> r <= t
  {
    var floor := now + Max(0, minLeadMs);
    var slot := StableSlotIndex(key, periodSec);
    var e := CeilDiv(floor, 1000);
    var delta := (slot - e) % periodSec;
    SlotDelta(e, slot, periodSec);
    var r := NextCheckAtMs(now, periodSec, key, minLeadMs);
    assert r == (e + delta) * 1000;
    assert r / 1000 == e + delta;
    ShiftedResidue(e, delta, slot, periodSec);
    forall t | t >= floor && IsSlotOf(t, key, periodSec)
      ensures r <= t
    {
      var u := t / 1000;
      assert u >= e;
      if u < e + delta {
        SameResidue(u, e + delta, periodSec);
      }
    }
  }

  /**
   A renewal at `now` of a slot that is due moves it forward by at least a second and leaves it not due, whatever
   the period was when the slot was assigned and is now.
   */
  lemma RenewalMovesForward(slotAt: int, now: int, periodSec: nat, key: string)
    requires periodSec >= 1 && slotAt % 1000 == 0
    requires IsCheckInDue(now, Some(slotAt))
    ensures var r := NextCheckAtMs(now, periodSec, key, 1000);
            r >= slotAt + 1000 && !IsCheckInDue(now, Some(r))
  {
    NextCheckIsLeast(now, periodSec, key, 1000);
  }

  /**
   With an unchanged period the renewal lands exactly one period later if and only if the visitor came no later
   than period - 1 seconds after its slot.
   */
  lemma RenewalKeepsCadence(slotAt: int, now: int, periodSec: nat, key: string)
    requires periodSec >= 1 && IsSlotOf(slotAt, key, periodSec)
    requires IsCheckInDue(now, Some(slotAt))
    ensures var r := NextCheckAtMs(now, periodSec, key, 1000);
            r == slotAt + 1000 * periodSec <==> now <= slotAt + 1000 * (periodSec - 1)
  {
    var r := NextCheckAtMs(now, periodSec, key, 1000);
    NextCheckIsLeast(now, periodSec, key, 1000);
    var u := slotAt / 1000;
    var next := slotAt + 1000 * periodSec;
    assert next / 1000 == u + periodSec;
    AddMod(periodSec, u, periodSec);
    assert IsSlotOf(next, key, periodSec);
    assert r / 1000 > u;
    SameResidue(u, r / 1000, periodSec);
    assert r >= next;
  }

  // ---------- the load of check-ins ----------

  /** Slot instants of one visitor among the n seconds from a. */
  function Instants(a: int, n: nat, period: nat, slot: nat): nat
    requires period >= 1
  {
    if n == 0 then 0 else Instants(a, n - 1, period, slot) + (if (a + n - 1) % period == slot then 1 else 0)
  }

  lemma {:induction false} InstantsWithinPeriod(a: int, n: nat, period: nat, slot: nat)
    requires slot < period && n <= period
    ensures Instants(a, n, period, slot) == if n > (slot - a) % period then 1 else 0
  {
    if n > 0 {
      InstantsWithinPeriod(a, n - 1, period, slot);
      ShiftedResidue(a, n - 1, slot, period);
    }
  }

  lemma {:induction false} InstantsSplit(a: int, n: nat, m: nat, period: nat, slot: nat)
    requires period >= 1
    ensures Instants(a, n + m, period, slot) == Instants(a, n, period, slot) + Instants(a + n, m, period, slot)
  {
    if m > 0 {
      InstantsSplit(a, n, m - 1, period, slot);
    }
  }

  lemma {:induction false} InstantsOfPeriods(a: int, k: nat, period: nat, slot: nat)
    requires slot < period
    ensures k * period >= 0 && Instants(a, k * period, period, slot) == k
  {
    if k > 0 {
      assert k * period == (k - 1) * period + period;
      InstantsOfPeriods(a, k - 1, period, slot);
      InstantsSplit(a, (k - 1) * period, period, period, slot);
      InstantsWithinPeriod(a + (k - 1) * period, period, period, slot);
    }
  }

  /** The period of the visitor at a position of a Queue Mode line of `waiting` visitors. */
  function LinePeriod(waiting: nat, position: nat, rate: real): (p: nat)
    ensures p >= 1
  {
    EffectiveCheckInPeriodSeconds(waiting, Some(position), Queue, 0, rate)
  }

  /** Slot instants, among the n seconds from a, of the first k visitors of a line. */
  function LineInstants(keys: seq<string>, k: nat, rate: real, a: int, n: nat): nat
    requires k <= |keys|
  {
    if k == 0 then 0 else
    var period := LinePeriod(|keys|, k, rate);
    LineInstants(keys, k - 1, rate, a, n) + Instants(a, n, period, StableSlotIndex(keys[k - 1], period))
  }

  /** Five full periods hold one period's worth of instants of a front-band visitor, and five of any other. */
  lemma PeriodInstants(waiting: nat, k: nat, rate: real, a: int, slot: nat)
    requires slot < LinePeriod(waiting, k, rate)
    ensures var p := CheckInPeriodSeconds(waiting);
            Instants(a, 5 * p, LinePeriod(waiting, k, rate), slot) == if k <= FrontBandSize(rate) then p else 5
  {
    var p := CheckInPeriodSeconds(waiting);
    if k <= FrontBandSize(rate) {
      InstantsOfPeriods(a, p, 5, slot);
    } else {
      InstantsOfPeriods(a, 5, p, slot);
    }
  }

  lemma OneMoreVisitor(k: nat, band: nat, p: nat)
    requires k > 0
    ensures var front, before := Min(k, band), Min(k - 1, band);
            front * p + 5 * (k - front) == before * p + 5 * (k - 1 - before) + if k <= band then p else 5
  {
    assert k * p == (k - 1) * p + p;
  }

  lemma {:induction false} FirstLineInstants(keys: seq<string>, k: nat, rate: real, a: int)
    requires k <= |keys|
    ensures var p := CheckInPeriodSeconds(|keys|);
            var front := Min(k, FrontBandSize(rate));
            LineInstants(keys, k, rate, a, 5 * p) == front * p + 5 * (k - front)
  {
    if k > 0 {
      var p := CheckInPeriodSeconds(|keys|);
      FirstLineInstants(keys, k - 1, rate, a);
      var period := LinePeriod(|keys|, k, rate);
      var slot := StableSlotIndex(keys[k - 1], period);
      PeriodInstants(|keys|, k, rate, a, slot);
      OneMoreVisitor(k, FrontBandSize(rate), p);
      hide CheckInPeriodSeconds, FrontBandSize, LinePeriod, Instants;
    }
  }

  /**
   Check-in load: any window of five full periods holds exactly one period's worth of instants for each
   front-band visitor and five for every other, so the others average at most the budgeted rate.
   */
  lemma CheckInLoad(keys: seq<string>, rate: real, a: int)
    ensures var w, p := |keys|, CheckInPeriodSeconds(|keys|);
            var front := Min(w, FrontBandSize(rate));
            && LineInstants(keys, w, rate, a, 5 * p) == front * p + 5 * (w - front)
            && w <= STATUS_RPS_BUDGET * p
            && 5 * (w - front) <= STATUS_RPS_BUDGET * (5 * p)
  {
    FirstLineInstants(keys, |keys|, rate, a);
  }

  // ---------- the admission budget ----------

  /** Admissions granted by a run of alarm ticks, with the remainder it leaves. */
  function TickRun(rates: seq<real>, remainder: real): Budget {
    if rates == [] then Budget(0, remainder) else
    var before := TickRun(rates[..|rates| - 1], remainder);
    var tick := AdmissionsForTick(rates[|rates| - 1], QUEUE_ALARM_INTERVAL_MS, before.nextRemainder);
    Budget(before.admitCount + tick.admitCount, tick.nextRemainder)
  }

  /** The sum of the rates that are positive; the others add no budget. */
  function RateSum(rates: seq<real>): real {
    if rates == [] then 0.0 else
    RateSum(rates[..|rates| - 1]) + (if rates[|rates| - 1] > 0.0 then rates[|rates| - 1] else 0.0)
  }

  /** The budget telescopes: nothing is lost to rounding, whatever the rates. */
  lemma {:induction false} BudgetTelescopes(rates: seq<real>, remainder: real)
    requires 0.0 <= remainder < 1.0
    ensures var run := TickRun(rates, remainder);
            && run.admitCount as real + run.nextRemainder == remainder + RateSum(rates)
            && 0.0 <= run.nextRemainder < 1.0
            && run.admitCount >= 0
            && run.admitCount as real < 1.0 + RateSum(rates)
  {
    if rates != [] {
      BudgetTelescopes(rates[..|rates| - 1], remainder);
    }
  }
}
