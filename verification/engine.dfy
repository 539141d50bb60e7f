/**
 The arithmetic of the waiting room: the admission budget of one alarm tick, check-in periods,
 check-in timeslots and the grace after a missed slot (src/queue/engine.ts, src/core/config.ts).
 Times are integer milliseconds; rates and the budget remainder are reals.
 */
module Engine {
  import opened Wrappers

  datatype Mode = Queue | Lottery

  const QUEUE_ALARM_INTERVAL_MS: int := 1000
  const STATUS_RPS_BUDGET: nat := 750
  const MIN_CHECK_IN_PERIOD_SEC: nat := 5
  const DEFAULT_MAX_WAITING_VISITORS: nat := 1000000
  const CHECK_IN_EARLY_SKEW_MS: int := 500
  const MIN_MISSED_SLOT_GRACE_SECONDS: int := 30
  const MAX_MISSED_SLOT_GRACE_SECONDS: int := 900

  // ---------- rounding ----------

  /** `Math.ceil` of a real. */
  function Ceil(x: real): int {
    -((-x).Floor)
  }

  /** `Math.ceil(n / d)` for a positive divisor. */
  function CeilDiv(n: int, d: int): (q: int)
    requires d > 0
    ensures (q - 1) * d < n <= q * d
  {
    -((-n) / d)
  }

  /** The `%` of the source, whose result takes the sign of the dividend. */
  function Remainder(a: int, b: int): (r: int)
    requires b > 0
    ensures a >= 0 ==> r == a % b
    ensures (r + b) % b == a % b
  {
    if a >= 0 then
      a % b
    else
      var r := -((-a) % b);
      RemainderOfNegative(a, b);
      r
  }

  lemma RemainderOfNegative(a: int, b: int)
    requires b > 0 && a < 0
    ensures (-((-a) % b) + b) % b == a % b
  {
    var q, m := (-a) / b, (-a) % b;
    assert a == (-q) * b - m;
    if m == 0 {
      ModUnique(a, b, -q, 0);
      ModUnique(b, b, 1, 0);
    } else {
      ModUnique(a, b, -q - 1, b - m);
      ModUnique(b - m, b, 0, b - m);
    }
  }

  /** Euclidean division is determined by its defining equation. */
  lemma ModUnique(a: int, b: int, q: int, m: int)
    requires b > 0 && a == q * b + m && 0 <= m < b
    ensures a % b == m && a / b == q
  {
    var q' := a / b;
    if q > q' {
      Grows(q - q', b);
    } else if q < q' {
      Grows(q' - q, b);
    }
  }

  lemma Grows(k: int, b: int)
    requires k > 0 && b > 0
    ensures k * b >= b
  {
  }

  // ---------- capacity and budget ----------

  function OpenSlots(capacity: nat, admitted: nat): nat {
    if capacity > admitted then capacity - admitted else 0
  }

  datatype Budget = Budget(admitCount: int, nextRemainder: real)

  function AdmissionsForTick(admitPerSecond: real, intervalMs: int, remainder: real): Budget {
    if admitPerSecond <= 0.0 || intervalMs <= 0 then
      Budget(0, remainder)
    else
      var budget := remainder + admitPerSecond * (intervalMs as real / 1000.0);
      Budget(budget.Floor, budget - budget.Floor as real)
  }

  // ---------- check-in timeslots ----------

  /** Steady-state period for the whole waiting set, in seconds. */
  function CheckInPeriodSeconds(waiting: nat): nat {
    if waiting == 0 then
      MIN_CHECK_IN_PERIOD_SEC
    else
      Max(MIN_CHECK_IN_PERIOD_SEC, CeilDiv(waiting, STATUS_RPS_BUDGET))
  }

  /** How many positions at the front of the line keep the short period. */
  function FrontBandSize(admitPerSecond: real): (n: nat) {
    var rate := if admitPerSecond < 0.0 then 0.0 else admitPerSecond;
    Max(500, Ceil(rate * 60.0))
  }

  function EffectiveCheckInPeriodSeconds(waiting: nat, position: Option<nat>, mode: Mode,
                                         estimatedWaitSeconds: int, admitPerSecond: real): nat
  {
    var full := CheckInPeriodSeconds(waiting);
    match mode
    case Lottery => if estimatedWaitSeconds <= 60 then MIN_CHECK_IN_PERIOD_SEC else full
    case Queue =>
      if position.Some? && position.value <= FrontBandSize(admitPerSecond) then MIN_CHECK_IN_PERIOD_SEC else full
  }

  /** Exclusive or of two 32-bit words. */
  function Xor32(a: nat, b: nat): (r: nat)
    requires a < 0x1_0000_0000 && b < 0x1_0000_0000
    ensures r < 0x1_0000_0000
  {
    (a as bv32 ^ b as bv32) as int
  }

  /** FNV-1a over the first n characters of a key, in 32-bit wrap-around arithmetic. */
  function Fnv1a(key: string, n: nat): (hash: nat)
    requires n <= |key|
    ensures hash < 0x1_0000_0000
  {
    if n == 0 then 0x811c9dc5 else Xor32(Fnv1a(key, n - 1), key[n - 1] as int) * 0x01000193 % 0x1_0000_0000
  }

  method HashString(key: string) returns (hash: nat)
    ensures hash == Fnv1a(key, |key|)
  {
    hash := 0x811c9dc5;
    for i := 0 to |key|
      invariant hash == Fnv1a(key, i)
    {
      hash := Xor32(hash, key[i] as int);
      hash := hash * 0x01000193 % 0x1_0000_0000;
    }
  }

  // A word as a number and as bits.
  predicate IsWord(a: nat, x: bv32) {
    a == x as int
  }

  predicate HasBits(a: nat, x: bv32)
    requires a < 0x1_0000_0000
  {
    a as bv32 == x
  }

  lemma WordHasBits(a: nat, x: bv32)
    requires IsWord(a, x)
    ensures a < 0x1_0000_0000 && HasBits(a, x)
  {
  }

  lemma XorOfWords(a: nat, b: nat, x: bv32, y: bv32)
    requires a < 0x1_0000_0000 && b < 0x1_0000_0000 && HasBits(a, x) && HasBits(b, y)
    ensures IsWord(Xor32(a, b), x ^ y)
  {
  }

  /** The exclusive or of three words, by their bits. */
  lemma XorValue(a: nat, b: nat, c: nat, x: bv32, y: bv32, z: bv32)
    requires IsWord(a, x) && IsWord(b, y) && IsWord(c, z) && z == x ^ y
    ensures a < 0x1_0000_0000 && b < 0x1_0000_0000 && Xor32(a, b) == c
  {
    hide Xor32, HasBits;
    WordHasBits(a, x);
    WordHasBits(b, y);
    XorOfWords(a, b, x, y);
  }

  lemma HashStep(key: string, n: nat, before: nat, mixed: nat, after: nat)
    requires n < |key| && before < 0x1_0000_0000 && Fnv1a(key, n) == before
    requires Xor32(before, key[n] as int) == mixed && after == mixed * 0x01000193 % 0x1_0000_0000
    ensures Fnv1a(key, n + 1) == after
  {
    hide Xor32;
  }

  /** Vectors of the 32-bit FNV-1a function, as its authors publish them. */
  lemma HashVectors()
    ensures Fnv1a("", 0) == 0x811c9dc5
    ensures Fnv1a("a", 1) == 0xe40c292c
  {
    assert Fnv1a("", 0) == 0x811c9dc5 && Fnv1a("a", 0) == 0x811c9dc5;
    hide Fnv1a, Xor32;
    XorValue(0x811c9dc5, 0x61, 0x811c9da4, 0x811c9dc5, 0x61, 0x811c9da4);
    HashStep("a", 0, 0x811c9dc5, 0x811c9da4, 0xe40c292c);
  }

  /** The slot is the hash of the key modulo the period. */
  lemma SlotIsHash(key: string, periodSec: nat)
    requires periodSec >= 1
    ensures StableSlotIndex(key, periodSec) == Fnv1a(key, |key|) % periodSec
  {
  }

  function StableSlotIndex(key: string, periodSec: int): (slot: nat)
    ensures slot < Max(1, periodSec)
  {
    var period := Max(1, periodSec);
    if period == 1 then 0 else Fnv1a(key, |key|) % period
  }

  function NextCheckAtMs(now: int, periodSec: int, key: string, minLeadMs: int): (at: int)
    ensures at % 1000 == 0
  {
    var period := Max(1, periodSec);
    var slot := StableSlotIndex(key, period);
    var earliestSec := CeilDiv(now + Max(0, minLeadMs), 1000);
    var mod := Remainder(Remainder(earliestSec, period) + period, period);
    var delta := Remainder(slot - mod + period, period);
    (earliestSec + delta) * 1000
  }

  function ClampMissedSlotGraceSeconds(seconds: int): int {
    Min(MAX_MISSED_SLOT_GRACE_SECONDS, Max(MIN_MISSED_SLOT_GRACE_SECONDS, seconds))
  }

  function MissedSlotGraceMs(periodSec: int, graceSeconds: int): int {
    Max(ClampMissedSlotGraceSeconds(graceSeconds) * 1000, Max(1, periodSec) * 1000)
  }

  /** A missing slot is always due; otherwise half a second of earliness is forgiven. */
  predicate IsCheckInDue(now: int, nextCheckAt: Option<int>) {
    nextCheckAt.None? || now >= nextCheckAt.value - CHECK_IN_EARLY_SKEW_MS
  }
}
