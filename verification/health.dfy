/** Origin-health ladder that throttles admission: ok, slow, pause (src/health/origin-probe.ts). */
module Health {
  import opened Wrappers

  datatype Level = Ok | Slow | Pause

  datatype HealthConfig = HealthConfig(
    enabled: bool,
    intervalSeconds: int,
    failThreshold: int,
    recoverThreshold: int,
    slowRateMultiplier: real,
    overrideUntil: Option<int>)

  datatype HealthState = HealthState(
    level: Level,
    consecutiveFails: int,
    consecutiveOk: int,
    lastCheckedAt: Option<int>,
    lastLatencyMs: Option<int>,
    lastStatus: Option<int>,
    lastError: Option<string>)

  datatype ProbeResult = ProbeResult(ok: bool, latencyMs: int, status: Option<int>, error: Option<string>)

  const DEFAULT_HEALTH_CONFIG := HealthConfig(false, 30, 2, 2, 0.25, None)
  const DEFAULT_HEALTH_STATE := HealthState(Ok, 0, 0, None, None, None, None)

  predicate ValidConfig(c: HealthConfig) {
    && 15 <= c.intervalSeconds <= 300
    && 1 <= c.failThreshold <= 20
    && 1 <= c.recoverThreshold <= 20
    && 0.01 <= c.slowRateMultiplier <= 1.0
  }

  function ClampInt(value: int, min: int, max: int, fallback: int): int {
    if value < min || value > max then fallback else value
  }

  /** Out-of-range settings fall back to their defaults; probing needs a usable URL. */
  function ParseHealthConfig(raw: HealthConfig, urlUsable: bool): (c: HealthConfig)
    ensures ValidConfig(c)
    ensures ValidConfig(raw) && (raw.enabled ==> urlUsable) ==> c == raw
  {
    HealthConfig(
      raw.enabled && urlUsable,
      ClampInt(raw.intervalSeconds, 15, 300, 30),
      ClampInt(raw.failThreshold, 1, 20, 2),
      ClampInt(raw.recoverThreshold, 1, 20, 2),
      if raw.slowRateMultiplier < 0.01 || raw.slowRateMultiplier > 1.0 then 0.25 else raw.slowRateMultiplier,
      raw.overrideUntil)
  }

  function HealthRateMultiplier(c: HealthConfig, s: HealthState, now: int): real {
    if !c.enabled then 1.0
    else if c.overrideUntil.Some? && now < c.overrideUntil.value then 1.0
    else match s.level
      case Pause => 0.0
      case Slow => c.slowRateMultiplier
      case Ok => 1.0
  }

  predicate IsAutoPaused(c: HealthConfig, s: HealthState, now: int) {
    c.enabled && HealthRateMultiplier(c, s, now) == 0.0
  }

  /** Admission is stopped by the ladder exactly at pause, with probing on and no override in force. */
  lemma AutoPausedAtPause(c: HealthConfig, s: HealthState, now: int)
    requires ValidConfig(c)
    ensures IsAutoPaused(c, s, now) <==>
            c.enabled && s.level == Pause && !(c.overrideUntil.Some? && now < c.overrideUntil.value)
    ensures 0.0 <= HealthRateMultiplier(c, s, now) <= 1.0
  {
  }

  // ---------- one probe ----------

  /** The part of the health state that decides admission. */
  datatype Ladder = Ladder(level: Level, fails: int, oks: int)

  function LadderOf(s: HealthState): Ladder {
    Ladder(s.level, s.consecutiveFails, s.consecutiveOk)
  }

  function Climb(c: HealthConfig, l: Ladder, ok: bool): Ladder {
    if ok then
      if l.level != Ok && l.oks + 1 >= c.recoverThreshold then Ladder(Ok, 0, 0) else Ladder(l.level, 0, l.oks + 1)
    else if l.level != Pause && l.fails + 1 >= c.failThreshold then
      Ladder(if l.level == Ok then Slow else Pause, 0, 0)
    else
      Ladder(l.level, l.fails + 1, 0)
  }

  function Advanced(c: HealthConfig, prev: HealthState, probe: ProbeResult, now: int): HealthState {
    var l := Climb(c, LadderOf(prev), probe.ok);
    HealthState(l.level, l.fails, l.oks, Some(now), Some(probe.latencyMs), probe.status, probe.error)
  }

  method AdvanceHealthState(c: HealthConfig, prev: HealthState, probe: ProbeResult, now: int)
    returns (next: HealthState)
    ensures next == Advanced(c, prev, probe, now)
  {
    next := prev.(lastCheckedAt := Some(now), lastLatencyMs := Some(probe.latencyMs),
                  lastStatus := probe.status, lastError := probe.error);
    if probe.ok {
      next := next.(consecutiveOk := prev.consecutiveOk + 1);
      next := next.(consecutiveFails := 0);
      if prev.level != Ok && next.consecutiveOk >= c.recoverThreshold {
        next := next.(level := Ok);
        next := next.(consecutiveOk := 0);
      }
      return;
    }
    next := next.(consecutiveFails := prev.consecutiveFails + 1);
    next := next.(consecutiveOk := 0);
    if prev.level == Ok && next.consecutiveFails >= c.failThreshold {
      next := next.(level := Slow);
      next := next.(consecutiveFails := 0);
    } else if prev.level == Slow && next.consecutiveFails >= c.failThreshold {
      next := next.(level := Pause);
      next := next.(consecutiveFails := 0);
    }
  }

  // ---------- probe histories ----------

  const BOTTOM := Ladder(Ok, 0, 0)

  /** The ladder after a history of probe outcomes, oldest first. */
  function After(c: HealthConfig, l: Ladder, history: seq<bool>): Ladder {
    if history == [] then l else
    Climb(c, After(c, l, history[..|history| - 1]), history[|history| - 1])
  }

  /** The counters of every ladder reached from the bottom. */
  predicate Settled(c: HealthConfig, l: Ladder) {
    && 0 <= l.fails && 0 <= l.oks
    && (l.level != Pause ==> l.fails < c.failThreshold)
    && (l.level != Ok ==> l.oks < c.recoverThreshold)
  }

  predicate AllAre(history: seq<bool>, ok: bool) {
    forall i :: 0 <= i < |history| ==> history[i] == ok
  }

  lemma {:induction false} HistoriesSettle(c: HealthConfig, l: Ladder, history: seq<bool>)
    requires ValidConfig(c) && Settled(c, l)
    ensures Settled(c, After(c, l, history))
  {
    if history != [] {
      HistoriesSettle(c, l, history[..|history| - 1]);
    }
  }

  /** Consecutive failures walk down the ladder: failThreshold to slow, twice that to pause. */
  lemma {:induction false} FailuresDescend(c: HealthConfig, l: Ladder, history: seq<bool>)
    requires ValidConfig(c) && Settled(c, l) && AllAre(history, false)
    ensures var T, n := c.failThreshold, |history|;
            var a := After(c, l, history);
            match l.level {
              case Ok =>
                if l.fails + n < T then a.level == Ok && a.fails == l.fails + n
                else if l.fails + n < 2 * T then a.level == Slow && a.fails == l.fails + n - T
                else a.level == Pause
              case Slow => if l.fails + n < T then a.level == Slow && a.fails == l.fails + n else a.level == Pause
              case Pause => a.level == Pause
            }
    ensures |history| >= 2 * c.failThreshold ==> After(c, l, history).level == Pause
  {
    if history != [] {
      FailuresDescend(c, l, history[..|history| - 1]);
    }
  }

  /** From any reachable rung, recoverThreshold consecutive successes restore ok, and it stays. */
  lemma {:induction false} SuccessesRecover(c: HealthConfig, l: Ladder, history: seq<bool>)
    requires ValidConfig(c) && Settled(c, l) && AllAre(history, true)
    ensures var a := After(c, l, history);
            if l.level == Ok || l.oks + |history| >= c.recoverThreshold then a.level == Ok
            else a.level == l.level && a.oks == l.oks + |history|
    ensures |history| >= c.recoverThreshold ==> After(c, l, history).level == Ok
  {
    if history != [] {
      SuccessesRecover(c, l, history[..|history| - 1]);
    }
  }

  /** The number of failures at the end of a history. */
  function Trailing(history: seq<bool>): nat {
    if history == [] || history[|history| - 1] then 0 else 1 + Trailing(history[..|history| - 1])
  }

  /** Nowhere in the history do failThreshold probes fail in a row. */
  predicate NoFailureRun(c: HealthConfig, history: seq<bool>) {
    forall k :: 0 <= k <= |history| ==> Trailing(history[..k]) < c.failThreshold
  }

  /** Without failThreshold consecutive failures the level never leaves ok. */
  lemma {:induction false} FewFailuresStayOk(c: HealthConfig, history: seq<bool>)
    requires ValidConfig(c) && NoFailureRun(c, history)
    ensures After(c, BOTTOM, history).level == Ok
    ensures After(c, BOTTOM, history).fails == Trailing(history)
  {
    assert history[..|history|] == history;
    if history != [] {
      var before := history[..|history| - 1];
      forall k | 0 <= k <= |before|
        ensures Trailing(before[..k]) < c.failThreshold
      {
        assert before[..k] == history[..k];
      }
      FewFailuresStayOk(c, before);
    }
  }

  lemma NothingYet(c: HealthConfig, history: seq<bool>)
    ensures AllAre([], false)
    ensures After(c, BOTTOM, history).fails > 0 ==> history != []
  {
  }

  lemma LastFailed(c: HealthConfig, before: seq<bool>, ok: bool)
    requires ValidConfig(c)
    requires var l := After(c, BOTTOM, before + [ok]); l.level == Slow && l.fails > 0
    ensures !ok && After(c, BOTTOM, before).level == Slow
    ensures After(c, BOTTOM, before + [ok]).fails == After(c, BOTTOM, before).fails + 1
  {
    assert (before + [ok])[..|before|] == before;
  }

  lemma FailureAppended(before: seq<bool>, start: nat)
    requires start <= |before| && AllAre(before[start..], false)
    ensures AllAre((before + [false])[start..], false)
  {
    assert (before + [false])[start..] == before[start..] + [false];
  }

  /** A slow ladder has failed exactly its last `fails` probes, and was slow before them. */
  lemma {:induction false} SlowSince(c: HealthConfig, history: seq<bool>)
    requires ValidConfig(c) && After(c, BOTTOM, history).level == Slow
    ensures var f := After(c, BOTTOM, history).fails;
            && 0 <= f <= |history|
            && AllAre(history[|history| - f..], false)
            && After(c, BOTTOM, history[..|history| - f]).level == Slow
  {
    NothingYet(c, history);
    HistoriesSettle(c, BOTTOM, history);
    hide After, AllAre;
    if After(c, BOTTOM, history).fails == 0 {
      assert history[..|history|] == history && history[|history|..] == [];
    } else {
      var n := |history| - 1;
      var before, ok := history[..n], history[n];
      assert history == before + [ok];
      LastFailed(c, before, ok);
      HistoriesSettle(c, BOTTOM, before);
      SlowSince(c, before);
      var f := After(c, BOTTOM, before).fails;
      FailureAppended(before, n - f);
      assert before[..n - f] == history[..n - f];
    }
  }

  lemma EntersPause(c: HealthConfig, history: seq<bool>, ok: bool)
    requires ValidConfig(c)
    requires After(c, BOTTOM, history).level != Pause
    requires After(c, BOTTOM, history + [ok]).level == Pause
    ensures var l := After(c, BOTTOM, history); !ok && l.level == Slow && l.fails == c.failThreshold - 1
  {
    assert (history + [ok])[..|history|] == history;
    assert After(c, BOTTOM, history + [ok]) == Climb(c, After(c, BOTTOM, history), ok);
    HistoriesSettle(c, BOTTOM, history);
    hide After;
  }

  /** Pause is entered only from slow, as the last of failThreshold straight failures of a slow ladder. */
  lemma PauseNeedsFailures(c: HealthConfig, history: seq<bool>, ok: bool)
    requires ValidConfig(c)
    requires After(c, BOTTOM, history).level != Pause
    requires After(c, BOTTOM, history + [ok]).level == Pause
    ensures var T := c.failThreshold;
            && !ok
            && After(c, BOTTOM, history).level == Slow
            && T - 1 <= |history|
            && AllAre(history[|history| - (T - 1)..], false)
            && After(c, BOTTOM, history[..|history| - (T - 1)]).level == Slow
  {
    EntersPause(c, history, ok);
    hide After, AllAre;
    SlowSince(c, history);
  }

  // ---------- the ladder without its counters ----------

  /** The last k probes had this outcome, and the level has been the same since before them. */
  predicate Streak(c: HealthConfig, history: seq<bool>, ok: bool, k: int) {
    && k <= |history|
    && forall i :: Max(0, |history| - k) <= i < |history| ==>
         history[i] == ok && After(c, BOTTOM, history[..i]).level == After(c, BOTTOM, history).level
  }

  lemma StreakGrows(c: HealthConfig, before: seq<bool>, b: bool, ok: bool, k: int)
    requires k >= 1
    ensures var history := before + [b];
            Streak(c, history, ok, k) <==>
            && b == ok && After(c, BOTTOM, before).level == After(c, BOTTOM, history).level
            && Streak(c, before, ok, k - 1)
  {
    var history, n := before + [b], |before|;
    assert history[..n] == before;
    forall i | 0 <= i < n
      ensures history[i] == before[i] && history[..i] == before[..i]
    {
    }
    hide After;
    if Streak(c, history, ok, k) {
      assert history[n] == ok && After(c, BOTTOM, history[..n]).level == After(c, BOTTOM, history).level;
      forall i | Max(0, n - (k - 1)) <= i < n
        ensures before[i] == ok && After(c, BOTTOM, before[..i]).level == After(c, BOTTOM, before).level
      {
        assert history[i] == ok && After(c, BOTTOM, history[..i]).level == After(c, BOTTOM, history).level;
      }
    }
  }

  /** One step of the counters. */
  lemma ClimbCounts(c: HealthConfig, l: Ladder, b: bool, k: int)
    requires ValidConfig(c) && Settled(c, l) && k >= 1
    ensures var m := Climb(c, l, b);
            && (m.level != Pause ==> (!b && l.level == m.level && k - 1 <= l.fails <==> k <= m.fails))
            && (m.level != Ok ==> (b && l.level == m.level && k - 1 <= l.oks <==> k <= m.oks))
  {
  }

  lemma EmptyStreak(c: HealthConfig, history: seq<bool>, ok: bool)
    ensures Streak(c, history, ok, 0)
    ensures forall k :: history == [] && k >= 1 ==> !Streak(c, history, ok, k)
  {
    hide After;
  }

  /** Below pause the failures counted are the streak of failures, above ok the successes that of successes. */
  lemma {:induction false} CountersAreStreaks(c: HealthConfig, history: seq<bool>, k: int)
    requires ValidConfig(c) && k >= 0
    ensures var l := After(c, BOTTOM, history);
            && (l.level != Pause ==> (Streak(c, history, false, k) <==> k <= l.fails))
            && (l.level != Ok ==> (Streak(c, history, true, k) <==> k <= l.oks))
    decreases |history|
  {
    HistoriesSettle(c, BOTTOM, history);
    EmptyStreak(c, history, false);
    EmptyStreak(c, history, true);
    if history == [] {
      assert After(c, BOTTOM, history) == BOTTOM;
    }
    hide After, Streak, Climb;
    if history != [] && k >= 1 {
      var n := |history| - 1;
      var before, b := history[..n], history[n];
      assert history == before + [b];
      AfterLast(c, before, b);
      HistoriesSettle(c, BOTTOM, before);
      ClimbCounts(c, After(c, BOTTOM, before), b, k);
      CountersAreStreaks(c, before, k - 1);
      StreakGrows(c, before, b, false, k);
      StreakGrows(c, before, b, true, k);
    }
  }

  lemma AfterLast(c: HealthConfig, before: seq<bool>, b: bool)
    ensures After(c, BOTTOM, before + [b]) == Climb(c, After(c, BOTTOM, before), b)
  {
    assert (before + [b])[..|before|] == before;
    hide Climb;
  }

  /**
   What a probe does, told without counters. The level rises to ok exactly with the last of recoverThreshold straight
   successes since it was entered, and falls by one exactly with the last of failThreshold straight failures since then;
   nothing else changes it.
   */
  lemma LevelFollowsStreaks(c: HealthConfig, history: seq<bool>, ok: bool)
    requires ValidConfig(c)
    ensures var level := After(c, BOTTOM, history).level;
            After(c, BOTTOM, history + [ok]).level ==
            if ok && level != Ok && Streak(c, history, true, c.recoverThreshold - 1) then Ok
            else if !ok && level == Ok && Streak(c, history, false, c.failThreshold - 1) then Slow
            else if !ok && level == Slow && Streak(c, history, false, c.failThreshold - 1) then Pause
            else level
  {
    hide After, Streak;
    AfterLast(c, history, ok);
    CountersAreStreaks(c, history, c.recoverThreshold - 1);
    CountersAreStreaks(c, history, c.failThreshold - 1);
  }

  /** So a level other than ok is left for ok if and only if recoverThreshold straight successes end with this probe. */
  lemma RecoversIffStraightSuccesses(c: HealthConfig, history: seq<bool>, ok: bool)
    requires ValidConfig(c) && After(c, BOTTOM, history).level != Ok
    ensures After(c, BOTTOM, history + [ok]).level == Ok <==> ok && Streak(c, history, true, c.recoverThreshold - 1)
  {
    LevelFollowsStreaks(c, history, ok);
    hide After, Streak;
  }

  /** Settings out of their range fall back one by one; the others are kept. */
  lemma FieldsFallBackAlone(raw: HealthConfig, urlUsable: bool)
    ensures var c := ParseHealthConfig(raw, urlUsable);
            && (c.enabled <==> raw.enabled && urlUsable) && c.overrideUntil == raw.overrideUntil
            && (15 <= raw.intervalSeconds <= 300 ==> c.intervalSeconds == raw.intervalSeconds)
            && (!(15 <= raw.intervalSeconds <= 300) ==> c.intervalSeconds == 30)
            && (1 <= raw.failThreshold <= 20 ==> c.failThreshold == raw.failThreshold)
            && (!(1 <= raw.failThreshold <= 20) ==> c.failThreshold == 2)
            && (1 <= raw.recoverThreshold <= 20 ==> c.recoverThreshold == raw.recoverThreshold)
            && (!(1 <= raw.recoverThreshold <= 20) ==> c.recoverThreshold == 2)
            && (0.01 <= raw.slowRateMultiplier <= 1.0 ==> c.slowRateMultiplier == raw.slowRateMultiplier)
            && (!(0.01 <= raw.slowRateMultiplier <= 1.0) ==> c.slowRateMultiplier == 0.25)
  {
  }
}
