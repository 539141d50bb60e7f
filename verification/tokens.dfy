/**
 Admission tokens and the slots they stand for (src/auth/token.ts, src/routes/queue.ts). Signing is not
 modelled: a token is its claims.
 */
module Tokens {
  import opened Wrappers
  import opened Visitors
  import opened RoomState
  import opened RoomSteps
  import opened RoomRuns
  import opened TableMoves
  import opened RoomBounds
  import opened RoomLiveness
  import opened RowKeeping
  import opened AdmissionTimes

  datatype Claims = Claims(sub: string, queue: string, exp: int, iat: int, epoch: Option<nat>)

  datatype Verdict = Valid(claims: Claims) | ExpiredToken | QueueMismatch | Revoked

  function BuildAdmissionClaims(visitorId: string, queue: string, tokenTTLSeconds: nat, epoch: nat, nowMs: int): Claims {
    var nowSeconds := nowMs / 1000;
    Claims(visitorId, queue, nowSeconds + tokenTTLSeconds, nowSeconds, Some(epoch))
  }

  /** The claim checks of a token with a good signature; an empty expected queue is not checked. */
  function VerifyClaims(c: Claims, nowSeconds: int, expectedQueue: Option<string>, expectedEpoch: Option<nat>): Verdict {
    if c.exp <= nowSeconds then ExpiredToken
    else if expectedQueue.Some? && expectedQueue.value != "" && c.queue != expectedQueue.value then QueueMismatch
    else if expectedEpoch.Some? && c.epoch.GetOr(0) != expectedEpoch.value then Revoked
    else Valid(c)
  }

  predicate CanIssueAccessToken(v: View) {
    v.status == Admitted && v.entered
  }

  /** `/status` and `/enter` date the token from the admission; an admission time of zero counts as absent. */
  function SlotToken(v: View, queue: string, tokenTTLSeconds: nat, epoch: nat, now: int): Claims {
    var mintedAt := if v.admittedAt.Some? && v.admittedAt.value != 0 then v.admittedAt.value else now;
    BuildAdmissionClaims(v.id, queue, tokenTTLSeconds, epoch, mintedAt)
  }

  /** `/join` dates the token from the request. */
  function JoinToken(v: View, queue: string, tokenTTLSeconds: nat, epoch: nat, now: int): Claims {
    BuildAdmissionClaims(v.id, queue, tokenTTLSeconds, epoch, now)
  }

  predicate IsUnexpired(c: Claims, at: int) {
    c.exp > at / 1000
  }

  /** A sweep at this time takes the slot of an entered visitor. */
  predicate SlotTaken(admittedAt: int, tokenTTLSeconds: nat, at: int) {
    admittedAt <= at - tokenTTLSeconds * 1000
  }

  // ---------- one token ----------

  /** A token outlives no slot exactly when its minting second began no later than the admission. */
  lemma NeverOutlives(visitorId: string, queue: string, ttl: nat, epoch: nat, mintedAt: int, admittedAt: int)
    ensures (forall at :: IsUnexpired(BuildAdmissionClaims(visitorId, queue, ttl, epoch, mintedAt), at) ==>
                            !SlotTaken(admittedAt, ttl, at))
            <==> mintedAt / 1000 * 1000 <= admittedAt
  {
    var c := BuildAdmissionClaims(visitorId, queue, ttl, epoch, mintedAt);
    if mintedAt / 1000 * 1000 > admittedAt {
      var last := (mintedAt / 1000 + ttl) * 1000 - 1;
      assert last / 1000 == mintedAt / 1000 + ttl - 1;
      assert IsUnexpired(c, last) && SlotTaken(admittedAt, ttl, last);
    } else {
      forall at | IsUnexpired(c, at)
        ensures !SlotTaken(admittedAt, ttl, at)
      {
        assert at < (at / 1000 + 1) * 1000 <= (mintedAt / 1000 + ttl) * 1000;
      }
    }
  }

  /** A token from `/status` or `/enter` that verifies proves that no sweep so far could take the slot. */
  lemma SlotTokenWithinSlot(v: View, queue: string, ttl: nat, epoch: nat, now: int, at: int,
                            expectedQueue: Option<string>, expectedEpoch: Option<nat>)
    requires v.admittedAt.Some? && v.admittedAt.value > 0
    requires VerifyClaims(SlotToken(v, queue, ttl, epoch, now), at / 1000, expectedQueue, expectedEpoch).Valid?
    ensures forall t :: t <= at ==> !SlotTaken(v.admittedAt.value, ttl, t)
    ensures expectedEpoch.Some? ==> expectedEpoch.value == epoch
    ensures expectedQueue.Some? && expectedQueue.value != "" ==> expectedQueue.value == queue
  {
    NeverOutlives(v.id, queue, ttl, epoch, v.admittedAt.value, v.admittedAt.value);
    assert IsUnexpired(SlotToken(v, queue, ttl, epoch, now), at);
  }

  /** A token from `/status` or `/enter` lasts until the second in which the slot could be taken. */
  lemma SlotTokenLasts(v: View, queue: string, ttl: nat, epoch: nat, now: int, at: int)
    requires v.admittedAt.Some? && v.admittedAt.value > 0
    ensures IsUnexpired(SlotToken(v, queue, ttl, epoch, now), at) <==> at < (v.admittedAt.value / 1000 + ttl) * 1000
    ensures var until := (v.admittedAt.value / 1000 + ttl) * 1000;
            v.admittedAt.value + 1000 * ttl - 1000 < until <= v.admittedAt.value + 1000 * ttl
  {
  }

  /**
   A token from `/join` is dated from the request. When an admitted visitor joins again in a later second
   than its admission, the token is still valid at an instant at which the slot is taken.
   */
  lemma RejoinTokenOutlivesSlot(v: View, queue: string, ttl: nat, epoch: nat, now: int)
    requires CanIssueAccessToken(v) && v.admittedAt.Some?
    ensures (exists at :: IsUnexpired(JoinToken(v, queue, ttl, epoch, now), at) && SlotTaken(v.admittedAt.value, ttl, at))
            <==> now / 1000 * 1000 > v.admittedAt.value
    ensures v.admittedAt == Some(20000) && ttl == 600 && now == 300000 ==>
              IsUnexpired(JoinToken(v, queue, ttl, epoch, now), 700000) && SlotTaken(20000, 600, 700000)
  {
    NeverOutlives(v.id, queue, ttl, epoch, now, v.admittedAt.value);
  }

  // ---------- slots over runs ----------

  /** The visitor has entered, and its slot is not due to be taken before `at`. */
  predicate Holds(rows: seq<Row>, id: string, ttl: nat, at: int) {
    && Has(rows, id)
    && Get(rows, id).status == Admitted && Get(rows, id).entered
    && Get(rows, id).admittedAt.Some? && !SlotTaken(Get(rows, id).admittedAt.value, ttl, at)
  }

  predicate LeavesIn(e: Event, id: string) {
    e.LeaveEvent? && e.id == id
  }

  /** Every configuration the event's sweep may use has this token lifetime. */
  predicate TtlIs(s: Room, e: Event, ttl: nat) {
    ConfigOf(s, e).Some? ==> ConfigOf(s, e).value.tokenTTLSeconds == ttl
  }

  lemma HolderIsSpared(s: Room, config: QueueConfig, now: int, id: string, ttl: nat, at: int)
    requires Holds(s.rows, id, ttl, at) && config.tokenTTLSeconds == ttl && now <= at
    ensures Spared(s, config, now, id)
  {
  }

  /** A request of somebody else leaves the row of an entered visitor alone. */
  lemma RequestKeepsHolder(s: Room, e: Event, id: string)
    requires TableOk(s) && Enabled(s, e) && !LeavesIn(e, id)
    requires IsRequest(e) && IsPresent(s, id) && Get(s.rows, id).status == Admitted && Get(s.rows, id).entered
    requires Spared(s, e.config, e.now, id)
    ensures Kept(s.rows, Step(s, e).rows, id)
  {
    hide Where, TableOk, Spared, CanAdmit, Join, CheckStatus, Heartbeat, Enter, Leave, ForceAdmit, Begin, LeavePicks,
      ForcePicks;
    match e
    case JoinEvent(other, config, now) => JoinSpares(s, config, other, now, id);
    case StatusEvent(other, config, now) => CheckInSpares(s, config, other, now, id);
    case HeartbeatEvent(other, config, now) => CheckInSpares(s, config, other, now, id);
    case EnterEvent(other, config, now) => EnterSpares(s, config, other, now, id);
    case LeaveEvent(other, config, now, picks) => LeaveSpares(s, config, other, now, picks, id);
    case ForceAdmitEvent(count, config, now, picks) => ForceAdmitSpares(s, config, count, now, picks, id);
    case MetricsEvent(config, now) => BeginKeeps(s, config, now, false, id);
  }

  /** So does a stage of the alarm handler. */
  lemma AlarmKeepsHolder(s: Room, e: Event, id: string)
    requires TableOk(s) && Enabled(s, e)
    requires IsAlarmWork(e) && IsPresent(s, id) && Get(s.rows, id).status == Admitted
    requires e.AlarmSweepEvent? && s.meta.config.Some? ==> Spared(s, s.meta.config.value, s.handler.value.now, id)
    ensures Kept(s.rows, Step(s, e).rows, id)
  {
    hide Where, TableOk, Spared, AlarmSweep, AlarmFinish, FinishPicks;
    if e.AlarmSweepEvent? {
      AlarmSweepSpares(s, id);
    } else {
      FinishKeeps(s, e.now, e.picks, id);
    }
  }

  /** Nothing but its own leave ends the slot of an entered visitor before its time. */
  lemma StepKeepsHolder(s: Room, e: Event, id: string, ttl: nat, at: int)
    requires TableOk(s) && Enabled(s, e) && Holds(s.rows, id, ttl, at)
    requires WorkTime(s, e) <= at && TtlIs(s, e, ttl) && !LeavesIn(e, id)
    ensures Kept(s.rows, Step(s, e).rows, id)
  {
    if ConfigOf(s, e).Some? {
      HolderIsSpared(s, ConfigOf(s, e).value, WorkTime(s, e), id, ttl, at);
    }
    hide Step, Enabled, Spared, TtlIs;
    if IsRequest(e) {
      RequestKeepsHolder(s, e, id);
    } else if IsAlarmWork(e) {
      AlarmKeepsHolder(s, e, id);
    } else {
      OthersKeepTheTable(s, e);
    }
  }

  ghost predicate TtlFixed(s: Room, clock: int, es: seq<Event>, ttl: nat)
    requires Legal(s, clock, es)
    decreases |es|
  {
    es == [] || (TtlIs(s, es[0], ttl) && TtlFixed(Step(s, es[0]), es[0].now, es[1..], ttl))
  }

  // ---------- the tokens issued along a run ----------

  /** What an event of the visitor shows it, if `/status` or `/enter` answers it with a view. */
  function ShownBy(s: Room, e: Event): Option<View> {
    match e
    case StatusEvent(id, config, now) =>
      var r := CheckStatus(s, config, id, now).1;
      if r.Seen? then Some(r.view) else None
    case EnterEvent(id, config, now) =>
      var r := Enter(s, config, id, now).1;
      if r.Entered? then Some(r.view) else None
    case _ => None
  }

  /** The token that the route issues: `/status` asks whether it may, `/enter` always does after entering. */
  function Issued(s: Room, e: Event, queue: string): set<Claims> {
    var v := ShownBy(s, e);
    if v.Some? && (e.EnterEvent? || CanIssueAccessToken(v.value))
    then {SlotToken(v.value, queue, e.config.tokenTTLSeconds, s.meta.tokenEpoch, e.now)}
    else {}
  }

  /** A row for which a token may be issued holds its slot as long as the token is unexpired. */
  lemma TokenProvesSlot(rows: seq<Row>, n: nat, m: Meta, config: QueueConfig, id: string, queue: string, ttl: nat,
                        epoch: nat, now: int, at: int)
    requires TableInv(rows, n) && Dated(rows) && Has(rows, id)
    requires CanIssueAccessToken(ViewOf(rows, m, config, Get(rows, id)))
    ensures var c := SlotToken(ViewOf(rows, m, config, Get(rows, id)), queue, ttl, epoch, now);
            c.sub == id && (IsUnexpired(c, at) ==> Holds(rows, id, ttl, at))
  {
    var r, k := Get(rows, id), IndexOf(rows, id);
    assert WellFormed(rows[k]);
    NeverOutlives(id, queue, ttl, epoch, r.admittedAt.value, r.admittedAt.value);
    hide Where, LinePosition, PositionIn;
  }

  lemma StatusShowsTheRow(s: Room, e: Event)
    requires TableOk(s) && e.StatusEvent? && ShownBy(s, e).Some? && CanIssueAccessToken(ShownBy(s, e).value)
    ensures var t := CheckStatus(s, e.config, e.id, e.now).0;
            Has(t.rows, e.id) && ShownBy(s, e).value == ViewOf(t.rows, t.meta, e.config, Get(t.rows, e.id))
  {
    hide Begin, TableOk, CheckedIn;
    var b := Begin(s, e.config, e.now, false);
    if IsWaiting(b.rows, e.id) {
      var r := CheckedIn(b, e.config, Get(b.rows, e.id), e.now);
      CheckedInStatus(b, e.config, Get(b.rows, e.id), e.now);
    }
  }

  lemma CheckedInStatus(s: Room, config: QueueConfig, r: Row, now: int)
    ensures CheckedIn(s, config, r, now).status == r.status
  {
    hide AssignCheckIn, RenewalEstimate, LinePosition;
  }

  lemma EnterShowsTheRow(s: Room, e: Event)
    requires TableOk(s) && e.EnterEvent? && ShownBy(s, e).Some?
    ensures var t := Enter(s, e.config, e.id, e.now).0;
            && Has(t.rows, e.id) && ShownBy(s, e).value == ViewOf(t.rows, t.meta, e.config, Get(t.rows, e.id))
            && CanIssueAccessToken(ShownBy(s, e).value)
  {
    hide Begin, TableOk, Where, HasQueueWork, AlarmInterval, Earliest;
    var b := Begin(s, e.config, e.now, true);
    var k := IndexOf(b.rows, e.id);
    var r := b.rows[k].(entered := true);
    UpdateKeepsIndex(b.rows, k, r, e.id);
  }

  /** Whoever is issued a token that is unexpired at `at` holds a slot until then. */
  lemma IssuedProvesSlot(s: Room, e: Event, queue: string, ttl: nat, at: int, c: Claims)
    requires TableOk(s) && Enabled(s, e) && TableOk(Step(s, e)) && Dated(Step(s, e).rows) && TtlIs(s, e, ttl)
    requires c in Issued(s, e, queue) && IsUnexpired(c, at)
    ensures Holds(Step(s, e).rows, c.sub, ttl, at) && !LeavesIn(e, c.sub)
  {
    var t := Step(s, e);
    hide ViewOf, CheckStatus, Enter, Dated, Holds;
    if e.StatusEvent? {
      StatusShowsTheRow(s, e);
    } else {
      EnterShowsTheRow(s, e);
    }
    TokenProvesSlot(t.rows, t.meta.nextSequence, t.meta, e.config, e.id, queue, ttl, s.meta.tokenEpoch, e.now, at);
  }

  function Remaining(tokens: set<Claims>, e: Event): set<Claims> {
    set c | c in tokens && !LeavesIn(e, c.sub)
  }

  /** The tokens issued along a run, beside some issued before, whose visitors have not left since. */
  ghost function TokensOut(s: Room, clock: int, es: seq<Event>, queue: string, before: set<Claims>): set<Claims>
    requires Legal(s, clock, es)
    decreases |es|
  {
    if es == [] then before
    else
      TokensOut(Step(s, es[0]), es[0].now, es[1..], queue,
                Remaining(before + Issued(s, es[0], queue), es[0]))
  }

  /** The visitors with a token that is unexpired at `at`. */
  function LiveHolders(tokens: set<Claims>, at: int): set<string> {
    set c | c in tokens && IsUnexpired(c, at) :: c.sub
  }

  lemma {:induction false} LegalClock(s: Room, clock: int, es: seq<Event>)
    requires Legal(s, clock, es)
    ensures clock <= ClockAfter(clock, es)
    decreases |es|
  {
    if es != [] {
      LegalClock(Step(s, es[0]), es[0].now, es[1..]);
      assert es[1..] != [] ==> es[1..][|es| - 2] == es[|es| - 1];
    }
  }

  ghost predicate TokensHold(s: Room, tokens: set<Claims>, ttl: nat, at: int) {
    forall c :: c in tokens && IsUnexpired(c, at) ==> Holds(s.rows, c.sub, ttl, at)
  }

  lemma StepTokensHold(s: Room, e: Event, queue: string, ttl: nat, at: int, before: set<Claims>)
    requires TableOk(s) && Enabled(s, e) && DatesOk(s) && e.now > 0 && TtlIs(s, e, ttl)
    requires WorkTime(s, e) <= at && TokensHold(s, before, ttl, at)
    ensures TokensHold(Step(s, e), Remaining(before + Issued(s, e, queue), e), ttl, at)
  {
    StepMoves(s, e);
    StepKeepsDates(s, e);
    var t, after := Step(s, e), Remaining(before + Issued(s, e, queue), e);
    assert TableOk(t) && Dated(t.rows);
    hide TableOk, Step, Enabled, Issued, DatesOk, Dated, WorkTime, TtlIs;
    forall c | c in after && IsUnexpired(c, at)
      ensures Holds(t.rows, c.sub, ttl, at)
    {
      if c in before {
        StepKeepsHolder(s, e, c.sub, ttl, at);
      } else {
        IssuedProvesSlot(s, e, queue, ttl, at, c);
      }
    }
  }

  /** Whoever holds a live token at the end of the run is still admitted there. */
  lemma {:induction false} LiveTokensAreAdmitted(s: Room, clock: int, es: seq<Event>, queue: string, ttl: nat, at: int,
                                                 before: set<Claims>)
    requires Inv(s, clock) && clock > 0 && DatesOk(s) && Legal(s, clock, es) && TtlFixed(s, clock, es, ttl)
    requires ClockAfter(clock, es) <= at && TokensHold(s, before, ttl, at)
    ensures TokensHold(Run(s, clock, es), TokensOut(s, clock, es, queue, before), ttl, at)
    decreases |es|
  {
    hide TableOk, Enabled, Step, Issued, DatesOk, TtlIs, TokensHold, Holds;
    if es != [] {
      var e, t := es[0], Step(s, es[0]);
      StepKeepsInv(s, clock, e);
      StepKeepsDates(s, e);
      LegalClock(t, e.now, es[1..]);
      assert es[1..] != [] ==> es[1..][|es| - 2] == es[|es| - 1];
      WorkTimeIsPast(s, clock, e);
      StepTokensHold(s, e, queue, ttl, at, before);
      LiveTokensAreAdmitted(t, e.now, es[1..], queue, ttl, at,
                            Remaining(before + Issued(s, e, queue), e));
    }
  }

  lemma WorkTimeIsPast(s: Room, clock: int, e: Event)
    requires Inv(s, clock) && clock <= e.now
    ensures WorkTime(s, e) <= e.now && TableOk(s)
  {
  }

  lemma {:induction false} IdsBoundedByCount(rows: seq<Row>, ids: set<string>)
    requires forall id :: id in ids ==> exists r :: r in rows && r.id == id && r.status == Admitted
    ensures |ids| <= Count(rows, Admitted)
  {
    if rows == [] {
      assert ids == {};
    } else {
      var rest, first := rows[1..], rows[0];
      var others := ids - (if first.status == Admitted then {first.id} else {});
      forall id | id in others
        ensures exists r :: r in rest && r.id == id && r.status == Admitted
      {
        var r :| r in rows && r.id == id && r.status == Admitted;
        assert r == first || r in rest;
      }
      IdsBoundedByCount(rest, others);
    }
  }

  /**
   With a fixed capacity and token lifetime, the visitors who have been issued a token by `/status` or `/enter`
   that is unexpired, and who have not left since, never outnumber the capacity.
   */
  lemma LiveTokensFitCapacity(s: Room, clock: int, es: seq<Event>, queue: string, ttl: nat, at: int, capacity: nat)
    requires Inv(s, clock) && clock > 0 && DatesOk(s) && Legal(s, clock, es) && ClockAfter(clock, es) <= at
    requires TtlFixed(s, clock, es, ttl) && CapacityFixed(s, clock, es, capacity)
    requires Count(s.rows, Admitted) <= capacity
    ensures |LiveHolders(TokensOut(s, clock, es, queue, {}), at)| <= capacity
  {
    var tokens, t := TokensOut(s, clock, es, queue, {}), Run(s, clock, es);
    LiveTokensAreAdmitted(s, clock, es, queue, ttl, at, {});
    CapacityHolds(s, clock, es, capacity);
    hide Run, TokensOut, Legal, TtlFixed, CapacityFixed, Inv;
    forall id | id in LiveHolders(tokens, at)
      ensures exists r :: r in t.rows && r.id == id && r.status == Admitted
    {
      assert Get(t.rows, id) in t.rows;
    }
    IdsBoundedByCount(t.rows, LiveHolders(tokens, at));
  }
}
