/**
 Revoking tokens (src/durable-object/queue-room.ts, src/auth/token.ts, src/auth/access-gate.ts): every token carries the
 epoch of the room it was issued by, and raising the epoch revokes them all.
 */
module TokenRevocation {
  import opened Wrappers
  import opened RoomState
  import opened RoomSteps
  import opened RoomRuns
  import opened RoomSettings
  import opened Visitors
  import opened RoomBounds
  import opened CallOutcomes
  import opened Tokens

  predicate IsBump(e: Event) {
    e.OperateEvent? && e.change.BumpTokenEpoch?
  }

  function Bumps(es: seq<Event>): nat {
    if es == [] then 0 else (if IsBump(es[0]) then 1 else 0) + Bumps(es[1..])
  }

  lemma StepCountsBump(s: Room, e: Event)
    requires Enabled(s, e)
    ensures Step(s, e).meta.tokenEpoch == s.meta.tokenEpoch + if IsBump(e) then 1 else 0
  {
    hide Step, Enabled;
    if e.OperateEvent? {
      OperateStep(s, e);
      OperateKeepsMeta(s, e.change, e.now);
    } else if IsRequest(e) {
      RequestKeepsSettings(s, e);
    } else {
      OtherKeepsSettings(s, e);
    }
    hide Operate;
  }

  lemma OperateStep(s: Room, e: Event)
    requires Enabled(s, e) && e.OperateEvent?
    ensures Step(s, e) == Operate(s, e.change, e.now)
  {
    hide Operate;
  }

  /** The epoch of a room counts the revocations. */
  lemma {:induction false} EpochCountsBumps(s: Room, clock: int, es: seq<Event>)
    requires Legal(s, clock, es)
    ensures Run(s, clock, es).meta.tokenEpoch == s.meta.tokenEpoch + Bumps(es)
    decreases |es|
  {
    hide Step, Enabled;
    if es != [] {
      StepCountsBump(s, es[0]);
      EpochCountsBumps(Step(s, es[0]), es[0].now, es[1..]);
    }
  }

  /** All tokens that an event is answered with: `/join` issues some too, dated from the request. */
  function IssuedByAny(s: Room, e: Event, queue: string): set<Claims> {
    Issued(s, e, queue) +
    if e.JoinEvent? then
      var r := Join(s, e.config, e.id, e.now).1;
      if r.Joined? && CanIssueAccessToken(r.view)
      then {JoinToken(r.view, queue, e.config.tokenTTLSeconds, s.meta.tokenEpoch, e.now)} else {}
    else {}
  }

  /**
   Who is issued a token: by `/status` exactly a visitor that is here, admitted and entered, by `/enter` exactly one that is
   here and admitted; for the visitor itself, and for the token's lifetime from its admission.
   */
  lemma TokensAreIssued(s: Room, e: Event, queue: string)
    requires TableOk(s) && (e.StatusEvent? || e.EnterEvent?)
    ensures var here := IsHere(s, e.config, e.now, e.EnterEvent?, e.id);
            IssuedByAny(s, e, queue) != {}
            <==> here && Get(s.rows, e.id).status == Admitted && (e.EnterEvent? || Get(s.rows, e.id).entered)
    ensures forall c :: c in IssuedByAny(s, e, queue) ==>
              var at := Get(s.rows, e.id).admittedAt;
              c.sub == e.id && (at.Some? && at.value > 0 ==> c.exp == at.value / 1000 + e.config.tokenTTLSeconds)
  {
    var b := Begin(s, e.config, e.now, e.EnterEvent?);
    HereAfterSweep(s, e.config, e.now, e.EnterEvent?, e.id);
    AdmittedViews(b, e.config, e.id, e.now);
    IssuedFrom(s, e, queue, b);
    hide Begin, IsHere, TableOk, StatusAfterSweep, EnterAfterSweep, IssuedByAny;
  }

  /** Which of the two answers show an admitted visitor, and what they show of it. */
  lemma AdmittedViews(b: Room, config: QueueConfig, id: string, now: int)
    ensures var r := StatusAfterSweep(b, config, id, now).1;
            && (r.Seen? && r.view.status == Admitted && r.view.entered <==>
                  Has(b.rows, id) && Get(b.rows, id).status == Admitted && Get(b.rows, id).entered)
            && (r.Seen? && r.view.status == Admitted ==>
                  Has(b.rows, id) && r.view.id == id && r.view.admittedAt == Get(b.rows, id).admittedAt)
    ensures var r := EnterAfterSweep(b, config, id, now).1;
            && (r.Entered? <==> Has(b.rows, id) && Get(b.rows, id).status == Admitted)
            && (r.Entered? ==> r.view.id == id && r.view.admittedAt == Get(b.rows, id).admittedAt)
  {
    hide Where, AssignCheckIn, RenewalEstimate, LinePosition, EnsureAlarm, NeedsRepair;
  }

  lemma IssuedFrom(s: Room, e: Event, queue: string, b: Room)
    requires (e.StatusEvent? || e.EnterEvent?) && b == Begin(s, e.config, e.now, e.EnterEvent?)
    ensures var status, enter := StatusAfterSweep(b, e.config, e.id, e.now).1, EnterAfterSweep(b, e.config, e.id, e.now).1;
            IssuedByAny(s, e, queue) ==
            if e.StatusEvent? && status.Seen? && status.view.status == Admitted && status.view.entered
            then {SlotToken(status.view, queue, e.config.tokenTTLSeconds, s.meta.tokenEpoch, e.now)}
            else if e.EnterEvent? && enter.Entered?
            then {SlotToken(enter.view, queue, e.config.tokenTTLSeconds, s.meta.tokenEpoch, e.now)}
            else {}
  {
    hide Begin, StatusAfterSweep, EnterAfterSweep;
  }

  lemma IssuedWithEpoch(s: Room, e: Event, queue: string, c: Claims)
    requires c in IssuedByAny(s, e, queue)
    ensures c.epoch == Some(s.meta.tokenEpoch) && c.queue == queue && !IsBump(e)
  {
    hide Join, CheckStatus, Enter;
  }

  /** The run after the event that issues. */
  lemma {:induction false} RunSplits(s: Room, clock: int, before: seq<Event>, after: seq<Event>)
    requires Legal(s, clock, before + after)
    ensures Legal(s, clock, before)
    ensures Legal(Run(s, clock, before), ClockAfter(clock, before), after)
    ensures Run(s, clock, before + after) == Run(Run(s, clock, before), ClockAfter(clock, before), after)
    decreases |before|
  {
    hide Step, Enabled;
    if before == [] {
      assert before + after == after;
    } else {
      assert (before + after)[0] == before[0] && (before + after)[1..] == before[1..] + after;
      RunSplits(Step(s, before[0]), before[0].now, before[1..], after);
    }
  }

  /**
   Revocation: whatever token was issued anywhere along a run, the room at the end of the run refuses it as revoked if
   it has not expired before and its epoch has been raised since, and refuses it never for its epoch if it has not.
   */
  lemma RevokedIffBumped(s: Room, clock: int, before: seq<Event>, e: Event, after: seq<Event>, queue: string, c: Claims,
                         nowSeconds: int)
    requires Legal(s, clock, before + [e] + after)
    requires Legal(s, clock, before) && c in IssuedByAny(Run(s, clock, before), e, queue)
    ensures var room := Run(s, clock, before + [e] + after);
            var verdict := VerifyClaims(c, nowSeconds, Some(queue), Some(room.meta.tokenEpoch));
            && (verdict == Revoked <==> c.exp > nowSeconds && Bumps(after) > 0)
            && (verdict == Valid(c) <==> c.exp > nowSeconds && Bumps(after) == 0)
  {
    hide Step, Enabled, IssuedByAny, Legal, Run;
    assert before + [e] + after == before + ([e] + after);
    RunSplits(s, clock, before, [e] + after);
    var t := Run(s, clock, before);
    IssuedWithEpoch(t, e, queue, c);
    EpochCountsBumps(t, ClockAfter(clock, before), [e] + after);
    assert ([e] + after)[1..] == after;
    assert Bumps([e] + after) == Bumps(after);
  }
}
