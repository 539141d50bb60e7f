/**
 The admission budget along whole runs: visitors admitted by alarm ticks never outnumber the budget that the
 effective rate has granted, whatever requests and settings come between the ticks.
 */
module RoomBudget {
  import opened Wrappers
  import opened RoomState
  import opened RoomSteps
  import opened RoomRuns
  import opened Admission
  import opened RoomBounds
  import opened RoomLiveness

  /** The budget in visitors that an event adds: one second at the effective rate, for a tick. */
  function Granted(s: Room, e: Event): real {
    if e.AlarmFinishEvent? && ConfigOf(s, e).Some? then
      var rate := EffectiveRate(s.meta, ConfigOf(s, e).value, WorkTime(s, e));
      if rate > 0.0 then rate else 0.0
    else 0.0
  }

  /** The visitors that a tick admits. */
  function Spent(e: Event): nat {
    if e.AlarmFinishEvent? then |e.picks| else 0
  }

  ghost function GrantedIn(s: Room, clock: int, es: seq<Event>): real
    requires Legal(s, clock, es)
    decreases |es|
  {
    if es == [] then 0.0 else Granted(s, es[0]) + GrantedIn(Step(s, es[0]), es[0].now, es[1..])
  }

  function SpentIn(es: seq<Event>): nat {
    if es == [] then 0 else Spent(es[0]) + SpentIn(es[1..])
  }

  lemma TickSpends(s: Room, e: Event)
    requires TableOk(s) && Enabled(s, e) && e.AlarmFinishEvent? && 0.0 <= s.meta.admitRemainder < 1.0
    ensures Spent(e) as real + Step(s, e).meta.admitRemainder <= s.meta.admitRemainder + Granted(s, e)
  {
    var h := s.handler.value;
    if h.config.Some? {
      var config := h.config.value;
      var limit := BudgetLimit(s, config, h.now);
      if e.picks != [] {
        SelectionTakesWaiters(s.rows, s.meta.nextSequence, ModeOf(s.meta, config), limit, e.picks);
      }
      assert |e.picks| <= Max(0, TickBudget(s, config, h.now).admitCount);
      assert 1000 as real / 1000.0 == 1.0;
      hide TableOk, EffectiveRate, Slots;
    }
  }

  lemma BackgroundKeepsRemainder(s: Room, e: Event)
    requires Enabled(s, e) && !IsRequest(e) && !e.TrafficEvent? && !e.AlarmFinishEvent?
    ensures Step(s, e).meta.admitRemainder == s.meta.admitRemainder
  {
    hide CanAdmit, HasQueueWork, AlarmInterval, Earliest;
  }

  lemma OthersKeepRemainder(s: Room, e: Event)
    requires TableOk(s) && Awake(s) && Enabled(s, e) && !e.AlarmFinishEvent?
    ensures Step(s, e).meta.admitRemainder == s.meta.admitRemainder
  {
    if IsRequest(e) || e.TrafficEvent? {
      hide Step, Enabled, TableOk, Awake;
      RequestWakes(s, e);
    } else {
      BackgroundKeepsRemainder(s, e);
    }
  }

  /**
   Budget that cannot be used is dropped, and none is made up: over every run the visitors admitted by ticks
   and the remainder at the end are covered by the remainder at the start and the rates of the ticks. So n
   consecutive ticks admit fewer than 1 + the sum of their rates.
   */
  lemma {:induction false} RunSpendsItsBudget(s: Room, clock: int, es: seq<Event>)
    requires Inv(s, clock) && Legal(s, clock, es)
    ensures SpentIn(es) as real + Run(s, clock, es).meta.admitRemainder <= s.meta.admitRemainder + GrantedIn(s, clock, es)
    ensures SpentIn(es) as real < 1.0 + GrantedIn(s, clock, es)
    decreases |es|
  {
    if es != [] {
      var e := es[0];
      StepKeepsInv(s, clock, e);
      if e.AlarmFinishEvent? {
        TickSpends(s, e);
      } else {
        OthersKeepRemainder(s, e);
      }
      RunSpendsItsBudget(Step(s, e), e.now, es[1..]);
      RunKeepsInv(s, clock, es);
      hide Step, Enabled, Granted;
    }
  }
}
