/**
 One run of a room, from the empty one, in which ten webhooks come due together and every POST times out: the tenth is
 settled 50 seconds after its handler started, its next attempt is dated 35 seconds back, and the next handler takes it
 up at once instead of 15 seconds later.
 */
module SlowBatch {
  import opened Wrappers
  import opened WebhookOutbox
  import opened RoomState
  import opened RoomSteps
  import opened RoomRuns

  /** Row i + 1 of the ten, of which the first k have been POSTed. */
  function Row(i: nat, k: nat): Delivery {
    if i < k then Delivery(i + 1, 2, 20000, 0, true) else Delivery(i + 1, 1, 5000, 0, true)
  }

  function Rows(n: nat, k: nat): (rows: seq<Delivery>)
    ensures |rows| == n && forall i :: 0 <= i < n ==> rows[i] == Row(i, k)
  {
    seq(n, i requires 0 <= i < n => Row(i, k))
  }

  function Posts(k: nat): (log: seq<Post>)
    ensures |log| == k && forall i :: 0 <= i < k ==> log[i] == Post(i + 1, 5000 + (i + 1) * POST_TIMEOUT_MS, 5000)
  {
    seq(k, i requires 0 <= i < k => Post(i + 1, 5000 + (i + 1) * POST_TIMEOUT_MS, 5000))
  }

  function QueuedRoom(n: nat): Room {
    EMPTY_ROOM.(outbox := Outbox(Rows(n, 0), n + 1, []), alarm := if n == 0 then None else Some(5000))
  }

  /** The handler after k of the ten have timed out. */
  function SlowRoom(k: nat): Room
    requires k <= 10
  {
    EMPTY_ROOM.(
      outbox := Outbox(Rows(10, k), 11, Posts(k)),
      handler := Some(Handler(5000, Rows(10, 0)[k..], None, Stage.Posting, k, 5000 + k * POST_TIMEOUT_MS)))
  }

  function Queueing(n: nat): seq<Event> {
    if n == 0 then [] else Queueing(n - 1) + [EnqueueEvent(0)]
  }

  function Posting(k: nat): seq<Event> {
    if k == 0 then Queueing(10) + [AlarmFireEvent(5000)]
    else Posting(k - 1) + [AlarmPostEvent(Failed, 5000 + k * POST_TIMEOUT_MS)]
  }

  lemma {:induction false} EarliestOfEqual(rows: seq<Delivery>, t: int)
    requires rows != [] && forall i :: 0 <= i < |rows| ==> rows[i].nextAttemptAt == t
    ensures Earliest(rows) == Some(t)
  {
    if |rows| > 1 {
      EarliestOfEqual(rows[1..], t);
    }
  }

  lemma {:induction false} AllDue(rows: seq<Delivery>, now: int, limit: nat)
    requires |rows| <= limit && forall i :: 0 <= i < |rows| ==> rows[i].nextAttemptAt <= now
    ensures Due(rows, now, limit) == rows
  {
    if rows != [] {
      AllDue(rows[1..], now, limit - 1);
      assert rows == [rows[0]] + rows[1..];
    }
  }

  lemma EnqueueOne(n: nat)
    ensures Enabled(QueuedRoom(n), EnqueueEvent(0)) && Step(QueuedRoom(n), EnqueueEvent(0)) == QueuedRoom(n + 1)
  {
    EarliestOfEqual(Rows(n + 1, 0), 5000);
    assert Enqueue(QueuedRoom(n).outbox, 0).rows == Rows(n + 1, 0);
    hide Earliest;
  }

  lemma {:induction false} QueueingRun(n: nat)
    ensures Legal(EMPTY_ROOM, 0, Queueing(n)) && ClockAfter(0, Queueing(n)) == 0
    ensures Run(EMPTY_ROOM, 0, Queueing(n)) == QueuedRoom(n)
  {
    if n == 0 {
      assert QueuedRoom(0) == EMPTY_ROOM;
    } else {
      QueueingRun(n - 1);
      EnqueueOne(n - 1);
      hide Enabled, Step, QueuedRoom;
      OneMoreEvent(EMPTY_ROOM, 0, Queueing(n - 1), EnqueueEvent(0));
    }
  }

  lemma FireTen()
    ensures Enabled(QueuedRoom(10), AlarmFireEvent(5000)) && Step(QueuedRoom(10), AlarmFireEvent(5000)) == SlowRoom(0)
  {
    AllDue(Rows(10, 0), 5000, OUTBOX_BATCH);
    assert Rows(10, 0)[0..] == Rows(10, 0);
    hide Due;
  }

  lemma SettleOne(k: nat)
    requires k < 10
    ensures var at := 5000 + (k + 1) * POST_TIMEOUT_MS;
            Settle(Outbox(Rows(10, k), 11, Posts(k)), Row(k, 0), 5000, at, Failed) ==
            Outbox(Rows(10, k + 1), 11, Posts(k + 1))
  {
    var at := 5000 + (k + 1) * POST_TIMEOUT_MS;
    var o, row := Outbox(Rows(10, k), 11, Posts(k)), Row(k, 0);
    DelayNeverClamped(o, row, 5000, at);
    RescheduleAt(o.rows, k + 1, 2, 20000);
    hide Reschedule, Settle;
    assert Reschedule(Rows(10, k), k + 1, 2, 20000) == Rows(10, k + 1);
    assert Posts(k) + [Post(k + 1, at, 5000)] == Posts(k + 1);
  }

  lemma TimeOut(k: nat)
    requires k < 10
    ensures var e := AlarmPostEvent(Failed, 5000 + (k + 1) * POST_TIMEOUT_MS);
            Enabled(SlowRoom(k), e) && Step(SlowRoom(k), e) == SlowRoom(k + 1)
  {
    SettleOne(k);
    hide Settle, Posts, Rows;
    assert SlowRoom(k).handler.value.pending[0] == Row(k, 0);
    assert Rows(10, 0)[k..][1..] == Rows(10, 0)[k + 1..];
  }

  lemma {:induction false} PostingRun(k: nat)
    requires k <= 10
    ensures Legal(EMPTY_ROOM, 0, Posting(k)) && ClockAfter(0, Posting(k)) == 5000 + k * POST_TIMEOUT_MS
    ensures Run(EMPTY_ROOM, 0, Posting(k)) == SlowRoom(k)
  {
    hide Enabled, Step, QueuedRoom, SlowRoom, Legal, Run;
    if k == 0 {
      QueueingRun(10);
      FireTen();
      OneMoreEvent(EMPTY_ROOM, 0, Queueing(10), AlarmFireEvent(5000));
    } else {
      PostingRun(k - 1);
      TimeOut(k - 1);
      OneMoreEvent(EMPTY_ROOM, 0, Posting(k - 1), AlarmPostEvent(Failed, 5000 + k * POST_TIMEOUT_MS));
    }
  }

  /** The end of the slow handler, and the start of the next one. */
  const SWEEP := AlarmSweepEvent(55000)
  const FINISH := AlarmFinishEvent(55000, [])
  const FIRE := AlarmFireEvent(55000)

  lemma NextHandler(s: Room)
    requires s == SlowRoom(10)
    ensures Enabled(s, SWEEP) && Enabled(Step(s, SWEEP), FINISH) && Enabled(Step(Step(s, SWEEP), FINISH), FIRE)
    ensures Step(Step(Step(s, SWEEP), FINISH), FIRE) ==
            EMPTY_ROOM.(outbox := Outbox(Rows(10, 10), 11, Posts(10)),
                        handler := Some(Handler(55000, Rows(10, 10), None, Stage.Posting, 0, 55000)))
  {
    FinishesLate(s);
    var rows := Rows(10, 10);
    AllDue(rows, 55000, OUTBOX_BATCH);
    var done := s.(handler := None, alarm := Some(20000));
    assert done == EMPTY_ROOM.(outbox := Outbox(rows, 11, Posts(10)), alarm := Some(20000));
    hide SlowRoom, Rows, Posts, SWEEP, FINISH, Enabled, Step;
    FiresLate(done);
  }

  lemma FiresLate(s: Room)
    requires s.handler == None && s.alarm == Some(20000) && Due(s.outbox.rows, 55000, OUTBOX_BATCH) == s.outbox.rows
    ensures Enabled(s, FIRE)
    ensures Step(s, FIRE) ==
            s.(alarm := None, handler := Some(Handler(55000, s.outbox.rows, None, Stage.Posting, 0, 55000)))
  {
    hide Due;
  }

  lemma FinishesLate(s: Room)
    requires s == SlowRoom(10)
    ensures Enabled(s, SWEEP) && Enabled(Step(s, SWEEP), FINISH)
    ensures Step(Step(s, SWEEP), FINISH) == s.(handler := None, alarm := Some(20000))
  {
    EarliestOfEqual(Rows(10, 10), 20000);
    assert Rows(10, 0)[10..] == [];
    assert s.handler == Some(Handler(5000, [], None, Stage.Posting, 10, 55000));
    assert s.outbox.rows == Rows(10, 10) && s.rows == [] && s.meta == INITIAL_META && s.alarm == None;
    hide Earliest, Rows, Posts, SlowRoom, Enabled, Step;
    SweepsIdly(s);
    FinishesIdly(Step(s, SWEEP));
  }

  lemma SweepsIdly(s: Room)
    requires s.meta == INITIAL_META && s.handler == Some(Handler(5000, [], None, Stage.Posting, 10, 55000))
    ensures Enabled(s, SWEEP)
    ensures Step(s, SWEEP) == s.(handler := Some(Handler(5000, [], None, Admitting, 10, 55000)))
  {
  }

  lemma FinishesIdly(s: Room)
    requires s.rows == [] && s.meta == INITIAL_META && s.alarm == None && Earliest(s.outbox.rows) == Some(20000)
    requires s.handler == Some(Handler(5000, [], None, Admitting, 10, 55000))
    ensures Enabled(s, FINISH) && Step(s, FINISH) == s.(handler := None, alarm := Some(20000))
  {
    hide Earliest;
    var idle := s.(handler := None);
    assert !HasQueueWork(idle);
    assert EnsureAlarm(idle, 55000) == idle.(alarm := Some(20000));
  }

  lemma TenthPosts()
    ensures PostsOf(Posts(10), 10) == [Post(10, 55000, 5000)]
  {
    var front := Posts(10)[..9];
    assert Posts(10)[9] == Post(10, 55000, 5000);
    NoPosts(front, 10);
  }

  /**
   The bound on the lateness is reached, and the delay of 15 seconds after the first retry can shrink to nothing: the
   tenth POST is settled at 55000, and a handler that starts at 55000 has selected its row again.
   */
  lemma DelayCanVanish()
    ensures var es := Posting(10) + [SWEEP] + [FINISH] + [FIRE];
            Legal(EMPTY_ROOM, 0, es) &&
            var t := Run(EMPTY_ROOM, 0, es);
            && PostsOf(t.outbox.log, 10) == [Post(10, 55000, 5000)] && Lateness(Post(10, 55000, 5000)) == BATCH_MS
            && t.handler.Some? && t.handler.value.now == 55000
            && Delivery(10, 2, 20000, 0, true) in t.handler.value.pending
  {
    hide Enabled, Step, Legal, Run, Posting, PostsOf;
    PostingRun(10);
    NextHandler(SlowRoom(10));
    hide SlowRoom;
    OneMoreEvent(EMPTY_ROOM, 0, Posting(10), SWEEP);
    OneMoreEvent(EMPTY_ROOM, 0, Posting(10) + [SWEEP], FINISH);
    OneMoreEvent(EMPTY_ROOM, 0, Posting(10) + [SWEEP] + [FINISH], FIRE);
    TenthPosts();
    assert Rows(10, 10)[9] == Delivery(10, 2, 20000, 0, true);
  }
}
