/**
 The webhook outbox: failed deliveries are retried by the alarm with growing delays
 (src/durable-object/queue-room.ts). The log is history: every POST made for a row, with the time it was settled and
 the time at which its handler had started, from which the code counts the next delay.
 */
module WebhookOutbox {
  import opened Wrappers

  const WEBHOOK_RETRY_DELAYS_MS: seq<int> := [5000, 15000, 60000, 300000, 900000, 3600000, 10800000]
  const WEBHOOK_MAX_ATTEMPTS: nat := 8
  const OUTBOX_BATCH: nat := 10
  const POST_TIMEOUT_MS: int := 5000

  /** The longest that a batch can take, and so the latest that a POST is settled within its handler. */
  const BATCH_MS: int := OUTBOX_BATCH * POST_TIMEOUT_MS

  /** A row whose stored text cannot be parsed is not readable. */
  datatype Delivery = Delivery(id: nat, attempts: nat, nextAttemptAt: int, createdAt: int, readable: bool)

  datatype Post = Post(id: nat, at: int, started: int)

  datatype Outbox = Outbox(rows: seq<Delivery>, nextId: nat, log: seq<Post>)

  const EMPTY_OUTBOX := Outbox([], 1, [])

  datatype Outcome = Delivered | Failed

  function Enqueue(o: Outbox, now: int): Outbox {
    o.(rows := o.rows + [Delivery(o.nextId, 1, now + WEBHOOK_RETRY_DELAYS_MS[0], now, true)],
       nextId := o.nextId + 1)
  }

  /** The first rows, in id order, whose next attempt has come. */
  function Due(rows: seq<Delivery>, now: int, limit: nat): seq<Delivery> {
    if rows == [] || limit == 0 then []
    else if rows[0].nextAttemptAt <= now then [rows[0]] + Due(rows[1..], now, limit - 1)
    else Due(rows[1..], now, limit)
  }

  function Delete(rows: seq<Delivery>, id: nat): seq<Delivery> {
    if rows == [] then []
    else (if rows[0].id == id then [] else [rows[0]]) + Delete(rows[1..], id)
  }

  /** UPDATE webhook_outbox SET attempts, next_attempt_at WHERE id */
  function Reschedule(rows: seq<Delivery>, id: nat, attempts: nat, nextAttemptAt: int): seq<Delivery> {
    if rows == [] then []
    else
      [if rows[0].id == id then rows[0].(attempts := attempts, nextAttemptAt := nextAttemptAt) else rows[0]]
      + Reschedule(rows[1..], id, attempts, nextAttemptAt)
  }

  /**
   One selected row, settled at `at` by a handler that started at `started`. An unreadable row is dropped without a
   POST, so it has no outcome.
   */
  function Settle(o: Outbox, row: Delivery, started: int, at: int, outcome: Outcome): Outbox {
    if !row.readable then o.(rows := Delete(o.rows, row.id)) else
    match outcome
    case Delivered => o.(rows := Delete(o.rows, row.id), log := o.log + [Post(row.id, at, started)])
    case Failed =>
      var attempts := row.attempts + 1;
      var posted := o.log + [Post(row.id, at, started)];
      if attempts >= WEBHOOK_MAX_ATTEMPTS then
        o.(rows := Delete(o.rows, row.id), log := posted)
      else
        var delay := WEBHOOK_RETRY_DELAYS_MS[Min(attempts - 1, |WEBHOOK_RETRY_DELAYS_MS| - 1)];
        o.(rows := Reschedule(o.rows, row.id, attempts, started + delay), log := posted)
  }

  // ---------- what the log may contain ----------

  function PostsOf(log: seq<Post>, id: nat): seq<Post> {
    if log == [] then [] else
    PostsOf(log[..|log| - 1], id) + (if log[|log| - 1].id == id then [log[|log| - 1]] else [])
  }

  /**
   At most seven POSTs, each settled while its batch can last. Each is made by a later handler than the one before,
   which started no sooner than its own delay after the start of the earlier handler.
   */
  ghost predicate Spaced(posts: seq<Post>) {
    && |posts| <= |WEBHOOK_RETRY_DELAYS_MS|
    && (forall k :: 0 <= k < |posts| ==> posts[k].started <= posts[k].at <= posts[k].started + BATCH_MS)
    && (forall k :: 0 < k < |posts| ==> posts[k].started >= posts[k - 1].started + WEBHOOK_RETRY_DELAYS_MS[k])
    && forall k :: 0 < k < |posts| ==> posts[k].started >= posts[k - 1].at
  }

  /** How long after the start of its handler a POST was settled. */
  function Lateness(p: Post): int {
    p.at - p.started
  }

  /** The instant from which the delay of a live row runs. */
  function Since(d: Delivery, posts: seq<Post>): int {
    if posts == [] then d.createdAt else posts[|posts| - 1].started
  }

  /** A live row has been POSTed once less than its attempt count and waits exactly its own delay. */
  ghost predicate OnSchedule(d: Delivery, posts: seq<Post>) {
    && 1 <= d.attempts < WEBHOOK_MAX_ATTEMPTS
    && |posts| == d.attempts - 1
    && d.nextAttemptAt == Since(d, posts) + WEBHOOK_RETRY_DELAYS_MS[d.attempts - 1]
    && (posts != [] ==> posts[0].started >= d.createdAt + WEBHOOK_RETRY_DELAYS_MS[0])
  }

  ghost predicate OutboxInv(o: Outbox) {
    && IdsAscend(o.rows)
    && (forall d :: d in o.rows ==> d.id < o.nextId && OnSchedule(d, PostsOf(o.log, d.id)))
    && (forall id :: Spaced(PostsOf(o.log, id)))
    && (forall p :: p in o.log ==> p.id < o.nextId)
  }

  lemma {:induction false} NoPosts(log: seq<Post>, id: nat)
    requires forall p :: p in log ==> p.id != id
    ensures PostsOf(log, id) == []
  {
    if log != [] {
      NoPosts(log[..|log| - 1], id);
    }
  }

  lemma {:induction false} DeleteMember(rows: seq<Delivery>, id: nat, d: Delivery)
    ensures d in Delete(rows, id) <==> d in rows && d.id != id
  {
    if rows != [] {
      DeleteMember(rows[1..], id, d);
    }
  }

  ghost predicate IdsAscend(rows: seq<Delivery>) {
    forall i, j :: 0 <= i < j < |rows| ==> rows[i].id < rows[j].id
  }

  lemma {:induction false} DeleteAscends(rows: seq<Delivery>, id: nat)
    requires IdsAscend(rows)
    ensures IdsAscend(Delete(rows, id))
  {
    if rows != [] {
      var rest := rows[1..];
      assert IdsAscend(rest);
      DeleteAscends(rest, id);
      var tail := Delete(rest, id);
      forall i | 0 <= i < |tail|
        ensures rows[0].id < tail[i].id
      {
        DeleteMember(rest, id, tail[i]);
      }
    }
  }

  lemma {:induction false} RescheduleAt(rows: seq<Delivery>, id: nat, attempts: nat, at: int)
    ensures var r := Reschedule(rows, id, attempts, at);
            && |r| == |rows|
            && forall i :: 0 <= i < |rows| ==>
                 r[i] == if rows[i].id == id then rows[i].(attempts := attempts, nextAttemptAt := at) else rows[i]
  {
    if rows != [] {
      RescheduleAt(rows[1..], id, attempts, at);
    }
  }

  lemma {:induction false} DueFound(rows: seq<Delivery>, now: int, limit: nat)
    ensures |Due(rows, now, limit)| <= limit
    ensures forall d :: d in Due(rows, now, limit) ==> d in rows && d.nextAttemptAt <= now
  {
    if rows != [] && limit != 0 {
      DueFound(rows[1..], now, if rows[0].nextAttemptAt <= now then limit - 1 else limit);
    }
  }

  lemma FirstAscends(first: Delivery, rest: seq<Delivery>)
    requires IdsAscend(rest) && forall d :: d in rest ==> first.id < d.id
    ensures IdsAscend([first] + rest)
  {
    assert forall i :: 0 <= i < |rest| ==> rest[i] in rest;
  }

  lemma RestAscends(rows: seq<Delivery>)
    requires IdsAscend(rows) && rows != []
    ensures IdsAscend(rows[1..]) && forall d :: d in rows[1..] ==> rows[0].id < d.id
  {
  }

  /** Whatever is due and not selected comes after a full batch. */
  lemma {:induction false} DueIsFirst(rows: seq<Delivery>, now: int, limit: nat, d: Delivery)
    requires IdsAscend(rows) && d in rows && d.nextAttemptAt <= now && d !in Due(rows, now, limit)
    ensures |Due(rows, now, limit)| == limit
    ensures forall x :: x in Due(rows, now, limit) ==> x.id < d.id
  {
    if limit != 0 {
      RestAscends(rows);
      DueIsFirst(rows[1..], now, if rows[0].nextAttemptAt <= now then limit - 1 else limit, d);
    }
  }

  /** The selection of a handler: due rows, in order, no more than the batch. */
  lemma {:induction false} DueMember(rows: seq<Delivery>, now: int, limit: nat)
    requires IdsAscend(rows)
    ensures var due := Due(rows, now, limit);
            && |due| <= limit
            && IdsAscend(due)
            && forall d :: d in due ==> d in rows && d.nextAttemptAt <= now
  {
    DueFound(rows, now, limit);
    if rows != [] && limit != 0 {
      var rest := rows[1..];
      RestAscends(rows);
      var left := if rows[0].nextAttemptAt <= now then limit - 1 else limit;
      DueMember(rest, now, left);
      assert Due(rows, now, limit) ==
             if rows[0].nextAttemptAt <= now then [rows[0]] + Due(rest, now, left) else Due(rest, now, left);
      hide Due, IdsAscend;
      if rows[0].nextAttemptAt <= now {
        FirstAscends(rows[0], Due(rest, now, left));
      }
    }
  }

  lemma EnqueueKeepsInv(o: Outbox, now: int)
    requires OutboxInv(o)
    ensures OutboxInv(Enqueue(o, now)) && o.nextId == Enqueue(o, now).nextId - 1
    ensures Enqueue(o, now).rows == o.rows + [Delivery(o.nextId, 1, now + 5000, now, true)]
  {
    NoPosts(o.log, o.nextId);
    assert forall i :: 0 <= i < |o.rows| ==> o.rows[i] in o.rows;
  }

  /** The row is due for this handler, and its earlier POSTs were settled before the handler started. */
  ghost predicate Postable(o: Outbox, row: Delivery, started: int, at: int) {
    && row in o.rows && row.nextAttemptAt <= started <= at
    && forall p :: p in o.log && p.id == row.id ==> p.at <= started
  }

  lemma {:induction false} PostsAreLogged(log: seq<Post>, id: nat)
    ensures forall p :: p in PostsOf(log, id) <==> p in log && p.id == id
  {
    if log != [] {
      PostsAreLogged(log[..|log| - 1], id);
      assert log == log[..|log| - 1] + [log[|log| - 1]];
    }
  }

  lemma PostAppended(log: seq<Post>, p: Post, id: nat)
    ensures PostsOf(log + [p], id) == PostsOf(log, id) + (if p.id == id then [p] else [])
  {
    assert (log + [p])[..|log|] == log;
  }

  lemma OneMorePost(d: Delivery, posts: seq<Post>, p: Post)
    requires Spaced(posts) && OnSchedule(d, posts) && d.nextAttemptAt <= p.started <= p.at <= p.started + BATCH_MS
    requires forall q :: q in posts ==> q.at <= p.started
    ensures Spaced(posts + [p])
  {
    var n, more := |posts|, posts + [p];
    forall k | 0 < k < |more|
      ensures more[k].started >= more[k - 1].started + WEBHOOK_RETRY_DELAYS_MS[k] && more[k].started >= more[k - 1].at
    {
      if k == n {
        assert posts[n - 1] in posts;
      }
    }
  }

  lemma PostSpaced(o: Outbox, row: Delivery, p: Post, id: nat)
    requires OutboxInv(o) && p.id == row.id && Postable(o, row, p.started, p.at) && p.at <= p.started + BATCH_MS
    ensures PostsOf(o.log + [p], id) == PostsOf(o.log, id) + (if id == row.id then [p] else [])
    ensures Spaced(PostsOf(o.log + [p], id))
  {
    PostsAreLogged(o.log, row.id);
    PostAppended(o.log, p, id);
    OneMorePost(row, PostsOf(o.log, row.id), p);
    hide Spaced, OnSchedule;
  }

  /** One more POST of a due row keeps every row's POSTs within the schedule. */
  lemma PostKeepsSpacing(o: Outbox, row: Delivery, started: int, at: int)
    requires OutboxInv(o) && Postable(o, row, started, at) && at <= started + BATCH_MS
    ensures var log := o.log + [Post(row.id, at, started)];
            && (forall id :: id != row.id ==> PostsOf(log, id) == PostsOf(o.log, id))
            && PostsOf(log, row.id) == PostsOf(o.log, row.id) + [Post(row.id, at, started)]
            && forall id :: Spaced(PostsOf(log, id))
  {
    hide OutboxInv, Spaced, PostsOf, Postable;
    var p := Post(row.id, at, started);
    forall id
      ensures PostsOf(o.log + [p], id) == PostsOf(o.log, id) + (if id == row.id then [p] else [])
      ensures Spaced(PostsOf(o.log + [p], id))
    {
      PostSpaced(o, row, p, id);
    }
  }

  /** Removing a row, with or without a last POST of it. */
  lemma DeleteKeepsInv(o: Outbox, row: Delivery, log: seq<Post>)
    requires OutboxInv(o) && row in o.rows
    requires forall id :: id != row.id ==> PostsOf(log, id) == PostsOf(o.log, id)
    requires forall id :: Spaced(PostsOf(log, id))
    requires forall p :: p in log ==> p.id < o.nextId
    ensures OutboxInv(o.(rows := Delete(o.rows, row.id), log := log))
  {
    assert IdsAscend(o.rows);
    DeleteAscends(o.rows, row.id);
    forall d | d in Delete(o.rows, row.id)
      ensures d.id < o.nextId && OnSchedule(d, PostsOf(log, d.id))
    {
      DeleteMember(o.rows, row.id, d);
    }
  }

  function Retried(row: Delivery, started: int): Delivery
    requires row.attempts + 1 < WEBHOOK_MAX_ATTEMPTS
  {
    row.(attempts := row.attempts + 1, nextAttemptAt := started + WEBHOOK_RETRY_DELAYS_MS[row.attempts])
  }

  /** The row a failed POST puts back is on schedule again. */
  lemma RetryOnSchedule(o: Outbox, row: Delivery, started: int, at: int)
    requires OutboxInv(o) && Postable(o, row, started, at)
    requires row.attempts + 1 < WEBHOOK_MAX_ATTEMPTS
    ensures OnSchedule(Retried(row, started), PostsOf(o.log, row.id) + [Post(row.id, at, started)])
  {
  }

  /** Every row of the rescheduled outbox is on schedule for the longer log. */
  lemma RescheduledRow(o: Outbox, row: Delivery, started: int, at: int, i: nat)
    requires OutboxInv(o) && Postable(o, row, started, at)
    requires row.attempts + 1 < WEBHOOK_MAX_ATTEMPTS && i < |o.rows| && at <= started + BATCH_MS
    ensures var r := Retried(row, started);
            var rows := Reschedule(o.rows, row.id, r.attempts, r.nextAttemptAt);
            && |rows| == |o.rows| && rows[i].id == o.rows[i].id < o.nextId
            && OnSchedule(rows[i], PostsOf(o.log + [Post(row.id, at, started)], rows[i].id))
  {
    var r := Retried(row, started);
    assert o.rows[i] in o.rows;
    PostKeepsSpacing(o, row, started, at);
    RescheduleAt(o.rows, row.id, r.attempts, r.nextAttemptAt);
    if o.rows[i].id == row.id {
      RowIsUnique(o.rows, o.rows[i], row);
      RetryOnSchedule(o, row, started, at);
    }
    hide Reschedule, PostsOf, OnSchedule;
  }

  lemma RescheduleAscends(rows: seq<Delivery>, id: nat, attempts: nat, at: int)
    requires IdsAscend(rows)
    ensures |Reschedule(rows, id, attempts, at)| == |rows| && IdsAscend(Reschedule(rows, id, attempts, at))
  {
    RescheduleAt(rows, id, attempts, at);
  }

  lemma RowsMakeInv(o: Outbox)
    requires IdsAscend(o.rows)
    requires forall i :: 0 <= i < |o.rows| ==> o.rows[i].id < o.nextId && OnSchedule(o.rows[i], PostsOf(o.log, o.rows[i].id))
    requires forall id :: Spaced(PostsOf(o.log, id))
    requires forall p :: p in o.log ==> p.id < o.nextId
    ensures OutboxInv(o)
  {
  }

  lemma RescheduleKeepsInv(o: Outbox, row: Delivery, started: int, at: int)
    requires OutboxInv(o) && Postable(o, row, started, at) && at <= started + BATCH_MS
    requires row.attempts + 1 < WEBHOOK_MAX_ATTEMPTS
    ensures var r := Retried(row, started);
            OutboxInv(o.(rows := Reschedule(o.rows, row.id, r.attempts, r.nextAttemptAt),
                         log := o.log + [Post(row.id, at, started)]))
  {
    hide Reschedule, PostsOf, OnSchedule, Spaced, Retried;
    var r := Retried(row, started);
    var rows, log := Reschedule(o.rows, row.id, r.attempts, r.nextAttemptAt), o.log + [Post(row.id, at, started)];
    PostKeepsSpacing(o, row, started, at);
    RescheduleAscends(o.rows, row.id, r.attempts, r.nextAttemptAt);
    forall i | 0 <= i < |rows|
      ensures rows[i].id < o.nextId && OnSchedule(rows[i], PostsOf(log, rows[i].id))
    {
      RescheduledRow(o, row, started, at, i);
    }
    RowsMakeInv(o.(rows := rows, log := log));
  }

  /** The clamp of the delay index never acts: each of the seven delays is used in its turn. */
  lemma DelayNeverClamped(o: Outbox, row: Delivery, started: int, at: int)
    requires row.readable && row.attempts + 1 < WEBHOOK_MAX_ATTEMPTS
    ensures var r := Retried(row, started);
            Settle(o, row, started, at, Failed) ==
            o.(rows := Reschedule(o.rows, row.id, r.attempts, r.nextAttemptAt), log := o.log + [Post(row.id, at, started)])
  {
    assert Min(row.attempts, |WEBHOOK_RETRY_DELAYS_MS| - 1) == row.attempts;
  }

  /** Settling a selected row within the time of its batch keeps the schedule of every row. */
  lemma SettleKeepsInv(o: Outbox, row: Delivery, started: int, at: int, outcome: Outcome)
    requires OutboxInv(o) && Postable(o, row, started, at) && at <= started + BATCH_MS
    ensures OutboxInv(Settle(o, row, started, at, outcome))
  {
    if !row.readable {
      DeleteKeepsInv(o, row, o.log);
    } else if outcome == Failed && row.attempts + 1 < WEBHOOK_MAX_ATTEMPTS {
      DelayNeverClamped(o, row, started, at);
      RescheduleKeepsInv(o, row, started, at);
    } else {
      PostKeepsSpacing(o, row, started, at);
      DeleteKeepsInv(o, row, o.log + [Post(row.id, at, started)]);
    }
  }

  /**
   What becomes of the row: it is gone once it is delivered, cannot be read, or has been POSTed seven times, and stays
   otherwise. No other row goes.
   */
  lemma GivenUpAfterSeven(o: Outbox, row: Delivery, started: int, at: int, outcome: Outcome, id: nat)
    requires OutboxInv(o) && Postable(o, row, started, at)
    ensures var after := Settle(o, row, started, at, outcome);
            (exists d :: d in after.rows && d.id == id) <==>
            (exists d :: d in o.rows && d.id == id) &&
            !(id == row.id && (!row.readable || outcome == Delivered || |PostsOf(after.log, id)| == 7))
  {
    var after := Settle(o, row, started, at, outcome);
    PostAppended(o.log, Post(row.id, at, started), row.id);
    assert OnSchedule(row, PostsOf(o.log, row.id));
    hide PostsOf, OutboxInv, Postable;
    if row.readable && outcome == Failed && row.attempts + 1 < WEBHOOK_MAX_ATTEMPTS {
      DelayNeverClamped(o, row, started, at);
      IdsAfterReschedule(o.rows, row.id, Retried(row, started).attempts, Retried(row, started).nextAttemptAt, id);
    } else {
      assert after.rows == Delete(o.rows, row.id);
      IdsAfterDelete(o.rows, row.id, id);
    }
  }

  lemma IdsAfterDelete(rows: seq<Delivery>, gone: nat, id: nat)
    ensures (exists d :: d in Delete(rows, gone) && d.id == id) <==> (exists d :: d in rows && d.id == id) && id != gone
  {
    forall d
      ensures d in Delete(rows, gone) <==> d in rows && d.id != gone
    {
      DeleteMember(rows, gone, d);
    }
  }

  lemma IdsAfterReschedule(rows: seq<Delivery>, changed: nat, attempts: nat, at: int, id: nat)
    ensures (exists d :: d in Reschedule(rows, changed, attempts, at) && d.id == id) <==> exists d :: d in rows && d.id == id
  {
    RescheduleAt(rows, changed, attempts, at);
    var after := Reschedule(rows, changed, attempts, at);
    hide Reschedule;
    if d :| d in rows && d.id == id {
      var i :| 0 <= i < |rows| && rows[i] == d;
      assert after[i] in after && after[i].id == id;
    }
    if d :| d in after && d.id == id {
      var i :| 0 <= i < |after| && after[i] == d;
      assert rows[i] in rows && rows[i].id == id;
    }
  }

  // ---------- the delay between two POSTs ----------

  /**
   What the schedule means for the POSTs themselves: each is made after the one before was settled, and no sooner
   than its delay after it, less the lateness of that earlier POST within its handler. The lateness is at most that of
   the last of ten POSTs given up after five seconds each.
   */
  lemma DelayLessLateness(o: Outbox, id: nat, k: nat)
    requires OutboxInv(o) && 0 < k < |PostsOf(o.log, id)|
    ensures var posts := PostsOf(o.log, id);
            && |posts| <= |WEBHOOK_RETRY_DELAYS_MS|
            && 0 <= Lateness(posts[k - 1]) <= BATCH_MS == 50000
            && posts[k].at >= posts[k - 1].at
            && posts[k].at >= posts[k - 1].at + WEBHOOK_RETRY_DELAYS_MS[k] - Lateness(posts[k - 1])
  {
    assert Spaced(PostsOf(o.log, id));
  }

  /**
   The next attempt of a failed POST comes due its delay after the start of the handler. So the full delay lies
   between the POST and the next attempt if and only if the POST was not late within its handler.
   */
  lemma FullDelayIffNotLate(o: Outbox, row: Delivery, started: int, at: int)
    requires OutboxInv(o) && Postable(o, row, started, at) && row.readable && row.attempts + 1 < WEBHOOK_MAX_ATTEMPTS
    ensures var r := Retried(row, started);
            && r in Settle(o, row, started, at, Failed).rows
            && r.nextAttemptAt - at == WEBHOOK_RETRY_DELAYS_MS[row.attempts] - (at - started)
            && (r.nextAttemptAt >= at + WEBHOOK_RETRY_DELAYS_MS[row.attempts] <==> at == started)
  {
    var r := Retried(row, started);
    DelayNeverClamped(o, row, started, at);
    RescheduleAt(o.rows, row.id, r.attempts, r.nextAttemptAt);
    var i :| 0 <= i < |o.rows| && o.rows[i] == row;
    assert Reschedule(o.rows, row.id, r.attempts, r.nextAttemptAt)[i] == r;
  }

  lemma RowIsUnique(rows: seq<Delivery>, a: Delivery, b: Delivery)
    requires IdsAscend(rows) && a in rows && b in rows && a.id == b.id
    ensures a == b
  {
    var i :| 0 <= i < |rows| && rows[i] == a;
    var j :| 0 <= j < |rows| && rows[j] == b;
    assert !(i < j) && !(j < i);
  }
}
