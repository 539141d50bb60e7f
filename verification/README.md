# TideGuard waiting room: a verified model

TideGuard puts a waiting room in front of a site. One Durable Object runs one room: it keeps a table of visitors
(waiting, admitted, left, expired), admits waiters when slots and budget allow, expires those who stop checking in,
counts traffic, retries webhooks and wakes itself with a single alarm. This project models that room, the in-memory
simulator that mirrors it, the operator's IP allowlist and the small timed machines around them, and proves what they
promise.

## How the project is laid out

- `wrappers.dfy`, `engine.dfy`, `check_in_slots.dfy`: options; the arithmetic of budgets and timeslots and what it promises.
- `visitors.dfy`, `traffic.dfy`, `outbox.dfy`, `health.dfy`: the visitor table with its queries, the traffic buckets, the
  webhook outbox, the origin-health ladder.
- `room_state.dfy`, `room_steps.dfy`, `room_runs.dfy`: a room as its tables and settings only, every request and every
  stage of the alarm handler as a step on them with all counts taken afresh, and runs of steps in any order. The alarm
  handler gives way to other events only while it awaits a webhook or a probe; a webhook is given up after five seconds, and
  between two awaits the handler takes no time.
- `table_moves.dfy`, `admission.dfy`, `room_bounds.dfy`, `room_settings.dfy`, `room_liveness.dfy`, `room_traffic.dfy`,
  `room_budget.dfy`, `row_keeping.dfy`, `check_ins.dfy`, `admission_times.dfy`, `tokens.dfy`, `token_revocation.dfy`,
  `ladder_runs.dfy`: what every step and every run keeps. `overtaken_run.dfy`, `slow_batch.dfy`: two runs, one in which the
  alarm handler comes too late, and one in which its webhooks do.
- `sweep_outcomes.dfy`, `batch_sizes.dfy`, `call_outcomes.dfy`: what a sweep, a batch and each call of a visitor do, written
  out over rows, counts and times, without the functions that compute it.
- `lottery.dfy`, `queue_room.dfy`: the class as the source runs it, with its depth counter, the two mirrored meta keys and
  the memoized people-ahead counts. Each method is proved to take exactly the cache-free step, and `Valid()` says that all
  caches agree with plain counts; `Evict` drops what lives in memory only. So every theorem about steps and runs holds of
  the class, and the caches can never be noticed.
- `fifo.dfy`, `simulator.dfy`, `room_fifo.dfy`, `mirror.dfy`: the plain queue, the simulator's soft-deleting deque proved to
  be that queue, and the room proved to be the same queue along quiet Queue Mode runs.
- `text.dfy`, `ip_address.dfy`, `cidr.dfy`, `allowlist.dfy`, `spelling.dfy`: the allowlist, down to the characters and the
  bits, and what its spelling does not matter for.
- `rate_limit.dfy`: the fixed-window limiter.

Times are integer milliseconds under a clock that never goes back. Rates and the budget remainder are reals, random draws
are parameters in [0, 1), and the outcome of a webhook POST or a health probe is a free choice.

## What turned out not to hold without a condition

- `alarm()` takes its time before it awaits the network, and everything that follows happens at that time. Three promises
  fail for a batch admitted by a handler that has been overtaken meanwhile. `OvertakenRun.HandlerCanBeOvertaken` is a run
  from the empty room in which all three do: the handler starts 1 ms before the room closes and awaits a webhook.
  - A room that is shut by now can still admit. `RoomBounds.ShutRoomAdmitsNobody`: in a shut room an event admits somebody
    if and only if it is the end of the alarm handler and a batch is due: somebody waits, and at the handler's start the gate
    was open and the budget allowed somebody. Then the closing time or the end of a health override lies between the two.
  - A batch overtaken by a newer traffic bucket throws that bucket's counts away. `RoomTraffic.StepConserves`: the counts
    are kept if and only if no batch is due, the open bucket is not newer than the handler, or it holds no counts.
    `RoomTraffic.RunConserves` says the same of whole runs, for what is lost never comes back.
  - It may open a bucket again that is stored already, so that stored buckets are no longer strictly before the open one.
    `TrafficBuckets.RecordKeepsShape` and `RoomTraffic.RunKeepsBuckets`: they are if and only if no recording behind the
    open bucket falls at or before a stored one.
- A webhook's retry delay is counted from the start of the handler, not from the POST that failed.
  `WebhookOutbox.FullDelayIffNotLate`: the full delay lies between a failed POST and the next attempt if and only if the
  POST was settled when its handler started. With ten POSTs of at most five seconds each it can be 50 s late
  (`RoomLiveness.PostIsPrompt`), so that over every run consecutive POSTs of a webhook lie at least their delay less 50 s
  apart (`RoomLiveness.RunSpacesPosts`). `SlowBatch.DelayCanVanish` is a run that gets there and leaves nothing of 15 s.
- Turning the health probes off resets the ladder, but the answer to a probe in flight writes its old rung back, one step
  on. `LadderRuns.ResetLasts`: the reset lasts if and only if no probe is in flight.
- `/join` dates a token from the request, `/status` and `/enter` from the admission. `Tokens.RejoinTokenOutlivesSlot`: a
  token from a repeated `/join` outlives its slot if and only if it is minted in a later second than the admission.
- The simulator serves waiters in the order of arrival as long as ids are not used again after leaving. A waiter that
  joins under a used id stands at the end of the line if and only if no dead entry of that id is left in the deque
  (`Simulator.NewWaiterAtEnd`); `Simulator.ReusedIdOvertakes` shows one that overtakes. The counters need no such
  condition.
- The simulator's `tick` never admits anybody: a waiter exists only while every slot is taken, and slots are refilled when
  somebody leaves (`FifoQueue.TickAdmitsNobody`).
- The rate limiter's bound is sharper than twice the limit: 2 * limit - 1 calls, and that many can be reached with every
  window of 2 ms or more. With a window of 1 ms the limit itself holds (`RateLimit.OneMillisecondWindow`).
- `docs/webhooks.md` speaks of eight retries. The code makes one POST at once and at most seven from the outbox, and the
  model follows the code. `docs/architecture.md` leaves the closing time out of `canAdmit`; the code and the model have it.
- Joining with an id whose row has left or expired but is not purged yet hits the primary key: the request fails, and all
  that remains of it is a spent sequence number.

## Model

| member | source | states |
|---|---|---|
| Engine.HashString | src/queue/engine.ts:159-166 | The loop computes 32-bit FNV-1a of the whole key. |
| Engine.StableSlotIndex | src/queue/engine.ts:168-176 | A visitor's slot lies within its period, whatever the period. |
| Engine.HashVectors | src/queue/engine.ts:159-166 | The hash gives the published vectors of 32-bit FNV-1a for the empty text and for "a". |
| Engine.SlotIsHash | src/queue/engine.ts:168-176 | The slot is the hash of the key modulo the period. |
| CheckInSlots.NextCheckIsLeast | src/queue/engine.ts:178-194 | The next check-in is the least second-aligned instant of the visitor's residue class at or after now + lead, and less than one period later. |
| CheckInSlots.RenewalMovesForward | src/queue/engine.ts:178-212 | Renewing a due slot moves it forward by at least 1 s and leaves it not due, whatever the period was when the slot was assigned and is now. |
| CheckInSlots.RenewalKeepsCadence | src/queue/engine.ts:178-212 | A renewal with an unchanged period lands exactly one period later if and only if the visitor came within period - 1 seconds of its slot. |
| CheckInSlots.CheckInLoad | src/queue/engine.ts:118-156 | Any window of five full periods holds exactly P instants per front-band visitor and 5 per other, and the others average at most 750 per second. |
| CheckInSlots.BudgetTelescopes | src/queue/engine.ts:32-47 | Over any ticks with any rates, admissions plus the final remainder equal the initial remainder plus the rates; the remainder stays in [0, 1). |
| Health.ParseHealthConfig | src/health/origin-probe.ts:84-104 | Settings out of range fall back, so the result is always valid; valid settings are kept as they are. |
| Health.FieldsFallBackAlone | src/health/origin-probe.ts:84-104 | Each setting out of its range falls back to its own default, and each of the others is kept. |
| Health.AdvanceHealthState | src/health/origin-probe.ts:191-227 | The stepwise update climbs exactly one step of the ladder and records the probe. |
| Health.FailuresDescend | src/health/origin-probe.ts:207-224 | Consecutive failures lead from ok to slow after failThreshold and to pause after twice that, from any reachable rung. |
| Health.SuccessesRecover | src/health/origin-probe.ts:207-215 | From any reachable rung recoverThreshold consecutive successes restore ok. |
| Health.LevelFollowsStreaks | src/health/origin-probe.ts:191-227 | For every history the level is told without counters: it becomes ok exactly with the last of recoverThreshold straight successes since it was entered, falls by one exactly with the last of failThreshold straight failures since then, and changes by nothing else. |
| Health.RecoversIffStraightSuccesses | src/health/origin-probe.ts:207-215 | For every history the level becomes ok from slow or pause if and only if this probe is the last of recoverThreshold straight successes since the level was entered; a failure between them starts the count again. |
| Health.FewFailuresStayOk | src/health/origin-probe.ts:218-221 | A history without failThreshold consecutive failures never leaves ok. |
| Health.PauseNeedsFailures | src/health/origin-probe.ts:221-224 | Pause is entered only from slow, as the last of failThreshold straight failures during which the level was slow. |
| Health.AutoPausedAtPause | src/health/origin-probe.ts:106-139 | Admission is stopped by the ladder exactly at pause, with probing on and no override in force. |
| LadderRuns.StepRests | src/durable-object/health-state.ts:60-72 | An event takes the ladder of a room without probes out of its initial state if and only if it answers a probe sent before the probes were turned off. |
| LadderRuns.RunRests | src/durable-object/health-state.ts:60-72 | So the ladder is in its initial state in every state of a run in which probing is off, if and only if no such probe is answered along it. |
| LadderRuns.ResetLasts | src/durable-object/queue-room.ts:477-491 | Turning the probes off leaves the ladder in its initial state, in every run in which they stay off, if and only if no probe is in flight at that moment. |
| LadderRuns.SweepSendsProbe | src/durable-object/health-state.ts:60-69 | The handler sends a probe if and only if probing is on and the last probe was at least the interval ago, or there was none. |
| LadderRuns.RunClimbs | src/durable-object/health-state.ts:60-72 | Over every run without new health settings the room's ladder is the one that the answers to its probes lead to, in their order, whatever comes between. |
| Visitors.AheadIsIndex | src/durable-object/visitor-sql.ts:68-76 | The k-th waiter by sequence has exactly k waiters ahead of it. |
| Visitors.WhereKeepsInv | src/durable-object/visitor-sql.ts:20-37 | A query returns rows in sequence order with distinct ids. |
| Visitors.EnteredAndHolding | src/durable-object/queue-room.ts:307-320 | The entered and the holding are together exactly the admitted. |
| Admission.PositionsAreABijection | src/durable-object/queue-room.ts:1139-1141 | Shown positions are a bijection between the waiters and 1..waiting. |
| Admission.PositionsNumberTheLine | src/durable-object/queue-room.ts:1117-1197 | The waiter at place k is shown position k + 1, k ahead and the rest behind; ahead + 1 + behind is the waiting count. |
| Admission.BatchIsPrefix | src/durable-object/queue-room.ts:797-850 | A Queue Mode batch is a prefix of the line in sequence order, and what is left is the rest of it. |
| Admission.SelectionTakesWaiters | src/durable-object/queue-room.ts:831-913 | In both modes a selection is a duplicate-free set of present waiters, no larger than asked for. |
| Admission.SelectionTakesSomebody | src/durable-object/queue-room.ts:831-913 | In both modes it is empty only when nobody is asked for or nobody waits. |
| Admission.AdmitPicksMoves | src/durable-object/queue-room.ts:797-825 | A batch moves exactly its waiters to admitted, within the open slots, and touches no other count. |
| Admission.PositionNeverRises | src/durable-object/queue-room.ts:1026-1031 | Between two tables of a run, whoever still waits has nobody new ahead. |
| TrafficBuckets.RecordConserves | src/durable-object/traffic-buckets.ts:37-61 | Recording conserves joins and admissions if and only if the clock has not fallen behind a bucket with counts; it never makes any up. |
| TrafficBuckets.FlushConserves | src/durable-object/traffic-buckets.ts:63-111 | Storing the open bucket and pruning old ones loses no count. |
| TrafficBuckets.FlushedBuckets | src/durable-object/traffic-buckets.ts:63-111 | A bucket that is over is stored with its counts and the gauges of the moment, and exactly the buckets that began within a day are kept. |
| TrafficBuckets.UpsertMerges | src/durable-object/traffic-buckets.ts:85-103 | A bucket that is stored already takes up the new counts and the new gauges; the others stay. |
| RoomTraffic.StoredGauges | src/durable-object/queue-room.ts:964-973 | The gauges are the rate in force and how many wait and have entered. |
| TrafficBuckets.FlushKeepsBuckets | src/durable-object/traffic-buckets.ts:63-111 | Stored buckets stay aligned, in time order and before the open one. |
| TrafficBuckets.RecordKeepsBuckets | src/durable-object/traffic-buckets.ts:37-61 | So they do when a delta is recorded at or after the open bucket, and the open bucket is then the current one. |
| TrafficBuckets.RecordKeepsShape | src/durable-object/traffic-buckets.ts:37-61 | For any time at all they do if and only if the recording reopens no bucket that is stored already. |
| TrafficBuckets.StoredBucketReopened | src/durable-object/traffic-buckets.ts:37-61 | An instance of a stored bucket that is opened again. |
| TrafficBuckets.CurrentOpenAccumulates | src/durable-object/traffic-buckets.ts:22-35 | The open counts shown are those recorded in the current bucket, and nothing from an earlier one. |
| TrafficBuckets.Align | src/queue/traffic.ts:23-25 | The bucket start is the multiple of 15 s at or before the time. |
| WebhookOutbox.SettleKeepsInv | src/durable-object/queue-room.ts:621-662 | Whatever a POST's outcome, each row has been POSTed at most seven times, each within the 50 s that a batch can last, by handlers each of which started no sooner than the next delay in turn after the start of the one before; a live row waits exactly its next delay from there. |
| WebhookOutbox.DelayLessLateness | src/durable-object/queue-room.ts:608-662 | Between the POSTs of a row lies at least its delay less the lateness of the earlier POST within its handler, which is at most 50 s, and never a negative time. |
| WebhookOutbox.FullDelayIffNotLate | src/durable-object/queue-room.ts:650-660 | After a failed POST the next attempt is due the full delay later if and only if the POST was settled at the very start of its handler. |
| SlowBatch.DelayCanVanish | src/durable-object/queue-room.ts:608-662 | The bound is reached: a legal run from the empty room in which ten POSTs time out, the tenth is settled 50 s into its handler, and the next handler selects its row again at that very time instead of 15 s later. |
| WebhookOutbox.DelayNeverClamped | src/durable-object/queue-room.ts:650-651 | The clamp of the delay index never acts: all seven delays are used in turn. |
| WebhookOutbox.EnqueueKeepsInv | src/durable-object/queue-room.ts:592-606 | A new row is added at the end, under a fresh id, due in five seconds, and starts on schedule. |
| WebhookOutbox.GivenUpAfterSeven | src/durable-object/queue-room.ts:641-660 | A row goes if and only if it is delivered, cannot be read or has been POSTed seven times; no other row goes. |
| WebhookOutbox.DueMember | src/durable-object/queue-room.ts:608-618 | A handler's selection consists of due rows, in id order, at most a batch. |
| WebhookOutbox.DueIsFirst | src/durable-object/queue-room.ts:608-618 | Whatever is due and not selected comes after a full batch. |
| TableMoves.AdmitAllMoves | src/durable-object/queue-room.ts:804-817 | Admitting distinct waiters changes exactly their rows, in place, and moves exactly that many between the counts. |
| TableMoves.SweepMoves | src/durable-object/queue-room.ts:689-748 | A sweep only expires rows and deletes terminal ones; every row is kept or counted as purged. |
| SweepOutcomes.SweepOutcome | src/durable-object/queue-room.ts:689-748 | For every table, row by row: unless skipped, a sweep expires a waiter exactly when its stay limit is reached or its slot is late by the clamped grace and by one full period, an admitted visitor exactly when its hold or, once entered, its token's lifetime is over; it purges exactly the ended rows that joined more than an hour ago, and touches nothing else. |
| SweepOutcomes.BeginOutcome | src/durable-object/queue-room.ts:127-131 | The sweep that begins a request is that sweep with the request's configuration, which is remembered. |
| SweepOutcomes.NoLapsedAdmission | src/durable-object/queue-room.ts:720-735 | In every run, right after a sweep of the alarm no admitted visitor is past its hold or its token's lifetime: who walks away does not keep a seat. |
| SweepOutcomes.SilentWaiterGoes | src/durable-object/queue-room.ts:689-719 | In every run, the first sweep of the alarm past the grace of a waiter that has stopped calling leaves no row of its stay waiting. |
| RoomBounds.StepMoves | src/durable-object/queue-room.ts:144-163 | On every path, admitted after is at most max(before, capacity), waiting after at most max(before, waiting cap), and nobody is admitted when the gate is shut at the time it is asked about: that of the event, or that of the handler's start for the alarm; rows only move forward. |
| RoomBounds.StepMovesByTheClock | src/durable-object/queue-room.ts:666-678 | By the time of the event itself the same caps hold, and only an alarm batch that is due can admit through a shut gate. |
| RoomBounds.CapacityHolds | src/durable-object/queue-room.ts:750-792 | With a fixed capacity no run ever has more admitted visitors than the capacity. |
| RoomBounds.GateIsShut | src/durable-object/queue-room.ts:1446-1464 | The gate is open exactly when the room is not paused, not before its opening, not closed and not stopped by the ladder. |
| RoomBounds.ShutGateAdmitsNobody | src/durable-object/queue-room.ts:1446-1464 | No event admits anybody when one of these holds at the time the gate is asked about. |
| RoomBounds.DueBatchAdmits | src/durable-object/queue-room.ts:763-792 | The alarm handler admits somebody if and only if, before it does, somebody waits, the budget of its start allows somebody and the gate was open at its start. |
| RoomBounds.ShutRoomAdmitsNobody | src/durable-object/queue-room.ts:666-678 | In a room that is shut when an event happens, the event admits somebody if and only if it is the end of a handler for which such a batch is due; and one is due only when a closing time or the end of a health override lies between the handler's start and the event. |
| RoomBounds.ShutSince | src/durable-object/queue-room.ts:1446-1464 | A room that was open at one time is shut at a later one, with the same settings, if and only if it closed in between or a health override at pause ran out. |
| RoomBounds.RunSucceeds | src/durable-object/queue-room.ts:689-743 | Over every run a row keeps its identity; waiting may become anything, admitted only left or expired, and an end is final until the purge. |
| RoomBounds.PositionNeverRisesInRun | src/durable-object/queue-room.ts:1053-1061 | Over every run, a visitor's position never rises while it waits. |
| RoomBounds.AlarmFinishMoves | src/durable-object/queue-room.ts:763-792 | The budgeted batch respects capacity and the gate at the time the handler started. |
| BatchSizes.TickBatchSize | src/durable-object/queue-room.ts:763-792 | A tick whose gate is open admits exactly the least of the waiting, the free seats and the floor of remainder plus rate (in a lottery of 32 or fewer out of more, at least one and at most that), and keeps the fraction; the rate is the operator's or the configured one, multiplied while the origin is slow. A shut gate admits nobody. |
| BatchSizes.TickRows | src/durable-object/queue-room.ts:673-678 | The tick admits those rows at the time of its handler and closes a bucket that is over by then. |
| BatchSizes.BatchRows | src/durable-object/queue-room.ts:797-825 | Whoever is picked is admitted in place, entered exactly when no click is required, with the batch's time and without a further slot; every other row is left alone. |
| BatchSizes.ForceBatchSize | src/durable-object/queue-room.ts:352-378 | Operator-assisted admission admits the least of the count asked for, the waiting and the free seats, or nobody when the gate is shut. |
| BatchSizes.LeaveBatchSize | src/durable-object/queue-room.ts:750-761 | The refill admits the least of those still waiting and the seats free after the departure, or nobody when the gate is shut. |
| RoomBounds.ForceAdmitMoves | src/durable-object/queue-room.ts:352-378 | So does operator-assisted admission. |
| RoomBounds.LeaveMoves | src/durable-object/queue-room.ts:243-275 | So does the refill after a departure. |
| RoomBounds.JoinMoves | src/durable-object/queue-room.ts:127-183 | So does joining, which also respects the waiting cap. |
| CallOutcomes.JoinOutcome | src/durable-object/queue-room.ts:127-183 | For every table after the sweep: who is here is shown its row; anybody else gets a free seat of an open room, entered exactly when no click is required; else is refused if and only if the waiting set is at its cap; else is appended as waiting, in position waiting + 1, with the first slot of its own at least five seconds ahead. The id is refused if and only if an ended row still has it. |
| CallOutcomes.StatusOutcome | src/durable-object/queue-room.ts:185-215 | The status is shown if and only if the row is waiting or admitted, and is that of the row in the table; an admitted row is not written; a waiter's slot before an opening is moved after it, one that is due is renewed in the visitor's exact period, and an early call writes nothing. |
| CallOutcomes.HeartbeatOutcome | src/durable-object/queue-room.ts:277-305 | A heartbeat is a check-in if and only if the row is waiting, and not found otherwise. |
| CallOutcomes.EnterOutcome | src/durable-object/queue-room.ts:217-241 | Entered if and only if the row is admitted, not admitted if and only if it is waiting, not found otherwise; entering sets the flag and nothing else. |
| CallOutcomes.LeaveOutcome | src/durable-object/queue-room.ts:243-275 | Not found if and only if there is no row, expired if and only if that is its status, left otherwise; a row that is here is marked as left before the refill. |
| CallOutcomes.WhoIsHereIsAnswered | src/durable-object/queue-room.ts:185-305 | Told from before the sweep: status, heartbeat, enter, join and leave find the visitor if and only if its row is active and its time is not up. |
| CallOutcomes.RenewedIsGiven | src/durable-object/queue-room.ts:1349-1377 | A renewal gives the first second of the visitor's own at least one second ahead, in the short period exactly for the first 500 and whoever is within a minute of the front, or in a lottery that is through within a minute. |
| RoomLiveness.WakesSoon | src/durable-object/queue-room.ts:1524-1570 | After ensureAlarm an alarm is set if and only if there is work; at most 1250 ms away when somebody waits and may be admitted, and never later than 250 ms after the next retry. |
| RoomLiveness.AlarmIsExact | src/durable-object/queue-room.ts:1524-1570 | The alarm exactly: none without work; else the next look (1 s, 5 s or 15 s, or the probe interval) or the earliest webhook, whichever is first; an alarm no more than 250 ms later than that is kept. |
| CallOutcomes.CallsLookAgain | src/durable-object/queue-room.ts:127-275 | Joining, entering, leaving and the operator's batch look at the alarm again, for the table as it then is. |
| RoomLiveness.ChangeLooksAgain | src/durable-object/queue-room.ts:380-533 | Which operator changes look at the alarm again. |
| RoomLiveness.StepKeepsInv | src/durable-object/queue-room.ts:666-678 | Every event keeps: work implies an alarm or a running handler, the outbox keeps its schedule, the handler's selection stays current, the remainder stays a fraction. |
| RoomLiveness.RunKeepsInv | src/durable-object/queue-room.ts:1524-1570 | So does every run from every such state. |
| RoomLiveness.PostIsPrompt | src/durable-object/queue-room.ts:630-640 | In every reachable state the i-th delivery of a handler is settled at most 5 i seconds after the handler started, and i is at most ten. |
| RoomLiveness.RunSpacesPosts | src/durable-object/queue-room.ts:608-663 | Over every run a webhook is POSTed at most seven times from the outbox, each no sooner than its delay after the one before less the lateness of that one within its handler, which is at most 50 s. |
| RoomLiveness.EveryRoomIsAwake | src/durable-object/queue-room.ts:109-121 | All of it holds in every room that a run from the empty one leads to. |
| RoomTraffic.StepConserves | src/durable-object/queue-room.ts:666-678 | After every event inflow equals rows present plus purged; traffic counts are never made up, and conserved if and only if the event is not the batch that is due of a handler overtaken by a bucket with counts; stored buckets keep their shape if and only if it is not a batch that is due and reopens one of them. |
| RoomTraffic.RunConserves | src/durable-object/queue-room.ts:154-180 | Over every run inflow = rows present + purged; and joins and admissions stored, open and pruned add up to all there were if and only if no batch along the run was overtaken. |
| RoomTraffic.RunKeepsBuckets | src/durable-object/traffic-buckets.ts:37-111 | In every state of a run the stored buckets are aligned, in order and strictly before the open one, if and only if no batch along it reopens a stored bucket. |
| RoomTraffic.OvertakenBatchLosesCounts | src/durable-object/queue-room.ts:666-676 | What an overtaken batch loses, with an instance: every count of the newer bucket. |
| OvertakenRun.HandlerCanBeOvertaken | src/durable-object/queue-room.ts:620-678 | A legal run from the empty room in which a handler is overtaken while it awaits a webhook: it then admits a visitor after the closing time, loses a join and reopens a stored bucket. |
| RoomBudget.RunSpendsItsBudget | src/durable-object/queue-room.ts:763-792 | Over every run, visitors admitted by ticks plus the final remainder are covered by the initial remainder and the rates of the ticks; so fewer than 1 + the sum of the rates. |
| RoomSettings.SettingsTakeEffect | src/durable-object/queue-room.ts:927-945 | What the operator sets is what the room then uses; values out of range change nothing. |
| RoomSettings.SettingsKeepTheRest | src/durable-object/queue-room.ts:380-533 | A change of one setting leaves every other one, the sequence and the budget alone. |
| RoomSettings.AcceptedChangeLasts | src/durable-object/queue-room.ts:380-533 | After an accepted change and any run in which no other of its kind is accepted, the room works by what was set, for every request and at every time. |
| RoomSettings.DefaultsLast | src/durable-object/queue-room.ts:927-945 | In every room whose runs have no accepted change of a kind, the default or the request's configuration counts. |
| RoomSettings.ConfigurationRemembered | src/durable-object/queue-room.ts:380-425 | Which configuration the alarm works with after a change. |
| CheckIns.DueCheckInMovesForward | src/durable-object/queue-room.ts:1349-1377 | A due check-in in an open room moves the stored slot at least 1 s forward, to one that is not due, even when the depth and with it the period has changed. |
| CheckIns.PunctualIsNeverMissed | src/durable-object/queue-room.ts:185-212 | In every run, as long as a waiter calls again within 30 s of each slot it was told, every event leaves it waiting or admits it, unless it is the waiter's own leave, or ends a stay whose limit has passed; it is never expired for a missed slot. |
| CheckIns.OthersKeepTheSlot | src/durable-object/queue-room.ts:689-719 | Events of others, within a waiter's window, leave its row alone, admit it, or end a stay whose limit has passed. |
| CheckIns.OwnCallIsAnswered | src/durable-object/queue-room.ts:1288-1377 | A call in time finds the stay limit passed, or is answered with the slot that is stored, and from the slot on that is one in the future. |
| CheckIns.JoinTellsTheSlot | src/durable-object/queue-room.ts:165-182 | A new waiter is told the slot it is stored with, and it lies ahead. |
| CheckIns.GraceIsAtLeastHalfAMinute | src/core/config.ts:25-29 | Whatever the setting, a missed slot is forgiven for at least 30 s. |
| Tokens.NeverOutlives | src/auth/token.ts:81-96 | A token outlives no slot if and only if its minting second began no later than the admission. |
| TokenRevocation.EpochCountsBumps | src/durable-object/queue-room.ts:462-471 | Over every run the room's epoch rises by exactly the number of revocations. |
| TokenRevocation.RevokedIffBumped | src/auth/token.ts:66-76 | A token issued anywhere along a run is refused as revoked at its end if and only if it is unexpired and the epoch has been raised since; unexpired and not revoked since, it is accepted. |
| Tokens.SlotTokenWithinSlot | src/routes/queue.ts:219-230 | While a token from /status or /enter verifies, no sweep so far can have taken the slot, and queue and epoch are the expected ones. |
| Tokens.SlotTokenLasts | src/routes/queue.ts:219-230 | A token from /status or /enter lasts to within a second of the end of the slot. |
| TokenRevocation.TokensAreIssued | src/routes/queue.ts:203-274 | A token is issued by /status exactly to a visitor that is here, admitted and entered, by /enter exactly to one that is here and admitted, and runs from its admission. |
| Tokens.RejoinTokenOutlivesSlot | src/routes/queue.ts:179-192 | A token from a repeated /join outlives its slot if and only if it is minted in a later second than the admission. |
| Tokens.StepKeepsHolder | src/durable-object/queue-room.ts:728-735 | Nothing but its own leave ends an entered visitor's slot before its time. |
| Tokens.TokenProvesSlot | src/routes/queue.ts:219-230 | As long as a token for a row that may have one is unexpired, the row holds its slot. |
| AdmissionTimes.StepKeepsDates | src/routes/queue.ts:219-230 | Every admission keeps a time other than zero, so that the token is dated from it. |
| Tokens.IssuedProvesSlot | src/routes/queue.ts:203-274 | Whoever is issued a token by /status or /enter holds a slot for as long as it is unexpired. |
| Tokens.LiveTokensFitCapacity | src/routes/queue.ts:203-274 | With fixed capacity and lifetime, the visitors with an unexpired token from /status or /enter who have not left never outnumber the capacity, in any run. |
| Lottery.SelectWaitingLottery | src/durable-object/queue-room.ts:857-913 | A draw is a duplicate-free set of waiters of at most the size asked for, of exactly that size in the two exhaustive branches, and empty only when nothing is asked for or nobody waits. |
| Lottery.DrawOffsets | src/durable-object/queue-room.ts:888-893 | The sampled offsets are distinct and below the waiting count, and there is at least one. |
| Lottery.IdsAtOffsets | src/durable-object/queue-room.ts:895-912 | Every offset hits a row, and each yields its own waiter. |
| QueueRooms.QueueRoom.constructor | src/durable-object/queue-room.ts:109-121 | A new room is empty and coherent. |
| QueueRooms.QueueRoom.Evict | src/durable-object/queue-room.ts:110-113 | Eviction drops the in-memory depth and the memoized counts; the room stays coherent. |
| QueueRooms.QueueRoom.EnsureDepth | src/durable-object/queue-room.ts:1063-1076 | The depth is read back from the meta keys or counted; a coherent room stays coherent. |
| QueueRooms.QueueRoom.ReconcileDepth | src/durable-object/queue-room.ts:1078-1085 | Both mirrors become the true counts. |
| QueueRooms.QueueRoom.BumpDepth | src/durable-object/queue-room.ts:1087-1095 | The two mirrors move together by exactly the deltas: the clamps at zero never act. The memoized counts are untouched. |
| QueueRooms.QueueRoom.CountByStatus | src/durable-object/queue-room.ts:1037-1040 | The cached count is the COUNT(*) of the table. |
| QueueRooms.QueueRoom.WaitingAhead | src/durable-object/queue-room.ts:1053-1061 | The memoized count is the fresh count of waiting rows with a lower sequence. |
| QueueRooms.QueueRoom.Sweep | src/durable-object/queue-room.ts:689-748 | The three UPDATEs, the DELETE and the conditional recount take the cache-free sweep step and leave the caches coherent. |
| QueueRooms.QueueRoom.ToView | src/durable-object/queue-room.ts:1117-1197 | The view shown from the caches is the view of the tables. |
| QueueRooms.QueueRoom.InsertVisitor | src/durable-object/queue-room.ts:995-1024 | An insert takes a sequence number first, fails on a known id, and needs no cache to be cleared. |
| QueueRooms.QueueRoom.SelectWaiting | src/durable-object/queue-room.ts:831-850 | The selection is one that the mode allows for this limit. |
| QueueRooms.QueueRoom.AdmitSelected | src/durable-object/queue-room.ts:797-825 | The loop of UPDATEs admits exactly the selection and leaves the caches coherent. |
| QueueRooms.QueueRoom.Join | src/durable-object/queue-room.ts:127-183 | Joining takes the cache-free step and returns its result. |
| QueueRooms.QueueRoom.Status | src/durable-object/queue-room.ts:185-215 | So does a status call, with its repair, renewal and read-only branches. |
| QueueRooms.QueueRoom.Heartbeat | src/durable-object/queue-room.ts:277-305 | So does a heartbeat. |
| QueueRooms.QueueRoom.RepairCheckInBeforeOpen | src/durable-object/queue-room.ts:1324-1347 | Exactly the slots before the opening time are moved. |
| QueueRooms.QueueRoom.RenewCheckIn | src/durable-object/queue-room.ts:1349-1377 | A renewal stores the slot and the heartbeat time of the cache-free step. |
| QueueRooms.QueueRoom.Enter | src/durable-object/queue-room.ts:217-241 | Entering takes the cache-free step and returns its result. |
| QueueRooms.QueueRoom.Leave | src/durable-object/queue-room.ts:243-275 | Leaving takes the cache-free step, with an allowed batch into the vacated slots. |
| QueueRooms.QueueRoom.ForceAdmit | src/durable-object/queue-room.ts:352-378 | Operator-assisted admission takes the cache-free step and reports true counts. |
| QueueRooms.QueueRoom.AdmitAvailable | src/durable-object/queue-room.ts:750-761 | All open slots are filled with an allowed batch, or none when the gate is shut. |
| QueueRooms.QueueRoom.AdmitFromBudget | src/durable-object/queue-room.ts:763-792 | The tick spends its budget on an allowed batch within slots and keeps the remainder. |
| QueueRooms.QueueRoom.Metrics | src/durable-object/queue-room.ts:307-345 | The counts reported are those of the tables, entered and holding adding up to admitted; inflow and open counts are those of the accounts. |
| QueueRooms.QueueRoom.GetTraffic | src/durable-object/queue-room.ts:544-590 | Reading the traffic flushes the open bucket and changes nothing else. |
| QueueRooms.QueueRoom.RecordTraffic | src/durable-object/queue-room.ts:983-989 | Recording takes the cache-free step. |
| QueueRooms.QueueRoom.EnsureAlarm | src/durable-object/queue-room.ts:1524-1570 | The alarm is set, kept or deleted as the cache-free step says. |
| QueueRooms.QueueRoom.EnqueueWebhook | src/durable-object/queue-room.ts:592-606 | Enqueuing takes the cache-free step. |
| QueueRooms.QueueRoom.AlarmFire | src/durable-object/queue-room.ts:666-668 | The handler starts with the due deliveries of its time, none settled. |
| QueueRooms.QueueRoom.AlarmPost | src/durable-object/queue-room.ts:620-663 | One delivery is settled by its outcome, and its retry dated from the start of the handler. |
| QueueRooms.QueueRoom.AlarmSweep | src/durable-object/queue-room.ts:669-672 | The handler sweeps with the remembered configuration and decides whether to probe. |
| QueueRooms.QueueRoom.AlarmFinish | src/durable-object/queue-room.ts:673-678 | The handler admits from its budget, flushes and re-arms. |
| QueueRooms.QueueRoom.AlarmProbe | src/durable-object/health-state.ts:60-72 | The ladder climbs from the state read before the probe. |
| QueueRooms.QueueRoom.SetMode | src/durable-object/queue-room.ts:380-394 | The mode override is stored, and also in the remembered configuration. |
| QueueRooms.QueueRoom.SetAdmitUx | src/durable-object/queue-room.ts:397-425 | Click and hold settings are stored and remembered. |
| QueueRooms.QueueRoom.SetPaused | src/durable-object/queue-room.ts:427-433 | Only resuming re-arms the alarm. |
| QueueRooms.QueueRoom.SetSchedule | src/durable-object/queue-room.ts:435-451 | Only the given times change. |
| QueueRooms.QueueRoom.SetHealthConfig | src/durable-object/queue-room.ts:477-491 | Probe settings are parsed, and disabling resets the ladder. |
| QueueRooms.QueueRoom.OverrideHealth | src/durable-object/queue-room.ts:493-500 | The override is stored. |
| QueueRooms.QueueRoom.ClearHealthOverride | src/durable-object/queue-room.ts:502-506 | The override is dropped, without re-arming. |
| QueueRooms.QueueRoom.SetAdmitRate | src/durable-object/queue-room.ts:508-522 | A rate out of range is refused. |
| QueueRooms.QueueRoom.ClearAdmitRate | src/durable-object/queue-room.ts:524-533 | The rate override is dropped. |
| QueueRooms.QueueRoom.SetMaxWaitingVisitors | src/durable-object/queue-room.ts:1225-1234 | A cap out of range is refused. |
| QueueRooms.QueueRoom.SetMissedSlotGraceSeconds | src/durable-object/queue-room.ts:1236-1250 | A grace out of range is refused. |
| QueueRooms.QueueRoom.BumpTokenEpoch | src/durable-object/queue-room.ts:467-471 | The epoch rises by one. |
| FifoQueue.ApplyKeepsInv | src/queue/simulator.ts:31-76 | A waiter exists only when every seat is taken, the line is in arrival order, and nobody stands or sits twice, after every operation. |
| FifoQueue.TickAdmitsNobody | src/queue/simulator.ts:71-76 | A tick only accrues budget: whoever waits, waits because all seats are taken. |
| FifoQueue.DepartSeat | src/queue/simulator.ts:51-60 | A vacated seat goes to the first in line. |
| FifoQueue.AdmissionsFollowArrivals | src/queue/simulator.ts:133-143 | Over any run, visitors are seated in the order of their arrival numbers. |
| Simulator.NewWaiterAtEnd | src/queue/simulator.ts:44-47 | A new waiter stands once, at the end of the line, if and only if no dead entry of its id is left in the deque. |
| Simulator.ReusedIdOvertakes | src/queue/simulator.ts:62-67 | An instance of a reused id that overtakes and stands in the line twice. |
| Simulator.InMemoryQueue.constructor | src/queue/simulator.ts:20-29 | A new simulator is the empty queue. |
| Simulator.InMemoryQueue.PollWaiting | src/queue/simulator.ts:145-165 | A poll finds the first live entry; what is left of the deque is what stood behind it, compacted or not. |
| Simulator.InMemoryQueue.PollWaitingLottery | src/queue/simulator.ts:167-181 | A lottery poll finds a live entry unless nobody waits. |
| Simulator.InMemoryQueue.FillSlots | src/queue/simulator.ts:133-143 | As many waiters are seated as limit, slots and line allow, and they are the front of the line. |
| Simulator.InMemoryQueue.Join | src/queue/simulator.ts:31-49 | Joining is an arrival in the plain queue, with right counters for any id, and exact as to when it stands last. |
| Simulator.InMemoryQueue.Leave | src/queue/simulator.ts:51-68 | Leaving is a departure in the plain queue; the seat, if any, is refilled. |
| Simulator.InMemoryQueue.Tick | src/queue/simulator.ts:71-76 | A tick is a tick of the plain queue and admits nobody. |
| Simulator.InMemoryQueue.Position | src/queue/simulator.ts:78-98 | The position is the place in the line; there is one exactly for waiters in Queue Mode. |
| Simulator.InMemoryQueue.WaitingIdsInOrder | src/queue/simulator.ts:112-121 | The ids are those of the line, in order. |
| RoomFifo.BatchSeen | src/durable-object/queue-room.ts:797-850 | In Queue Mode a batch of n seats the first n of the line, and only those. |
| RoomFifo.SweepUnseen | src/durable-object/queue-room.ts:689-748 | Unless a timeout has passed, a sweep changes neither line nor guests. |
| Mirror.StepMirrors | src/durable-object/queue-room.ts:127-183 | Under the mirror's conditions every event of the room is its operation of the plain queue, or none. |
| Mirror.RunMirrors | src/durable-object/queue-room.ts:750-825 | Along every quiet Queue Mode run line, admitted visitors, sequence numbers and remainder are those of the plain queue. |
| Mirror.Replay | src/queue/simulator.ts:31-76 | The simulator carries out any run of operations without reused ids as the plain queue does. |
| Mirror.MirrorRun | src/queue/simulator.ts:1-7 | The simulator fed with the operations of a quiet run ends with the room's line, admitted visitors, numbers and remainder. |
| Text.TrimTrims | src/auth/ip-allowlist.ts:24 | Trimming leaves no space at either end and trims once for all. |
| Text.SplitOfJoin | src/auth/ip-allowlist.ts:112 | Splitting undoes joining. |
| Text.JoinOfSplit | src/auth/ip-allowlist.ts:112 | Joining undoes splitting. |
| Text.CanonicalNumerals | src/auth/ip-allowlist.ts:126-129 | A decimal numeral survives the canonical test exactly when it has no leading zero. |
| Text.HexRoundTrip | src/auth/ip-allowlist.ts:179 | A printed hexadecimal word reads back. |
| IpAddress.ParseIpv4Bytes | src/auth/ip-allowlist.ts:111-133 | The loop fills the bytes of the dotted quad, or fails. |
| IpAddress.Ipv4RoundTrip | src/auth/ip-allowlist.ts:231-234 | Every IPv4 address reads back from its text. |
| IpAddress.Ipv4TextIsCanonical | src/auth/ip-allowlist.ts:111-133 | A dotted quad that is accepted is the only text of its address. |
| IpAddress.ParseIpv6Bytes | src/auth/ip-allowlist.ts:135-198 | The loops collect the words and fill the bytes of the parsed address, or fail. |
| IpAddress.FullForm | src/auth/ip-allowlist.ts:160-175 | Eight groups, with or without leading zeros, are read as their eight words. |
| IpAddress.CompressedForm | src/auth/ip-allowlist.ts:154-187 | One "::" stands for exactly the zero groups that are missing, anywhere in the text. |
| IpAddress.DottedTail | src/auth/ip-allowlist.ts:136-146 | A dotted tail means the same as two hexadecimal groups. |
| IpAddress.TailGroupValues | src/auth/ip-allowlist.ts:144-145 | And those two groups hold its four bytes. |
| IpAddress.Ipv6TextsHaveTheForms | src/auth/ip-allowlist.ts:135-175 | No other text is accepted: with its dotted tail written out it has one of the two forms. |
| IpAddress.Ipv6RoundTrip | src/auth/ip-allowlist.ts:235-239 | Every IPv6 address reads back from its canonical text. |
| IpAddress.ParseIpBytes | src/auth/ip-allowlist.ts:102-109 | The version is told by a colon. |
| IpAddress.IpRoundTrip | src/auth/ip-allowlist.ts:102-109 | Every address reads back from its text, in its own version. |
| IpAddress.Ipv6Printed | src/auth/ip-allowlist.ts:235-239 | The canonical text is the eight words of the address between colons. |
| IpAddress.GroupPrinted | src/auth/ip-allowlist.ts:235-239 | Each word is printed in lower case without leading zeros. |
| Spelling.HexDigits | src/auth/ip-allowlist.ts:179 | The sixteen digits have their values, in either case. |
| Spelling.HexValueOfLower | src/auth/ip-allowlist.ts:179-187 | A group has the same value in upper, lower and mixed case. |
| Spelling.CaseOfAddress | src/auth/ip-allowlist.ts:102-198 | Every text is read as the same address, or refused, whatever the case of its letters. |
| Cidrs.MaskAddressBytes | src/auth/ip-allowlist.ts:200-216 | The loop computes the mask byte by byte. |
| Cidrs.MaskKeepsPrefix | src/auth/ip-allowlist.ts:200-216 | Two addresses have equal masks if and only if their first n bits are equal. |
| Cidrs.MaskIsIdempotent | src/auth/ip-allowlist.ts:200-216 | Masking twice masks once. |
| Cidrs.HighBitsFirst | src/auth/ip-allowlist.ts:200-216 | The first bits of a byte are its high ones. |
| Cidrs.AddressInNetworkBytes | src/auth/ip-allowlist.ts:218-229 | The loop decides whether the masked address is the network. |
| Cidrs.ParseCidrText | src/auth/ip-allowlist.ts:48-82 | An entry is read as address, prefix and canonical text, or refused. |
| Cidrs.PrefixRange | src/auth/ip-allowlist.ts:62-73 | A prefix length is accepted if and only if it is at most 32 or 128. |
| Cidrs.PlainEntryIsOneAddress | src/auth/ip-allowlist.ts:57-73 | An entry without a prefix length stands for its one address. |
| Cidrs.CanonicalTextIsFixpoint | src/auth/ip-allowlist.ts:75-81 | The canonical text of an entry reads back as the same entry. |
| Cidrs.StoredMatchIsTypedMatch | src/auth/ip-allowlist.ts:95-97 | An address matches a stored entry if and only if it shares the prefix of the address as typed. |
| Allowlist.ParseAllowlistText | src/auth/ip-allowlist.ts:18-46 | The loop normalizes the text line by line, with its set of seen keys. |
| Allowlist.IpMatchesAllowlist | src/auth/ip-allowlist.ts:84-100 | An address matches if and only if it parses and some entry contains it. |
| Allowlist.NormalizationPreservesMeaning | src/auth/ip-allowlist.ts:18-100 | Without errors the stored entries are at most 64, distinct fixpoints, and every address matches them if and only if it shares the typed prefix of some line; there are errors if and only if a line is invalid or more than 64 differ. |
| Allowlist.ParseLinesStores | src/auth/ip-allowlist.ts:38-42 | Even with errors, what is stored are distinct fixpoints, and at most one beyond the limit. |
| Allowlist.NormalizationIsIdempotent | src/auth/ip-allowlist.ts:18-46 | Normalizing what was stored changes nothing. |
| Spelling.CaseOfLine | src/auth/ip-allowlist.ts:18-46 | Two lines equal up to case store the same entry or none. |
| Spelling.PaddingOfLine | src/auth/ip-allowlist.ts:24 | White space around an entry does not matter. |
| Spelling.CommentsAreIgnored | src/auth/ip-allowlist.ts:25-27 | A comment stores nothing and is no error. |
| Spelling.CommasForLines | src/auth/ip-allowlist.ts:23 | Commas separate entries as line breaks do. |
| Spelling.NothingElseBreaks | src/auth/ip-allowlist.ts:23 | Nothing else separates entries. |
| RateLimit.Limiter.RateLimitOrThrow | src/auth/rate-limit.ts:14-25 | A call opens a new window or counts in the open one, and is accepted accordingly. |
| RateLimit.WindowIsFixed | src/auth/rate-limit.ts:14-25 | A window is fixed by the call that opens it: a later call is accepted if and only if the window is over by then or the calls counted since, refused ones included, leave room under the limit. |
| RateLimit.AtMostTwiceTheLimit | src/auth/rate-limit.ts:14-25 | In any half-open interval as long as the window a key is granted at most 2 * limit - 1 calls, whatever other keys do. |
| RateLimit.TwiceTheLimitIsReached | src/auth/rate-limit.ts:17-24 | For every limit and every window of 2 ms or more some run is granted that many. |
| RateLimit.OneMillisecondWindow | src/auth/rate-limit.ts:17-24 | With a window of 1 ms a key is granted at most limit calls in it. |

## Left out

- String encodings of meta values, JSON and URL parsing, `queue_name`, schema migration and rows from before version 5
  without a `next_check_at`: the tables hold decoded values of the current schema; whether a probe URL is usable is a flag.
- Estimated waits, hold seconds, poll intervals, odds, average and oldest wait, close action, room phase and the rows
  returned by `getTraffic`: display only, they feed back into nothing that is modelled.
- How a health probe is made (URL, timeout, expected status and latency): its result and its time are free choices.
- HTTP handlers, cookies, KV stores, signatures and their keys: a token is its claims.
- `request.now` and `Date.now()` are one clock reading within one atomic step, and the epoch of a token is read in the step
  that shows the visitor. Storage calls do not let other events in.
- The time a timer is late: a webhook POST that is given up is settled after five seconds sharp. The time of a POST is that at
  which its outcome is stored.
- A second caller of `processWebhookOutbox` beside the alarm handler, and the runtime's retry of a crashed handler.
- Which visitors a lottery favours: draws are arbitrary numbers in [0, 1) and `ORDER BY RANDOM()` is an arbitrary shuffle, so
  only membership, distinctness and ranges are stated.
- Floating-point rounding: rates and remainders are reals.
- UTF-16: the slot hash takes one number per character, and `toLowerCase` is modelled on ASCII, which is all that canonical
  entries contain.
- The simulator's `count`, `lotteryOdds` and `admittedIds`: they read a counter or sort the map. Its visitor objects are
  values, so a caller that keeps one does not see its status change.
- Bitwise operations on bytes in the allowlist are written as arithmetic: a mask with n leading ones clears the remainder of
  a division, and a 16-bit word is 256 times its high byte plus its low byte.
- Admin UI, geo blocking, branding, audit log, invites, team users and origin proxying.
