# Verified model of the streaming core

A Dafny model of the template's event streaming and of the stateful algorithms around it, with proofs of
what each promises.

## The system

Events live in one database table, numbered in commit order. Any number of publishers append to it under an
advisory lock. Any number of containers each run one pump that reads the rows above its cursor and hands them
to its local subscribers, through bounded queues that cut off a slow consumer. A client reconnects to any
container with the last id it saw.

| files | what they model | form |
|---|---|---|
| Logs, Database, Publishing | the log, its queries, publishers and pruning; from what is handed in to what is delivered | functions, steps |
| Queues, Subscribers, PostgresBus, Backpressure, HealthyRuns | bounded queues, dispatch, chunked draining | classes and loops, their specification |
| BusProtocol, Draining, Delivery, Progress, Resume | publishers, pumps and subscribers as one transition system | steps, invariants, theorems over every run |
| Wakeup, PumpSleep | LISTEN/NOTIFY and the pump's sleep, alone and within the protocol | steps |
| MemoryBus | the in-memory bus, held to the same contract (`Logs.StreamSpec`) | class |
| RateLimit, RateLimiter | token buckets over real time, and the dictionary that forgets the oldest key | functions, class |
| WebhookStore, WebhookClaims | idempotency keys, and the claim, publish, forget protocol | class, steps |
| Heartbeat, Sse | the heartbeat wrapper, and the SSE wire format with a standard parser | loops, functions |
| Items | the in-memory repository and the event-emitting service | classes |
| Migrations, Migrator, MigrationHistory | files and checksums, one run, and many containers' runs | functions, class, steps |

An await of the source is a point where any other step can come in between. Where the model interleaves more
finely than the source (a pump's batch is dispatched row by row) it only admits more runs.

## Findings

- A resumed session can deliver a row twice, when the client's id is ahead of both the head and the container's
  cursor: the row is dispatched here later and passes the filter. The head falls short when its read fails and
  the cursor stands in (`Resume.FallbackRepeatsARow`), and also when it comes from the database but the row has
  been pruned (`Resume.DatabaseHeadRepeatsARow`). `Resume.ResumeIsExact` gives the exact condition.
- The log head is the largest seq still in the table. After pruning it can be below a pump's cursor
  (`Resume.HeadFallsBelowACursor`); what is then above the head and not delivered has been pruned
  (`Delivery.NothingAboveTheHeadIsMissed`).
- A subscriber queue of size one disconnects healthy consumers. Every other size is safe; zero and less are
  unbounded.
- A cancelled webhook request between the claim and the publish leaves its id recorded without an event,
  because cancellation is not an `Exception` (`WebhookClaims.CancelledClaimIsStuck`). So does a claiming call that
  raises after its row is in, since it stands outside the `try`: the reply is lost, or the prune that follows the
  insert fails (`WebhookClaims.LostClaimIsStuck`). A publish that fails after
  it was committed can lead to a second event (`WebhookClaims.LostReplyPublishesTwice`).
  `WebhookClaims.WhatErrorsCanDo` says exactly when either happens. A duplicate answer can be followed by the
  failure of the delivery it saw (`WebhookClaims.DuplicateIsNoPromise`).
- `max_duration=0` means no deadline.
- The comment above `_seen` says that a fixed time to live makes insertion order expiry order. With `forget`
  in between this still holds (`WebhookStore.StoreStaysOrdered`), because a forgotten key is inserted anew.
- An SSE field with a line end in it is not read back, so the type of an event must not have one
  (`Sse.RoundTripIsExact`).

## Model

| member | source | states |
|---|---|---|
| `Database.SeqOrderIsCommitOrder` | src/adapters/persistence/sql/003_publish_event.sql:20-25 | Over every run of any number of publishers, with aborts and pruning, what commits after a snapshot has a larger seq than every row the snapshot could show. |
| `Database.LockIsNeeded` | src/adapters/persistence/sql/003_publish_event.sql:21 | Without the advisory lock this is false: a run of two publishers commits seq 2 before seq 1. |
| `Database.PublishCompletes` | src/adapters/persistence/sql/003_publish_event.sql:20-25 | Whenever the lock is free a publisher can publish, after which its row, with the next number, is the log's last and the lock is free again. |
| `Database.HolderCanFinish` | src/adapters/persistence/sql/003_publish_event.sql:20-25 | Whoever holds the lock after its insert can give it back, which commits its row if it is not committed yet. |
| `Database.AbortLeavesNoRow` | src/adapters/persistence/sql/003_publish_event.sql:20-25 | Until its commit a publish can be rolled back, which leaves nothing behind but a number that was taken. |
| `Database.PruneRemoves` | src/adapters/events/postgres.py:256-262 | Committed rows can be deleted at any time, and then exactly those are gone from the table. |
| `Publishing.LogIsWhatWasHandedIn` | src/adapters/persistence/sql/003_publish_event.sql:20-25 | Over every run of any number of publishers, with aborts and pruning: the log has one row for each commit, in commit order, carrying exactly the topic, type and data that its publisher's insert handed in, with as its number the count of inserts up to then, aborted ones included. |
| `Publishing.PublishedIsDelivered` | src/adapters/events/postgres.py:133-170 | In every run of the whole bus, a published event is among the rows delivered to each live subscriber of its topic that has nothing waiting, with exactly the topic, type and data handed in, if its number is above the subscriber's head and it was committed after the subscriber registered or was not pruned. |
| `Database.HeadCoversTable` | src/adapters/events/postgres.py:157 | `coalesce(max(seq), 0)` is at most the last committed seq, and a committed row above it has been pruned. |
| `Database.FetchIsNextRows` | src/adapters/events/postgres.py:221-224 | With holes left by pruning and gaps left by aborts, the batch query returns exactly the next unread committed rows, up to the limit. |
| `Database.ReplayIsNewest` | src/adapters/events/postgres.py:186-191 | The replay query over the table is the newest n surviving topic rows in (last, head] of the whole log. |
| `Logs.NewestQuery` | src/adapters/events/postgres.py:187-189 | The nested query (newest first, limit, then ascending) yields the newest n rows in ascending order. |
| `Logs.SpecAscends` | src/adapters/events/postgres.py:147-153 | The one delivery contract of both buses, replay in (last, head] and then everything above head, never repeats or reorders a row. |
| `Logs.NewestAppend` | src/adapters/events/memory.py:42 | Appending to a `deque(maxlen=n)` keeps exactly the newest n. |
| `Logs.BufferReplay` | src/adapters/events/memory.py:88 | Filtering a buffer of the newest N by `id > last` gives the newest N of the rows after `last`, for every log, N and `last`. |
| `Logs.ResumePoint` | src/adapters/events/postgres.py:182-191 | Once the first rows after an id have been read, what follows the last of their ids is exactly the rest. |
| `Queues.OpenPortHoldsAll` | src/adapters/events/postgres.py:199-211 | A subscriber that was not closed has queued exactly its topic's rows behind what it held; a closed one holds only the marker. |
| `Queues.OverflowIsExact` | src/adapters/events/postgres.py:202-211 | An open subscriber takes the row exactly if its queue is unbounded or holds fewer than maxsize items, and is otherwise left with the marker alone, so that no bounded queue ever exceeds its size. |
| `Subscribers.Subscriber.CloseStream` | src/adapters/events/postgres.py:207-211 | Whatever was queued, the queue ends up as the close marker alone. |
| `Subscribers.OfferToAll` | src/adapters/events/memory.py:43-52 | Every subscriber gets the row, or the marker if it was full; exactly the full ones are dropped from the topic, whatever the iteration order. |
| `BusProtocol.StepKeeps` | src/adapters/events/postgres.py:106-262 | Every step of any publisher, pump, subscriber or pruning keeps the protocol invariant over log, cursors, batches, queues, heads and replays. |
| `BusProtocol.RunKeeps` | src/adapters/events/postgres.py:106-262 | So every interleaving keeps it. |
| `BusProtocol.FetchKeeps` | src/adapters/events/postgres.py:220-224 | The fetched batch is the log from the pump's position on. |
| `BusProtocol.DispatchKeepsQueue` | src/adapters/events/postgres.py:199-205 | What a subscriber took and has queued is a prefix of what was dispatched since it registered, and all of it while it is open. |
| `BusProtocol.TakeKeepsStream` | src/adapters/events/postgres.py:164-170 | One turn of the live loop keeps: yielded rows are the shown replay and then the taken rows above the head. |
| `BusProtocol.WindowIsFixed` | src/adapters/events/postgres.py:157-162 | The replay window (last, head] never changes after the head was read, whatever commits later. |
| `BusProtocol.CloseStepKeeps` | src/adapters/events/postgres.py:121-129 | Closing a bus ends its local streams and keeps the invariant. |
| `BusProtocol.HeadKnownKeeps` | src/adapters/events/postgres.py:156-160 | A head read from the database and the cursor used when that read fails both leave only pruned rows undelivered above it. |
| `Delivery.DeliveryIsPrefix` | src/adapters/events/postgres.py:143-231 | In every reachable state a subscriber has received, in order and without gap or repetition, a prefix of the newest `replay_size` topic rows in (last, head] followed by the topic rows above head; all of it once nothing is waiting. Holds for both kinds of head, for any Last-Event-ID, and after an overflow or close. |
| `Delivery.NothingAboveTheHeadIsMissed` | src/adapters/events/postgres.py:147-160 | No topic row above the head is missing from the live part unless it had been pruned. |
| `Delivery.ClosedQueueIsMarker` | src/adapters/events/postgres.py:207-211 | In every reachable state a queue with the close marker in it holds nothing else. |
| `Delivery.ClosedBusEndsItsStreams` | src/adapters/events/postgres.py:121-129 | An open bus can be closed at any time: each of its registered streams then holds the marker and nothing else, no other stream is touched, and its pump does nothing more. |
| `Delivery.EndedStreamIsLeftAlone` | src/adapters/events/postgres.py:171-172 | In every reachable state a stream that has ended is off its topic, and no dispatch reaches it. |
| `Delivery.PumpIsExact` | src/adapters/events/postgres.py:213-249 | Every pump dispatches each surviving row above its start cursor exactly once and in seq order, across batches and failed fetches; the rest is ahead of its cursor. |
| `Progress.EveryStreamCanCatchUp` | src/adapters/events/postgres.py:143-231 | A stream on its topic of an open bus is never stuck and need not be dropped: from every reachable state, for every queue size and whichever of its two queries fail, its own steps and its pump's lead to a state where it has been sent all it is due. |
| `Progress.ClosedStreamEnds` | src/adapters/events/postgres.py:162-172 | A stream that was closed, for being slow or with its bus, ends by its own steps: it yields the rest of its replay, takes the marker and is off its topic. |
| `Progress.StreamsStartOnAir` | src/adapters/events/postgres.py:146-154 | A stream can be opened on an open bus at any time; it is then on its topic with nothing queued or sent, and nothing else has changed. |
| `Progress.LeavingIsAlwaysPossible` | src/adapters/events/postgres.py:171-172 | A consumer can leave at any stage; its stream is then over and off its topic, and no other has changed. |
| `Progress.HeadIsTableOrPump` | src/adapters/events/postgres.py:156-160 | In every reachable state: a head read from the database is the largest number in the table, or zero without rows; the one that stands in for it is that of the last row this pump has dispatched, or the pump's start. |
| `Progress.PumpStartsAtTheHead` | src/adapters/events/postgres.py:106-112 | A pump starts from the largest number in the table, or zero. |
| `Progress.FetchReadsNext` | src/adapters/events/postgres.py:220-224 | In every reachable state a fetch reads the next 500 rows of the log, or all there are. |
| `Resume.SessionIsExact` | src/adapters/events/postgres.py:178-196 | For any session at all with a Last-Event-ID, known or not: what it is sent is exactly the topic rows after the id if and only if the missed window fits the replay and survived pruning, and the live part starts at the right row. |
| `Resume.ResumeIsExact` | src/adapters/events/postgres.py:156-168 | For a client that brings a known id, its own row pruned or not, and for both kinds of head: the session is exactly what it is owed if and only if the replay reached back far enough, nothing it still needs was above the head and already dispatched here (never so while the rows after its id survive), and `last <= max(reg_seq, cursor at registration)` or the id's row is from before the pump's start: a test of three numbers in hand before anything is yielded. |
| `Resume.DatabaseHeadReaches` | src/adapters/events/postgres.py:157-158 | A head read from the database has reached every known id whose own row is still in the table, so such a client always passes that test. |
| `Resume.ChainIsContiguous` | src/adapters/events/postgres.py:178-196 | Sessions on any containers, each opened with the id the last one left, a known id that is not ahead of its container, with a missed window that survived until its replay query and fits the replay, put end to end are a contiguous, duplicate-free part of the topic log. |
| `Resume.FirstSessionIsExact` | src/adapters/events/postgres.py:147-170 | A first session, which brings no id, is sent in order exactly the topic rows after its start. |
| `Resume.FirstSessionStartsTheChain` | src/adapters/events/postgres.py:143-196 | With the chain of reconnects that follows it, it delivers a contiguous, duplicate-free part of the topic log. |
| `Resume.HeadFallsBelowACursor` | src/adapters/events/postgres.py:157 | A reachable state in which a head read from the database is below the cursor of the pump that serves the session. |
| `Resume.FallbackRepeatsARow` | src/adapters/events/postgres.py:158-160 | When the head read fails, the cursor of this container can lag behind an id from another one, and a row is delivered twice: a reachable state. |
| `Resume.DatabaseHeadRepeatsARow` | src/adapters/events/postgres.py:157-169 | A head read from the database does it too: the row is fetched here and not yet dispatched when it is pruned, so the head no longer covers the client's id: a reachable state. |
| `PostgresBus.Chunk` | src/adapters/events/postgres.py:219 | At least one, and two chunks fit every queue of two or more, while two larger ones would not. |
| `PostgresBus.PostgresEventBus.Register` | src/adapters/events/postgres.py:146-154 | A new subscriber is added to its topic and nothing else changes. |
| `PostgresBus.PostgresEventBus.Discard` | src/adapters/events/postgres.py:171-172 | The subscriber leaves its topic only. |
| `PostgresBus.PostgresEventBus.Dispatch` | src/adapters/events/postgres.py:199-205 | Every subscriber of the topic receives the row under the overflow policy; every other one is untouched. |
| `PostgresBus.PostgresEventBus.DrainUntilYield` | src/adapters/events/postgres.py:225-229 | Between two yields exactly one chunk (or the rest of the batch) is dispatched, the cursor is at its last row, and every queue holds what those rows make of it. |
| `Draining.DrainIsDispatchSteps` | src/adapters/events/postgres.py:225-229 | In the protocol, k dispatch steps of a pump do what the class's loop does: every local subscriber receives its topic's rows in order, the cursor follows the last row and nothing else changes. |
| `Backpressure.HealthyConsumerSurvives` | src/adapters/events/postgres.py:213-231 | For every queue size except one, a consumer that empties its queue at least once in every two yields is never disconnected, and its backlog stays within two chunks, which fit the queue. |
| `Backpressure.QueueOfOneDropsHealthyConsumer` | src/adapters/events/postgres.py:219 | With a queue of one a healthy consumer is disconnected. |
| `HealthyRuns.HealthyStreamStaysOpen` | src/adapters/events/postgres.py:213-231 | The same in whole runs of the protocol, whatever all other publishers, pumps and subscribers do in between: a subscriber whose queue is empty at the end of one of every two stretches of the pump's loop keeps its stream, with a backlog within two chunks. |
| `Wakeup.NoLostWakeup` | src/adapters/events/postgres.py:233-300 | While the LISTEN connection is proven, an unread committed row has its NOTIFY in transit, or `_wake` set, or a fetch coming, in every state of every run, including rows committed before listening began. |
| `Wakeup.AsleepMeansDelivered` | src/adapters/events/postgres.py:250-254 | A pump asleep with nothing to wake it has dispatched every committed row. |
| `Wakeup.UnprovenListenerCanMissARow` | src/adapters/events/postgres.py:297-298 | Before the probe's `_wake.set()` a pump can sleep on an undispatched row. |
| `Wakeup.RestMeansDelivered` | src/adapters/events/postgres.py:250-254 | On a proven connection, a state in which nothing more happens by itself is one with every committed row dispatched. |
| `Wakeup.EverythingIsDelivered` | src/adapters/events/postgres.py:233-254 | Left alone on a proven connection, under every schedule of pump steps and notifications, there is a bound on the steps that are left, and once none is left everything committed is dispatched, without the safety timeout. |
| `Wakeup.TimeoutSuffices` | src/adapters/events/postgres.py:233-254 | Whatever became of the connection and its notifications, the pump's own steps, the safety timeout among them, dispatch every committed row. |
| `Wakeup.EveryCommitIsNotified` | src/adapters/events/postgres.py:276-300 | While the connection listens, proven or not, notifications received and under way number the commits since: none is lost and none invented. |
| `Wakeup.WakeIsExact` | src/adapters/events/postgres.py:252-298 | After any run `_wake` is set exactly if a notification or a proven connection set it since the last wait ended. |
| `Wakeup.ErrorsBackOff` | src/adapters/events/postgres.py:245-249 | In every run the pump does not touch the table between an error and the end of a back-off. |
| `Wakeup.FetchIsLimited` | src/adapters/events/postgres.py:220-231 | A fetch brings at most 500 rows, and the pump goes round again without sleeping exactly if it brought 500; otherwise it has read everything. |
| `PumpSleep.StepKeeps` | src/adapters/events/postgres.py:213-254 | The rows counted for the sleep are the rows of the log in every run of the whole bus, aborted numbers and pruned rows included: commits, fetches and dispatches of the protocol are those of the sleeping pump. |
| `PumpSleep.SleepingPumpIsDone` | src/adapters/events/postgres.py:233-300 | In every such run a pump asleep on a proven connection with nothing to wake it has dispatched every committed row, and each of its live subscribers with an empty queue has been sent everything it is due. |
| `MemoryBus.InMemoryEventBus.Publish` | src/adapters/events/memory.py:39-56 | The event gets the next id, its topic's buffer and every open stream of its topic; all streams keep the delivery contract. |
| `MemoryBus.InMemoryEventBus.Remember` | src/adapters/events/memory.py:40-42 | The counter, the log and every topic's buffer of the newest N stay in step. |
| `MemoryBus.InMemoryEventBus.HandOut` | src/adapters/events/memory.py:43-52 | Exactly the subscribers of the topic receive the event under the overflow policy. |
| `MemoryBus.InMemoryEventBus.Subscribe` | src/adapters/events/memory.py:58-65 | A new stream will replay the newest N rows of the whole log after its Last-Event-ID and then go live; others are untouched. |
| `MemoryBus.InMemoryEventBus.Snapshot` | src/adapters/events/memory.py:81-88 | What the buffer yields is what the contract owes at registration. |
| `MemoryBus.InMemoryEventBus.Next` | src/adapters/events/memory.py:66-75 | One pull yields the next due row, waits only when nothing is left, and ends only at the marker. |
| `MemoryBus.InMemoryEventBus.Leave` | src/adapters/events/memory.py:74-75 | A stream closed by its consumer leaves its topic, with the others untouched. |
| `MemoryBus.ReplayIsNewestAfter` | src/adapters/events/memory.py:81-88 | Buffer and filter agree with the newest N rows after `last` of the full log. |
| `MemoryBus.DueGrows` | src/adapters/events/memory.py:39-53 | A new event extends what the streams of its topic are due by itself, and no other stream's. |
| `MemoryBus.DeliveryIsPrefix` | src/adapters/events/memory.py:39-75 | The in-memory bus meets the same contract: what a stream has yielded is a prefix of what it is due, and all of it when it is open with nothing queued. |
| `RateLimit.CheckKeepsBucket` | src/api/ratelimit.py:45-56 | Tokens stay in [0, burst]; the answer is 0 exactly when a whole token was there. |
| `RateLimit.RefillIsContinuous` | src/api/ratelimit.py:47 | Lazy refill equals a continuously refilled, capped bucket: refilling at any instant in between changes nothing. |
| `RateLimit.WaitIsExact` | src/api/ratelimit.py:51-53 | After a denial the bucket allows exactly from the end of the announced wait on. |
| `RateLimit.RetryHintIsExact` | src/api/ratelimit.py:43-56 | The same however many denied checks happen in between. |
| `RateLimit.RetryAfterSuffices` | src/api/ratelimit.py:58-60 | Waiting the rounded-up `Retry-After` always succeeds. |
| `RateLimit.RateBound` | src/api/ratelimit.py:43-56 | Allowed checks in any window of length T number at most what the bucket held plus rate * T, so at most burst + rate * T. |
| `RateLimit.BurstIsExact` | src/api/ratelimit.py:45-53 | Of n checks at one instant exactly as many are allowed as the bucket holds whole tokens, and those are what it is short of afterwards. |
| `RateLimit.SteadyClientIsNeverDenied` | src/api/ratelimit.py:43-56 | A client that starts with a token and keeps 1/rate seconds between its checks is never denied. |
| `RateLimiter.TokenBucketLimiter.Check` | src/api/ratelimit.py:43-56 | The stored entries and the answer are those of the specification: one token of this key's bucket, the key moved to the end, the oldest dropped above the capacity. |
| `RateLimiter.NewKeyIsAllowed` | src/api/ratelimit.py:46-52 | In any history, a key that was never checked, or has been forgotten since, is answered 0 if the burst is at least one. |
| `RateLimiter.BurstOfNewKey` | src/api/ratelimit.py:46-53 | Of n checks of a new key at one instant, whatever other keys are checked in between as long as it is not evicted, exactly min(n, burst) are answered 0, and they are the first ones. |
| `RateLimiter.StoredKeysAreMostRecent` | src/api/ratelimit.py:46-55 | After any history the stored keys are the last `max_keys` distinct keys checked, in recency order. |
| `RateLimiter.StoredWhileRecent` | src/api/ratelimit.py:54-55 | A key is stored if and only if it was checked and fewer than `max_keys` other keys have been since. |
| `RateLimiter.SameAsUnbounded` | src/api/ratelimit.py:46-55 | A key re-checked before `max_keys` others intervene gets the answers of a limiter that never forgets. |
| `RateLimiter.RateBoundForKey` | src/api/ratelimit.py:43-56 | Such a key is allowed at most burst + rate * T times in any window of any history of the whole limiter. |
| `RateLimiter.RetryHintForKey` | src/api/ratelimit.py:43-56 | In any history of the whole limiter, after a denied call for such a key and however many further denied ones, its next call is allowed if and only if the announced wait is over. |
| `WebhookStore.InMemoryWebhookStore.Purge` | src/adapters/events/memory.py:104-110 | The loop drops from the front exactly the entries `Purged` drops. |
| `WebhookStore.InMemoryWebhookStore.RecordIfNew` | src/adapters/events/memory.py:112-118 | Answer and new contents for both clock readings. |
| `WebhookStore.InMemoryWebhookStore.Forget` | src/adapters/events/memory.py:120-121 | The entry of the key, if there is one, is cut out, every other stays in its place, and the key is not held any more. |
| `WebhookStore.PurgedIsTail` | src/adapters/events/memory.py:104-110 | A purge keeps a tail, led by a live entry within the capacity, and no shorter than any such tail. |
| `WebhookStore.StoreStaysOrdered` | src/adapters/events/memory.py:101-118 | After any history under a monotone clock, forgets included, insertion order is expiry order, keys are distinct and there are at most max_entries + 1. |
| `WebhookStore.EntryIsKept` | src/adapters/events/memory.py:104-118 | While its key is not forgotten, its time not up and fewer than max_entries different newer keys recorded, an entry is held, with only newer keys behind it. |
| `WebhookStore.TwiceNewMeansReleased` | src/adapters/events/memory.py:112-121 | Between two True answers for one key there was a forget, or the time to live elapsed, or at least max_entries different other keys were recorded. |
| `WebhookStore.DuplicateMeansLive` | src/adapters/events/memory.py:112-118 | A False answer is always right: the key was recorded, not forgotten since, and its time has not run out. |
| `WebhookClaims.ExactlyOnce` | src/api/webhooks.py:149-167 | In every interleaving of deliveries of one id, with all-or-nothing publish, successful forget, no cancellation and no claiming call that raises after its row is in: 202 answers <= events <= 1, and at rest the id is recorded iff its event was published iff some delivery was answered 202. |
| `WebhookClaims.ExactlyOnceUnlessClaimIsLost` | src/api/webhooks.py:149-167 | With claiming calls that may raise after their row is in: 202 answers <= events <= 1, and at rest recorded-iff-published holds if and only if no such call happened. |
| `WebhookClaims.LostClaimIsStuck` | src/api/webhooks.py:149 | Such a call alone leaves the id recorded with no event. |
| `WebhookClaims.DuplicateMeansClaimedOrPublished` | src/api/webhooks.py:149-153 | In any run a delivery is answered duplicate exactly when another holds the id: at work, answered 202, or over without releasing it; in a clean run exactly when another is at work or the event is published. |
| `WebhookClaims.RetryGetsThrough` | src/api/webhooks.py:149-167 | Whatever happened before, once the id is not recorded a new delivery can claim it, publish and be answered 202; if its publish is refused the id is free again and no event is added. |
| `WebhookClaims.AnyCallCanBeCutOff` | src/api/webhooks.py:149-164 | A delivery at work can be cancelled wherever it is, which changes neither the record nor the events; a claiming call can raise after its row is in exactly if the id is not recorded. |
| `WebhookClaims.EventsAreCounted` | src/api/webhooks.py:155-164 | In every run there is exactly one event for each delivery that published, whatever it was answered. |
| `WebhookClaims.WhatErrorsCanDo` | src/api/webhooks.py:149-167 | With lost answers, lost claims, failed forgets and cancellation: 202 answers <= 1 and never outnumber events; there is a second event if and only if a delivery that published was answered an error and released and another one published; at rest the recorded claim has no event if and only if some delivery was cancelled, not forgotten or lost its claim before publishing, and there is an event without a record if and only if a released delivery left it. |
| `WebhookClaims.CancelledClaimIsStuck` | src/api/webhooks.py:149-164 | A run that ends with the id recorded and no event: the request is cancelled between claim and publish. |
| `WebhookClaims.LostReplyPublishesTwice` | src/api/webhooks.py:155-164 | A run with two events for one id: the publish commits and then raises, the id is forgotten and the retry publishes again. |
| `WebhookClaims.DuplicateIsNoPromise` | src/api/webhooks.py:149-164 | A duplicate answer does not outlive the claim it saw: a clean run in which an id was answered duplicate and nothing is published or recorded. |
| `Heartbeat.TurnLoop` | src/api/streaming.py:61-81 | The loop takes turns until the stream ends, and its state is that of the specification after as many turns. |
| `Heartbeat.WithHeartbeat` | src/api/streaming.py:43-90 | For any source, timing and deadline: items are a prefix of the source in order, at most one pull is outstanding and at most one pulled item lost, and heartbeats never cancel the pull. With `max_duration` d every heartbeat is sent before start + d, every wait is the interval or, if that is shorter, what remains until start + d, and the stream ends by its lifetime exactly when a turn begins at start + d or later, or is then found without an item; without d, or with zero, never. Each other way of ending happens exactly when it should, and every one of them closes the source. |
| `Sse.FramesReadBack` | src/api/events.py:65-73 | From any state between events, frames and heartbeats are read back as exactly the visible events. |
| `Sse.BodyRoundTrip` | src/api/events.py:60-75 | The retry hint and any mix of heartbeats and frames, parsed as in sections 9.2.5 and 9.2.6 of the WHATWG HTML Standard, give exactly the visible events' id, type and data in order, a reconnection time of 3000 ms, and one comment line for each heartbeat. |
| `Sse.RoundTripIsExact` | src/api/events.py:56-57 | A frame is read back as its event if and only if no field has a line end, the id has no NUL and the type is not empty. |
| `Sse.SseBody` | src/api/events.py:60-75 | The loop writes that body, so its output is read back as the visible events. |
| `Items.InMemoryItemRepository.Get` | src/adapters/persistence/memory.py:28-29 | The item with the id, or none if no item has it. |
| `Items.InMemoryItemRepository.GetByName` | src/adapters/persistence/memory.py:31-36 | The one item whose name matches up to normalisation, if there is one. |
| `Items.InMemoryItemRepository.List` | src/adapters/persistence/memory.py:38-41 | The items from `offset` on, at most `limit` and no fewer unless the list ends, and the total; for negative bounds the Python slice. |
| `Items.PageIsSlice` | src/adapters/persistence/memory.py:38-41 | For all bounds, negative ones included, the page is in order exactly the items at or after the first bound and before the second, a negative bound counting from the end. |
| `Items.InMemoryItemRepository.Create` | src/adapters/persistence/memory.py:50-56 | Refused exactly if some item has the normalised name, and then nothing changes; otherwise the item is stored. Ids and normalised names stay distinct. |
| `Items.InMemoryItemRepository.Update` | src/adapters/persistence/memory.py:58-64 | None exactly if no item has the id; refused exactly if, besides, an item with another id has the normalised name; an update that keeps its own normalised name always succeeds and keeps the item's place. |
| `Items.InMemoryItemRepository.Delete` | src/adapters/persistence/memory.py:66-67 | Exactly the item with the id is removed, and the answer says whether there was one. |
| `Items.WalkShowsAll` | src/adapters/persistence/memory.py:38-41 | Walking the list page by page, with any page size, shows every item once, in order. |
| `Items.PutKeepsUnique` | src/adapters/persistence/memory.py:43-56 | Storing an item whose name no other has keeps ids and normalised names pairwise distinct. |
| `Items.ItemService.Emit` | src/core/services/item_service.py:31-38 | An absent bus or a failing publish is no error. |
| `Items.ItemService.CreateItem` | src/core/services/item_service.py:43-59 | Write, then announce: answer and store do not depend on what the bus does; a refused create announces nothing. |
| `Items.ItemService.UpdateItem` | src/core/services/item_service.py:67-80 | Announced exactly when written; none, refused and written under the same conditions on ids and normalised names, so that keeping one's own name always succeeds, whatever the bus does. |
| `Items.ItemService.DeleteItem` | src/core/services/item_service.py:82-86 | The same for a delete. |
| `Items.CallIsAnnounced` | src/core/services/item_service.py:43-86 | What one call announces takes a listener's copy from the store before to the store after. |
| `Items.EventsRebuildTheStore` | src/core/services/item_service.py:43-86 | After any calls with fresh ids, folding the announced events from empty gives the store with its list order; no two items share an id or normalised name. |
| `Items.AnnouncedIsWhatHappened` | src/core/services/item_service.py:31-86 | A refused or missing call announces nothing and changes nothing; any other announces exactly one change, and only the item it names changed. |
| `Migrations.LineEndsAreNotDrift` | src/adapters/persistence/migrations.py:98-99 | Saving a file with CRLF line ends does not change its checksum. |
| `Migrations.UnixReplaces` | src/adapters/persistence/migrations.py:98-99 | Every CRLF, wherever it stands, becomes one LF; a text without one is left as it is (`Migrations.UnixKeeps`). |
| `Migrations.ChecksumsTell` | src/adapters/persistence/migrations.py:98-99 | If the hash tells two texts apart, they have the same checksum exactly if they agree up to CRLF; without CR, exactly if they are equal. |
| `Migrations.ChangedFileIsRefused` | src/adapters/persistence/migrations.py:186-192 | For a hash that tells the two texts apart: a recorded file drifts exactly if its text is not the one that was executed, line ends aside, and then verify refuses its directory. |
| `Migrations.NumeralsAreRead` | src/adapters/persistence/migrations.py:109 | The decimal numeral of a number, with any leading zeros, is read as that number. |
| `Migrations.NamesAreExact` | src/adapters/persistence/migrations.py:57-58 | For any digits that `\d` takes: a file name is read as versioned with a number and a name, or as repeatable, if and only if it is written `NNN_name.sql` with that number, or `R__name.sql`. |
| `Migrations.Discover` | src/adapters/persistence/migrations.py:102-120 | The first file with a bad name or a taken number is reported; without one every file has a migration and every migration a file, with its number, name, file name, text and the checksum of that text, versions ascending and repeatable files in the directory's order. |
| `Migrations.RepeatablesKeepOrder` | src/adapters/persistence/migrations.py:106-120 | However the directory is sorted by file name, the repeatable files come out in that order. |
| `Migrations.PendingIs` | src/adapters/persistence/migrations.py:199 | The pending files are those not recorded, ascending; there are none exactly when all are recorded. |
| `Migrations.RecordAllIs` | src/adapters/persistence/migrations.py:206-221 | Running files records exactly their versions, with their names and checksums, and touches no other record. |
| `Migrations.UpToDateIffNothingToDo` | src/adapters/persistence/migrations.py:242-250 | Verify accepts a directory exactly when a run would pass the drift check with nothing pending. |
| `Migrations.RunMakesUpToDate` | src/adapters/persistence/migrations.py:186-221 | A run that passes the drift check makes verify accept, and keeps every record it found. |
| `Migrator.SchemaDatabase.Status` | src/adapters/persistence/migrations.py:137-154 | The rows are those that the four lemmas below describe, and no others. |
| `Migrator.VersionedRowsTell` | src/adapters/persistence/migrations.py:143-147 | The first rows are the versioned files in order, each with its number, name, file and time: pending exactly if not recorded, changed exactly if recorded with another checksum, applied exactly if recorded with this one. |
| `Migrator.UnknownRowsTell` | src/adapters/persistence/migrations.py:148-151 | The next rows are recorded versions that the directory lacks, without a file and with the recorded name and time. |
| `Migrator.UnknownAreListed` | src/adapters/persistence/migrations.py:148-149 | All such versions are listed, ascending. |
| `Migrator.RepeatableRowsTell` | src/adapters/persistence/migrations.py:152-153 | The last rows are the repeatable files. |
| `Migrator.SchemaDatabase.VerifyUpToDate` | src/adapters/persistence/migrations.py:242-250 | Accepts if and only if every versioned file is recorded with its checksum. |
| `Migrator.SchemaDatabase.FirstDrift` | src/adapters/persistence/migrations.py:186-192 | Finds the least drifted version, or none exactly if there is no drift. |
| `Migrator.SchemaDatabase.Execute` | src/adapters/persistence/migrations.py:206-232 | Files run in order; the failing one is reported, and without one the table is that of all of them. |
| `Migrator.SchemaDatabase.RunMigrations` | src/adapters/persistence/migrations.py:157-239 | Busy lock, drift (least version), failed file or success, each exactly when it should be; all but success leave table and schema alone; success runs pending then repeatable and reports their file names, the unknown and the out-of-order versions exactly, the latter two ascending. |
| `MigrationHistory.RunsAreAtomic` | src/adapters/persistence/migrations.py:169-232 | However containers' runs interleave under the lock, a step leaves the committed state alone or commits the whole run done at once on it. |
| `MigrationHistory.ReadDecides` | src/adapters/persistence/migrations.py:186-199 | Under the lock a run goes on exactly if no recorded file was changed, with the pending and then the repeatable files to do; otherwise it is over and the lock free. |
| `MigrationHistory.LoneRunCompletes` | src/adapters/persistence/migrations.py:157-239 | Whatever was committed before, a container that finds the lock free and no drift has a run that applies and records everything pending, then the repeatable files, commits and frees the lock. |
| `MigrationHistory.FailureLeavesNoTrace` | src/adapters/persistence/migrations.py:169-239 | A run can fail wherever it stands: what it executed is undone, its lock is free and no other run is touched. |
| `MigrationHistory.RunsCanStart` | src/adapters/persistence/migrations.py:157-180 | A run can start at any time, others or not, and then waits without changing anything. |
| `MigrationHistory.DriftIffTextChanged` | src/adapters/persistence/migrations.py:186-192 | Over any history of runs from an empty database: a directory's file drifts exactly if its text is not the one that was executed under its number, line ends aside, and then the next run of that directory answers drift and verify refuses it. |
| `MigrationHistory.RunKeepsLedger` | src/adapters/persistence/migrations.py:206-221 | A committed run keeps: one execution per version, each record that of the text executed, each record executed. |
| `MigrationHistory.OrderIffNotLate` | src/adapters/persistence/migrations.py:199-203 | A committed run keeps the ascending order exactly if it does not warn "out of order". |
| `MigrationHistory.RunKeeps` | src/adapters/persistence/migrations.py:169-232 | Over any interleaving of any code versions no record is removed or changed and no effect undone. |
| `MigrationHistory.EveryHistory` | src/adapters/persistence/migrations.py:169-236 | From an empty database: each version's SQL commits at most once, each recorded checksum is that of the text executed, and the committed order is ascending if and only if no committed run warned. |
| `MigrationHistory.VerifyStaysAccepted` | src/adapters/persistence/migrations.py:242-250 | Once verify accepts, no later run of any code version makes it refuse. |
| `MigrationHistory.RunMakesVerifyAccept` | src/adapters/persistence/migrations.py:186-250 | A committed run makes verify accept its directory from then on. |

## Left out

- DeliveryIsPrefix: subscriptions come after `start()`, a closed bus is not started again, and a pump's unread rows are not pruned before it fetches them (retention is generous enough); `Delivery.NothingAboveTheHeadIsMissed` and `Delivery.PumpIsExact` share this.
- ChainIsContiguous: a reconnect comes with zero or the id of a committed topic row; for any other id only `Resume.SessionIsExact` holds.
- EverythingIsDelivered: bounds the steps of the pump, not the time they take.
- EveryStreamCanCatchUp: that there are such steps, not that the event loop schedules them.
- ChecksumsTell: the hash is only asked to differ on the two texts at hand, which sha256 is expected to do and no function on all texts can.
- HealthyStreamStaysOpen: the pump's loop suspends after at most a chunk, which `PostgresBus.PostgresEventBus.DrainUntilYield` proves of the loop.
- QueueOfOneDropsHealthyConsumer: one run, which the theorem beside it excludes for every other size.
- ExactlyOnce: one (provider, id) whose claim is retained; expiry and eviction of claims are in WebhookStore, and the database store's expiry is not modelled.
- WithHeartbeat: a consumer leaves at a yield; cancellation during a wait ends in the same `finally`.
- SameAsUnbounded: the rate, the times and the tokens are real numbers; floating-point rounding is not modelled.
- Emit: the in-memory adapters do not suspend between the write and the announcement; over a database, announcements of concurrent writes to one item can come in another order than the writes.
- RunMigrations: a file either runs or raises; the lock and statement timeouts, lost connections and the failure of the commit itself are the `Fail` step of MigrationHistory.
- Discover: which characters count as digits, with what values, and sha256 are arbitrary functions, the former taking neither `_` nor `R`.
- Event timestamps, JSON encoding of event data, and Last-Event-ID texts that are not integers (treated as absent, as in the source).
- Name normalisation (strip and casefold) and the visibility check of the SSE stream are arbitrary functions.
- Mutation of a returned item by its holder: items are values.
- Connections, pools, timeouts as durations, back-off delays and the asyncio scheduler.
- Authentication, signatures, body limits and the checks before the webhook claim.
- `subscriber_count`, the connection limiter, the ticket stores, telemetry, routing, the WebSocket endpoint, the database item repository, configuration and scripts: they would add only easy members.
