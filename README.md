# Reliable queue on a key-value store: message lifecycle model

This project models the message lifecycle of a reliable queue built on a
Redis-like store. It covers the queue manager (the reaper) in
`src/queueManager.ts`, the producer in `src/producer.ts` and the earlier
producer in `producer.ts`. The store's state is one value: an id counter, a
map from id to message record, three id lists (published, processing, dead)
and a log of the ids announced on the notification channel. Timestamps are
integer milliseconds.

- `Repository` (`repository.dfy`) holds the records, the state, the store
  invariant `Inv` and the class `Store`. Each `Store` method is one store
  operation. The repository's atomic moves are not in the source, so their
  contracts (`MovedToPublished`, `MovedToDead`) are **assumptions**. A move to
  the published list takes the id out of processing, appends it to published,
  adds one to `receiveCount`, refreshes `updatedDt` and clears `receivedDt`.
  A move to the dead list takes the id out of processing, appends it to dead
  and refreshes `updatedDt`. Message ids are used directly as keys, including
  the dead-message key.
- `Manager` (`manager.dfy`) holds the construction check, the pure decision
  `Decide`, one sweep step `Process`, the whole sweep `SweepEffect`, and the
  class `QueueManager`. Its `Sweep` method loops over the snapshot of the
  processing list and is proved equal to `SweepEffect`. The lemmas about
  `SweepEffect` are the sweep's properties.
- `Producing` (`producer.dfy`) holds `SendEffect` and the class `Producer`.
  `Producer.Send` is proved equal to `SendEffect`.
- `LegacyProducing` (`legacy_producer.dfy`) is the earlier `add`. It comes
  from an earlier version of the key layout (a job counter, two-field records),
  so the model gives it a store of its own. Its published list and
  notification channel are kept apart from the ones the queue manager uses.

Store failures are inputs. For a send or add, `fault` names the first store
call that raises. For a sweep, `rejected` is the set of ids whose atomic move
the store reports as failed.

Facts about the code that the model keeps:
- The producer pushes a new id onto the head of the published list (`lpush`).
  The earlier `add` appends it to the tail (`rpush`).
- The redelivery test is `receiveCount == 0 || receiveCount < maxReceiveCount`.
  A message that was never redelivered is therefore always redelivered once,
  even when `maxReceiveCount` is 0 or less. Given the assumed move to
  published, which adds one to `receiveCount`, the number of redeliveries
  before dead-lettering is `max(1, maxReceiveCount)` (`RedeliveryBudget`).
- Given the assumed move to published, take a visibility timeout of 5 s,
  `maxReceiveCount` = 2, and leases that always expire. The first two expired leases are redelivered. The third is
  dead-lettered, and the record's `receiveCount` stays 2
  (`TwoRedeliveriesThenDead`).
- A send whose notification fails reports failure, even though the record and
  the list push have already been committed.

## Model

| member | source | states |
|---|---|---|
| Manager.ValidateConfig | src/queueManager.ts:17-25 | Construction succeeds exactly when the config, `visibilityTimeout` and `maxReceiveCount` are all defined. Both values are then kept unchanged. Otherwise the error is `Configuration`. |
| Manager.QueueManager.Create | src/queueManager.ts:12-26 | The constructor fails with a configuration error in exactly the cases above. Otherwise it yields a fresh manager on the given store that holds both configured values unchanged. |
| Manager.SweepPeriod | src/queueManager.ts:65 | The sweep period is positive and strictly shorter than the visibility timeout, when the timeout is positive. |
| Manager.Decide | src/queueManager.ts:40-55 | The decision is `MissingMetadata` exactly when no record exists. For a present record it is `Skip` exactly when the lease time is absent or the elapsed time is not strictly above `visibilityTimeout*1000`. `Redeliver` implies `receiveCount == 0` or `receiveCount < maxReceiveCount`. `DeadLetter` implies `receiveCount != 0` and `receiveCount >= maxReceiveCount`. |
| Manager.Process | src/queueManager.ts:36-57 | For one id, the outcome follows `Decide` on the id's record and the store's verdict. Missing metadata gives `MetadataNotFound`. `Skip` gives `Skipped`. `Redeliver` gives `Redelivered`, or `RedeliveryFailed` when the store rejects the move. `DeadLetter` gives `DeadLettered`, or `DeadLetterFailed` when the store rejects the move. Then: skipping, missing metadata and a failed move leave the store exactly as it was. A successful redelivery is the move to published followed by one notification of the id. A successful dead-lettering is the move to dead, with no notification. |
| Manager.SweepEffect | src/queueManager.ts:34-57 | A sweep reports one outcome per id of the snapshot read at its start. |
| Manager.QueueManager.Sweep | src/queueManager.ts:28-68 | The loop over the processing snapshot yields exactly the state and the outcomes of `SweepEffect` on the processing list as read at its start. It keeps the store invariant. |
| Manager.SweepKeepsInv | src/queueManager.ts:49-53 | A sweep over the snapshot keeps every id in at most one of the published, processing and dead lists. It also keeps the lists free of duplicates and every id allocated. |
| Manager.SweepFrame | src/queueManager.ts:34-36 | An id that is not in the snapshot keeps its list memberships and its record. |
| Manager.SweepIsolation | src/queueManager.ts:36-42 | The outcome of the k-th id is what that id's own record called for at the start. A missing record or a failure on another id does not change it. |
| Manager.SweepReclaims | src/queueManager.ts:40-55 | Reads each snapshot id's fate off its record at the start of the sweep. A missing record, or a lease that is absent or not strictly past `visibilityTimeout*1000`, leaves the id in processing with its record unchanged. An expired lease with `receiveCount == 0` or `receiveCount < maxReceiveCount` puts the id in published only, with `receiveCount` one higher, and announces it. An expired lease with `receiveCount != 0` and `receiveCount >= maxReceiveCount` puts the id in dead only. A move the store rejects leaves the id in processing. |
| Manager.SweepPlacement | src/queueManager.ts:45-55 | After a sweep, a redelivered id is in published only, with `receiveCount` one higher. A dead-lettered id is in dead only, with `receiveCount` unchanged. An id with any other outcome is still in processing with its record unchanged. |
| Manager.SweepDeadOnlyGrows | src/queueManager.ts:83-93 | The old dead list is a prefix of the new one, so nothing leaves the dead list. |
| Manager.SweepAnnouncesRedeliveries | src/queueManager.ts:70-93 | The notifications added by a sweep are exactly the successfully redelivered ids, in order. Dead-lettering and failed moves announce nothing. |
| Manager.ProcessKeepsInv | src/queueManager.ts:50-53 | Handling one id that is in processing keeps the store invariant. |
| Manager.ProcessFrame | src/queueManager.ts:36-57 | Handling one id changes no other id's list membership or record. |
| Manager.RedeliveryBudget | src/queueManager.ts:50 | The budget is at least 1 and at least `maxReceiveCount`. It equals `maxReceiveCount` when that is 1 or more. |
| Manager.BoundedRetry | src/queueManager.ts:49-53 | Take a message whose lease keeps expiring. It is redelivered until `receiveCount` reaches the budget, then dead-lettered exactly once. The dead record's `receiveCount` equals the budget. |
| Manager.ZeroBudgetRedeliversOnce | src/queueManager.ts:50 | With `maxReceiveCount` of 0 or less, a message with `receiveCount` 0 is still redelivered once, then dead-lettered. |
| Manager.TwoRedeliveriesThenDead | src/queueManager.ts:49-53 | With a timeout of 5 s, a budget of 2 and leases expiring after 6 s, the decisions are redeliver, redeliver, dead-letter. The final `receiveCount` is 2. |
| Repository.Remove | src/queueManager.ts:72 | Removing an id from a list keeps exactly the other ids and leaves a list without that id unchanged. It preserves absence of duplicates. |
| Repository.AfterRedelivery | src/queueManager.ts:72 | A redelivered record has `receiveCount` one higher, the same id, payload and creation time, `updatedDt` = now, and no lease time. |
| Repository.MovedToPublishedKeepsInv | src/queueManager.ts:72 | The assumed move to published keeps the store invariant, for an id in processing. |
| Repository.MovedToDeadKeepsInv | src/queueManager.ts:85 | The assumed move to dead keeps the store invariant, for an id in processing. |
| Repository.Store.MoveToPublishedQueue | src/queueManager.ts:72-73 | Assumed: the move reports the store's verdict. On success the state becomes `MovedToPublished`; on failure it is unchanged. |
| Repository.Store.MoveToDeadQueue | src/queueManager.ts:85-86 | Assumed: the same for the move to dead. |
| Repository.Store.GetMessageMetadata | src/queueManager.ts:38 | The read returns the record stored under the id, or nothing when there is none. |
| Repository.Store.ReadProcessing | src/queueManager.ts:34 | The read returns the whole processing list. |
| Repository.Store.Incr | src/producer.ts:24 | The counter increases by one and the new value is returned. Nothing else changes. |
| Repository.Store.ExecEnqueue | src/producer.ts:36-44 | The record write and the `lpush` are applied together. |
| Repository.Store.SendNotification | src/producer.ts:47 | Appends the id to the notification log and changes nothing else. |
| Producing.NewMessage | src/producer.ts:27-34 | The new record has `id` = the allocated id, `payload` = the request, `createdDt == updatedDt == now`, `receiveCount == 0` and no lease time. |
| Producing.SendEffect | src/producer.ts:20-60 | A send succeeds exactly when no store call raises. A failure carries the store call that raised as its cause. |
| Producing.SendAllocatesFreshId | src/producer.ts:24 | A successful send gets the next counter value. No record and no list held that id before, and it is larger than every existing record id. |
| Producing.SendCounter | src/producer.ts:24 | Once `incr` has succeeded, the counter stays advanced even if the later write fails, which leaves a gap in the ids. If `incr` fails, nothing changes. |
| Producing.SendIsAtomic | src/producer.ts:36-44 | A failed exec leaves everything but the counter unchanged. A committed exec writes the whole new record and pushes the id onto the head of the published list. Processing and dead are not touched. |
| Producing.SendAnnounces | src/producer.ts:47-58 | A successful send notifies its id once, after the record and the list entry exist. A failed send notifies nothing. |
| Producing.SendKeepsInv | src/producer.ts:36-44 | A send keeps the store invariant: the new id is in the published list only, and only once. |
| Producing.SuccessiveSendsIncrease | src/producer.ts:24 | Two successful sends in a row get strictly increasing ids. |
| Producing.Producer.Send | src/producer.ts:20-61 | The step-by-step send yields exactly the state and the result of `SendEffect`. It keeps the store invariant. |
| LegacyProducing.AddEffect | producer.ts:17-49 | An add succeeds exactly when no store call raises. A failure carries the store call that raised as its cause. |
| LegacyProducing.AddAllocatesFreshJob | producer.ts:21-32 | A successful add gets the next counter value, which is fresh and larger than every earlier job id. The stored record holds exactly `createdDt` and `payload`. |
| LegacyProducing.AddIsAtomic | producer.ts:29-34 | The two field writes and the `rpush` onto the tail of the published list happen together or not at all. A failed `incr` changes nothing. |
| LegacyProducing.AddPublishes | producer.ts:36-47 | The job id is published only after the write has committed, and only by a successful add. |
| LegacyProducing.AddKeepsInv | producer.ts:29-34 | An add keeps the published list free of duplicates and every id allocated. |
| LegacyProducing.LegacyStore.Incr | producer.ts:21 | The job counter increases by one and the new value is returned. Nothing else changes. |
| LegacyProducing.LegacyStore.ExecAdd | producer.ts:29-34 | Both fields are written under the job id and the id is appended to the tail of the published list, together. |
| LegacyProducing.LegacyStore.Publish | producer.ts:36 | Appends the job id to the notification log and changes nothing else. |
| LegacyProducing.LegacyProducer.Add | producer.ts:17-50 | The step-by-step add yields exactly the state and the result of `AddEffect`. It keeps the invariant. |

## Left out

- The recurring timer (`setInterval`), overlapping sweeps and the unawaited per-id callbacks. Each sweep is one sequential loop, and `SweepPeriod` only records the period.
- Concurrent producers and consumers interleaving with a sweep. Every operation is applied atomically, one after the other.
- The consumer's lease and acknowledgement. These are not part of this model; `ExpiredLeaseRun` re-leases a message only to state the retry budget.
- Manager.QueueManager.Sweep: reads the clock once per sweep (`now`), while the source reads it once per message. It also does not model a failure of the processing-list read, which rejects the whole cycle and changes nothing.
- Failure of the unawaited notification after a redelivery is not modelled. The notification is always logged.
- Parsing of timestamp strings and ISO formatting. Timestamps are integer milliseconds. A lease time that is not a string is `None`; the code's type test skips it. A lease string that does not parse is `None` too; the code gets NaN from it, the comparison is false, and the message is skipped.
- Logging, metrics queue arguments and key-name construction. The model treats the producer's counter, published list and notification channel (`messageUniqId`, `publishedIds`, `notifications`) as the same keys as the queue manager's (`publishedQueue`, `notificationQueue`); the code that builds those names is not part of this model. The repository's code for the moves, the metadata read and the notification is not part of this model either; the contracts above are assumptions about it.
- Producing.SendEffect: assumes exec either applies every command or none. A per-command error inside an exec that still resolves is not modelled.
- LegacyProducing.AddEffect: assumes exec applies both field writes and the `rpush` or none. A per-command error inside an exec that still resolves is not modelled.
- LegacyProducing.LegacyProducer.Add: its interaction with the queue manager's lists is not modelled, because the earlier variant has a store of its own.
- Manager.RedeliveryBudget: `visibilityTimeout` and `maxReceiveCount` are integers here, while the source takes any number. With a fractional `maxReceiveCount` the number of redeliveries is `max(1, ⌈maxReceiveCount⌉)`, which a negative fraction also obeys: it still gets one redelivery. The same holds for Manager.Decide and Manager.BoundedRetry.
