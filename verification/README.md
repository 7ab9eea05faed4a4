# A verified model of the handbook's stateful components

The repository is a Go handbook. Its compiled example packages hold a dozen small components with state, and each
has one property that makes it worth teaching: an LRU cache whose hits never fall as it grows, leases whose stale
holders cannot write, a queue that loses no message, a pool that never sends on a closed channel, books that
always balance. This project models those components in Dafny and proves the properties, for every input, every
run, and every interleaving of the concurrent parts.

`dafny verify dfyconfig.toml` checks the whole project.

## How it is built

One file per component; the broker takes seven.

| file | component |
|---|---|
| `Common.dfy` | int64 wrap-around, counting, sums, decimals, `Option` |
| `Lru.dfy` | the LRU cache |
| `Lease.dfy` | the lease coordinator and the fenced storage |
| `Broker.dfy`, `BrokerRuns.dfy`, `BrokerSteps.dfy`, `BrokerLoss.dfy`, `BrokerOrder.dfy`, `BrokerSchedule.dfy`, `BrokerConsume.dfy` | the in-memory broker: the object, conservation, what each step does to a message, when a message is lost, order, the backoff schedule, the consumer loop |
| `WorkerPool.dfy`, `CancelPool.dfy`, `JobProcessor.dfy` | the goroutine pools as transition systems |
| `Heap.dfy` | the binary heap and TopK |
| `Orders.dfy` | idempotent order processing |
| `Ledger.dfy` | money and the double-entry journal |
| `Breaker.dfy` | the circuit breaker |
| `Ring.dfy` | the ring buffer and the dedup window |
| `Calc.dfy` | the two-operand evaluator |

An object that updates its fields is a class, and each of its methods is proved equal to a pure step on a value of
the object's state (`View()` or `Contents()`). What those steps do is stated apart from them: by laws over runs that
read only the operations (who was used last, which postings were in order, how many failures came in a row), and by
method contracts that name the fields. A run is a fold of those steps over a sequence of operations, so
every theorem about runs is a theorem about any sequence of calls on the object.

A concurrent component is a set of atomic steps: each mutex-protected method is one step, and so is each channel
operation. A run is again a fold, over labels that say which step is taken next and what the clock or the handler
answers; a label that cannot fire leaves the state alone, so "for every label sequence" is "for every
interleaving". Where the code reads the clock twice (`Renew`, `redeliver`) the label carries two readings.

Integers that may wrap in a way that matters (lease numbers and expiries, money, the evaluator, the backoff shift,
the cache's counters) wrap explicitly; others are unbounded. Instants are integers with 0 for Go's zero time. A
generic Go zero value is a constructor parameter.

## Where the code and its own words differ

The model follows the code. Where a promise fails, a member says exactly when, and most have one beside it that shows a
run in which it does.

- The cancelable pool says cancellation always lets it close its output. `out <- process(ctx, j)`
  (`08-concurrency/examples/03-workerpool-cancel/main.go:64`) does not select on the context, so once intake has ended
  the pool is stuck exactly when a worker waits for a caller that does not read (`CancelPool.StuckOnlyOnTheReader`,
  `CancelPool.CancelledButNeverClosed`); a caller that keeps reading gets its output closed (`CancelPool.ReadToTheEnd`).
- The breaker promises one probe at a time. Two things break it, and nothing else does (`Breaker.OneProbeRunIff`): a
  call that reads the clock at the very instant `openUntil` is admitted without becoming the probe
  (`Breaker.TwoAtExpiry`), and `Record` does not ask who reports, so a caller admitted before the trip that reports
  late ends the probe for another caller (`Breaker.StaleRecordFreesTheProbe`).
- The broker parks messages under their ID alone. A message can be lost exactly when two live copies of an ID clash:
  one can still be redelivered, and by then the other one can be parked (`BrokerLoss.LossIff`);
  `BrokerRuns.SharedIdLosesAMessage` is such a run across two queues.
- The backoff schedule is kept in every run exactly when the base is not positive or the largest delay within the
  attempt cap fits int64 (`BrokerSchedule.ScheduleHoldsIff`). A positive delay that overflows comes out short
  (`BrokerSchedule.OverflowedDelayIsEarly`), sometimes so short that the deadline is already past
  (`BrokerSchedule.OverflowedDelayIsInThePast`).
- `redeliver` panics outside the handler's recovery exactly when a message with an attempt count below 1, and below
  the cap, fails retryably (`BrokerRuns.CrashIff`); only publishing a negative count leads there
  (`BrokerRuns.NeverCrashes`, `BrokerRuns.NegativeAttemptsCrash`).
- A nil from order processing does not mean the order was applied: the first delivery may still fail
  (`Orders.NilBeforeApplied`).
- TopK with `k <= 0` can return one element, because `Peek` on an empty heap yields the zero value
  (`Heap.TopK`, `Heap.TopKRespectsKIff`).
- Fencing lasts for 2^64 grants and no longer: after the largest int64 number wrapped tokens are rejected everywhere,
  until the numbers start again from 1 (`Lease.FencingIff`, `Lease.WrappedTokensAreRejected`).
- A permanent error breaks out of the retry loop before it is remembered, so the failure log of the job processor
  carries the error of the attempt before it (`JobProcessor.RunWithRetries`).
- Reversing an entry that used an account in a foreign currency leaves that account without a balance
  (`Ledger.ReversalRestores`). `ReversalEntry` does not use its reference parameter, so the model has none.

## Model

| member | source | states |
|---|---|---|
| Lru.LRU.constructor | 03-data-structures/examples/lru/lru.go:31-36 | A new cache is empty, its counters are 0, and a capacity below 1 becomes 1. |
| Lru.LRU.Lockstep | 03-data-structures/examples/lru/lru.go:20-22 | Map and recency list agree: a key is found by the map exactly when the list holds it, with the same value. |
| Lru.LRU.Get | 03-data-structures/examples/lru/lru.go:42-53 | A hit returns the value, moves the entry to the front and counts one hit; a miss counts one miss and changes nothing else; the lockstep is kept. |
| Lru.LRU.MoveToFront | 03-data-structures/examples/lru/lru.go:46 | The element comes first, the others keep their order, and map and list stay in lockstep. |
| Lru.LRU.Peek | 03-data-structures/examples/lru/lru.go:57-65 | Observes the value without promoting or counting. |
| Lru.LRU.Put | 03-data-structures/examples/lru/lru.go:67-89 | The key ends at the front with the new value; the least recently used entry goes exactly when the key is new and the cache was full, and is the pair handed to the hook. |
| Lru.LRU.Update | 03-data-structures/examples/lru/lru.go:70-74 | A present key is promoted and assigned through its element, without touching the index. |
| Lru.LRU.PushFront | 03-data-structures/examples/lru/lru.go:75-76 | A new element goes to the front and into the index. |
| Lru.LRU.Insert | 03-data-structures/examples/lru/lru.go:75-88 | A new key goes to the front and at most one entry leaves, from the back. |
| Lru.LRU.EvictOldest | 03-data-structures/examples/lru/lru.go:78-86 | The back leaves list and index together and one eviction is counted. |
| Lru.LRU.Remove | 03-data-structures/examples/lru/lru.go:92-102 | The key leaves list and index; the answer says whether it was there. |
| Lru.LRU.Len | 03-data-structures/examples/lru/lru.go:104-108 | The number of live entries, never above capacity. |
| Lru.LRU.Metrics | 03-data-structures/examples/lru/lru.go:111-115 | The three counters. |
| Lru.ByRecency | 03-data-structures/examples/lru/lru.go:42-102 | Over any run the recency list is in the order of last use, the latest first, where a Put and a hitting Get are uses and a Peek is not. |
| Lru.PutEvictsLeastRecent | 03-data-structures/examples/lru/lru.go:67-89 | A Put evicts exactly when its key is new and the cache is full; what goes, and is handed to the hook, is the live entry used longest ago; everything else stays. |
| Lru.OthersKeepEntries | 03-data-structures/examples/lru/lru.go:42-102 | Get and Peek lose nothing and add nothing; Remove takes out exactly its key. |
| Lru.StepIncluded | 03-data-structures/examples/lru/lru.go:42-102 | One operation on a small and a large cache keeps the small recency list a subsequence of the large one, and keeps the large one's spare room at least the small one's. |
| Lru.Inclusion | 03-data-structures/examples/lru/lru.go:31-102 | Same operations, larger capacity: the small cache stays included in the large one and hits never fall (no Belady anomaly). |
| Lru.SmallHitIsLargeHit | 03-data-structures/examples/lru/lru.go:42-53 | At every point of a run a hit of the smaller cache is a hit of the larger one, with the same value. |
| Lru.MetricsAreTrue | 03-data-structures/examples/lru/lru.go:110-115 | The uint64 counters are the true numbers of hits, misses and evictions modulo 2^64, and every Get is one or the other. |
| Lru.PutCountsEviction | 03-data-structures/examples/lru/lru.go:77-87 | The eviction counter moves exactly when an entry is handed to the hook. |
| Lru.Coherent | 03-data-structures/examples/lru/lru.go:42-102 | Over any run the cache holds only what an unbounded map would hold: no stale value, distinct keys, size within capacity. |
| Lru.GetCoherent | 03-data-structures/examples/lru/lru.go:42-53 | A hit returns the value last put and not removed since. |
| Lru.CompleteBelowCapacity | 03-data-structures/examples/lru/lru.go:67-89 | As long as no more operations have come than it has room for, the cache answers as the unbounded map. |
| Lru.KeptUnlessFull | 03-data-structures/examples/lru/lru.go:67-89 | While there is room, an entry goes only through Put or Remove of its key. |
| Lease.Coordinator.constructor | 16-distributed-systems/examples/lease/lease.go:35-42 | No holder, no token, numbering from 0. |
| Lease.Coordinator.EvictExpired | 16-distributed-systems/examples/lease/lease.go:50-55 | The delete-while-ranging loop removes exactly the expired holders from both maps, whatever the map order. |
| Lease.Coordinator.Acquire | 16-distributed-systems/examples/lease/lease.go:46-63 | A lease is granted exactly when no unexpired holder is left, with the next number and expiry now + TTL (both wrapping). |
| Lease.Coordinator.Renew | 16-distributed-systems/examples/lease/lease.go:67-78 | An unexpired holder is extended from the second clock reading; anyone else is refused and forgotten. |
| Lease.Fenced.Write | 16-distributed-systems/examples/lease/lease.go:100-109 | A write lands exactly when its number is above the resource's watermark, which it then becomes; otherwise nothing changes. |
| Lease.AtMostOneActive | 16-distributed-systems/examples/lease/lease.go:31-78 | In every run the two maps share a domain of at most one holder, the one granted last. |
| Lease.GrantsNumbered | 16-distributed-systems/examples/lease/lease.go:59-62 | Numbers are the grant order modulo 2^64, and equal to it exactly as long as int64 has not run out. |
| Lease.Fencing | 16-distributed-systems/examples/lease/lease.go:100-109 | With tokens held, delayed, duplicated and reordered at will, and up to 2^64 grants, the accepted writes of each resource follow grant order with strictly increasing numbers. |
| Lease.FencingIff | 16-distributed-systems/examples/lease/lease.go:59-109 | Whatever granted tokens are presented from now on, accepted writes follow grant order: if and only if no more than 2^64 leases have been granted. |
| Lease.StaleWritesNeverLand | 16-distributed-systems/examples/lease/lease.go:97-109 | Once grant g has written a resource, steps presenting only grants up to g there leave its data and watermark alone. |
| Lease.StaleWritesNeverLandInRun | 16-distributed-systems/examples/lease/lease.go:97-109 | The same for any run from the start, split at any point. |
| Lease.WrappedTokensAreRejected | 16-distributed-systems/examples/lease/lease.go:59-109 | In every run, the tokens of the grants after the largest int64 number, up to the 2^64th, are rejected by every resource. |
| Lease.LeasesExclude | 16-distributed-systems/examples/lease/lease.go:46-78 | Under a monotone clock every lease, renewals included, has expired when any later one is granted. |
| Lease.AtMostOneLeaseUnexpired | 16-distributed-systems/examples/lease/lease.go:46-78 | So at every instant at most one granted lease is unexpired. |
| Lease.GrantsAreTerms | 16-distributed-systems/examples/lease/lease.go:46-78 | Under a monotone clock the leases granted, and how long each lasts, are what the operations alone say: TTL after the grant, or after the second clock reading of the holder's last renewal in time; the next one once that has run out. |
| Lease.AnswersAreTerms | 16-distributed-systems/examples/lease/lease.go:46-78 | Acquire answers with a token exactly when no lease is running, and Renew says yes exactly to the holder of the running one. |
| Lease.LeaseLasts | 16-distributed-systems/examples/lease/lease.go:46-63 | A lease granted at an instant keeps everybody else out until that instant plus the TTL, renewals or not. |
| Lease.WriteLands | 16-distributed-systems/examples/lease/lease.go:100-109 | A write whose number is above the watermark puts its payload there and raises the watermark to it; any other write changes nothing. |
| Broker.Broker.constructor | 17-messaging/examples/messaging/broker.go:129-142 | An empty broker with its attempt cap and base backoff. |
| Broker.Broker.Publish | 17-messaging/examples/messaging/broker.go:146-154 | The message joins the back of its queue, visible at once, with attempt count 0 read as 1. |
| Broker.Broker.PromoteDue | 17-messaging/examples/messaging/broker.go:161-167 | Exactly the parked messages whose deadline has come move to the back of their own queues, in whatever order the map walk meets them. |
| Broker.Broker.TakeVisible | 17-messaging/examples/messaging/broker.go:168-175 | The first visible message leaves the queue and the others keep their order. |
| Broker.Broker.Next | 17-messaging/examples/messaging/broker.go:158-176 | Promotion, then the first visible message, as one step. |
| Broker.FirstVisible | 17-messaging/examples/messaging/broker.go:169-174 | The least index whose message is visible, or that there is none. |
| Broker.Broker.Dead | 17-messaging/examples/messaging/broker.go:179-187 | The message goes to the back of the dead-letter queue with its cause, and with a failure stamp if it had none. |
| Broker.Broker.Redeliver | 17-messaging/examples/messaging/broker.go:256-267 | The message is parked under its ID with one more attempt, stamped on the first failure, until now + backoff shifted by attempts - 2; a negative shift panics and changes nothing. |
| BrokerSteps.PublishStores | 17-messaging/examples/messaging/broker.go:146-154 | A published message, with its ID, key and value, is the last of its queue, visible at once, on delivery 1 unless it says otherwise. |
| BrokerSteps.PollPromotes | 17-messaging/examples/messaging/broker.go:161-167 | A poll sends exactly what is due to the back of its own queues, and touches nothing else but the queue polled. |
| BrokerSteps.PollTakes | 17-messaging/examples/messaging/broker.go:168-175 | Of that queue, what came due included, the first visible message goes to the consumer and the others keep their order. |
| BrokerSteps.FinishAcks | 17-messaging/examples/messaging/broker.go:221-225 | Only a handler's success is acknowledged; any answer empties the hand. |
| BrokerSteps.FinishBuries | 17-messaging/examples/messaging/broker.go:179-231 | A terminal failure, and a retryable one at the attempt cap, add exactly one dead letter to the message's queue: the message itself, stamped, with the error or the exhaustion text as reason; no other answer does. |
| BrokerSteps.FinishParks | 17-messaging/examples/messaging/broker.go:228-267 | Every other retryable failure parks the message on its next attempt, with the reason and the stamp, until its backoff has passed; no other answer touches what is parked. |
| BrokerSteps.PanicIsTerminal | 17-messaging/examples/messaging/broker.go:237-248 | A panicking handler has failed terminally; one that returns has answered what it returned. |
| BrokerSteps.RunAnswers | 17-messaging/examples/messaging/broker.go:210-267 | In every run each message has been acknowledged as often as a handler succeeded with it, and dead-lettered as often as one failed with it for good. |
| BrokerRuns.Conservation | 17-messaging/examples/messaging/broker.go:146-267 | In every interleaving each message published is, as often as it was published, in its ready queue, parked, in a hand, acked, dead-lettered or overwritten while parked, with ID, queue, key and value unchanged. |
| BrokerRuns.NothingIsLost | 17-messaging/examples/messaging/broker.go:146-267 | While no message is published under the ID of a live one, no live message is duplicated and none is overwritten. |
| BrokerRuns.ExactlyOnePlace | 17-messaging/examples/messaging/broker.go:146-267 | With such IDs a message published once is in exactly one of ready, parked, held, acked and dead. |
| BrokerRuns.RetryOverwritesNothing | 17-messaging/examples/messaging/broker.go:266 | With such IDs the parking slot that redeliver writes is empty. |
| BrokerLoss.LossIff | 17-messaging/examples/messaging/broker.go:115-266 | From any state a run can be in, with any number of consumers, some continuation that publishes nothing loses a message if and only if two live copies of an ID clash: one can still be redelivered, and the other one can too, or is parked and does not come due before the first can be taken. |
| BrokerLoss.RunNoClash | 17-messaging/examples/messaging/broker.go:146-267 | Without a clash nothing is ever lost, and no clash arises, while nothing is published. |
| BrokerLoss.TwoHeldLose | 17-messaging/examples/messaging/broker.go:256-267 | Whatever the queues, the cap, the clock and the reasons: of two held copies of an ID that can both be redelivered, the one that fails first is lost when the other one fails. |
| BrokerRuns.SharedIdLosesAMessage | 17-messaging/examples/messaging/broker.go:115-266 | A concrete run: two messages of different queues share an ID and both fail; the first is then in no place at all. |
| BrokerRuns.NeverCrashes | 17-messaging/examples/messaging/broker.go:263-265 | If nobody publishes a negative attempt count the shift count is never negative. |
| BrokerRuns.CrashIff | 17-messaging/examples/messaging/broker.go:228-265 | A step panics if and only if a consumer fails retryably with a message whose attempt count is below 1 and below the cap. |
| BrokerRuns.NegativeAttemptsCrash | 17-messaging/examples/messaging/broker.go:228-265 | A message published with a negative attempt count panics on its first retryable failure if the cap is above that count, and is dead-lettered otherwise. |
| BrokerOrder.FirstDeliveriesAreFifo | 17-messaging/examples/messaging/broker.go:146-176 | Across any number of consumers, whatever fails and whatever the clock, the first deliveries of a queue followed by the first deliveries still waiting in it are its publish order. |
| BrokerOrder.ReadyIsVisible | 17-messaging/examples/messaging/broker.go:158-176 | Under a monotone clock everything in a ready queue is already visible. |
| BrokerOrder.PollTakesTheHead | 17-messaging/examples/messaging/broker.go:168-175 | So a poll takes the head of its queue, or the queue is empty. |
| BrokerSchedule.ScheduleHoldsIff | 17-messaging/examples/messaging/broker.go:158-267 | Under every monotone clock, with any consumers, no message published fresh is delivered ahead of FirstFailedAt plus the sum of its backoffs: if and only if the base is not positive or the largest delay within the cap fits int64. |
| BrokerSchedule.MessagesAreScheduled | 17-messaging/examples/messaging/broker.go:256-267 | Then every waiting or held message published fresh is within its attempt cap and not ahead of its backoff schedule. |
| BrokerSchedule.DeliveredOnSchedule | 17-messaging/examples/messaging/broker.go:158-267 | Then attempt n >= 2 of such a message is delivered no earlier than FirstFailedAt + backoff * (2^(n-1) - 1), and n never exceeds max(1, maxAttempts). |
| BrokerSchedule.BackoffsClosedForm | 17-messaging/examples/messaging/broker.go:265 | The doubling delays before attempt n add up to backoff * (2^(n-1) - 1). |
| BrokerSchedule.EarlyDelivery | 17-messaging/examples/messaging/broker.go:158-267 | For every positive base and cap whose largest delay overflows there is a run that delivers a message ahead of its schedule. |
| BrokerSchedule.OverflowedDelayIsEarly | 17-messaging/examples/messaging/broker.go:265-266 | A positive delay gives a deadline earlier than it should be if and only if it overflows. |
| BrokerSchedule.OverflowedDelayIsInThePast | 17-messaging/examples/messaging/broker.go:265-266 | It can be earlier than the failure itself: a base of 2^62 ns, on the second redelivery. |
| BrokerOrder.StampNeverChanges | 17-messaging/examples/messaging/broker.go:183-261 | Once set, FirstFailedAt is the same in every queue, hand and dead letter that the message ever reaches. |
| BrokerOrder.DeadAreTriaged | 17-messaging/examples/messaging/broker.go:179-187 | Every dead letter carries a failure stamp and lies in the queue it was published to. |
| BrokerConsume.Consume | 17-messaging/examples/messaging/broker.go:210-235 | The loop ends for any handler that does not publish, any clock and any backoff, within a bound on handler calls fixed at entry; it is a run of one consumer in which each delivered message is answered with what the handler, or its panic, comes to; it returns drained only when nothing is visible at its last clock reading, and cancelled only when the context says so. |
| BrokerConsume.Turn | 17-messaging/examples/messaging/broker.go:217-233 | One turn is a poll and a verdict of that run, and lowers the bound on the calls still possible. |
| BrokerConsume.Settle | 17-messaging/examples/messaging/broker.go:222-233 | Success changes nothing, a failure for good adds one dead letter, any other failure parks the message or panics. |
| BrokerConsume.NextPotential | 17-messaging/examples/messaging/broker.go:158-176 | A poll takes out of the sum of remaining deliveries exactly the share of the message it delivers. |
| BrokerConsume.RedeliverPotential | 17-messaging/examples/messaging/broker.go:256-267 | A redelivery puts back strictly less than the delivery took. |
| BrokerConsume.DeliveriesAreBounded | 17-messaging/examples/messaging/broker.go:158-267 | However many consumers interleave, a queue to which nothing is published sees no more deliveries than the sum over its live messages of max(1, maxAttempts + 1 - Attempts). |
| WorkerPool.StepInvariant | 08-concurrency/examples/02-workerpool/main.go:31-52 | Every step keeps: no panic, closes only after the last send, each job handed over with exactly one worker or reported exactly once. |
| WorkerPool.StepReports | 08-concurrency/examples/02-workerpool/main.go:31-47 | Jobs are handed over in order, and a result carries its job's ID and name and the number of the worker that did it. |
| WorkerPool.SafeClose | 08-concurrency/examples/02-workerpool/main.go:27-55 | In every interleaving nobody sends on a closed channel, and out closes only after every worker has returned. |
| WorkerPool.NoDeadlock | 08-concurrency/examples/02-workerpool/main.go:27-55 | With at least one worker, until out is closed some step other than the caller's read can be taken. |
| WorkerPool.EveryRunIsFinite | 08-concurrency/examples/02-workerpool/main.go:27-55 | The steps taken and the steps left add up to 3 * jobs + workers + 2 at every point of every run. |
| WorkerPool.AllJobsReported | 08-concurrency/examples/02-workerpool/main.go:43-52 | When out closes, the results read or buffered are the jobs, as a multiset of ID and name. |
| WorkerPool.NoWorkersNoResults | 08-concurrency/examples/02-workerpool/main.go:31-52 | One worker is needed: with none, out can close at once and no job is ever taken. |
| CancelPool.StepInvariant | 08-concurrency/examples/03-workerpool-cancel/main.go:28-69 | Every step keeps: no panic, out closed once and only when all workers have returned, each job taken with one worker or read once. |
| CancelPool.SafeClose | 08-concurrency/examples/03-workerpool-cancel/main.go:28-54 | Wherever cancellation falls there is no send on and no second close of a closed channel, and out closes only after every worker has returned. |
| CancelPool.TakenJobsAreReported | 08-concurrency/examples/03-workerpool-cancel/main.go:56-69 | When out closes, each job a worker took has been read exactly once: cancellation drops none of them. |
| CancelPool.StuckOnlyOnTheReader | 08-concurrency/examples/03-workerpool-cancel/main.go:44-69 | Once intake has ended the pool cannot move by itself if and only if a worker waits at its send, the others have returned, and the finalizer is waiting. |
| CancelPool.ReadToTheEnd | 08-concurrency/examples/03-workerpool-cancel/main.go:28-69 | Once intake has ended, a run that neither the pool nor a read can extend has closed out. |
| CancelPool.LeakWithoutReader | 08-concurrency/examples/03-workerpool-cancel/main.go:64 | A worker at its send stays there, and out stays open, for as long as the caller does not read from it. |
| CancelPool.CancelledButNeverClosed | 08-concurrency/examples/03-workerpool-cancel/main.go:64 | A concrete run: cancelled, unread, and never closed. |
| CancelPool.WorkIsBounded | 08-concurrency/examples/03-workerpool-cancel/main.go:28-69 | The pool and its reader take at most 2 * workers + 3 + 2 * jobs taken steps. |
| JobProcessor.WithDefaults | 08-concurrency/examples/05-jobprocessor/main.go:31-39 | The result is always usable: each usable setting is kept, each other one becomes its default (1 attempt, 100 ms). |
| JobProcessor.RunWithRetries | 08-concurrency/examples/05-jobprocessor/main.go:132-159 | Between 1 and MaxAttempts handler calls; all but the last failed retryably without interruption; the last one settles the job; how many retries are counted and which attempt's error is logged. |
| JobProcessor.LoopIsTheseSteps | 08-concurrency/examples/05-jobprocessor/main.go:132-159 | The loop is the transition system's steps of one worker, and leaves the counters its outcome calls for. |
| JobProcessor.JobsAccountedFor | 08-concurrency/examples/05-jobprocessor/main.go:95-181 | At every step of every interleaving: enqueued = queued + running + Succeeded + Failed, queue within its depth, handler calls + aborted waits = Succeeded + Failed + Retried, no job run more than MaxAttempts times. |
| JobProcessor.StopClosesTheBooks | 08-concurrency/examples/05-jobprocessor/main.go:119-181 | When Stop returns with no Submit in flight: Accepted = Succeeded + Failed and handler calls = Succeeded + Failed + Retried without cancellation; with it, plus what was left queued and what was aborted. |
| JobProcessor.EverySubmitCounts | 08-concurrency/examples/05-jobprocessor/main.go:120-129 | Every Submit is counted once, as accepted or as rejected. |
| JobProcessor.RejectsOnlyWhenFull | 08-concurrency/examples/05-jobprocessor/main.go:120-129 | In every run a Submit is rejected only when the queue is exactly full. |
| JobProcessor.NoWorkersNoDrain | 08-concurrency/examples/05-jobprocessor/main.go:95-117 | Without workers nothing that was accepted ever runs. |
| JobProcessor.DrainNeverBlocks | 08-concurrency/examples/05-jobprocessor/main.go:178-181 | After Stop has closed the queue some worker can move until all have returned. |
| JobProcessor.StopTerminates | 08-concurrency/examples/05-jobprocessor/main.go:132-181 | Workers take at most workers + 2 * MaxAttempts * jobs steps in any run, so the drain ends. |
| Heap.Heap.Push | 03-data-structures/examples/heap/heap.go:21-24 | Adds one element to the multiset and keeps the heap order. |
| Heap.Heap.Peek | 03-data-structures/examples/heap/heap.go:27-33 | The top, which nothing in the heap ranks above; the zero value when empty. |
| Heap.Heap.Pop | 03-data-structures/examples/heap/heap.go:36-50 | Removes exactly the top, which nothing ranked above, and keeps the heap order. |
| Heap.Heap.SiftUp | 03-data-structures/examples/heap/heap.go:52-61 | Repairs a heap with one element too low, by swaps only. |
| Heap.Heap.SiftDown | 03-data-structures/examples/heap/heap.go:63-80 | Repairs a heap with one element too high, by swaps only. |
| Heap.Heap.CheckInvariant | 03-data-structures/examples/heap/heap.go:84-93 | True exactly when no element ranks above its parent. |
| Heap.TopIsBest | 03-data-structures/examples/heap/heap.go:7-12 | From the parent-child order alone: nothing in a heap ranks above its top. |
| Heap.TopK | 03-data-structures/examples/heap/heap_test.go:102-130 | The best min(k, n) elements of the stream, best first, a sub-multiset of it with nothing left out ranking above anything kept; for k <= 0 what the empty Peek makes of it. |
| Heap.Keep | 03-data-structures/examples/heap/heap_test.go:108-118 | After the stream the heap holds the best k, the weakest on top. |
| Heap.Offer | 03-data-structures/examples/heap/heap_test.go:109-117 | One element keeps that true of the prefix seen. |
| Heap.Drain | 03-data-structures/examples/heap/heap_test.go:119-129 | Popping everything and reversing gives a sorted permutation of the heap. |
| Heap.Reverse | 03-data-structures/examples/heap/heap_test.go:126-128 | The swapping loop reverses. |
| Heap.TopKRespectsKIff | 03-data-structures/examples/heap/heap_test.go:109-117 | What TopK returns has at most k elements if and only if k >= 1 or nothing ranks above the zero value. |
| Heap.TopIsUnique | 03-data-structures/examples/heap/heap_test.go:100-130 | What TopK promises fixes its answer up to ties, position by position. |
| Orders.MemoryClaims.Claim | 18-kafka-with-go/examples/service.go:148-156 | Wins exactly when nobody holds the key, and the key is held afterwards. |
| Orders.MemoryClaims.Release | 18-kafka-with-go/examples/service.go:158-163 | Frees exactly that key. |
| Orders.OrderService.Process | 18-kafka-with-go/examples/service.go:90-135 | One undisturbed delivery: its answer, whether the applier was called, and the claims left behind, for every answer of store and applier. |
| Orders.SoloIsTheseSteps | 18-kafka-with-go/examples/service.go:90-135 | That is the concurrent system's steps of one delivery with nobody in between. |
| Orders.DeliveryAnswers | 18-kafka-with-go/examples/service.go:90-115 | The first thing wrong with a message, in the order key, envelope, version, payload, is what its delivery is told; otherwise it goes on to claim with the order its payload carries. |
| Orders.StepAnswers | 18-kafka-with-go/examples/service.go:117-135 | What a claim, a store error, an apply and a release make of their own delivery, of the claims and of nothing else. |
| Orders.OutcomesAreTrue | 18-kafka-with-go/examples/service.go:117-135 | In every interleaving exactly the applied keys have a delivery told Applied, one each, and exactly the stuck keys one told that its release failed. |
| Orders.MalformedTouchesNothing | 18-kafka-with-go/examples/service.go:90-115 | A message is answered before any claim exactly when its key, envelope, version or payload is bad; no claim changes. |
| Orders.ClaimsAreExact | 18-kafka-with-go/examples/service.go:111-163 | In every interleaving the claims are exactly the keys applying, awaiting release, applied, or whose release failed, and each key has one holder. |
| Orders.AtMostOneApplyPerKey | 18-kafka-with-go/examples/service.go:117-135 | Two deliveries of a key are never applying at once, nor one after the key was applied. |
| Orders.AppliedAtMostOnce | 18-kafka-with-go/examples/service.go:117-135 | At most one Apply of a key ever succeeds. |
| Orders.QuietClaimsAreApplied | 18-kafka-with-go/examples/service.go:117-135 | With nothing in flight for a key it is claimed if and only if its order was applied or its release failed, so claimed and applied agree unless it is stuck; a duplicate told nil about an unapplied order that is not stuck is matched by an error told to another. |
| Orders.StuckOnlyByReleaseErr | 18-kafka-with-go/examples/service.go:127-131 | A key is stuck only if a release of that very key has failed. |
| Orders.StuckStaysClaimed | 18-kafka-with-go/examples/service.go:127-131 | After a failed release the key stays claimed and unapplied for the rest of any run, and whoever tries to claim it is told it is a duplicate. |
| Orders.NilBeforeApplied | 18-kafka-with-go/examples/service.go:122-124 | A concrete run in which a duplicate is told nil and the order is never applied. |
| Money.New | 25-fintech-with-go/examples/ledger/money.go:29-34 | Accepts exactly the three-byte currencies. |
| Money.Add | 25-fintech-with-go/examples/ledger/money.go:51-59 | Succeeds exactly on equal valid currencies, names a mismatch only between two valid ones, and is the sum, or the sum off by 2^64 when that does not fit. |
| Money.Negate | 25-fintech-with-go/examples/ledger/money.go:62 | Cancels the amount modulo 2^64. |
| Money.NegateTwice | 25-fintech-with-go/examples/ledger/money.go:62 | Undoes itself; only 0 and the minimum int64 are their own negation. |
| Ledger.Journal.constructor | 25-fintech-with-go/examples/ledger/ledger.go:52 | An empty journal, numbering from 0. |
| Ledger.Journal.Post | 25-fintech-with-go/examples/ledger/ledger.go:56-96 | Accepts exactly the balanced entries with a reference; appends the entry it returns, with that reference, those lines and the next ID; a refused entry changes nothing. |
| Ledger.CheckIff | 25-fintech-with-go/examples/ledger/ledger.go:57-81 | Accepted if and only if there is a reference, two lines or more, named accounts, one valid currency, and a sum of 0 modulo 2^64. |
| Ledger.AddLinesIs | 25-fintech-with-go/examples/ledger/ledger.go:69-78 | The loop succeeds exactly on named accounts in one currency, and wrapping at every addition is wrapping the exact sum once. |
| Ledger.CheckBlames | 25-fintech-with-go/examples/ledger/ledger.go:64-81 | The first faulty line decides the error; an imbalance is reported only when no line is faulty. |
| Ledger.CheckOrder | 25-fintech-with-go/examples/ledger/ledger.go:57-68 | Before any line is looked at: the reference, the number of lines, and the first line's currency, each with its error. |
| Ledger.Journal.PostBalance | 25-fintech-with-go/examples/ledger/ledger.go:100-105 | Posts the amount and its negation, and is accepted exactly with a reference, two account names and a valid currency, the minimum int64 included. |
| Ledger.Journal.Balance | 25-fintech-with-go/examples/ledger/ledger.go:109-136 | The nested loops fold the account's lines in entry order. |
| Ledger.BalanceIs | 25-fintech-with-go/examples/ledger/ledger.go:109-136 | That fold is the wrapped sum of the account's lines if they share a currency, unknown if there are none, a currency error otherwise. |
| Ledger.MixedAccountHasNoBalance | 25-fintech-with-go/examples/ledger/ledger.go:109-136 | After any run of posts an account has a balance if and only if it has lines and they are all in one currency. |
| Ledger.Journal.Total | 25-fintech-with-go/examples/ledger/ledger.go:141-162 | The nested loops fold the currency's lines. |
| Ledger.TotalIs | 25-fintech-with-go/examples/ledger/ledger.go:141-162 | That fold is the wrapped sum of the currency's lines, or an error for a currency that is not valid. |
| Ledger.TotalIsZero | 25-fintech-with-go/examples/ledger/ledger.go:138-162 | After any run of posts Total is zero for every valid currency and an error for every other. |
| Ledger.TrialBalance | 25-fintech-with-go/examples/ledger/ledger.go:107-162 | The derived balances of all accounts of a currency sum to zero modulo 2^64, if each is used in that currency only. |
| Ledger.Journal.Entries | 25-fintech-with-go/examples/ledger/ledger.go:165-171 | All entries in posting order. |
| Ledger.RunsAreSound | 25-fintech-with-go/examples/ledger/ledger.go:83-95 | After any run of posts entry IDs count up from 1 and every entry is balanced. |
| Ledger.EntriesAreAccepted | 25-fintech-with-go/examples/ledger/ledger.go:56-96 | After any run of posts the journal is exactly the postings that were in order, in their order: nothing refused leaves a trace, nothing accepted is changed or dropped. |
| Ledger.ReplayReproduces | 25-fintech-with-go/examples/ledger/ledger.go:164-171 | Reposting the entries in order into a fresh journal always succeeds and reproduces it, IDs included. |
| Ledger.ReversalEntry | 25-fintech-with-go/examples/ledger/ledger.go:175-181 | As many lines, on the same accounts in the same order and currency, each cancelling its original modulo 2^64. |
| Ledger.ReversalBalanced | 25-fintech-with-go/examples/ledger/ledger.go:173-181 | The reversal of a balanced entry is balanced. |
| Ledger.ReversalIsAccepted | 25-fintech-with-go/examples/ledger/ledger.go:173-181 | The reversal of any posted entry is accepted with any reference, minimum int64 amounts included. |
| Ledger.ReversalRestores | 25-fintech-with-go/examples/ledger/ledger.go:173-181 | Reversing any entry puts an account that has a balance without it back to that balance, if and only if the entry did not use it in another currency. |
| Breaker.CircuitBreaker.constructor | 15-microservices/examples/resilience/resilience.go:70-72 | Closed, with no failures. |
| Breaker.CircuitBreaker.Allow | 15-microservices/examples/resilience/resilience.go:79-93 | Admits unless open or probing; the first arrival strictly after the cooldown becomes the probe. |
| Breaker.CircuitBreaker.Record | 15-microservices/examples/resilience/resilience.go:97-119 | A probe's outcome closes or reopens; otherwise success clears the count and failures at the threshold open. |
| Breaker.StormBound | 15-microservices/examples/resilience/resilience.go:79-119 | Callers that all fail at one instant are admitted at most max(1, threshold) - 1 + P times, P the most ever between Allow and Record; before the zero time not at all. |
| Breaker.StormBoundIsTight | 15-microservices/examples/resilience/resilience.go:79-119 | For every threshold and every P >= 1 some arrival pattern attains the bound. |
| Breaker.ProbeExcludesEveryone | 15-microservices/examples/resilience/resilience.go:86-88 | While a probe is out nobody is admitted until a Record, whatever the clock does. |
| Breaker.TrippedAdmitsExactly | 15-microservices/examples/resilience/resilience.go:82-92 | Until the next Record a tripped breaker admits one arrival after the cooldown and all those that come before it on the very instant the cooldown ends. |
| Breaker.OneProbeIff | 15-microservices/examples/resilience/resilience.go:74-93 | Until the next Record at most one is admitted if and only if those arrivals number at most one; so always if no clock reading hits that instant. |
| Breaker.OneProbeRunIff | 15-microservices/examples/resilience/resilience.go:74-119 | Over whole runs of Allow and Record by identified callers: at every point, whatever steps may follow that do neither of two things, at most one admission after a trip is unreported; if and only if the run has done neither: nobody but the probe records an outcome while the probe is out, and nobody is admitted on the instant a cooldown ends. |
| Breaker.StepGuardedIff | 15-microservices/examples/resilience/resilience.go:74-119 | A step gives up the guarantee if and only if it is one of those two. |
| Breaker.GuardedIff | 15-microservices/examples/resilience/resilience.go:74-119 | The guarantee is there exactly when whoever is out after a trip is the probe and the breaker knows it; otherwise some clean continuation lets a second one in. |
| Breaker.StaleRecordFreesTheProbe | 15-microservices/examples/resilience/resilience.go:97-110 | A concrete run for every cooldown, reading no expiry instant: a late failure of a caller admitted before the trip lets a second probe out beside the first; a late success closes the breaker. |
| Breaker.TwoAtExpiry | 15-microservices/examples/resilience/resilience.go:83-92 | Two arrivals on that instant are both admitted and neither is the probe. |
| Breaker.ProbeOutcome | 15-microservices/examples/resilience/resilience.go:101-110 | A successful probe leaves the breaker as new; a failed one keeps everybody out for one whole cooldown and keeps the count. |
| Breaker.RecordsAre | 15-microservices/examples/resilience/resilience.go:97-119 | Whatever outcomes are recorded on a closed breaker, its count is the current streak of failures, and it is open until a cooldown after the last failure that made or prolonged a streak of max(1, threshold). |
| Breaker.OpensIff | 15-microservices/examples/resilience/resilience.go:111-118 | It first opens exactly when the last max(1, threshold) outcomes are all failures. |
| Breaker.TripsAtThreshold | 15-microservices/examples/resilience/resilience.go:115-118 | A closed breaker opens on exactly the threshold-th failure in a row, or the first if the threshold is below 1. |
| Ring.Ring.constructor | 03-data-structures/examples/ring/ring.go:15-20 | Empty, a capacity below 1 becoming 1. |
| Ring.Ring.Push | 03-data-structures/examples/ring/ring.go:27-42 | The queue gains v at the back; a full one first loses its oldest element, which is returned; freed slots are cleared. |
| Ring.Ring.EvictOldest | 03-data-structures/examples/ring/ring.go:32-35 | The oldest element leaves and its slot is cleared. |
| Ring.Ring.Append | 03-data-structures/examples/ring/ring.go:38-40 | The wrap-around write puts v behind the newest element. |
| Ring.Ring.Pop | 03-data-structures/examples/ring/ring.go:45-55 | The oldest element leaves, or the ring was empty. |
| Ring.Ring.Map | 03-data-structures/examples/ring/ring.go:62-69 | A new ring of the same capacity with the images in FIFO order. |
| Ring.Ring.Peek | 03-data-structures/examples/ring/ring.go:72-78 | The oldest element, left in place. |
| Ring.StreamLaw | 03-data-structures/examples/ring/ring.go:27-55 | Over any run, what was evicted or popped, in order, followed by the live contents is what was pushed. |
| Ring.MapCommutes | 03-data-structures/examples/ring/ring.go:57-69 | Mapping the ring after any run is having run on mapped values. |
| Ring.RecentKeys.constructor | 03-data-structures/examples/ring/ring.go:93-95 | An empty window of the given size. |
| Ring.RecentKeys.Seen | 03-data-structures/examples/ring/ring.go:100-109 | Says whether the window holds k and records it if not; the index stays exactly the window's keys. |
| Ring.RecentKeys.Contains | 03-data-structures/examples/ring/ring.go:112-115 | Says whether the window holds k, recording nothing. |
| Ring.RecentKeys.Size | 03-data-structures/examples/ring/ring.go:117 | The window's capacity, which its contents never exceed. |
| Ring.WindowKeys | 03-data-structures/examples/ring/ring.go:104-107 | Deleting the evicted key from the index and inserting the new one is what the push does to the window's key set. |
| Ring.WindowIsLastRecorded | 03-data-structures/examples/ring/ring.go:80-109 | Over any run the window is the last Size recorded keys, all distinct. |
| Calc.PrintSpells | 10-testing/examples/calculator/calc.go:52-61 | Every int64 is read back from its decimal form, the minimum included. |
| Calc.EvalReads | 10-testing/examples/calculator/calc.go:40-75 | Any two spelled operands around an operator, with any white space, give the operator's result on their values. |
| Calc.EvalUndoesPrinting | 10-testing/examples/calculator/calc.go:40-75 | In particular for printed operands: Eval undoes printing over all of int64. |
| Calc.SyntaxErrorIff | 10-testing/examples/calculator/calc.go:40-75 | Eval reports a syntax error if and only if the input cannot be read as two spelled operands around an operator; otherwise every such reading gives its result. The unknown-operator branch is never taken. |
| Calc.EmptyIff | 10-testing/examples/calculator/calc.go:41-44 | An empty expression is reported exactly for white space; every other input has a body. |
| Calc.SyntaxErrorIs | 10-testing/examples/calculator/calc.go:46-61 | Of a body without an operator the operator is missed; otherwise the left operand is judged first, then the right one, whose error is placed just after the operator; if both read, the result is the operator's on them. |
| Calc.AtoiIff | 10-testing/examples/calculator/calc.go:52-61 | An operand is read if and only if it is an optional sign and decimal digits whose value is an int64. |
| Calc.ReadIsSpelled | 10-testing/examples/calculator/calc.go:52-61 | Whatever is read as an operand is such a spelling of its value. |
| Calc.Operate | 10-testing/examples/calculator/calc.go:63-74 | The only error is division by zero, exactly for '/' and 0; sum, difference and product are the exact ones modulo 2^64, and exact when they fit int64. |
| Calc.DivideTruncates | 10-testing/examples/calculator/calc.go:31-36 | Quotients truncate toward zero, remainders take the dividend's sign, and only MIN / -1 wraps. |

## Left out

What the repository does that the model does not:

- HTTP handlers, middleware, metrics, tracing, configuration, logging and `main` functions: I/O over libraries.
- `consumer.go`, `producer.go`, `postgres.go`, `secure.go`: their guarantees live in the Kafka client, the SQL engine and the cryptographic library, which are not part of this model.
- `FakeStore`, the payments `MemoryStore`, `genlib`, `seqops`, `internals`, `Bulkhead`, `Timeout`, `Retry` with its jitter: they would add only easy members.
- `tools/linkcheck`: file system and regular expressions.
- The graph, trie and search-tree listings in the chapters: not compiled code.
- Sharing of memory between copies: the journal's `Entries` copies shallowly, and the defensive copies of lines in `Post` have no counterpart where lines are values.
- The Go runtime: a mutex-protected method is one atomic step; there is no weak memory, no scheduler, no fairness. "Every run is finite" and "some step can be taken" together are what the model says about progress.
- Worker start-up, panics inside a cancelable pool's job, and `WaitGroup` counters: a worker is present from the start in the worker pool and the processor, and from its spawn in the cancelable pool.
- Submit during or after Stop in the job processor: a send on the closed queue panics in Go, and callers must not do it.
- `Metrics.Snapshot` (it returns zeros) and the `InFlight` gauge of the job processor.
- JSON decoding: an abstract result, a payload or a failure to decode. The broker's `DecodeEnvelope` is not modelled.
- Error texts beyond which error it is, `PostedAt`, and the context argument where the code does not look at it.
- Overflow of the job and failure counters, of attempt counts and of `time.Time` arithmetic. Overflow of money, lease numbers, lease expiries, the backoff shift, cache counters and the evaluator is modelled.

Where a member says less than one might expect:

- Lru.LRU.Put: the recency list is a sequence of elements; the pointer structure inside `container/list` is not modelled. The hook is called under the lock; here its argument is the result.
- Heap.Heap.Push: the backing slice is a sequence field that the method reassigns, so capacity and sharing after `append` are not modelled.
- Heap.TopK: the loop's halves are methods of their own, and the in-place reversal works on a sequence.
- BrokerConsume.Consume: the handler is an oracle that does not publish to the broker, and nobody else uses the broker meanwhile; `BrokerConsume.DeliveriesAreBounded` covers other consumers. Clock readings that the code skips are numbered all the same, which no answer depends on.
- BrokerSchedule.ScheduleHoldsIff: the clock starts after the zero time and never runs backwards.
- BrokerLoss.LossIff: the continuation may read any clock, one that runs backwards included.
- Lease.LeaseLasts: the grant time, and each renewal's reading, plus the TTL fit int64; `Lease.GrantsAreTerms` says what becomes of a lease when they do not.
- Breaker.OpensIff: the last reading plus the cooldown is not the zero time, which would read as closed; `Breaker.RecordsAre` needs no such thing.
- Breaker.OneProbeRunIff: an outcome is recorded only by a caller that was admitted, and once.
- Calc.SyntaxErrorIff: input is a sequence of characters, so a reported error position counts characters where Go counts bytes; they differ only after multi-byte white space.
- Money.New: a currency is a sequence of bytes, one character a byte.
- Breaker.StormBound: the clock stands still and the cooldown is positive.
