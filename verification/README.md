# Flash sale: a verified model

A Dafny model of the flash-sale pipeline: the waiting room that admits buyers, the API that reserves
inventory in Redis and publishes orders to SQS, and the workers that write the orders to DynamoDB.
`dafny verify dfyconfig.toml` checks the whole project.

## What is modelled

Each service is a machine whose step is one store command: one Redis command or Lua script, one EXEC,
one SQS call, one conditional DynamoDB write. A run is a list of events, one step of any request, handler
call, worker or ticker each; an event that does not fit the place where its actor is changes nothing, so a
lemma about every list of events is a lemma about every interleaving of any number of actors. Every command
can also fail without being applied, or be applied and lose its reply, and an actor can stop for good
between any two steps.

| file | what it holds |
|---|---|
| `Inventory.dfy` | reservation, publish and rollback as a machine; the ledger every step keeps |
| `InventoryLaws.dfy`, `SellOut.dfy` | conservation, no oversell, what an answer means, exact sell-out and rejection |
| `Oversell.dfy` | how much faults can oversell, and which event makes it possible |
| `AtomicReserve.dfy` | WATCH/GET/MULTI/EXEC refines one atomic check-and-decrement |
| `FlashSaleApi.dfy` | the inventory client and the purchase handler as methods |
| `AuditCounter.dfy` | the exact law of the audit row and its one-order memory |
| `OrderWorker.dfy`, `OrderWorkerLaws.dfy` | at-least-once delivery into two conditional writes |
| `ConfirmedMetric.dfy`, `Delivery.dfy` | which orders the metric misses; what can still be acknowledged, drained or counted twice |
| `WorkerService.dfy`, `Retry.dfy` | SaveOrder, handleMessage and retry.Do as methods |
| `Pipeline.dfy` | poller, channel and worker pool, with shutdown |
| `SortedSet.dfy` | a Redis sorted set ordered by (score, member) |
| `WaitingRoom.dfy`, `WaitingRoomLaws.dfy` | joins, polls, tickers; what holds under either strategy and across resets |
| `CapLaws.dfy`, `ResetCap.dfy` | exactly which steps break the admission cap, and what a reset does to it |
| `TokenLaws.dfy` | token agreement, the SETNX race, how long a token lasts |
| `WaitingRoomWitnesses.dfy` | runs in which the guarantees end |
| `RoomService.dfy`, `Ticker.dfy` | the queue store, the handlers and the ticker as methods |
| `FlashSale.dfy` | the three services together: conservation and admission end to end |
| `Totals.dfy`, `Domain.dfy` | sums over finite maps; shared values |

The imperative files hold classes with the stores' fields, updated in place. Each method is one function of
the source, with the same branches; before each of its commands the others may take any steps, listed in a
script that is part of the object, and the same script says how the command fares. The class invariant is
that the fields are what the machine makes of the log of all steps so far, so every law of the machine holds
of the object at every point. A command's contract gives the log exactly: the others' steps of its turn, then
the command with the fate of its turn. An operation's contract says which commands it sends, ties its answer to
where its request really is, says that without a fault there is no error answer whatever the others do, and
what the answer is when nobody else moves either.

## Where the code and its comments part

* The comment on SaveOrder says the counter is never counted twice. It is, when an order is attempted again
  after another order: `Delivery.RedeliveryDoubleCounts`. The exact condition is
  `AuditCounter.ExactOnceIffContiguous`; `FlashSale.ConsistencyCheck` carries it to the consistency script, and
  `FlashSale.ConsistencyCheckOverreports` is a drained, fault-free sale in which the script's sum is too high.
* A publish that reports an error but did reach SQS is rolled back, which sells its units again:
  `InventoryLaws.CreditOversells`. While Redis works, overselling becomes possible with the first such publish
  and not before: `Oversell.OversellIffFalseError`; under all faults, exactly when: `Oversell.OversellPossibleIff`.
  Buyers who were told "accepted" never hold more than the stock.
* A DECRBY rejection does not mean the stock was short: `InventoryLaws.SpuriousRejection`. It does for whoever
  asks for no less than everyone before (`SellOut.RejectionIsExact`), and for everyone as long as that strategy is
  not used (`SellOut.RejectionIsExactWithoutDecr`).
* The comment in admissionToken says that the stored value is a valid token either way. When the read-back
  fails the caller is handed its own token, which need not be the stored one:
  `WaitingRoomWitnesses.FailedRecheckSplits`. It is exactly when its own SETNX found no token, a reply the
  source discards, and the token has not expired since: `TokenLaws.FailedRecheckExact`.
* Under `timestamp` scoring two users can be told the same position
  (`WaitingRoomWitnesses.TimestampCollisionIff`), a poll can admit a user whose position was never within the
  count (`WaitingRoomWitnesses.TwoReadsAreNoSnapshotUnderTimestamp`, exactly when:
  `WaitingRoomLaws.TwoReadsExactly`), and more users can hold tokens than are admitted
  (`WaitingRoomWitnesses.CapFailsUnderTimestamp`, exactly when: `CapLaws.CapHoldsIff`; never without a join
  inserted ahead of somebody: `CapLaws.CapUnlessOvertaken`).
* Resetting the queue leaves the tokens, so the admission cap holds between resets only
  (`TokenLaws.ResetOutlivedByTokens`): somebody can buy while nobody is admitted
  (`FlashSale.BuyerWithNobodyAdmitted`). What a reset leaves of the cap: `WaitingRoomLaws.CapSinceReset`;
  when it is safe: `ResetCap.CapSafeAfterResetIff`.
* The API accepts a customer id of blanks (`FlashSale.BlankCustomerIsAccepted`); the worker never stores such an
  order, and the queue can drain exactly when there is none: `FlashSale.DrainableIff`.
* The confirmed metric can miss a stored order for good: `Delivery.RetryHidesConfirmation`, exactly when:
  `ConfirmedMetric.NeverConfirmedIff`.

## Assumptions

An order id is fresh for each purchase and always carries the same order. Rows of the orders table are not
deleted. Counter values and sequence numbers stay within 2^53, so that Lua numbers and sorted-set scores are
exact; a DECRBY that Redis refuses for overflow is a command that failed unapplied. uuid.New never repeats.
Tokens may expire at any time unless a lemma says otherwise.

## Model

| member | source | states |
|---|---|---|
| InventoryLaws.Conservation | services/flash-sale-api/redis/client.go:80-165 | in every interleaving, under every mix of strategies and faults, counter, units owed back by losers, units reserved, units published and units leaked always add up to the initial stock plus what faulty rollbacks credited |
| InventoryLaws.NoOversell | services/flash-sale-api/handlers/purchase.go:57-94 | the units of accepted purchases never exceed the stock, sent orders exceed it by no more than the credited units, the counter with outstanding debts and leaks is never negative, and no success reports a negative remainder |
| Oversell.CapIsTheMost | services/flash-sale-api/redis/client.go:80-165 | at any point of any run, what is sent, about to be sent or still for sale once all debts are given back is the most that any fault-free continuation sends, and one sends exactly that |
| Oversell.OversellPossibleIff | services/flash-sale-api/handlers/purchase.go:86-94 | without another fault more orders than units can go out exactly when the units of undue rollbacks, done or still owed, outweigh the leaked ones, or too many are reserved or out already |
| Oversell.OversellIffFalseError | services/flash-sale-api/handlers/purchase.go:86-94 | while Redis keeps working, overselling is possible exactly when some publish of the run reported an error although its order was out |
| Oversell.NoFalseErrorNoOversell | services/flash-sale-api/handlers/purchase.go:86-94 | whatever else fails, if no failed publish was enqueued, units sent and reserved never exceed the stock |
| InventoryLaws.CreditOversells | services/flash-sale-api/handlers/purchase.go:86-94 | a run in which one unit is sold twice because the publish that reported an error had succeeded |
| InventoryLaws.ResetLaw | services/flash-sale-api/redis/client.go:173-177 | after a reset to n, at any time, the books balance to n plus all that was owed, reserved, sent or leaked at the reset, less what was credited |
| InventoryLaws.ResetWithDebtsPending | services/flash-sale-api/redis/client.go:173-177 | a reset with debts pending leaves the counter at n plus those debts once they are compensated |
| InventoryLaws.ReserveIsTrue | services/flash-sale-api/redis/client.go:103-138 | the step that reserves, of any strategy, finds at least the quantity and leaves exactly the remainder that is reported; a committed EXEC acts on the value its GET read |
| InventoryLaws.RejectionBound | services/flash-sale-api/redis/client.go:82-93 | under any faults, a request that the true stock is short of is turned away, and one turned away although it suffices owes that to others who are about to give units back |
| SellOut.SpuriousMeansLargerLoser | services/flash-sale-api/redis/client.go:82-93 | without faults, a request refused although the stock suffices means that someone turned away before had asked for more than there is |
| SellOut.RejectionIsExact | services/flash-sale-api/redis/client.go:82-93 | without faults, for a request no smaller than any before, and so for equal ones, the deciding step of every strategy turns it away exactly when the true stock is short of its quantity |
| SellOut.RejectionIsExactWithoutDecr | services/flash-sale-api/redis/client.go:103-154 | in runs of the other two strategies, for all quantities and under all faults and resets, a request is turned away exactly when the true stock is short of it |
| InventoryLaws.SpuriousRejection | services/flash-sale-api/redis/client.go:82-93 | for any stock, a request larger than it and one it suffices for, a fault-free run in which the latter is about to be refused |
| AtomicReserve.OptimisticRefinesAtomic | services/flash-sale-api/redis/client.go:103-138 | every run with WATCH loops is matched, step by step, by one that only uses atomic reserve steps: same counter, same orders, same answers, whatever the other writers do |
| SellOut.ExactSellOut | services/flash-sale-api/redis/client.go:80-154 | without faults, of requests of one quantity q exactly min(n, stock/q) are accepted, n being those that did not give up on contention, under every interleaving and mix of strategies |
| FlashSaleApi.OptimisticRetryLimit | services/flash-sale-api/redis/client.go:32-42 | the retry limit is the larger of one and the configured number |
| FlashSaleApi.Backend.DecrInventoryBy | services/flash-sale-api/redis/client.go:73-76 | one DECRBY amid interference, with the fate of its turn: the reply is the counter after it, and a negative one leaves the request owing a compensation |
| FlashSaleApi.Backend.IncrInventoryBy | services/flash-sale-api/redis/client.go:162-165 | one INCRBY with the fate of its turn gives the quantity back; what the compensation or rollback leaves behind for each way it can fare, leaks and credits included |
| FlashSaleApi.Backend.RunLuaScript | services/flash-sale-api/redis/client.go:56-63 | the script answers -1 and writes nothing, or decrements and answers the new value |
| FlashSaleApi.Backend.Exec | services/flash-sale-api/redis/client.go:119-124 | EXEC commits exactly on an unchanged version; a refusal proves that someone else wrote the key |
| FlashSaleApi.Backend.SetInventory | services/flash-sale-api/redis/client.go:173-177 | the counter is the count given unless the command failed unapplied |
| FlashSaleApi.TryOnce | services/flash-sale-api/redis/client.go:107-125 | WATCH, GET, EXEC in this order and no further than the first fault or short stock; a commit reports the counter as it then is; a refusal is matched by a write of someone else; undisturbed, the stock decides |
| FlashSaleApi.ReserveWithOptimisticLock | services/flash-sale-api/redis/client.go:103-138 | exactly the attempts that were refused, fewer than the limit, and one that decided, or as many as the limit and contention, which then means that many writes by others; so none without a concurrent writer |
| FlashSaleApi.ReserveWithDecr | services/flash-sale-api/redis/client.go:82-93 | one DECRBY, and for a loser one INCRBY before it answers sold out; undisturbed, the stock decides and a loser leaves the counter as it was |
| FlashSaleApi.ReserveWithLua | services/flash-sale-api/redis/client.go:140-154 | one script run; the answer tells the truth, never is contention, and undisturbed the stock decides |
| FlashSaleApi.ReserveInventory | services/flash-sale-api/redis/client.go:80-101 | each strategy sends its own commands and no others; each answer matches what happened; without a fault no Redis error; undisturbed, success with the remainder exactly when the stock suffices, else sold out and the counter as before; unknown strategies are refused and take nothing |
| FlashSaleApi.Backend.SendMessage | services/flash-sale-api/sqs/publisher.go:35-59 | the order is in the queue exactly if the send was applied, and success is reported exactly if its reply arrived |
| FlashSaleApi.Purchase | services/flash-sale-api/handlers/purchase.go:33-104 | 400 exactly for malformed requests, 401 exactly when the gate is on and the header is not the token stored at the instant of its read; 201 exactly for accepted purchases; publish after a reservation and rollback after a failed publish; a server error only after a fault or for an unknown strategy; undisturbed, the stock decides |
| AuditCounter.AuditLaw | services/order-worker/internal/store/dynamodb.go:93-110 | the row holds the sum over all attempts with adjacent repeats of one order collapsed, and the last order |
| AuditCounter.CountedAtLeastOnce | services/order-worker/internal/store/dynamodb.go:90-119 | every order attempted is among those summed |
| AuditCounter.ExactOnceIffContiguous | services/order-worker/internal/store/dynamodb.go:45-59 | the row never falls short of the distinct orders and equals them exactly when each order's attempts are contiguous |
| Delivery.RedeliveryDoubleCounts | services/order-worker/internal/store/dynamodb.go:56-59 | for any two well-formed orders of one item, a run of two workers, with one lost reply, in which both are acknowledged and the first is counted twice |
| OrderWorkerLaws.AckSafety | services/order-worker/internal/service/service.go:160-197 | in every run, a deleted message's order is in the table as it was sent and is among the orders the audit row sums |
| OrderWorkerLaws.AckIsForGood | services/order-worker/internal/service/service.go:189-197 | and nothing later takes that away |
| OrderWorkerLaws.AuditExactness | services/order-worker/internal/store/dynamodb.go:90-119 | the law of the audit row, for every item after every run of any workers |
| OrderWorkerLaws.ConfirmedAtMostOnce | services/order-worker/internal/service/service.go:173-187 | no order is confirmed twice by all workers together, so the metric never exceeds the orders table |
| OrderWorkerLaws.EverySaveIsCountedOnce | services/order-worker/internal/service/service.go:173-187 | in every run confirmed and duplicate together are the number of successful saves counted |
| OrderWorkerLaws.MalformedNeverLeaves | services/order-worker/internal/model/order.go:75-90 | a message that does not validate is never stored and never acknowledged |
| OrderWorker.SpaceByCodePoint | services/order-worker/internal/model/order.go:75-90 | which characters count as blank when a name is trimmed, by code point |
| Delivery.AcknowledgeableIff | services/order-worker/internal/service/service.go:150-200 | at every point of every run a message can still be acknowledged exactly when it validates |
| Delivery.RetryHidesConfirmation | services/order-worker/internal/service/service.go:160-187 | a run that stores and acknowledges an order without ever confirming it |
| ConfirmedMetric.NeverConfirmedIff | services/order-worker/internal/service/service.go:160-187 | no continuation confirms a stored order exactly when, at some step of the run, its insert's reply was lost, or its inserter failed to update the counter or stopped before the metric |
| WorkerService.Tables.PutOrder | services/order-worker/internal/store/dynamodb.go:69-88 | an absent order is stored as it is and reported as inserted; one already there falls through unchanged |
| WorkerService.Tables.UpdateAudit | services/order-worker/internal/store/dynamodb.go:90-119 | the row grows by the quantity and remembers the order, unless the order was the last one counted, which is success all the same; no other row changes |
| WorkerService.Tables.SaveOrder | services/order-worker/internal/store/dynamodb.go:60-122 | success means the order is stored as sent and was last counted on its item; the error is that of the first command that failed, and leaves the worker in the retry path |
| WorkerService.Tables.SaveWithRetries | services/order-worker/internal/service/service.go:160-171 | at most `attempts` saves; any error is retried but an API error that is not the server's fault, the last one, or one whose wait the context cut short; fewer failures than attempts, none permanent, end in a durable save |
| WorkerService.Tables.DeleteWithRetries | services/order-worker/internal/service/service.go:189-197 | between one and `attempts` deletes, giving up only on the last error or when the context ends; fewer failures than attempts end in success, which means the message is acknowledged |
| WorkerService.Tables.HandleMessage | services/order-worker/internal/service/service.go:150-200 | the message is deleted only once its order is stored and counted, after at most `attempts` saves and as many deletes; a successful save bumps exactly one metric once, a failed one none; invalid exactly for blank names or no quantity; processed whenever fewer commands fail than attempts, none permanently |
| Retry.Do | services/order-worker/internal/retry/retry.go:42-77 | how often the function runs, what is returned in terms of its last call, when the jitter draw panics, and that the waits are the draws below the doubling delays, short of base * (2^waits - 1) |
| Retry.NoOverflowIff | services/order-worker/internal/retry/retry.go:64-73 | no delay overflows exactly when base is positive and base * 2^(attempts-2) fits 63 bits |
| Retry.NominalIsPower | services/order-worker/internal/retry/retry.go:38-41 | the doubled delay is base * 2^k |
| Pipeline.Bounded | services/order-worker/internal/service/service.go:48-148 | at most W*M + W + M messages are unfinished, workers take them in the order the receives returned them, and none is lost but to cancellation |
| Pipeline.NeverStuck | services/order-worker/internal/service/service.go:78-148 | after cancellation somebody can move until the process is down |
| Pipeline.ShutdownTerminates | services/order-worker/internal/service/service.go:48-76 | after cancellation, at any point of any run, no schedule exceeds the work left, and one that ends has brought poller, workers and metrics logger down |
| SortedSet.BeforeIsByScoreThenMember | services/waiting-room/internal/queue/store.go:29-38 | the order of the set is by score and, among equal scores, lexicographic by member |
| SortedSet.RankCountsAhead | services/waiting-room/internal/queue/store.go:35-38 | a rank is the number of entries before it by (score, member) |
| WaitingRoom.RankDrift | services/waiting-room/internal/queue/store.go:35-49 | under either strategy a position grows, between resets, by exactly the number of later inserts that sort before it |
| WaitingRoomLaws.RefinesFifo | services/waiting-room/internal/queue/store.go:45-82 | under timestamp_incr the queue is the list of users in order of first script execution, positions are 1..n along it without repeats, and every position handed out is the place in it |
| WaitingRoomLaws.PositionForever | services/waiting-room/internal/queue/store.go:51-60 | under timestamp_incr a position never changes, so repeated joins answer the same one |
| WaitingRoomLaws.AdmissionCap | services/waiting-room/internal/handlers/position.go:43-52 | under timestamp_incr everyone ever issued a token is among the first `admitted` joiners, so there are at most that many |
| WaitingRoomLaws.CapSinceReset | services/waiting-room/internal/queue/store.go:130-137 | since a reset, whoever holds a token is among the first `admitted` joiners, or held one at the reset or was then on the way to one |
| ResetCap.CapSafeAfterResetIff | services/waiting-room/internal/queue/store.go:130-137 | no timestamp_incr continuation of a reset breaks the cap exactly when at the reset nobody held a token or was on the way to one |
| WaitingRoomLaws.CapButForOvertakers | services/waiting-room/internal/handlers/position.go:43-52 | under either strategy, whoever was issued a token stood at some instant at a position that the count has reached by the end of the run, and has since moved back only by those who overtook it |
| CapLaws.CapHoldsIff | services/waiting-room/internal/handlers/position.go:43-52 | under either strategy, everyone issued a token stays within the admitted count throughout a reset-free run exactly when no step adds a newcomer ahead of the token holder standing last within the count, or stores a first token for a user overtaken past it |
| CapLaws.CapUnlessOvertaken | services/waiting-room/internal/handlers/position.go:43-52 | in a reset-free run in which no join is inserted ahead of anybody, whatever the strategy, everyone issued a token is within the count, so there are at most that many |
| WaitingRoomLaws.TwoReadsAreASnapshot | services/waiting-room/internal/queue/store.go:86-106 | under timestamp_incr the two reads decide as one read at the second instant would, and whoever is eligible stays so |
| WaitingRoomLaws.TwoReadsExactly | services/waiting-room/internal/queue/store.go:86-106 | under either strategy the decision on a position p read earlier is the one of the second instant unless p <= admitted < p + d, d being those who overtook the user in between |
| TokenLaws.TokenAgreement | services/waiting-room/internal/handlers/handler.go:26-45 | all calls that answer one user with a token, and whose own read-back did not fail, answer with the same one, the one the purchase gate finds, unless that user's token expires after the first of them began |
| TokenLaws.FailedRecheckExact | services/waiting-room/internal/handlers/handler.go:38-44 | in every run, the token handed out after a failed read-back is the stored one exactly when the caller's own SETNX found none and it has not expired since |
| TokenLaws.TokenLastsUntilExpiry | services/waiting-room/internal/queue/store.go:109-120 | a stored token is the one the gate finds until it expires, through resets too, and never again after |
| WaitingRoomWitnesses.FailedRecheckSplits | services/waiting-room/internal/handlers/handler.go:38-44 | for any user, a run in which two replicas hand out different tokens |
| WaitingRoomWitnesses.TimestampCollisionIff | services/waiting-room/internal/queue/store.go:29-38 | two joins are told one position, whatever happens between their scripts, exactly when the second sorts before the first and as many stood between the two as were inserted ahead of the second since |
| WaitingRoomWitnesses.TwoReadsAreNoSnapshotUnderTimestamp | services/waiting-room/internal/queue/store.go:86-106 | for any two users who sort the other way round than they join, a run in which a poll lets the first in although its position is within the count at no instant |
| WaitingRoomWitnesses.CapFailsUnderTimestamp | services/waiting-room/internal/handlers/position.go:43-52 | and one in which both hold tokens while the admitted count is one |
| TokenLaws.ResetOutlivedByTokens | services/waiting-room/internal/queue/store.go:130-137 | who held a token at a reset passes the gate while nobody is admitted exactly until the token expires or the first tick |
| RoomService.QueueStore.RunJoinScript | services/waiting-room/internal/queue/store.go:35-49 | the script applied with the fate of its turn; the rank returned is the user's at that instant |
| RoomService.QueueStore.Join | services/waiting-room/internal/queue/store.go:54-82 | the look and, unless it found the user, the script of the strategy given: by timestamp_incr the next number and the place in the order of first executions, by any other the clock and no number; the position returned is the user's |
| RoomService.QueueStore.GetPosition | services/waiting-room/internal/queue/store.go:86-106 | -1 for a user who is not queued; otherwise, under timestamp_incr, both numbers are those of one instant |
| RoomService.QueueStore.IssueToken | services/waiting-room/internal/queue/store.go:109-111 | a token that is there stays; otherwise, after success, the caller's is stored |
| RoomService.QueueStore.IncrAdmitted | services/waiting-room/internal/queue/store.go:124-126 | the admitted count grows by n unless the command failed unapplied |
| RoomService.QueueStore.ResetQueue | services/waiting-room/internal/queue/store.go:130-137 | queue, count and sequence are gone and the tokens stay, unless the command failed unapplied |
| RoomService.QueueStore.AdmissionToken | services/waiting-room/internal/handlers/handler.go:26-45 | the token returned is the one stored for the user, unless it expired during the call or this call's read-back failed; undisturbed, a token that is there is returned and otherwise one is stored; no error without a failed SETNX |
| RoomService.QueueStore.PositionHandler | services/waiting-room/internal/handlers/position.go:12-55 | each status exactly when: 400 without a user id, 404 when not queued, 500 exactly after a command failed that it cannot do without, a token exactly for a position within the count; under timestamp_incr only for a user who is eligible; undisturbed, queue and count decide |
| RoomService.QueueStore.JoinHandler | services/waiting-room/internal/handlers/join.go:28-89 | the same for the position of the join against the count read later; never 404; the strategy given decides how the user is inserted, and by timestamp_incr keeps the queue in order |
| Ticker.StartsIff | services/waiting-room/internal/admission/ticker.go:27-28 | the interval is positive exactly for rates up to one a nanosecond |
| Ticker.NeverSlow | services/waiting-room/internal/admission/ticker.go:27 | in any time at least floor(T * rate / 10^9) intervals fit |
| Ticker.ExactIff | services/waiting-room/internal/admission/ticker.go:27 | a second holds exactly `rate` intervals if and only if 10^9 mod rate is less than the interval, and more otherwise |
| Ticker.ExactForModerateRates | services/waiting-room/internal/admission/ticker.go:27 | and so whenever rate * rate is at most 10^9 |
| Ticker.AdmittedCountsTicks | services/waiting-room/internal/admission/ticker.go:41-42 | between resets the admitted count is the number of ticks of all replicas |
| Ticker.BeatsAgainstTime | services/waiting-room/internal/admission/ticker.go:38-41 | however long the loop is held up, it receives no more ticks than intervals have passed, and as many exactly if it is ready at least once in each |
| Ticker.RunTicker | services/waiting-room/internal/admission/ticker.go:26-50 | the loop receives ticks at the interval of the rate, and adds exactly one for each that was applied, whatever happens between |
| FlashSale.AccountedAtEveryInstant | services/order-worker/internal/store/dynamodb.go:69-88 | at every instant of the whole system the stock is accounted for, and the orders table never holds more than the stock plus what faulty rollbacks credited |
| FlashSale.Conservation | scripts/consistency_check.py:166-184 | drained and settled, remaining plus the orders table's units is the stock, up to leaked and credited units, and exactly the stock without such faults |
| FlashSale.ConsistencyCheck | scripts/consistency_check.py:183-184 | remaining plus confirmed_orders never falls short of the stock, and equals it exactly when no order's counter updates were separated by another's |
| FlashSale.ConsistencyCheckOverreports | scripts/consistency_check.py:183-184 | for any two orders that fit the stock, a drained, settled, fault-free sale in which the sum is too high by the first one's quantity |
| FlashSale.EntersIff | services/flash-sale-api/handlers/purchase.go:33-54 | a purchase becomes a request exactly when it is well formed and, with the gate on, presents the non-empty token stored for its customer at that instant |
| FlashSale.EveryRequestHadAToken | services/flash-sale-api/handlers/purchase.go:43-54 | with the gate on, every request of every run came in with the token then stored for its customer |
| FlashSale.BuyersWereAdmitted | services/flash-sale-api/handlers/purchase.go:43-54 | with the gate on, the customers with accepted purchases are among the first `admitted` joiners |
| FlashSale.BuyerWithNobodyAdmitted | services/flash-sale-api/handlers/purchase.go:43-54 | after a reset of the queue that ends: for any customer, a run with the gate on and that buyer while nobody is admitted |
| FlashSale.BlankCustomerBlocksDrain | services/flash-sale-api/handlers/purchase.go:14-17 | an order of an all-blank customer is never stored and the queue never drains |
| FlashSale.DrainableIff | services/flash-sale-api/handlers/purchase.go:14-17 | at every point of every run the queue can still drain exactly when no published order is of an all-blank customer |
| FlashSale.BlankCustomerIsAccepted | services/flash-sale-api/handlers/purchase.go:14-17 | for any such customer, a run that accepts the order |

## Left out

- JSON, HTTP binding, logging, metrics loggers and configuration parsing: plumbing; the limits they set are parameters. Of the metrics only the workers' confirmed and duplicate counters are modelled; the join handler's out-of-order counter and its queue-size read are not.
- DynamoDB's time to live, SQS dead-letter redrive and receive counts: not decided by the code; a message may be delivered again at any time, also after its deletion.
- Retry.Do: its callers SaveWithRetries and DeleteWithRetries spell its loop out around the store commands, because a Dafny method takes no function with effects; Do itself works on the list of outcomes.
- Pipeline.ShutdownTerminates: goroutines, channel and selects are a machine over their steps, not loops; that external calls return is assumed.
- FlashSale.AccountedAtEveryInstant: resets of the counter are excluded from the whole-system runs; InventoryLaws.ResetLaw says what one does.
- The audit table's updated_at and the order record's timestamps, strategy label and expiry: no decision depends on them.
- One purchase per token: the code does not consume tokens.
- The clock: timestamps are arbitrary integers and a tick is a step.
