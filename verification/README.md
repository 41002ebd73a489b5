# Verification of the stampede checkout pipeline

A Dafny model of the services under `stampede/apps`: order creation with a
retried stock reservation, the transactional outboxes and their relays, the
payment and fraud workers behind SNS and SQS, the product index, and the
WebSocket hub that shows stock levels. What the services promise only together,
under crashes, lost replies, redelivery and any interleaving, is proved over
every run.

`dafny verify dfyconfig.toml` checks the whole project.

## How it is built

Each part is a state machine: a `State`, the `Step`s anybody may take, `Enabled`
and `Apply`. A run is any sequence of enabled steps. A main result is a lemma
about `After(EMPTY, steps)` for all runs, resting on an invariant `Inv` that
every step keeps, one small lemma for each conjunct.

Code that works step by step is also written step by step: a class holds the
shared state, and a method for each handler or loop performs its operations one
at a time. Between two operations an arbitrary schedule of other people's steps
happens, and every operation may fail, with or without having taken effect. Each
class keeps the history of its steps, and its `Valid()` says that the history is
a run of the machine, so that all that is proved of runs holds of the handlers.

| files | part |
|---|---|
| `Inventory`, `ReserveClient` | the reserve script, stock resets, and the client's retry loop |
| `TransactionalOutbox` | a table and its outbox in Postgres, statement by statement, with the relays |
| `Payment`, `Dedup` | the claim, publish, unclaim protocol |
| `Pipeline`, `Checkout` | the composition of all of these, and the end-to-end results |
| `Services` | the handlers of the order service and the payment worker, over the composition |
| `RelayBatch` | the order in which one relay's batch publishes |
| `Catalog`, `CatalogService` | the products table, its outbox and the OpenSearch index; their handlers |
| `Fraud`, `FraudWindow`, `FraudLate`, `Detector` | the claim, count, flag protocol; how far apart flagged messages can be; what a late check does; its handler |
| `Cascade`, `CascadeTime` | how many handler runs one publication causes; the same with the lifetimes of claims and messages |
| `Consumer`, `ConsumerLoop` | the SQS receiving loop, its semaphore and its goroutines |
| `Hub`, `HubServer`, `StockFeed` | the WebSocket hub, its goroutines, and what a client is shown |
| `Events`, `Keys`, `Numbers` | the event kinds and filter policies, ids, `int32` |
| `Wrappers`, `Counting`, `Sums` | options, finite sets, sums |

## Assumptions about the surroundings

- A Lua script runs as one atomic step in Redis. A Redis command or script takes
  effect before its call returns or never; a reserve call alone may, in
  `Pipeline`, also be served after its client gave up on it.
- A Redis command is performed at most once for each call of it: a client library
  that repeats INCR or SETNX by itself after a lost answer would count a message
  twice, or take its own claim for somebody else's.
- Postgres runs at READ COMMITTED. An insert that conflicts waits for the
  transaction that holds the row, and `FOR UPDATE SKIP LOCKED` returns no row
  that another transaction holds.
- SNS puts one message with a fresh id in every queue whose filter policy matches
  an accepted publish; SQS redelivers under that id while the message is
  retained. A publish that is reported as failed may have been accepted, but one
  call of Publish is accepted at most once: a client library that repeats the
  request after a lost answer would publish two outcomes from one handler run.
- Fresh UUIDs are unique. Quantities and stock stay in the range a Lua number
  holds exactly. Only these services publish to the topic.
- OpenSearch applies an index request before its call returns, or at any later
  time, or never.
- Time is one clock for all, in milliseconds.

## Where the code falls short, and exactly when

- **Oversell.** A reservation is looked up by order id alone
  (`stampede/apps/inventory-service/redis/reserve.lua:6-8`), so a second body
  under the same idempotency key rides on the first one's reservation, and a
  quantity beyond 32 bits is stored cut off. `NoOversellExactly` proves, for any
  set of request bodies: no run oversells if and only if the bodies that share a
  key cover each other. For quantities that fit the column that means that each
  key is used with one item and one quantity (`ConsistentMeansOneBody`).
- **Lost payments.** `PaymentsSafeOnlyWhenCalm` proves that a message removed from
  the queue always has an acknowledged outcome if and only if none of four
  mishaps may happen: a handler crash, a lost answer to the claim, a failed
  unclaim, a redelivery while the earlier handler still runs. Each one alone
  loses a payment. The visibility timeout equals the handler's timeout of 30
  seconds, so that the last one is not shut out.
- **Two outcomes.** With no failure at all and no overlap, a dedup check made one
  millisecond after the message's retention is over pays a second time
  (`LateCheckPaysTwice`): the claim and the retention both last a day, and a
  handler may check up to 30 seconds after it got the message.
  `OutcomesBoundedExactly` and, for the whole pipeline, `OneOutcomeExactly` prove
  that the bounds on outcomes hold in all runs if and only if late checks are shut
  out; runs without one are `punctual`.
- **One message flagged as two.** The fraud detector's claim lasts as long as the
  retention too, so that a late check counts a message a second time and may flag
  it for that (`LateCheckFlagsOneMessage`). `FlagsAreJustifiedExactly` proves that
  each message is counted once and each flag justified, in all runs and for every
  configuration, if and only if late checks are shut out.
- **A longer cascade.** For the same reason one order can cause more handler runs
  than the 145 that one claim for each message allows. `CascadeExactly` proves, for
  checks made up to `late` milliseconds after the retention, that every cascade
  keeps within a bound if and only if the bound is at least 85 runs and 60 for each
  time a claim can be won in that time. So 145 holds exactly when no check is late,
  and with the 30 seconds that the handler's timeout allows 205 is the least
  (`BoundsInTime`).
- **A slow reserve call.** The retry loop acts as one atomic reservation as long as
  the call is shorter than a reservation's lifetime. It is, by its timeouts
  (`CallsAreShort`: 15.3 seconds against a day); a longer one would take the units
  twice (`SlowCallTakesTwice`).
- **Fraud window.** The messages behind one flag need not lie in one window.
  `FlagsWithinExactly` proves for every bound: in all runs, for every threshold,
  the messages behind each flag lie within it if and only if no key is left
  without its expiry (by a lost answer to the INCR that makes the key, a crash
  before EXPIRE, or a failed EXPIRE) and the bound has room for the window plus
  the delay between that INCR and its EXPIRE. The handler's context lets that
  delay be up to 30 seconds, without any failure. A flag's count is exact for the
  life of the counter key all the same.
- **Concurrency zero.** `NeverStuckExactly` proves that the consumer can get on
  from every reachable state if and only if its limit is at least one; with zero,
  one message blocks it for ever.

## Model

| member | source | states |
|---|---|---|
| Checkout.NoOversellExactly | stampede/apps/order-service/main.go:157-233 | For any set of request bodies: every run keeps the committed quantities of every item within the units taken from its stock, if and only if bodies that share an order id cover each other |
| Checkout.OversellsUnlessCovered | stampede/apps/inventory-service/redis/reserve.lua:6-8 | Any two bodies under one key of which the first does not cover the second give a run that oversells |
| Checkout.ConsistentMeansOneBody | stampede/apps/order-service/main.go:206-212 | For quantities within 32 bits, covering each other is the same as using each key with one item and one quantity |
| Checkout.StockIsConserved | stampede/apps/inventory-service/redis/reserve.lua:10-18 | For stock set once to n and no reservation expired: stock plus committed orders plus reserved but uncommitted units is n, in every run |
| Checkout.NothingWithoutCause | stampede/apps/order-service/main.go:343-373 | In every reachable state a confirmed order has a confirmation event and a refused one a failed payment, caused by an OrderPlaced event, caused by the order's committed outbox row; every event on the topic has its order in the table |
| Checkout.StatusTellsOutcome | stampede/apps/order-service/main.go:349-355 | A confirmed order has an OrderConfirmed event and a refused one a PaymentFailed event; with no late check and no ambiguous publication it never has the other |
| Checkout.OneOutcomeUnlessAmbiguous | stampede/apps/payment-worker/main.go:44-86 | End to end, an order gets at most one outcome plus one for each publication, by relay or worker, that was accepted but taken for a failure; with none of these, at most one |
| Checkout.OneOutcomeExactly | stampede/apps/payment-worker/main.go:51-77 | End to end, the bound on outcomes holds in all runs if and only if no dedup check is made after its message's retention |
| Checkout.StatusIsFinal | stampede/apps/order-service/main.go:349-367 | With no ambiguous publication, a status once confirmed or failed stays what it is at every later point of the run, however often messages are redelivered |
| Checkout.LaterSettles | stampede/apps/order-service/db/query.sql:1-13 | Between any two points of a run an order keeps its user, item, quantity and event, and a status that has left pending never returns to it, replayed creates included |
| Checkout.WinnerIsStored | stampede/apps/order-service/main.go:165-230 | The request whose transaction inserted the order has its user, item and quantity stored in row and event, the quantity cut to 32 bits in the row and whole in the event |
| Checkout.OneKeyOneOrder | stampede/apps/order-service/main.go:157-165 | However many requests carry one key, and whatever their bodies: they leave at most the one order whose id the key is, and units are taken for them at most once a day |
| Checkout.CreatedMeansStored | stampede/apps/order-service/main.go:229-237 | A request answered 201 has its order and outbox row committed, both of one request: same user and item, row quantity the int32 of the payload's |
| Pipeline.StepKeepsInv | stampede/apps/order-service/main.go:143-240 | Every step of the composed system keeps the invariant that links reservations, requests, transactions, relays, events and statuses |
| Pipeline.PayloadsCarryId | stampede/apps/order-service/main.go:165-224 | An outbox payload carries its row's order id, user and item, and its quantity narrows to the row's |
| Services.Cluster.HandleCreateOrder | stampede/apps/order-service/main.go:143-240 | Under any interference and failures: 400 exactly without user or item, with a quantity below one or a key that is no UUID, and then nothing changes; the order id is the key, or the new UUID without one; 201 means both rows are committed, with user, item and quantity as asked for if this request inserted them; 409 means no transaction; no existing order is rewritten; with no fault and no other transaction, 201 or 409 by whether the order is reserved or stock suffices, and 201 also behind one lost reply |
| Services.Cluster.DoReserve | stampede/apps/order-service/main.go:87-119 | One attempt is retryable exactly when no odd status came and the call broke, or its reply did (a server error included); it ends unexpected exactly for an odd status and otherwise reserved or refused as the script answered, and leaves the request in the matching phase |
| Services.Cluster.ReserveStock | stampede/apps/order-service/main.go:60-85 | One to three attempts: each broken one is followed by another, but for the third and for a caller whose context ends in the back-off; the last one decides the error and the reply; without a fault the first decides, and when just the first reply is lost the second attempt gets the reservation |
| Services.Cluster.WriteRows | stampede/apps/order-service/main.go:196-233 | A success means the transaction is committed with both rows in place, and replies 201; anything else replies 500; without a fault or another transaction it succeeds |
| Services.Cluster.PublishNextOutboxEvent | stampede/apps/order-service/main.go:268-307 | No work and no error means no row was available; work without error means that the row it selected, the oldest available one, is published and the topic has got exactly its event from this attempt; every attempt ends committed or rolled back; an error needs a failed operation |
| Services.Cluster.PublishesRow | stampede/apps/order-service/main.go:291-296 | The topic gets exactly the event in the row's payload, and only if the publish was accepted |
| Services.Cluster.HandleStatusEvent | stampede/apps/order-service/main.go:343-373 | A success on a confirmation makes the order confirmed, on a failed payment it makes it refused, and changes nothing else; a failure changes nothing, or has exactly that effect if just the answer of the update was lost, and needs a failed statement or a transaction that keeps the row locked; any other event changes nothing |
| Services.Cluster.HandlePayment | stampede/apps/payment-worker/main.go:38-87 | A success means the message was found claimed, or this run's outcome, a failure or a confirmation as the simulation says, was acknowledged for the message's order and user; after a failed publish and a successful unclaim the claim is gone; other events are passed over |
| Services.Cluster.Checks | stampede/apps/payment-worker/main.go:51-58 | The dedup check says seen exactly when a claim is live, and otherwise leaves the run the owner of the claim; a failed one has claimed or changed nothing; no other key is touched |
| TransactionalOutbox.RowAndEventTogether | stampede/apps/order-service/main.go:178-233 | For any number of transactions sharing ids, with aborts and crashes: a row exists exactly when its outbox row does, one request wrote both, the outbox row is as old as that transaction, and a committed transaction has both in place |
| TransactionalOutbox.BothOrNeither | stampede/apps/order-service/db/query.sql:15-18 | Under the row lock, both inserts of a transaction take effect or neither does, and they do exactly when the id is new |
| TransactionalOutbox.RunPreserves | stampede/apps/order-service/db/query.sql:1-5 | No later step changes a committed row's columns, payload or time of creation, or turns published back to false |
| TransactionalOutbox.StatusNeverReturns | stampede/apps/order-service/db/query.sql:12-13 | A status that no update sets is never seen again once a row has left it |
| TransactionalOutbox.PublicationCount | stampede/apps/order-service/main.go:268-307 | With any number of relays, accepted publications of a row are one if its mark is committed, plus those accepted and rolled back, plus at most one in flight |
| TransactionalOutbox.RelaysNeverShare | stampede/apps/order-service/db/query.sql:20-29 | No two relays ever hold one row, no row is marked twice, and a held row is not published |
| TransactionalOutbox.SelectOldest | stampede/apps/order-service/db/query.sql:20-26 | Finds a row exactly when one is unpublished and not held, and then the oldest such row |
| RelayBatch.BatchInOrder | stampede/apps/order-service/main.go:256-307 | Whatever fails, a batch's publications, adjacent repeats collapsed, are the oldest unpublished rows in order with none skipped, within the given number of attempts |
| RelayBatch.SmoothBatch | stampede/apps/order-service/main.go:256-266 | Without failures exactly the oldest min(20, n) rows are published |
| RelayBatch.StopsForWantOfWork | stampede/apps/order-service/main.go:256-266 | A batch goes on after a failed publish, mark or commit; it stops before its last attempt only when no row is left, or a transaction or its query failed |
| RelayBatch.Relay.SelectOldest | stampede/apps/order-service/db/query.sql:20-26 | The first unpublished row in order of creation, or none |
| RelayBatch.Relay.PublishNextOutboxEvent | stampede/apps/order-service/main.go:268-307 | What one attempt publishes and marks, and the pair it returns, for each way it can go |
| RelayBatch.Relay.PublishOutboxBatch | stampede/apps/order-service/main.go:256-266 | The twenty-step loop has the effect, and makes the attempts, of the batch function of which order and stopping are proved |
| Inventory.Redis.RunReserveScript | stampede/apps/inventory-service/redis/reserve.lua:1-18 | The script answers 1 exactly for a reservation in force or enough stock, and its statements have the effect of the reservation that the store's history and invariant are about |
| Inventory.Redis.HandleReserve | stampede/apps/inventory-service/main.go:37-68 | Which status for which input and link, 409 exactly with no reservation in force and too little stock; the store changes as the script says on 200, and also behind a 500 whose reply was lost, and otherwise not |
| Inventory.Redis.HandleSetStock | stampede/apps/inventory-service/main.go:74-99 | Stock becomes the given quantity on 200, and also behind a 500 whose reply was lost; otherwise nothing changes |
| Inventory.InvHolds | stampede/apps/inventory-service/redis/reserve.lua:6-18 | Over all runs stock is never negative and is what the history gives, every update carries the level it left, and two takes for one order are a lifetime apart |
| Inventory.PublishedTraceDecreases | stampede/apps/inventory-service/redis/reserve.lua:15-17 | Between two resets the published values of an item strictly decrease, each by the units reserved since the earlier one, and are never negative |
| Inventory.StockFollowsTrace | stampede/apps/inventory-service/main.go:87-92 | Until the next reset the stock is the last published value less the units reserved since |
| Inventory.HoldStays | stampede/apps/inventory-service/redis/reserve.lua:16 | A reservation in force stays as it is until its lifetime is over |
| ReserveClient.ReserveWithRetries | stampede/apps/order-service/main.go:60-85 | The loop makes another attempt after each broken one, but for the third and for a caller that gives up in the pause, and its error is that of the last; its effect on the store is that of the recursive call, and under the client's timeouts that is one atomic reservation, or none, among the others' steps |
| ReserveClient.DoReserve | stampede/apps/order-service/main.go:87-119 | One attempt's effect and error; it may be retried exactly when it broke |
| ReserveClient.TimelyCallIsAtomic | stampede/apps/order-service/main.go:60-119 | Under the client's timeouts, over all attempts and lost replies, one call takes nothing or exactly its quantity in one atomic step among the others' steps; success means a reservation in force during the call, an insufficient-stock answer that it took nothing and stock was short |
| ReserveClient.HeldCallIsIdle | stampede/apps/inventory-service/redis/reserve.lua:6-8 | While the order's reservation lasts, a call takes nothing, leaves only the others' steps, and never reports insufficient stock |
| ReserveClient.CallsAreShort | stampede/apps/order-service/main.go:50-82 | The client's timeout and back-off keep a call within 15.3 seconds |
| ReserveClient.SlowCallTakesTwice | stampede/apps/inventory-service/redis/reserve.lua:16 | A call that outlives its own reservation takes its units twice |
| Payment.StepKeepsInv | stampede/apps/payment-worker/main.go:48-86 | Every step keeps claim ownership: a run that claimed and has not given back owns the claim, which outlives the message's retention |
| Payment.OutcomesBounded | stampede/apps/payment-worker/main.go:44-86 | An order has at most one outcome for each accepted OrderPlaced event, plus one for each outcome accepted but reported as an error |
| Payment.NeverBothIn | stampede/apps/payment-worker/main.go:60-77 | With one OrderPlaced event and no ambiguous outcome, an order never has two outcomes, so never a confirmation and a failure |
| Payment.NoPaymentLost | stampede/apps/payment-worker/main.go:51-86 | In a calm run every message removed from the queue has an acknowledged outcome for its order |
| Payment.PaymentsSafeOnlyWhenCalm | stampede/apps/payment-worker/main.go:79-86 | Runs that allow a set of mishaps keep every payment if and only if the set is empty |
| Payment.LosesAPayment | stampede/apps/payment-worker/main.go:51-84 | Each mishap alone (a crash between claim and publish, a lost answer to the claim, a failed unclaim, a redelivery while the first handler runs) loses a payment: the message is gone and no outcome was ever accepted |
| Payment.OutcomesBoundedExactly | stampede/apps/payment-worker/main.go:44-86 | The bound on outcomes holds in all runs if and only if no dedup check is made after its message's retention |
| Payment.LateCheckPaysTwice | stampede/modules/messaging/variables.tf:17-20 | A check one millisecond after the retention gives one order a confirmation and a failure, with no failed operation and no overlap of handlers |
| Dedup.Checker.Seen | stampede/apps/internal/dedup/dedup.go:19-26 | Says seen exactly when somebody was first for the key less than a day ago and it was not given back since; in the history of all callers, two that are first for a key are a day apart unless it was given back in between |
| Dedup.Checker.Unclaim | stampede/apps/internal/dedup/dedup.go:28-30 | From then on nobody is taken to have been first for the key, at any time, while every other key stays as taken as it was |
| Dedup.WinnersAreApart | stampede/apps/internal/dedup/dedup.go:19-26 | Without an unclaim, two callers that are both told they are first for a key are at least a day apart, whoever asks in between |
| Catalog.IndexAgreesWithTable | stampede/apps/catalog-service/main.go:172-211 | In every reachable state each indexed document has the id, name, description and price of its product's row, despite repeated and late index requests and replayed creates; with no unpublished row the index is the whole table |
| Catalog.MoveKeepsInv | stampede/apps/catalog-service/main.go:82-132 | Every statement, create and late index request keeps the payload of an outbox row equal to its product and the index equal to payloads |
| CatalogService.Server.HandleCreateProduct | stampede/apps/catalog-service/main.go:58-144 | 400 exactly without a name, with a price below one or a key that is no UUID, and then nothing changes; the product id is the key, or the new UUID without one; a 201 carries the stored product, the first writer's under a reused key; a product that this request inserted has its name, description and 32-bit price in row and document; no existing row changes; with no fault and nobody else at work a valid request gets its 201 |
| CatalogService.Server.CreatesProduct | stampede/apps/catalog-service/db/query.sql:1-5 | The insert answers with the row there is, or with the one it inserts, and knows which |
| CatalogService.Server.IndexNextOutboxEvent | stampede/apps/catalog-service/main.go:172-211 | Work without error means the row it selected, the oldest available one, is published and its product indexed as the table has it; no work without error that no row was available; an error needs a failed operation |
| CatalogService.Server.IndexOutboxBatch | stampede/apps/catalog-service/main.go:160-170 | At most twenty relay transactions, each new and finished; an error exactly when one could not look for a row; stopping early without error leaves no row to take, and if no other relay is at work the index is the whole table |
| Fraud.FlagsAreJustified | stampede/apps/fraud-detector/main.go:45-87 | With no late check each message is counted at most once; a flag with count n means n over the threshold and n different messages of that user, none a flag, counted in one life of the counter |
| FraudLate.FlagsAreJustifiedExactly | stampede/apps/fraud-detector/main.go:52-71 | Flags are justified and messages counted once, in all runs and for every threshold and window, if and only if no dedup check is made after its message's retention |
| FraudLate.LateCheckFlagsOneMessage | stampede/modules/messaging/variables.tf:17-20 | A check made one millisecond after the retention counts one message twice and flags it as two, with no failed operation and no overlap of handlers |
| Fraud.CountersAreExact | stampede/apps/fraud-detector/main.go:60-71 | A counter key holds the number of different messages counted since it was created |
| FraudWindow.FlagsWithinExactly | stampede/apps/fraud-detector/main.go:60-75 | For every window, delay and bound: the messages behind every flag lie within the bound, in all runs and for every threshold, if and only if no slip leaves a new key without its expiry and the bound has room for the window and the delay before the expiry is set |
| FraudWindow.FlagsWithinReach | stampede/apps/fraud-detector/main.go:67-75 | Without a slip the messages behind a flag lie within the window plus that delay, whatever else fails |
| FraudWindow.SlipFlagsForever | stampede/apps/fraud-detector/main.go:62-70 | After any one slip (lost INCR answer, crash, failed EXPIRE) messages arbitrarily far apart are flagged together |
| FraudWindow.ReachIsMet | stampede/apps/internal/sqsconsumer/consumer.go:113-114 | Without any failure, a late expiry makes the bound tight |
| Fraud.StepKeepsInv | stampede/apps/fraud-detector/main.go:52-87 | Every step keeps counters, claims, flags and the history of increments in agreement |
| Detector.Handler.Handle | stampede/apps/fraud-detector/main.go:39-88 | Every delivery ends the run as ignored (a flag, without effect), skipped (found claimed), done or failed; done means that it has counted the message as the n-th of its counter's life, set the expiry of the key if it was the first, and, for n over the threshold, published a flag with that very n last of all; a failure needs a failed operation |
| Detector.Handler.Counts | stampede/apps/fraud-detector/main.go:60-65 | The count read is the number of increments in the life of the user's key, this message's included |
| Detector.Handler.Judges | stampede/apps/fraud-detector/main.go:67-75 | A success on a first count has set the expiry of the user's key to a window from now, and only such a count can fail, on that expiry; the run goes on to flag exactly when the count is over the threshold |
| Cascade.CascadeIsBounded | stampede/apps/fraud-detector/main.go:45-87 | However messages are redelivered and handlers publish, at most 85 handler runs for each OrderPlaced publication and 60 more for each time, up to five, that fraud-detector may win the claim on one message |
| Cascade.CascadeBoundIsMet | stampede/modules/messaging/variables.tf:22-26 | The bound is exact for every such limit: 145 for claims won once, 205 for twice, 385 for a detector that wins at every delivery |
| CascadeTime.CascadeExactly | stampede/apps/internal/dedup/dedup.go:19-26 | With claims and messages that last a day and checks up to `late` after it: every cascade keeps within a bound per publication if and only if the bound is at least 85 and 60 for each claim that can be won in that time |
| CascadeTime.BoundsInTime | stampede/modules/messaging/variables.tf:12-26 | 145 runs bound every cascade exactly when no check is late, and 205 exactly when none is more than a day late |
| Cascade.CascadeTerminates | stampede/apps/payment-worker/main.go:44-77 | Every delivery lowers the measure, whatever its handler publishes |
| Consumer.ConcurrencyIsBounded | stampede/apps/internal/sqsconsumer/consumer.go:68-110 | In every reachable state running handlers are at most the tokens taken, and these at most the limit |
| Consumer.EachMessageHandledOnce | stampede/apps/internal/sqsconsumer/consumer.go:107-128 | A received message goes to exactly one goroutine, is deleted only after its handler succeeded, and none is left over when the loop is back at the top |
| Consumer.ReturnsDrained | stampede/apps/internal/sqsconsumer/consumer.go:72-102 | On every path out of the loop Run returns only after a shutdown, with no goroutine left, no token taken and every message handed out |
| Consumer.NeverStuckExactly | stampede/apps/internal/sqsconsumer/consumer.go:68-131 | From every reachable state the loop can get to its top or to its return, if and only if the limit is at least one |
| Consumer.ZeroConcurrencyBlocks | stampede/apps/internal/sqsconsumer/consumer.go:69 | With a limit of zero no handler ever starts and a first message blocks the loop |
| ConsumerLoop.Queue.Run | stampede/apps/internal/sqsconsumer/consumer.go:68-131 | Over any polls and schedule: it makes all the polls, receiving one batch of just the size each one brings, unless a shutdown or the semaphore stops it; it returns only drained after a shutdown, and otherwise is at the top, waiting for goroutines, or blocked with all tokens taken |
| ConsumerLoop.Queue.Turn | stampede/apps/internal/sqsconsumer/consumer.go:71-105 | A turn polls exactly when no shutdown was asked for; what arrives is one batch of that size, handed out to the last message unless the tokens run out |
| ConsumerLoop.Queue.AfterError | stampede/apps/internal/sqsconsumer/consumer.go:85-101 | A failed poll ends the loop at once after a shutdown, or when one ends the pause that follows; otherwise the loop is at its top again, with nothing received |
| ConsumerLoop.Queue.HandsOut | stampede/apps/internal/sqsconsumer/consumer.go:107-128 | The loop over a batch hands out every message or blocks with all tokens taken |
| ConsumerLoop.Queue.HandleMessage | stampede/apps/internal/sqsconsumer/consumer.go:110-127 | A goroutine always gives its token back and ends; its message is deleted exactly when the handler and the delete succeeded |
| Hub.ChannelsAreSafe | stampede/apps/edge-gateway/main.go:37-74 | Under every interleaving no send or second close hits a closed channel, every mapped channel is open, and no queue exceeds 16 |
| Hub.NoGaps | stampede/apps/edge-gateway/main.go:90-125 | What a client has been written is always a contiguous stretch of the broadcasts from its registration on |
| Hub.OfferReaches | stampede/apps/edge-gateway/main.go:61-67 | In every run, a client that is offered a message with fewer than 16 queued gets it queued and keeps all else; a full one keeps what it has and is to be closed |
| Hub.OnlyFullAreClosed | stampede/apps/edge-gateway/main.go:70-73 | In every run, a connection is closed by the client's own goroutines, or by a broadcast that found its queue full |
| HubServer.Server.Broadcast | stampede/apps/edge-gateway/main.go:58-74 | Every client in the map is offered the message; after the broadcast those with an open connection and a working writer have taken in everything sent since they registered; undisturbed, each client with room has just this message more, a full one lost its connection, and no other is touched |
| HubServer.Server.ClosesSlow | stampede/apps/edge-gateway/main.go:70-73 | Every client whose queue was full has its connection closed before the next broadcast |
| HubServer.Server.RunSubscription | stampede/apps/edge-gateway/main.go:141-158 | The broadcasts are the channel's messages, in order |
| HubServer.Server.Registers | stampede/apps/edge-gateway/main.go:37-45 | A new client has an open connection and an open, empty channel in the map, and its stream starts with the next broadcast |
| HubServer.Server.WriterLoop | stampede/apps/edge-gateway/main.go:99-111 | The loop takes all its turns unless it ends before, each turn does what a turn must, and when it ends nothing of the client is open; at every point what it has written has no gap |
| HubServer.Server.WriterTurn | stampede/apps/edge-gateway/main.go:99-110 | With a message queued it writes the one at the head or leaves for a failed write; at the end of a closed channel it leaves; once leaving it is through unless the mutex is taken |
| HubServer.Server.Writes | stampede/apps/edge-gateway/main.go:105-110 | A successful write sends the message at the head of the queue and a failed one nothing; it fails only by itself or on a closed connection |
| HubServer.Server.ReaderLoop | stampede/apps/edge-gateway/main.go:113-124 | A reader that ends leaves nothing of the client open, whether or not the writer did so before; it does end unless the mutex is taken |
| StockFeed.ClientSeesDecreasingStock | stampede/apps/edge-gateway/main.go:151-155 | What a client is shown of an item between two resets strictly decreases, by exactly the units reserved in between |

## Left out

- Terraform, Kubernetes, ArgoCD, shell and template files: present only as constants and as the routing table (retention, receive limit, filter policies).
- HTTP, JSON, UUID parsing, the AWS, Redis, Postgres and OpenSearch clients, logging, secrets, health handlers and every `main`: their outcomes are parameters and steps. A body that cannot be decoded is not modelled.
- Reverse proxy, path rewriting, origin check, search query and the two GET handlers: thin wrappers that change nothing.
- `notification-worker` claims and logs only: a queue that publishes nothing in `Cascade`. The event type `BidPlaced` has no publisher.
- `serverless-api` and the sentry `guardrail`, `reaper` and `self-healer` lambdas: single AWS calls behind simple branches.
- Generated `sqlcgen` code: the statements of `db/query.sql` are modelled in its place.
- Liveness: the code does not guarantee that every order is confirmed, for example after a crash between claim and publish.
- Receive limit and dead-letter queue bound deliveries in `Cascade` and `CascadeTime` only; elsewhere any number of deliveries is allowed, which includes the bounded ones.
- `Fraud` is not part of the composed `Pipeline`: it changes nothing that the order service or the payment worker reads, and only adds events that their queues filter out.
- The two relay queries order by `created_at` with ties in any order; `RelayBatch` assumes distinct times, one relay and no inserts during the batch, as its order property needs.
- A loop without an end in the source (`Run`, the writer's range) is a method over a finite script of polls or turns; the machines beside them cover all its finite runs.
- Goroutines that wait for a mutex, a token or a row lock are not resumed inside a method: the method returns and says so, or the statement counts as failed; the machines let the wait go on.
