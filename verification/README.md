# Verified model of the commerce handler's kernel

The handler takes signed intents (quote, authorize, buy, negotiate, return, subscribe, renew,
agent-to-agent pay), moves money at most once for each, and tells subscribers about it by
webhook. This project models the stateful parts that decide whether money moves once, whether an
event is lost, and whether a list read from an index is the list a scan would give, and proves
what they promise over whole runs.

One module per concern:

| file | models |
|---|---|
| `Idempotency`, `IdempotencySql`, `IdempotencyProtocol` | the reservation table: operations on both backends, their agreement, and runs of many processes with crashes, lease takeover and pruning |
| `Locks`, `Sections`, `Handlers` | the keyed in-process locks with eviction by reference count, critical sections, freedom from deadlock |
| `Purchase`, `Admission`, `Orders`, `PeerQuotes` | transactions, which intents get through to them, their orders and peer quotes, with every store access a step of its own, beside the unlocked expiry sweeper |
| `Windows`, `Mandate`, `Charges`, `RateLimit` | spending and request windows, the mandate ledger, and the charges made against it |
| `Outbox`, `OutboxSql`, `OutboxWorker` | webhook deliveries, their text columns, and the worker over runs with crashes and operator retries |
| `Timestamps`, `StateStore` | RFC 3339 column text in time order (section 5.1 of RFC 3339), and index columns against payload scans |
| `Calendar`, `Subscriptions`, `Billing` | calendar months, subscription operations, billing periods and dunning over runs |
| `Money`, `Negotiation` | prices, tax, discounts, negotiated totals and their audit trail |
| `Decimals`, `Base58`, `Measures`, `Wrappers` | decimal text, base58btc and did:key, integer widths and time units, `Option` |

Conventions. Time is one non-decreasing clock in nanoseconds (seconds for the fleet-wide rate
limiter). A run is a sequence of operations and the states between them; each operation is one
atomic store access or, where said so below, one call. Code that updates state in place is a
class whose methods are proved against functions on values; the theorems are about those
functions. Tokens and new ids are fresh, digests are opaque, the payment engine is an oracle that
answers with success or failure, and a crash of the process is a step.

Where the code does not do what its comments or a reader would expect, the code is modelled as it
is, a lemma shows the case, and another says exactly when the expectation holds:

- A late response of a superseded holder is recorded when no row is left for the key
  (`LateStoreAfterRelease`, `SupersededStore`), although the comments say a taken-over caller
  cannot clobber anything.
- `Completed` and `Expired` are not final: the sweeper acts on a stale listing without a lock
  (`PaidThenExpired`, `ExpiredThenAuthorized`; `LeavingCompleted`, `LeavingExpired`).
- A crash between the charge of a peer quote and the quote's update lets it be charged again
  (`CrashMidPaymentChargesTwice`; `ChargesAccounted`).
- A crash between persisting a buy's order and completing the transaction lets a second order
  be persisted (`CrashMidOrderPersistsTwice`; `OrdersAccounted`).
- A mandate period such as `P-1D` parses, and with it the budget bounds nothing
  (`NegativePeriodParses`, `NegativePeriodUnbounded`; `BudgetBoundIff`).
- Renewals the scheduler charges under a mandate reserve nothing, so the money charged in a
  window can exceed the budget (`RenewalsExceedBudget`; `WithinBudgetIff`).
- The promised retry time of the rate limiter is rounded down (`RetryTooEarly`;
  `RetryAfterIsKept`).
- A tenant's list can leave out a newer row that has blank columns (`NewerLegacyRowMissed`;
  `TenantListIsScan`).
- Twelve monthly periods are not one annual period for late days of the month
  (`TwelveMonthlyDrifts`; `TwelveMonthlyIsAnnual`).
- The error for renewing a paused subscription says to resume it, but nothing resumes one
  (`PausedIsFinal`).

## Model

| member | source | states |
|---|---|---|
| Idempotency.MemoryStore.Reserve | src/idempotency.rs:260-298 | the map backend claims a key exactly when no row, an expired row or a claim past its lease is there, and otherwise answers in-progress, replay or conflict and writes nothing |
| Idempotency.MemoryStore.Lookup | src/idempotency.rs:157-236 | a lookup misses on absent, expired and pending rows, whatever their digest; on an answered row it replays for a matching digest and conflicts for another |
| Idempotency.MemoryStore.Release | src/idempotency.rs:401-413 | only the pending row claimed under this token is removed |
| Idempotency.MemoryStore.Store | src/idempotency.rs:440-475 | the response lands on the row of this token or on no row; an answer tells which |
| Idempotency.MemoryStore.Prune | src/idempotency.rs:565-579 | the retain loop keeps exactly the rows a lookup would still consider and counts the others |
| Idempotency.MemoryStore.Do | src/idempotency.rs:251-603 | any call answers and acts as the one specification both backends share |
| Idempotency.AwaitResult | src/service/mod.rs:610-640 | a poller passes over misses, so over every row still being executed, answers with its first decisive observation, and asks for a retry exactly when all twenty polls miss |
| IdempotencySql.SqliteStore.Select | src/idempotency.rs:318-331 | the row read, with its timestamp parsed back, is what the table's map holds |
| IdempotencySql.SqliteStore.Decide | src/idempotency.rs:362-385 | the decision on that row is the map backend's answer |
| IdempotencySql.SqliteStore.ClaimPending | src/idempotency.rs:333-353 | the unconditional upsert replaces whatever the key held |
| IdempotencySql.SqliteStore.Reserve | src/idempotency.rs:299-392 | the transaction has the map backend's answer and effect |
| IdempotencySql.SqliteStore.Lookup | src/idempotency.rs:174-235 | the SELECT has the map backend's answer |
| IdempotencySql.SqliteStore.Release | src/idempotency.rs:414-438 | the guarded DELETE has the map backend's effect |
| IdempotencySql.SqliteStore.Store | src/idempotency.rs:476-523 | the upsert whose WHERE guards only its update arm has the map backend's answer and effect |
| IdempotencySql.SqliteStore.Prune | src/idempotency.rs:580-598 | deleting by text comparison removes the rows that are expired in time |
| IdempotencySql.DriveBoth | src/idempotency.rs:251-603 | every sequence of calls gets equal answers from both backends and leaves the table standing for the map's rows, so after each call too |
| IdempotencySql.UpsertIsUpdate | src/idempotency.rs:337-346 | on the primary key an upsert is a map update and keeps keys unique |
| IdempotencySql.AbsOfWhere | src/idempotency.rs:414-438 | deleting rows restricts the map to the keys whose row survives |
| IdempotencyProtocol.NoTwoExecutionsOverlap | src/service/mod.rs:573-605 | when executions end within lease and TTL, two of one key never overlap in any run, and every response stored is recorded |
| IdempotencyProtocol.OncePerTtl | src/service/mod.rs:573-605 | while executions are timely, within one TTL a key is executed at most once more than its executions fail by release or crash |
| IdempotencyProtocol.OverlapStartsExactly | src/idempotency.rs:270-297 | beside an execution that owns its row a second one starts exactly when the first is past its lease or TTL |
| IdempotencyProtocol.SlowHolderOverlaps | src/idempotency.rs:276-285 | a holder one tick past its lease runs beside its successor |
| IdempotencyProtocol.StoredResultIsFinal | src/idempotency.rs:251-392 | after a recorded response and up to the TTL nobody executes the key, every replay is that response, and another digest conflicts; no timing is assumed |
| IdempotencyProtocol.ReplayHasAnExecution | src/idempotency.rs:157-236 | every replay comes from an execution that claimed the same tenant's key with the same digest and stored within the TTL |
| IdempotencyProtocol.ConflictHasAnExecution | src/idempotency.rs:157-236 | in every run a lookup or a reservation that conflicts does so with an execution of that key under another digest that stored within the TTL, never with one still running |
| IdempotencyProtocol.RunningIsInProgress | src/idempotency.rs:251-298 | while an execution owns its row, a lookup of the key misses, and a reservation is told it is in progress exactly while the lease and the TTL last, whatever the digest |
| IdempotencyProtocol.AwaitInRun | src/service/mod.rs:610-640 | polling the tables of any run, a caller whose digest every execution of the key shared never gets a conflict, and what it replays was stored by an execution |
| IdempotencyProtocol.SupersededHolder | src/idempotency.rs:401-523 | in every run a superseded holder changes the table only by storing when no row is left for the key; its release changes nothing |
| IdempotencyProtocol.SupersededStore | src/idempotency.rs:440-523 | a store whose claim is gone changes the table exactly when no row is left for the key |
| IdempotencyProtocol.LateStoreAfterRelease | src/idempotency.rs:401-523 | the exception in a run: takeover, release by the successor, late store by the first holder |
| IdempotencyProtocol.SweeperInvisible | src/idempotency.rs:565-603 | deleting every prune from a run changes no answer, by simulation on the rows not yet expired |
| IdempotencyProtocol.SweeperInvisibleFromStart | src/idempotency.rs:605-622 | the same from an empty table, for prunes at any times |
| Locks.OperationLocks.LockOperation | src/service/mod.rs:236-255 | evicts exactly the entries nobody references, then finds or creates the key's mutex and references it |
| Locks.EnterEvictsIdle | src/service/mod.rs:239-244 | after entering, every entry left has a live reference |
| Locks.ReferencedIsRetained | src/service/mod.rs:240-244 | eviction keeps every mutex some caller references |
| Locks.LocksExclude | src/service/mod.rs:236-255 | in every run a waiting or holding caller references the mutex now in the table for its key, and no key has two holders |
| Locks.IdempotencyKeyInjective | src/service/mod.rs:209-221 | the lock name determines tenant and key |
| Handlers.ServiceNames | src/service/mod.rs:209-234 | idempotency and entity names never clash, and each kind of entity name determines its id |
| Handlers.NoDeadlock | src/service/mod.rs:507-640 | while any request is unfinished some request can move, with requests dropped while they wait |
| Handlers.WaitingCanCancel | src/service/mod.rs:236-255 | a request dropped while it waits for a lock gives its place back |
| Handlers.StepsAreBounded | src/service/mod.rs:507-640 | every step brings its request nearer its end, in at most eight, and moves no other |
| Handlers.WorkersExclude | src/service/mod.rs:507-640 | in every run two requests at work on one entity are the same, and so are two between taking and giving back one idempotency lock |
| Sections.OneInside | src/service/mod.rs:236-255 | two requests inside the section of one key are the same request |
| Sections.MoveKeeps | src/service/mod.rs:246-255 | taking, holding and giving back a lock keeps the section and lock table consistent |
| Purchase.ChargedAtMostOnce | src/service/purchase.rs:76-124 | under every interleaving a transaction moves to completed at most once, and the amount reserved is the total recorded |
| Purchase.CompletionIsCharge | src/service/purchase.rs:104-116 | only the last store access of a buy completes a transaction, and it adds exactly one charge |
| Purchase.LeavingCompleted | src/service/lifecycle.rs:256-265 | completed is left exactly by a return or by the sweeper's turn on a listed row |
| Purchase.LeavingExpired | src/service/purchase.rs:34-124 | expired is left exactly by an authorize, buy or return that read the row before |
| Purchase.PaidThenExpired | src/service/lifecycle.rs:256-265 | a run in which a paid transaction is marked expired |
| Purchase.ExpiredThenAuthorized | src/service/purchase.rs:34-74 | a run in which an expired quote is authorized and then open to a buy |
| Purchase.StepKeepsValid | src/service/purchase.rs:34-124 | what a request read under the lock stays true until it writes, whatever else steps |
| Admission.ReadAdmits | src/service/purchase.rs:34-124 | in every run an intent goes on past its read exactly on an existing row in a state meant for it: authorize on quoted, buy on quoted or authorized, neither on a linked placeholder, negotiate on quoted, return on any |
| Admission.DeadlineDecides | src/service/helpers.rs:272-301 | the check of a quote lets the intent go on exactly when the deadline read is absent or later than the clock; otherwise it turns back and a row that is still a due draft or quote becomes expired |
| Admission.OpenedWrites | src/service/purchase.rs:34-124 | authorize and return write the state alone, negotiate the total alone, and a buy first reserves the total it read |
| Admission.BuyCompletes | src/service/purchase.rs:104-124 | a buy with its order completes the row, changes nothing else of it and records its total; one whose order fails changes nothing |
| Admission.SweepMarks | src/service/lifecycle.rs:256-265 | the sweeper lists exactly the drafts and quotes past their deadline and marks each listed row expired whatever it has become |
| Admission.ElapsedIsRefused | src/service/helpers.rs:272-301 | a request that found its quote elapsed never authorizes, reserves or completes in the rest of the run |
| Admission.PaidQuoteWasOpen | src/service/purchase.rs:76-124 | every completion is by a buy that read an unlinked quoted or authorized row, and if it was a quote the same request checked it before its deadline |
| Admission.AuthorizedQuoteWasOpen | src/service/purchase.rs:34-74 | a row becomes authorized only through a request that checked the quote it had read before its deadline |
| Admission.TimelyBuyCompletes | src/service/purchase.rs:76-124 | from any reachable state in which a buy holds the lock of a quote before its deadline, or of an authorized row, its own steps lead to the row completed and its total charged once |
| Admission.TimelyAuthorizeWrites | src/service/purchase.rs:34-74 | from any such state of an authorization its own steps lead to the quote authorized |
| Orders.OrdersAccounted | src/service/purchase.rs:104-116 | in every run the orders persisted for a transaction are exactly those crashes stranded, the one in flight and the one its completion records |
| Orders.OneOrderUnlessStranded | src/service/purchase.rs:104-116 | so at most one more than were stranded, and at most one without a crash in the gap |
| Orders.CrashMidOrderPersistsTwice | src/service/purchase.rs:104-116 | from any reachable state in that gap, a crash leads to a second order while the transaction stays open |
| Orders.OpenGetsOrder | src/service/purchase.rs:76-116 | after any run that ends in a crash, an open transaction can have another order persisted |
| Orders.OrderInGap | src/service/purchase.rs:104-116 | the gap is reached |
| PeerQuotes.ChargesAccounted | src/service/a2a.rs:138-287 | the charges for a quote are exactly those crashes stranded, the one being inserted and the one recorded, each at the quoted price |
| PeerQuotes.PaidAtMostOnce | src/service/a2a.rs:138-287 | with no crash between charge and quote update a quote is charged at most once in any run |
| PeerQuotes.CrashMidPaymentChargesTwice | src/service/a2a.rs:277-287 | from any reachable state in that gap, a crash leads to a second charge while the quote stays payable and unexpired |
| PeerQuotes.PayableIsCharged | src/service/a2a.rs:138-287 | after any run that ends in a crash, a payable, unexpired quote can be charged its price |
| PeerQuotes.PaymentInGap | src/service/a2a.rs:277-287 | the gap is reached for every price |
| PeerQuotes.StepKeepsValid | src/service/a2a.rs:138-287 | every step keeps the accounting and each payment's view of its quote |
| PeerQuotes.PaymentChecks | src/service/a2a.rs:147-183 | in every run a payment goes on exactly on a quoted peer quote whose deadline is later than the clock and whose price is positive, and for that price; an elapsed one is to be marked expired, anything else is refused |
| PeerQuotes.PaymentWrites | src/service/a2a.rs:162-287 | an elapsed quote becomes expired; a payment that goes on inserts one charge of the price it read and then records it on the accepted quote |
| PeerQuotes.SweepMarks | src/service/lifecycle.rs:314-322 | the sweeper lists exactly the pending and quoted ones past their time and marks each listed one expired, a paid one too |
| PeerQuotes.OnlyOpenQuotesArePaid | src/service/a2a.rs:138-287 | every charge was made by a payment that found its quote quoted, at that price, before its deadline |
| Windows.TwoWindowBound | src/mandate.rs:350-361 | with a capped sum per window, no interval of one window length sees more than twice the cap |
| Mandate.MandateLedger.TryUsage | src/mandate.rs:180-227 | an unknown mandate has spent nothing |
| Mandate.MandateLedger.TryRecordSpendChecked | src/mandate.rs:318-440 | check and record in one step on either backend, with the verdict and new row of the specification, touching no other mandate |
| Mandate.EvaluateAgreesWithGate | src/mandate.rs:663-690 | evaluation admits a positive amount exactly when the ledger then records it |
| Mandate.SpendFits | src/mandate.rs:350-440 | a spend is recorded exactly when it is positive, within the cap, and what an open window has spent plus the amount is within the budget |
| Mandate.RowAfter | src/mandate.rs:318-440 | a recorded spend adds its amount to the tally, from zero in a new window; a refused one leaves the row, but for the window the in-memory ledger keeps |
| Mandate.BudgetHolds | src/mandate.rs:318-440 | over every run on either backend spent stays between zero and the budget, no window records more than the budget, and no interval of one window more than twice |
| Mandate.RefusedOnlyOverBudget | src/mandate.rs:318-440 | over every run on either backend a positive spend within the cap is refused exactly when what its window has recorded plus the amount exceeds the budget |
| Mandate.TwiceTheBudget | src/mandate.rs:350-361 | twice the budget is reached, so the interval bound is tight |
| Mandate.BudgetBoundIff | src/mandate.rs:318-440 | for every mandate, capped per transaction or not, no window records more than the budget over all runs exactly when the period is not negative or nothing can be spent, because the budget or the cap is not positive |
| Mandate.NegativePeriodUnbounded | src/mandate.rs:350-361 | under a negative period any number of spends is recorded into one window, as long as one minor unit is within budget and cap |
| Mandate.OverspentRun | src/mandate.rs:350-361 | in particular a run whose one window records more than the budget |
| Mandate.PeriodRoundTrip | src/mandate.rs:727-750 | days, weeks and 30-day months are read as written |
| Mandate.HoursRoundTrip | src/mandate.rs:732-737 | hours are read as written |
| Mandate.NegativePeriodParses | src/mandate.rs:738-740 | a signed period is accepted |
| Charges.ChargesCovered | src/service/helpers.rs:303-335 | in every run the charges against one window's reservations are at most what it recorded, hence within the budget, even when charges fail |
| Charges.ChargeWasReserved | src/service/subscriptions.rs:44-50 | every charge that moves money was reserved first, for the same price |
| Charges.WithinBudgetIff | src/service/lifecycle.rs:366-415 | for every mandate the budget bounds all money charged in a window, over all runs in which the scheduler charges at most a given amount in it, exactly when that amount is zero and the period not negative, or nothing can be spent and the amount is within the budget |
| Charges.RenewalsExceedBudget | src/service/lifecycle.rs:366-415 | k scheduled renewals in the window of a first charge bring the total to k + 1 times the price, whatever the budget |
| Charges.StepKeepsValid | src/service/subscriptions.rs:186-203 | reserving, charging and giving up keep every open intent's reservation equal to its price |
| RateLimit.RateLimiter.CheckAt | src/rate_limit.rs:206-258 | one request against a caller's bucket: admitted exactly while the rolled window has room, other callers untouched |
| RateLimit.AdmissionBound | src/rate_limit.rs:230-251 | no window admits more than the capacity and no interval of one window more than twice it |
| RateLimit.AlignedBound | src/rate_limit.rs:125-164 | the same for the counter the fleet shares, in windows aligned to the epoch |
| RateLimit.AdmittedIff | src/rate_limit.rs:230-251 | after any sequence of requests the next is admitted exactly when its window is new or has admitted fewer than the capacity |
| RateLimit.AlignedIff | src/rate_limit.rs:125-164 | the fleet counter admits a request exactly when fewer requests than the capacity, refused ones included, came before it in its aligned window |
| RateLimit.RetryAfterIsKept | src/rate_limit.rs:236-245 | waiting the promised time succeeds exactly when the time left was whole seconds or under one |
| RateLimit.RetryTooEarly | src/rate_limit.rs:236-245 | half a second over, the promise is too short |
| Outbox.BackoffGrows | src/webhook/worker.rs:19-22 | the delay is between a second and an hour, never shrinks, and stops growing exactly at sixty attempts |
| Outbox.BackoffIsSquare | src/webhook/worker.rs:19-22 | the delay after n failures is n squared seconds below sixty and an hour from then on |
| Outbox.WebhookOutbox.Enqueue | src/webhook/outbox.rs:50-58 | the map backend replaces a row of the same id |
| Outbox.WebhookOutbox.EnqueueSql | src/webhook/outbox.rs:59-97 | the database keeps the row already there |
| Outbox.WebhookOutbox.ListDue | src/webhook/outbox.rs:135-158 | due rows oldest first, and nothing due left out unless the limit is full of rows due no later |
| Outbox.WebhookOutbox.MarkInFlight | src/webhook/outbox.rs:372-377 | one row is marked as being sent |
| Outbox.WebhookOutbox.MarkDelivered | src/webhook/outbox.rs:441-450 | an accepted send leaves its row delivered with the code and time of the answer, and counts the attempt |
| Outbox.WebhookOutbox.BumpFailure | src/webhook/outbox.rs:492-511 | the attempt is counted, and the row dead-lettered at the maximum or failed and due again after the square of its attempts in seconds, an hour at most |
| Outbox.WebhookOutbox.ReclaimInFlight | src/webhook/outbox.rs:396-439 | every interrupted row and no other becomes pending and due now, and is counted |
| Outbox.WebhookOutbox.ResetForRetry | src/webhook/outbox.rs:464-488 | refused with the right error and no change for absent, pending, in-flight and delivered rows; otherwise a fresh cycle |
| Outbox.WebhookOutbox.Prune | src/webhook/outbox.rs:704-768 | removes exactly the settled rows past the cutoff of their status and counts each kind |
| OutboxSql.TextBatchIsDueBatch | src/webhook/outbox.rs:159-195 | the statement over text columns may return a batch exactly when the map backend may |
| OutboxSql.TextPruneIsPrune | src/webhook/outbox.rs:741-766 | the text cutoff selects the rows the map backend prunes |
| OutboxWorker.Attempt | src/webhook/worker.rs:114-154 | one send leaves its row delivered exactly when the answer was 2xx, settles it by that answer and is counted under the status it leads to |
| OutboxWorker.Tick | src/webhook/worker.rs:110-157 | an uninterrupted pass delivers exactly the rows of a due batch that were answered with 2xx, settles each with its own answer, leaves all others alone, and reports every send once |
| OutboxWorker.NoEventLost | src/webhook/outbox.rs:704-768 | in every run a row leaves only from delivered or dead-lettered, and what is sent and where never changes |
| OutboxWorker.SendsAccounted | src/webhook/outbox.rs:372-511 | sends begun are attempts, reclaimed sends and the one out; at most the maximum plus the crashes; unsettled rows have attempts left |
| OutboxWorker.DeliveredWasAccepted | src/webhook/worker.rs:118-122 | a row is delivered only after its destination accepted a send |
| OutboxWorker.AcceptedDelivers | src/webhook/worker.rs:118-122 | in every run a 2xx answer delivers its row, with that code and time |
| OutboxWorker.AcceptedIsFinal | src/webhook/worker.rs:110-157 | from then on, until it is pruned, the row stays delivered and is not sent again |
| OutboxWorker.RefusedCounts | src/webhook/outbox.rs:492-511 | any other answer uses up an attempt and leaves the row dead-lettered at the last, else failed and due again after the square of its attempts |
| OutboxWorker.RetryStartsOver | src/webhook/outbox.rs:464-488 | an operator retry takes a failed or dead-lettered row and makes it pending, due at once, with all its attempts |
| OutboxWorker.DeadMeansExhausted | src/webhook/outbox.rs:504-506 | a row is dead-lettered only with its attempts used up |
| OutboxWorker.NoStarvation | src/webhook/worker.rs:110-157 | an overdue row with r rows at or before it is sent within r/50 + 1 passes, whatever fails, crashes, is enqueued, reclaimed or retried meanwhile |
| OutboxWorker.InterruptedIsResent | src/webhook/outbox.rs:379-439 | a send cut off by a crash is repeated after the restart, within r/50 + 1 passes; no operator is needed |
| OutboxWorker.StepKeepsProgress | src/webhook/outbox.rs:135-158 | each completed pass without the row removes fifty rows ahead of it, and nothing gets ahead |
| OutboxWorker.AheadShrinks | src/webhook/outbox.rs:492-511 | rows enter or re-enter the queue only behind an overdue row |
| OutboxWorker.StepKeeps | src/webhook/outbox.rs:372-511 | every step keeps each row's books and at most the head of the batch in flight |
| Timestamps.TextOrderIsTimeOrder | src/state_store.rs:455-466 | text order of stored timestamps is time order, and equal texts are equal instants |
| Timestamps.TimestampRoundTrip | src/idempotency.rs:366-368 | a stored timestamp parses back to the instant written |
| Timestamps.FormatShape | src/state_store.rs:455-466 | the text reads yyyy-mm-ddThh:mm:ss with the fields of the instant, then 0, 3, 6 or 9 fraction digits, then +00:00 |
| Timestamps.FourDigitsNeeded | src/state_store.rs:455-466 | after an instant with a four-digit year, a later one sorts later exactly when its year has four digits too; a wider year is signed and sorts first |
| Timestamps.WritableInstants | src/state_store.rs:455-466 | the instants with a four-digit year are the first 3 652 425 days |
| Timestamps.ColumnOrder | src/state_store.rs:625-630 | comparing two columns decides which instant is earlier |
| StateStore.IndexColumns | src/state_store.rs:454-467 | the columns say what the payload says |
| StateStore.JsonStore.Insert | src/state_store.rs:68-122 | an upsert writes payload and consistent columns together, as the map insert it stands for |
| StateStore.JsonStore.Get | src/state_store.rs:124-151 | a read returns the payload of the map it stands for |
| StateStore.JsonStore.Update | src/state_store.rs:159-236 | a read-modify-write rewrites columns with the payload and fills in blank ones; an absent row changes nothing |
| StateStore.JsonStore.ListDue | src/state_store.rs:510-542 | indexed query and fallback both return exactly the rows whose payload has a wanted status, a time that has come, and a payment instrument where one is needed |
| StateStore.SweepersReadTheIndex | src/state_store.rs:615-901 | with no blank rows the expiry statement selects exactly the drafts and quotes past their time, and the renewal statement the active and trialing subscriptions that are due and can be charged, which are the scans |
| StateStore.JsonStore.MergeLegacy | src/state_store.rs:354-368 | the merge adds each matching row the index did not return, once |
| StateStore.JsonStore.SortAndTruncate | src/state_store.rs:505-507 | the result is the newest `limit` rows in order |
| StateStore.JsonStore.ListForTenant | src/state_store.rs:478-508 | the list is the newest of all matching rows, or of the filled-in ones when they fill the page |
| StateStore.TenantListShows | src/state_store.rs:478-508 | a list shows rows of that tenant and status only, once each and newest first, and without blank rows leaves one out only of a full page by none older |
| StateStore.HitsAreNewestIndexed | src/state_store.rs:552-613 | for a named tenant the indexed query sees exactly the filled-in rows in time order |
| StateStore.TenantListIsScan | src/state_store.rs:494-501 | the list is the scan's exactly when the index left room or no blank matching row is newer than a hit |
| StateStore.NewerLegacyRowMissed | src/state_store.rs:494-501 | with room for one, a newer blank row is left out |
| Calendar.YearsInClosedForm | src/service/helpers.rs:78-96 | the day count follows the Gregorian leap-year rule |
| Calendar.DayNumberOrder | src/service/helpers.rs:78-96 | day numbers order dates as the calendar does and determine them |
| Calendar.DateOfDayNumber | src/service/helpers.rs:78-96 | turning a date into its day number and back gives the date again |
| Calendar.MonthLengths | src/service/helpers.rs:83-96 | a date exists exactly within its month of 31, 30, or 28 or 29 days |
| Calendar.LeapYears | src/service/helpers.rs:83-96 | a year has 366 days exactly when it is divisible by 400, or by 4 and not by 100 |
| Calendar.PeriodAdvanceStep | src/service/helpers.rs:83-96 | a weekly period is 7 days, a monthly one 28 to 31, an annual one 365 or 366 |
| Calendar.PeriodAdvanceDate | src/service/helpers.rs:83-96 | a monthly or annual period ends one or twelve months on at the same time of day, on the same day of the month or the last one of a shorter month |
| Calendar.PeriodAdvanceIncreases | src/service/helpers.rs:83-96 | a period moves on by at least a week and keeps the time of day |
| Calendar.MonthlyStepsClamp | src/service/helpers.rs:88-91 | repeated monthly steps land in successive months on the smallest day clamped so far, which never grows |
| Calendar.TwelveMonthlyIsAnnual | src/service/helpers.rs:88-95 | twelve monthly steps are one annual step exactly for February dates and days the next February has |
| Calendar.TwelveMonthlyDrifts | src/service/helpers.rs:88-95 | from 31 January twelve monthly steps end on 28 January |
| Subscriptions.SubscriptionService.Subscribe | src/service/subscriptions.rs:57-158 | a trial of 1 to 366 days charges nothing, ends that many days later and is first billed then; otherwise the first charge must succeed and pays from now; errors leave no row |
| Subscriptions.SubscriptionService.Renew | src/service/subscriptions.rs:160-235 | refused when paused, canceled or not charged; otherwise the next period follows the previous end |
| Subscriptions.SubscriptionService.Pause | src/service/subscriptions.rs:237-272 | any subscription that is not canceled is paused |
| Subscriptions.SubscriptionService.Cancel | src/service/subscriptions.rs:274-310 | any subscription that is not canceled is canceled |
| Subscriptions.SubscriptionService.TickOne | src/service/lifecycle.rs:87-230 | one due subscription advances on a charge, or counts the failure and reschedules or goes past due |
| Subscriptions.SubscriptionService.TickSubscriptions | src/service/lifecycle.rs:81-233 | a pass attempts each due subscription once, touches no other, and reports how many were charged, failed and went past due |
| Billing.PeriodsTileTime | src/service/lifecycle.rs:93-124 | over every run bills pay for consecutive periods that never overlap, none automatic before it begins; the counter is their number up to its ceiling; the next charge is never before the paid period ends |
| Billing.TrialIsFree | src/service/subscriptions.rs:57-100 | in every run a subscription enrolled at t with a trial of d days has no automatic bill before t + d days, its first bill pays from exactly then, and until that bill its period ends at that instant |
| Billing.TrialEndsOnTime | src/service/subscriptions.rs:67-86 | enrolling with a trial leaves the subscription trialing with its next charge due when the days are over, and not before |
| Billing.NoTrialPaysAtOnce | src/service/subscriptions.rs:87-158 | without a trial the first bill is at the enrolment and pays from it, for as long as the run goes on |
| Billing.PassBills | src/service/lifecycle.rs:81-124 | a pass bills a subscription exactly when it is active or trialing, due, payable and the charge goes through: once, for the period after the last |
| Billing.BillsOnlyGrow | src/service/lifecycle.rs:93-124 | what was billed stays billed |
| Billing.PausedIsFinal | src/service/subscriptions.rs:171-182 | from paused only paused and canceled are reachable, canceled is final, and neither is billed |
| Billing.StepKeepsId | src/service/subscriptions.rs:57-235 | every operation keeps a subscription's bills consecutive and in step with its row |
| Billing.SchedulerCatchesUp | src/service/lifecycle.rs:81-233 | repeating the pass at a fixed time leaves nothing due, within the weeks behind times the attempts allowed plus the attempts left |
| Billing.TickCatchesUp | src/service/lifecycle.rs:93-184 | every attempt, charged or failed, lowers that bound |
| Billing.DunningSchedule | src/service/lifecycle.rs:39-69 | with n waits a row of failures is past due on exactly failure n + 1 (the third without any), and attempt i + 1 never precedes the i-th wait |
| Money.PriceRequestItems | src/service/helpers.rs:98-154 | saturating line by line gives the exact subtotal capped once, tax of 8.75 % on it and their capped sum as total; the first line that cannot be billed refuses the basket |
| Money.PricedAddsUp | src/service/helpers.rs:143-152 | the subtotal is the capped sum of the lines, and the total the capped sum of that and its tax |
| Money.LineIs | src/service/helpers.rs:110-130 | a line is billable exactly with a positive quantity and no negative price, and costs quantity times the price named, or times 1 000 minor units |
| Money.TaxIsExact | src/service/helpers.rs:156-161 | the narrowing cast never truncates, and the tax is 875 ten-thousandths of the amount rounded down |
| Money.TotalsCell.ApplyDiscount | src/service/helpers.rs:163-175 | discount clamped between zero and the subtotal, subtracted once, tax of 8.75 % on what is left, total their capped sum, subtotal kept |
| Money.DiscountMonotone | src/service/helpers.rs:163-175 | a larger discount never gives a larger total or tax, whatever its size or sign, and one of the subtotal or more costs nothing |
| Money.NegotiatedIsFloor | src/service/negotiate.rs:63-69 | the negotiated total is the exact product rounded down and never above the old total |
| Money.RoundingLossBounded | src/service/negotiate.rs:63-69 | k offers in a row lose less than k minor units against the exact product, never the other way |
| Negotiation.HistoryKeyInjective | src/service/negotiate.rs:83-89 | padded keys are distinct for distinct counts, beyond 999 too |
| Negotiation.HistoryKeyText | src/service/negotiate.rs:83-89 | the key is the prefix and the count in decimal, filled up with zeros to three digits and no further |
| Negotiation.NextKeyIsFresh | src/service/negotiate.rs:83-89 | counting the history keys gives an unused key |
| Negotiation.TransactionDoc.Record | src/service/negotiate.rs:70-102 | the offer is appended to an unbroken chain that ends at the new total, and no earlier key changes |
| Negotiation.TransactionDoc.Negotiate | src/service/negotiate.rs:17-106 | exactly the valid offers on quoted transactions are recorded, a named total wins, and a refusal changes nothing |
| Base58.GoEncode | clients/go/stateset-icp-go/mandate.go:31-61 | the loops that append, divide and reverse in place compute the encoding |
| Base58.ReverseInPlace | clients/go/stateset-icp-go/mandate.go:57-59 | the two-index swap loop reverses its buffer |
| Base58.PythonEncode | clients/python/stateset_icp/mandate.py:33-47 | the Python shape computes the same encoding |
| Base58.EncodingIff | clients/go/stateset-icp-go/mandate.go:25-61 | the encoding is the one text in the alphabet whose digits have the value of the bytes and that starts with as many ones as they start with zeros |
| Base58.EncodingSpelled | clients/go/stateset-icp-go/mandate.go:25-61 | every encoding is spelled in the 58-letter alphabet |
| Base58.KnownText | clients/go/stateset-icp-go/mandate_test.go:161-166 | three zero bytes and the byte 0x61 are the text 1112g |
| Base58.DecodeInvertsEncode | clients/go/stateset-icp-go/mandate.go:31-61 | the standard decoder gives back every byte string, leading zeros included |
| Base58.EncodeInvertsDecode | src/resolver.rs:119-121 | every well-formed text is the encoding of its bytes, so no two texts share bytes |
| Base58.DidKeyRoundTrip | src/resolver.rs:100-139 | a did:key resolves to a key exactly when it is the identifier made from that key |
| Base58.ResolvesIff | src/resolver.rs:118-139 | an identifier resolves to a key exactly when its text spells the bytes 0xed and 0x01 and then the 32 bytes of that key |
| Base58.ResolveFails | src/resolver.rs:118-135 | it is malformed exactly when the text does not decode to 34 bytes, and of an unsupported kind exactly when those start otherwise |
| Base58.DidKeyInjective | clients/go/stateset-icp-go/mandate.go:69-78 | different keys have different identifiers |

## Left out

- HTTP, gRPC, MCP, SSE, protocol adapters, discovery, configuration, metrics and the migration ladder: plumbing around the kernel.
- Ed25519, SHA-256, HMAC, JSON and JCS: library code; digests are opaque strings and tokens fresh names.
- SQL engine internals, pool errors, I/O failures, lock poisoning and payloads that do not parse: a statement or transaction is one atomic step that succeeds.
- Redis beyond an atomic counter per window and its expiry; a limiter capacity of zero, which the caller treats as unlimited before the code modelled here.
- Exclusion across processes by the in-process locks: they guard one process, and a crash empties them.
- Integer limits where they do not matter: timestamps and durations are unbounded, so overflow when a period or dunning wait is scaled is not modelled; 64-bit money, 32-bit counters and their saturation are.
- Years beyond 9999, whose text does not sort (`FourDigitsNeeded`): calls that write timestamps require four-digit years (`Writable`), and such text is not read back.
- Negotiate's floating-point percentage: the discount is an integer number of basis points from 0 to 9 000.
- Currency mismatches, tenant visibility, URL checks, signing secrets and bearer lookup: single-branch checks before the modelled code.
- Event emission and webhook fan-out: deliveries enter the outbox as its `Enqueue` calls.
- StatusCounts, recent lists, the peer-quote store's lists and `updated_at` columns: the same queries again without a new property.
- Subscriptions.SubscriptionService.TickSubscriptions: each due subscription is listed, charged and updated in one step, although the code takes no lock between them; a pause in that gap is not modelled.
- Outbox.WebhookOutbox.ResetForRetry: one atomic step, although the code reads and then updates.
- StateStore.JsonStore.ListForTenant: the indexed statement, the legacy probe and the scan see one state; and the tenant is not blank: configuration refuses blank tenant ids (src/agent.rs:107-108), and a blank one would match the blank columns of old rows.
- OutboxWorker.NoStarvation: a single worker owns the table; the row's time lies strictly before the clock, so a row that becomes due later, or in a retry of that very row, is not ahead of it.
- OutboxWorker.Tick: nothing else writes to the outbox during the call; interleavings are in the run model.
- PeerQuotes.PaidAtMostOnce: assumes no crash between inserting the charge and updating the quote, where the claim is false; `ChargesAccounted` is exact with crashes.
- Orders.OrdersAccounted: every buy that gets past its order step counts as one order, as in production; outside production the engine may persist none.
- Purchase.ChargedAtMostOnce: new transactions carry fresh ids and are not inserted as completed; the code would overwrite a row whose id a caller repeats.
- Mandate.BudgetHolds: limits of one mandate do not change during a run; equality of the two backends is not claimed, since after a rejection only the in-memory ledger keeps the window it opened.
- Base58.PythonEncode: `int.from_bytes`, `divmod` and the built-in reverse are taken as their mathematical meaning, as is Go's `big.Int`.
