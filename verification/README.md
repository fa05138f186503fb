# Payment backend: verified model

This project models the part of the payment backend where money can be lost or
sent twice, and proves what that part is for. It covers the merchant ledger with
its concurrent credits, refunds, payouts and adjustments; the settlement of
payments by webhooks, reconcile checks and the expiry job; the merchant callback
queue; `Idempotency-Key` claims; the reconcile scan; the choice of a provider; the
fee arithmetic; the rate limiter; the shell quoting of `configenv`; and the cut of
text to a column's size.

Three parts are state machines over one database and any number of workers. A
worker takes one SQL statement, one clock reading or one provider answer at a
time; between any two of its steps the others act, time may pass, and it may abort
or crash. The theorems are about every state such a machine reaches. The
repositories and services are also written as classes with the source's checks in
the source's order, and each method is proved to do what the machine does when one
worker runs the same statements, so a theorem about interleavings is a theorem
about that code.

| module | what it holds |
|---|---|
| `Options`, `Sums` | optional values; sums and selections over table rows |
| `PaymentDomain` | payment statuses and the moves between them |
| `Fee` | fee quote, merchant net, stored amounts, in wrapped int64 arithmetic |
| `Backend`, `BackendInvariant`, `BackendTheorems` | the money tables, the workers, what every interleaving keeps, what that means |
| `BackendStore` | the repositories as a class over those tables |
| `BackendProgress`, `Histories` | what goes through from any state, spelled out; which histories happen |
| `Locks` | every row lock PostgreSQL takes for those workers, foreign keys included |
| `Solvency`, `BalanceFloor` | what providers remit against what is credited; how far a balance can fall |
| `Settlement` | webhooks, the reconcile check and the expiry job, on stale rows |
| `Outbox`, `OutboxTheorems`, `OutboxChain` | the callback queue, exclusion, the chain of attempts |
| `OutboxJob`, `OutboxMargin`, `OutboxOutcomes` | the delivery loop; why the timing margin is exact; what becomes of each outcome |
| `Idempotency`, `IdempotencyTheorems`, `IdempotencyOnce`, `IdempotencyStore` | key claims, fencing, spacing of payments, the claim loop |
| `Reconcile` | the rotating keyset scan |
| `Failover` | provider registry, candidate list, creation loop |
| `RateLimit`, `Shell`, `Text` | the self-contained algorithms |

## Modelling choices

- A table is a sequence and a row's id its position, so that an insert takes a
  fresh id; idempotency claims carry ids from a counter. A transaction's writes
  reach the tables in the step that commits; before that the worker holds its row
  locks and keeps its writes to itself. A statement that meets another worker's
  lock is a step that changes nothing and may be taken again.
- `trail` on a payment, `reports` in the money tables, and `made` in the claims
  machine are history: nothing in the model decides by them.
  `BackendTheorems.TrailRecordsEveryChange` says that the trail tells the truth.
- Payments are created `pending`, as both provider adapters return them. Merchant
  accounts do not change during a run. Sums are unbounded, as PostgreSQL's numeric
  sums are; the fee functions are int64 with explicit wrap-around.
- Times are whole seconds on one clock (the rate limiter's are reals). Providers,
  the network, and whether a write succeeds are free inputs.
- A claim of callbacks may take any due rows in any order, and a requeue takes one
  row at a time: both allow more than the statements do.

## What the proofs turned up

- **Callback margin.** For every timing, exclusion holds exactly if claim delay, what
  a batch can use of its budget (all of it, unless 50 deliveries cannot fill it), and
  one delivery together stay below the stale window, and a manual retry does too
  (`OutboxMargin.MarginIsExact`). With the deployed 120 s window and 100 s budget and
  deliveries that may take 2 s or more, delay and one delivery must stay under 20 s
  (`OutboxMargin.DeployedMargin`). Nothing in the code enforces that: one delivery may
  take 30 s (`postCommitTimeout`).
- **Idempotency.** "Payments under one key come from claims more than TTL apart" is
  false. It holds if and only if winning claims run at their own clock reading, or no
  claim row is ever deleted. Otherwise the first payment's row can go between a second
  claim's reading and its statement in two ways: a purge that read its clock later, or
  a takeover whose creation fails and is released. The exact distance is TTL less the
  staleness, which `AbandonedAfter` bounds (`IdempotencyOnce.DistanceIsExact`). The
  timeouts of one claimed creation, 90 s plus 30 s, add up to exactly `AbandonedAfter`.
- **Reconcile.** With N fixed candidates a cycle is floor(N/b) + 1 runs, not the
  ceil(N/b) of the source's comment: when b divides N, the last run finds nothing
  and only then resets the cursor (`Reconcile.CycleLength`). The model follows the
  code.
- **Rate limit.** The limit survives bucket eviction exactly if a burst refills
  within the idle time. With the 30 minutes deployed this means burst <= 30 x
  requests per minute (`RateLimit.DeployedLimit`), which the configuration check
  does not require.
- **Customer-borne fees.** A provider that reports less than its quote, but no less
  than the nominal, is accepted; the merchant is then credited more than is
  remitted. At exactly the nominal the fee column is 0 and the merchant-borne
  branch is taken (`Fee.UnderchargeIsInsolvent`). Over whole runs none of a merchant's
  credits lacks anything exactly if all its customer-borne charges reached their
  quotes (`Solvency.CreditsAreRemitted`). A merchant-borne amount above the fee module's
  bound, as reported by a provider, can never be credited
  (`Fee.SolventWhenMerchantBears`).
- **Balances** may go negative: not through payouts, but by refunds or debit
  adjustments, each alone being enough (`BalanceFloor.BalanceHasFloor`,
  `BalanceFloor.RefundAloneGoesBelowZero`, `BackendTheorems.BalanceMayGoNegative`).

## Model

| member | source | states |
|---|---|---|
| `BackendTheorems.Conservation` | internal/repository/ledger_repository.go:25-39 | in every committed state of every interleaving a merchant's balance is the nets of its settled production payments, minus refunds, minus requested and paid payouts, plus adjustments, and the four figures of Summary are that split taken from the documents |
| `BackendTheorems.LedgerMatchesDocuments` | internal/repository/payment_repository_update.go:70-125 | for each payment, refund and payout the ledger holds exactly the rows it calls for, with its merchant and amount, and no other rows but adjustments |
| `BackendTheorems.NoPayoutDoubleSpend` | internal/repository/payout_repository.go:65-140 | whatever lands between a request's lock, balance read and commit, live payouts never exceed credits plus positive adjustments, and a merchant has at most one requested payout |
| `BackendTheorems.OneDebitOneReversal` | internal/repository/payout_repository.go:166-209 | every payout has exactly one debit, and a reversal of the same amount exactly when it was rejected |
| `BackendTheorems.UniqueIndexNeverFires` | internal/repository/payout_repository.go:73-140 | the merchant row lock alone keeps a second open payout out: the unique index never refuses an insert |
| `BackendTheorems.BalanceMayGoNegative` | internal/repository/ledger_repository.go:144-168 | for every amount and every debit there is a run without refunds that leaves the balance at minus the debit, so the payout bound is not a bound on the balance |
| `BalanceFloor.BalanceHasFloor` | internal/repository/payout_repository.go:65-140 | in every run a balance is at least minus the merchant's refunds and debit adjustments: payouts never take it below zero |
| `BalanceFloor.BalanceStaysNonNegative` | internal/repository/ledger_repository.go:25-39 | without refunds and debit adjustments of the merchant its balance is never negative |
| `BalanceFloor.RefundAloneGoesBelowZero` | internal/repository/refund_repository.go:43-118 | for every payment and partial refund of it, a run without adjustments ends at minus the refund |
| `BackendTheorems.PayoutIsProcessedOnce` | internal/repository/payout_repository.go:142-222 | every step of everyone leaves a payout's merchant and amount, and its status too unless it was waiting and is being paid or rejected, so what a second processing is refused for stays true |
| `BackendProgress.RequestGoesThroughExactlyIf` | internal/repository/payout_repository.go:98-140 | from any state, a request within the balance for a complete account goes through if and only if every earlier payout of the merchant is paid or rejected |
| `BackendProgress.NextRequestGoesThrough` | internal/repository/payout_repository.go:98-105 | in every run, once a merchant's waiting payout is paid or rejected, by whomever, none is waiting, and the next request within the balance goes through |
| `BackendProgress.FundedRequestCommits` | internal/repository/payout_repository.go:114-140 | a request that has passed its balance check is committed by its next three statements, whatever the others do in between |
| `BackendTheorems.RefundBound` | internal/repository/refund_repository.go:43-118 | refunds of a payment never exceed its net, its status is refunded exactly when they equal a positive net, and only credited payments have any |
| `BackendTheorems.ListRefundsIsExact` | internal/repository/refund_repository.go:123-165 | the clamp at 0 never fires, a refund would be accepted exactly for the amounts up to `remaining` of a payment shown refundable, and refundable means that some amount would |
| `BackendProgress.RefundGoesThrough` | internal/repository/refund_repository.go:45-118 | from any state, every amount up to what is left of the net of a paid production payment is refunded with its two rows; only the refund that leaves nothing closes the payment and tells the merchant |
| `BackendTheorems.ExactlyOnceSettlement` | internal/repository/payment_repository_update.go:70-125 | on stale reads of webhooks, reconcile and expiry: one credit row exactly if the payment is settled, production and has a positive net, equal to the net of its stored amounts; at most three status changes; at most one first callback per event; `late` exactly if it expired first |
| `BackendProgress.ConfirmedWorkerPays` | internal/repository/payment_repository_update.go:75-125 | a confirmed worker takes a pending payment to paid, and an expired one too, with the credit row and a callback that is late exactly for the expired one; with any other status by now it changes nothing |
| `BackendProgress.SettlementGoesThrough` | internal/service/payment_webhook_service.go:98-168 | from any state, a payment pending or expired that its provider reports settled with nominal plus fee, and whose webhook agrees, is paid, credited and told |
| `BackendProgress.StatusUpdateGoesThrough` | internal/repository/payment_repository_update.go:26-68 | exactly a pending payment fails, expires or is cancelled when asked to |
| `BackendProgress.StatusChangeIsTold` | internal/service/merchant_callback_service.go:81-142 | whoever changes a status goes on to tell the merchant: of this payment, of the new status, late exactly if paid after expiry |
| `BackendProgress.NotificationIsQueued` | internal/service/merchant_callback_service.go:125-142 | and that adds exactly that one row |
| `BackendProgress.CreationGoesThrough` | internal/service/payment_service.go:278-305 | a created payment is pending with the nominal and what was charged on top, or with the amount charged and no fee; only a customer-borne charge below the nominal stores nothing |
| `BackendTheorems.TrailRecordsEveryChange` | internal/domain/payment/payment.go:291-315 | every step leaves a payment's status alone or makes one allowed move, and never touches its merchant, amounts, environment or provider |
| `Histories.HistoriesAreExact` | internal/domain/payment/payment.go:291-315 | a sequence of statuses is the history of a payment in some run if and only if it is one of eight, which are written out |
| `BackendTheorems.SettledOnlyIfReported` | internal/service/payment_verify.go:28-55 | a settled payment's own provider reported it settled with exactly the stored nominal plus fee |
| `BackendTheorems.PaidOnlyByConfirmedWorker` | internal/service/payment_webhook_service.go:98-168 | the only step that makes a payment paid is the commit of a worker whose provider had confirmed the stored total |
| `BackendTheorems.WrongWebhookAmountNeverSettles` | internal/service/payment_webhook_service.go:98-122 | a webhook with any other amount ends without settling whatever the provider answers, and the exact answers that lead on, however stale the row |
| `BackendTheorems.LockHoldersNeverWait` | internal/repository/payout_repository.go:65-140 | among the explicit row locks, a worker that holds one gets closer to releasing it with each of its statements |
| `Locks.NoWaitingInsideTransactions` | internal/repository/payout_repository.go:65-87 | with the locks of foreign keys and of the unique index counted, and in their real modes: in every run the next statement of a worker inside a transaction wants no lock that conflicts with another's, so it never waits and no deadlock can form |
| `Locks.FullMerchantLockWouldBlock` | internal/repository/payout_repository.go:69-71 | with the stronger mode a payment credit of the merchant would wait for the request |
| `BackendInvariant.StepKeeps` | internal/repository/refund_repository.go:45-118 | the joint invariant of tables and workers survives every step of every worker |
| `BackendStore.Store.RequestPayoutOf` | internal/repository/payout_repository.go:73-140 | succeeds exactly for an amount within minimum and balance, a complete account and earlier payouts all paid or rejected; new row and debit, each error's cause, and the same tables as the machine's statements |
| `BackendStore.Store.MarkPayoutPaidAs` | internal/repository/payout_repository.go:142-164 | exactly a requested payout becomes paid, with no ledger row; otherwise whether it is missing or was processed |
| `BackendStore.Store.RejectPayoutFor` | internal/repository/payout_repository.go:166-209 | exactly a requested payout is rejected, with its reversal; otherwise whether it is missing or was processed |
| `BackendStore.Store.AdjustBalance` | internal/repository/ledger_repository.go:144-168 | exactly a non-zero amount within the bound, with a reason, for a known merchant appends one row |
| `BackendStore.Store.RefundWithRemaining` | internal/repository/refund_repository.go:45-118 | succeeds exactly within what is left of the net; both rows, what remains, and the status refunded exactly when nothing does |
| `BackendStore.Store.ListRefunds` | internal/repository/refund_repository.go:123-165 | the payment's refunds newest first and the figures derived from them |
| `BackendStore.Store.MarkPaid` | internal/repository/payment_repository_update.go:75-125 | exactly a pending or expired payment becomes paid, with net and credit row together and nothing else; returns the previous status |
| `BackendStore.Store.UpdateStatusTo` | internal/repository/payment_repository_update.go:26-68 | any allowed move but to paid and refunded, and no other change |
| `BackendStore.RequestAlone` | internal/repository/payout_repository.go:73-140 | the machine's five statements of a payout request, run alone, come to the stated insert or to nothing |
| `BackendStore.RefundAlone` | internal/repository/refund_repository.go:45-118 | likewise a refund, whether it is the last one or not |
| `Settlement.MismatchKinds` | internal/service/payment_verify.go:28-55 | exactly the accepted answers settle; a webhook-only mismatch is settled by reconcile on the same answer, a provider mismatch is not |
| `Settlement.SettleRunIs` | internal/service/payment_service.go:438-483 | from a stale row, the machine pays exactly if the answer is verified, a net exists and the current status allows it; the callback's late flag comes from the current status, not the stale one |
| `Settlement.ExpireRunIs` | internal/service/payment_service.go:486-508 | an expiry moves exactly a payment that is still pending, with one expired callback |
| `Settlement.PaymentService.ReconcilePaymentData` | internal/service/payment_service.go:373-484 | exactly when a check pays, exactly when it expires locally, failing writes included, and that otherwise no table changes |
| `Settlement.PaymentService.ExpireLocally` | internal/service/payment_service.go:486-508 | losing the race to a settlement changes nothing and is not an error |
| `Settlement.PaymentService.ProcessWebhook` | internal/service/payment_webhook_service.go:22-168 | a webhook settles exactly if it is a paid one from the registered owning provider for an open payment, the provider confirms and the write goes through; otherwise no table changes |
| `Settlement.PaymentService.ExpirePayments` | internal/service/payment_webhook_service.go:182-217 | the batch does to the tables what the machine's expiries do one after the other |
| `Settlement.ExpireAllAt` | internal/service/payment_webhook_service.go:182-217 | a batch expires exactly the listed payments still pending whose update goes through, passes over the rest, and moves no money |
| `PaymentDomain.CanTransitionTo` | internal/domain/payment/payment.go:317-324 | the loop accepts exactly the six moves, written out |
| `PaymentDomain.AtMostThreeChanges` | internal/domain/payment/payment.go:277-315 | whatever allowed moves are made there are at most three, and no status comes back, although paid and expired count as terminal |
| `PaymentDomain.PathShape` | internal/domain/payment/payment.go:291-315 | the sequences of allowed moves are exactly the eight written out |
| `Fee.QuoteIsLeast` | internal/fee/fee.go:27-53 | for all accepted nominals and rates the closed form is the least total that leaves the nominal after the rounded-up fee, leaves exactly it, and n <= net(G) holds exactly when quote(n) <= G |
| `Fee.QuoteFitsInt64` | internal/fee/fee.go:39-53 | every product, sum and difference of the quote lies in int64, and the wrapped result is the exact one |
| `Fee.NetFitsInt64` | internal/fee/fee.go:55-68 | likewise of the net, which lies between 0 and the nominal |
| `Fee.MerchantNetIs` | internal/service/payment_net.go:8-21 | the net of every amount that can be stored: the nominal if a fee was paid on top, otherwise the amount less 0.7% rounded up, and none above a trillion |
| `Fee.RoundingDownGainsAtMostOne` | internal/fee/fee.go:27-38 | if the fee were rounded down, the merchant would be at most one rupiah ahead |
| `Fee.SolventWhenCustomerBears` | internal/service/payment_service.go:283-297 | a provider that charges at least its quote remits at least the credited net; the stored fee is positive and the net the nominal |
| `Fee.SolventWhenMerchantBears` | internal/service/payment_net.go:8-21 | with the merchant bearing the fee the credit equals what is remitted, whatever amount is reported, up to the bound above which nothing is credited |
| `Fee.UnderchargeIsInsolvent` | internal/service/payment_service.go:283-297 | for a reported charge above the nominal, credit is covered exactly if the charge reaches the quote; what is refused, and what happens at the nominal itself |
| `Solvency.SettledNetIsCovered` | internal/service/payment_net.go:8-21 | for every settled payment of every run: its provider reported its total; the net equals what is remitted if the merchant bears the fee; if the customer does, it is the nominal and is covered exactly if the total reaches the quote |
| `Solvency.CreatedIsCovered` | internal/service/payment_service.go:278-297 | a stored payment is covered exactly if its charge reached the quote or added no fee |
| `Solvency.CreditsAreRemitted` | internal/service/payment_service.go:283-297 | in every run, a merchant's credits, balance and payouts stay within what its providers remit plus its adjustments plus what undercharged payments lack, which is nothing exactly if all its credited payments are covered |
| `Solvency.QuotedRunsAreSolvent` | internal/service/payment_service.go:117-133 | if every customer-borne charge of the run reaches its quote, credits never exceed what is remitted, nor live payouts that plus positive adjustments |
| `OutboxTheorems.Exclusion` | internal/repository/merchant_callback_repository.go:310-345 | under the margin, in every run on time, no two workers hold the same delivery, and a held row is `sending` |
| `OutboxTheorems.ResultsStand` | internal/repository/merchant_callback_repository.go:68-89 | under the margin a recorded success or failure keeps status, event and attempt through every step, manual retries included, although the recording statement has no guard |
| `OutboxTheorems.StepKeeps` | internal/service/merchant_callback_service.go:493-545 | each worker keeps its rows stamped and apart from the others' through every step |
| `OutboxMargin.MarginIsExact` | internal/service/merchant_callback_service.go:450-465 | for every timing, exclusion in all runs on time if and only if delay, what a batch can use of its budget, and one delivery stay below the stale window, and so does a manual retry |
| `OutboxMargin.DeployedMargin` | internal/service/merchant_callback_service.go:454-464 | the condition for the deployed window and budget and every delay, delivery and retry time |
| `OutboxMargin.RetryClashes` | internal/service/merchant_callback_service.go:187-227 | a manual retry that takes the stale window is sent by a second worker too |
| `OutboxChain.Chain` | internal/repository/merchant_callback_repository.go:347-381 | without manual retries an event's rows are attempts 1 to k, once each, k <= 5, all but the last failed for good, a retry scheduled only on a failed row below the cap |
| `OutboxChain.RequeueUsesUpAttempts` | internal/repository/merchant_callback_repository.go:347-381 | every requeue takes one from what is left of its own event's five attempts and nothing from another's |
| `OutboxJob.Deliveries.DeliverClaimed` | internal/service/merchant_callback_service.go:506-525 | exactly the rows before the first exhausted or shut-down check are sent, each showing success, failure with a retry in 300 s below the fifth attempt, or failure for good, as its outcome says; the rest handed back, no other row touched; and this is the machine's run of the loop |
| `OutboxTheorems.ReleaseFreesExactlyItsRows` | internal/repository/merchant_callback_repository.go:404-427 | under the margin the release's guard leaves no row behind: every row handed back is still being sent, held by no one else, and comes back pending; no other row changes |
| `OutboxJob.AfterBatchAt` | internal/service/merchant_callback_service.go:506-545 | each row of a batch is changed by its own pass only |
| `OutboxOutcomes.OutcomeIsRecorded` | internal/service/merchant_callback_service.go:326-373 | a delivery is recorded as success without a retry, a refusal as failure with a retry in 300 s below the fifth attempt and none at it, a hopeless one as failure for good; no other row changes |
| `OutboxOutcomes.SuccessExactlyIfDelivered` | internal/service/merchant_callback_service.go:359-373 | in every run on time, an event has a success row exactly if a send of it was answered with success and recorded |
| `OutboxOutcomes.RefusedAttemptIsRetried` | internal/repository/merchant_callback_repository.go:347-381 | in every run on time without a manual retry, a refused attempt below the fifth stays scheduled for 300 s after its recording until the next attempt of its event is there |
| `OutboxOutcomes.DueRowCanBeRequeued` | internal/repository/merchant_callback_repository.go:351-381 | a job that starts once a failed row is due queues its next attempt, and one that starts earlier does not |
| `OutboxOutcomes.ClaimTakesDueRows` | internal/repository/merchant_callback_repository.go:313-345 | a claim takes up to 50 rows exactly if each is pending or has been sending for the stale window |
| `OutboxOutcomes.EventIsQueued` | internal/service/merchant_callback_service.go:125-142 | a new event gets one pending first attempt |
| `OutboxOutcomes.RetryIsSent` | internal/service/merchant_callback_service.go:187-227 | a manual retry of any row clears its schedule and leaves the next attempt being sent |
| `IdempotencyTheorems.DisplacedOwnerChangesNothing` | internal/repository/idempotency_repository.go:70-96 | with no timing assumption: completing and releasing act exactly if the key's row still carries the owner's id, and then on that row alone |
| `IdempotencyTheorems.CompletedStandsUntilItExpires` | internal/repository/idempotency_repository.go:70-104 | no step of anyone, releases included, removes or changes a completed claim until a claim or purge whose clock reading is more than TTL past it |
| `IdempotencyTheorems.ReplayIsTheSameRequest` | internal/service/payment_idempotency.go:65-92 | a replayed payment was made under the same merchant, environment and key by an owner with the same request hash |
| `IdempotencyTheorems.ClaimTakesExactly` | internal/repository/idempotency_repository.go:30-48 | a claim takes a key exactly if it has no row, one more than 24 hours old, or one without a payment more than two minutes old, and then owns it by a fresh row |
| `IdempotencyTheorems.AbandonedKeyIsTakenOver` | internal/domain/idempotency/idempotency.go:19-24 | from any state and whatever became of the owner, a request that reads the clock more than two minutes after an uncompleted claim gets the key, and an earlier one does not |
| `IdempotencyTheorems.CompletedKeyExpires` | internal/domain/idempotency/idempotency.go:17-18 | likewise a completed key after 24 hours |
| `IdempotencyTheorems.SettlingDoesWhatItSays` | internal/repository/idempotency_repository.go:70-104 | the owner's release frees the key, its completion sets the payment, a purge leaves exactly the rows of the last 24 hours |
| `IdempotencyTheorems.PurgeInvisibleFromThenOn` | internal/repository/idempotency_repository.go:98-104 | purging at time t changes the outcome of no claim on any table exactly for the clock readings from t on |
| `IdempotencyTheorems.StepKeepsFenced` | internal/repository/idempotency_repository.go:22-68 | ids are handed out once and whoever has one agrees on what it was handed out for, through every step |
| `IdempotencyOnce.OneHolderPerKey` | internal/domain/idempotency/idempotency.go:16-27 | if owners settle within AbandonedAfter, no two workers ever hold the same merchant, environment and key |
| `IdempotencyOnce.DeadlineIsExact` | internal/domain/idempotency/idempotency.go:19-24 | owners that settle within a deadline never share a key if and only if the deadline is at most two minutes |
| `IdempotencyOnce.PaymentsUnderOneKeyAreApart` | internal/repository/idempotency_repository.go:22-68 | if owners settle within AbandonedAfter and whoever made a payment completes its claim, two payments under one key come from claims more than TTL apart, less, where rows are deleted, the time a winning claim ran after its clock reading |
| `IdempotencyOnce.DistanceIsExact` | internal/repository/idempotency_repository.go:22-104 | for every staleness, every choice of deletions and every distance: all such runs keep payments under one key further apart than it if and only if it is at most TTL less that slack; more than TTL itself holds exactly without staleness or without deletions |
| `IdempotencyOnce.TimelyIsPrompt` | internal/service/payment_idempotency.go:16-21 | owners on time bound that staleness by AbandonedAfter, so no further assumption is needed |
| `IdempotencyOnce.StaleReadingBreaksTTL` | internal/service/payment_idempotency.go:94-133 | for every staleness there is a run within the hypotheses with payments only one second above the bound apart, be it by a purge alone or by a takeover and release alone |
| `IdempotencyStore.KeyStore.Claim` | internal/repository/idempotency_repository.go:22-68 | wins exactly on no row, a row more than 86400 s old, or one without a payment more than 120 s old; otherwise what the second statement finds, row or nothing; and what either statement's failure leaves |
| `IdempotencyStore.KeyStore.Complete` | internal/repository/idempotency_repository.go:70-87 | sets the payment of the row with this id and reports a lost claim exactly if there is none |
| `IdempotencyStore.KeyStore.PurgeOlderThan` | internal/repository/idempotency_repository.go:98-104 | removes exactly the older rows and counts them |
| `IdempotencyStore.KeyStore.CreateClaimed` | internal/service/payment_idempotency.go:94-118 | a created payment is returned even if the claim is lost or cannot be completed; a failed creation releases it |
| `IdempotencyStore.KeyStore.CreatePaymentIdempotent` | internal/service/payment_idempotency.go:39-92 | whatever happens to the table between statements and whichever statement fails: the claim it wins is the one it settles; otherwise it is answered from the row it read, replaying only a payment that loads; in progress if the row was gone each time |
| `IdempotencyStore.TriesAgainOnlyOnVanishing` | internal/service/payment_idempotency.go:65-92 | a request owns the key by a fresh uncompleted row stamped with one of its own tries, answers only from a row that was there, gives up only when none is left, breaks only on a failing statement, and undisturbed comes to a single claim |
| `IdempotencyStore.AnswerIs` | internal/service/payment_idempotency.go:76-89 | key reused for another request, in progress, or the payment itself, and when which |
| `IdempotencyStore.ValidateKey` | internal/domain/idempotency/idempotency.go:48-59 | accepts exactly 1 to 128 visible ASCII characters |
| `Reconcile.ListIsPage` | internal/repository/payment_repository.go:165-223 | the query returns candidates past the cursor in strictly descending order and leaves one out only behind a full page |
| `Reconcile.PageIsNewestFirst` | internal/repository/payment_repository.go:172-176 | newest first, among equals the higher id first, and all of it older than the cursor |
| `Reconcile.CheckedIsDue` | internal/repository/payment_repository.go:165-171 | a run checks only production payments known to a provider, without a recorded mismatch, pending and at most 24 hours old or expired at most 6 hours ago |
| `Reconcile.PageIsUnique` | internal/repository/payment_repository.go:172-176 | that description determines the page |
| `Reconcile.Job.ReconcileRecentPayments` | internal/service/payment_service.go:551-594 | the batch is that page, the cursor its last row or reset after a short one, a failing payment stops nothing, a failing query moves nothing |
| `Reconcile.CountIs` | internal/service/payment_service.go:578-589 | the reported count is that of the payments updated or expired |
| `Reconcile.JobFollows` | internal/service/payment_service.go:560-577 | the job's batches and cursors from a reset are those of the theorems |
| `Reconcile.CheckedExactlyOncePerCycle` | internal/service/payment_service.go:551-577 | in every cycle one run checks a payment exactly if it is a candidate then, and no other run does, however others enter or leave |
| `Reconcile.DueIsCheckedOnce` | internal/service/payment_service.go:544-577 | a payment that is due in that sense at every run of a cycle is checked in exactly one of them |
| `Reconcile.CycleIsBounded` | internal/service/payment_service.go:551-577 | a cycle over M candidates in all, coming and going, takes at most floor(M/b) + 1 runs |
| `Reconcile.CycleLength` | internal/service/payment_service.go:555-577 | with N fixed candidates, runs form a cycle if and only if there are floor(N/b) + 1; the last is empty when b divides N |
| `Failover.TryCandidates` | internal/service/payment_service.go:201-276 | the loop finds the first candidate that succeeds with all earlier ones failed and failover enabled, or there is none and the last failure is reported; one call to each candidate tried that can quote, for its own charge |
| `Failover.OneWinner` | internal/service/payment_service.go:207-265 | there is at most one such candidate |
| `Failover.WinnerExists` | internal/service/payment_service.go:201-276 | there is a winner as soon as some candidate succeeds and none before it forbids failover |
| `Failover.LaterCandidatesDoNotMatter` | internal/service/payment_service.go:201-276 | candidates after the winner change neither the winner nor the calls |
| `Failover.WinnerInPreferredOrder` | internal/service/payment_service.go:647-718 | in terms of the merchant's own list: every usable entry before the winner's failed with failover enabled |
| `Failover.OnlyUsableContacted` | internal/service/payment_service.go:657-708 | every call goes to a registered provider that is not the sandbox and not unhealthy |
| `Failover.CallsAreFair` | internal/service/payment_service.go:117-133 | the calls go, in order, to exactly the tried candidates that can be charged, each for exactly the nominal if the merchant bears the fee and otherwise for the least total that leaves the nominal at its own rate |
| `Failover.ChargeIsFair` | internal/service/payment_service.go:117-133 | exactly the providers that cannot quote fail, and every other charge is that one |
| `Failover.FairChargeIsUnique` | internal/fee/fee.go:27-38 | there is only one such charge |
| `Failover.SucceedsMeans` | internal/service/payment_service.go:207-265 | a candidate succeeds exactly if it can be charged and answers with a payment |
| `Failover.UsableMeans` | internal/service/payment_service.go:668-708 | an entry is usable exactly if registered, not the sandbox and not unhealthy; degraded or without a record it is |
| `Failover.PreferredMeans` | internal/service/payment_service.go:647-676 | the merchant's configurations with their own failover settings, or else the registered providers all with failover |
| `Failover.SpellingDoesNotMatter` | internal/provider/adapter.go:225-228 | names that differ in case and surrounding space are the same key |
| `Failover.UsableInOrder` | internal/service/payment_service.go:647-718 | the candidates are all the usable entries and no others, in order |
| `Failover.UnhealthyIsSkipped` | internal/provider/adapter.go:120-146 | marking a provider unhealthy removes it from every list and changes nothing else |
| `Failover.ResolveProviders` | internal/service/payment_service.go:647-718 | configurations, or the registered defaults when there are none, give exactly the usable entries; an error exactly if none is |
| `Failover.ProviderRouter.SelectProviders` | internal/provider/adapter.go:92-118 | the available providers of a method in registration order, and when there is an error which |
| `Failover.ProviderRouter.RegisterPaymentMethodProvider` | internal/provider/adapter.go:58-73 | appends a new key, keeps the place of a known one, and the lists stay free of duplicates |
| `Failover.ProviderRouter.RegisterProvider` | internal/provider/adapter.go:42-56 | replaces the provider of the key and keeps a known health |
| `Failover.ProviderRouter.SetProviderHealth` | internal/provider/adapter.go:120-131 | sets the health of one key, registered or not, and nothing else |
| `Failover.PaymentService.CreateProduction` | internal/service/payment_service.go:135-305 | a payment is stored exactly if there is a winner, its charge covers the nominal and the insert succeeds; it carries the winner's name and amounts; otherwise nothing is stored and the error is the one that decided |
| `Failover.StoredIsCharged` | internal/service/payment_service.go:278-297 | amount and fee of the stored payment add up to what the winner reports, or to the charge of its call if it reports nothing; the nominal is kept when the customer bears the fee |
| `Failover.StoredExactlyIf` | internal/service/payment_service.go:286-305 | a winner's payment is stored exactly if the insert succeeds and a customer-borne charge is not below the nominal |
| `Failover.AdmittedMeans` | internal/service/payment_service.go:90-115 | which amounts and merchants get that far |
| `Failover.PaymentService.CreateSandbox` | internal/service/payment_service.go:175-200 | exactly when a sandbox payment is stored, and its amounts |
| `Failover.CreatedPaymentIsSolvent` | internal/service/payment_service.go:278-297 | a winner that charges at least its quote leaves a positive fee and a net of exactly the nominal, and remits at least that |
| `RateLimit.LimitHoldsExactlyIf` | internal/middleware/rate_limit.go:51-90 | over all runs and windows at most burst + rate x time requests pass despite eviction, and eviction changes no decision, if and only if burst <= rate x idle time |
| `RateLimit.BoundedWithoutEviction` | internal/middleware/rate_limit.go:51-75 | without eviction the bound holds for every client, run and window |
| `RateLimit.LetThroughExactly` | internal/middleware/rate_limit.go:62-75 | a request passes exactly if the client has no bucket, or its tokens and the refill since come to one |
| `RateLimit.PatientClientIsNeverRefused` | internal/middleware/rate_limit.go:51-75 | a client that asks no faster than the rate is never refused, whatever others do and whatever is evicted |
| `RateLimit.FreshClientGetsABurst` | internal/middleware/rate_limit.go:56-61 | a client nobody has seen gets a whole burst at once |
| `RateLimit.TransparentWhenIdleRefills` | internal/middleware/rate_limit.go:77-90 | a limiter that evicts refines one that never does |
| `RateLimit.DeployedLimit` | internal/middleware/rate_limit.go:30-39 | the condition for the deployed cleanup |
| `RateLimit.IPRateLimiter.Allow` | internal/middleware/rate_limit.go:51-75 | the decision and the new buckets of one request |
| `RateLimit.IPRateLimiter.Cleanup` | internal/middleware/rate_limit.go:77-90 | removes exactly the buckets not refilled since the cutoff |
| `RateLimit.ClientIP` | internal/middleware/rate_limit.go:104-136 | behind a trusted peer the rightmost entry of all headers that is not a trusted proxy decides, if it parses; otherwise the peer |
| `RateLimit.SplitIsExact` | internal/middleware/rate_limit.go:120-123 | the entries of a header hold no comma and joined are the header again |
| `RateLimit.ForgedEntriesDoNotMatter` | internal/middleware/rate_limit.go:104-136 | whole headers put before, and text put before a comma in the first one, leave the deciding entry and the client as they are |
| `Shell.Render` | cmd/configenv/main.go:35-53 | the loop emits one export line per variable, in order |
| `Shell.RoundTrip` | cmd/configenv/main.go:55-60 | a POSIX reader of the rendered lines makes exactly the assignments, byte for byte, if and only if no value holds a NUL; and of the captured output too |
| `Shell.ReadEscaped` | cmd/configenv/main.go:55-60 | a quoted value is read as itself whatever surrounds it |
| `Shell.ScriptsSeeTheConfig` | cmd/configenv/main.go:1-53 | each variable the scripts read ends up with its configuration value |
| `Text.StorableText` | internal/netsafe/netsafe.go:283-297 | the result is the longest valid prefix of the cleaned text within the cap, has no NUL, and loses at most three bytes to the boundary |
| `Text.CleanedKeepsCharacters` | internal/service/merchant_callback_service.go:412-425 | cleaning yields valid UTF-8 and keeps exactly the characters other than NUL, in order |
| `Text.UnchangedExactlyIf` | internal/service/merchant_callback_service.go:412-425 | text is stored unchanged if and only if it is valid, free of NUL and fits |
| `Text.Boundary` | internal/netsafe/netsafe.go:292-296 | in valid text the places RuneStart accepts are exactly those where a prefix is valid |
| `Text.GrammarIsEncoding` | internal/netsafe/netsafe.go:286-288 | what the grammar of RFC 3629 accepts is the encoding of a character number |
| `Text.EncodingIsGrammatical` | internal/netsafe/netsafe.go:286-288 | and every encoding is accepted and read back |

## Left out

- HTTP handlers, routing, JSON, CSV, admin listings, dashboards, sessions, payment
  links, link bounds: no invariant that spans operations.
- Cryptography, UUIDs and the request hash: ids are fresh numbers, hashes are
  numbers compared for equality.
- Provider HTTP clients, DNS, dialing and address tables: a provider is an oracle
  that answers with a status and an amount.
- PostgreSQL beyond atomic statements and row locks: snapshots within a statement,
  serialization failures other than as an abort.
- BackendTheorems.LockHoldersNeverWait: counts explicit locks only;
  `Locks.NoWaitingInsideTransactions` counts them all.
- Webhook event bookkeeping (`webhook_events` rows, event types): only its
  `amount_mismatch` flag appears, as an input of the reconcile query.
- Which payments the expiry query lists: the job may be handed any payments, which
  allows more than the query does.
- The text of callbacks, their signatures and targets: a callback is an event of a
  payment and a late flag.
- Callback rows with the status `skipped`, which no modelled statement writes or
  reads.
- Panic recovery inside a delivery: it records a failure without a retry, which is
  the outcome `Hopeless`.
- IdempotencyStore.KeyStore.CreatePaymentIdempotent: requests without a key, which
  only create, and the checks of key and request before the first claim; a claim
  whose answer is lost after it was stored is an owner that crashes.
- IdempotencyOnce.PaymentsUnderOneKeyAreApart: assumes that whoever has made a payment
  neither crashes nor fails before completing its claim; the source documents that a
  charge can then be orphaned.
- OutboxTheorems.Exclusion: assumes the timing margin, which the code does not
  enforce; `OutboxMargin.MarginIsExact` says what happens without it.
- Provider and method names are ASCII: Unicode spaces and letters are not modelled.
- Failover.PaymentService.CreateProduction: the checks of the request other than its
  amount, and the fields copied through to the payment, are not modelled.
- RateLimit.LimitHoldsExactlyIf: over reals; rounding of floating point is not
  modelled.
- RateLimit.ClientIP: how an entry's text is trimmed and parsed, and which addresses
  are trusted, are parameters.
- Reconcile.Job.ReconcileRecentPayments: what checking a payment does is an input
  here; `Settlement` models it.
- Shell.RoundTrip: the reader gives up on every unquoted special character instead
  of expanding it; the rendered lines have none.
