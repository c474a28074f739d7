# Dafny model of the shop's money and delivery

The repository is a Telegram shop for VPN subscriptions. Customers pay from a wallet, with
Telegram Stars or by card; an admin reviews payments; a paid order is delivered by a 3x-ui
panel or from a stock of ready-made configs; referrals earn cashback; promo codes are
reserved and released; a background job cancels stale orders. This project models those
parts as transactions over tables, as classes whose methods follow the handlers statement
by statement, and as relations for the panel, and proves what holds over every run.

Run `dafny verify dfyconfig.toml` in this directory.

| file | content |
|---|---|
| Results, Sums | optional values, results, sums over tables |
| Schema, Handlers, Operations | the tables; each handler as one transaction; steps and runs |
| Machine, Ledger, PromoCounters, Referrals, Cashback | one invariant each, kept by every step |
| OrderMoves, Runs, Rewards | what steps leave alone; the invariants over whole runs from an empty shop; cashback exact in both directions |
| Requests, Cancellations, RewardedRun | each request told on the rows: when it is accepted and what it writes; which orders end cancelled; a run that pays both levels of cashback |
| ShopFront | class `Shop`: the handlers as programs, each shown to compute its transaction |
| StaleWrites, LateRuns | writes on stale reads: the exact conditions under which they do no harm, one by one and over whole runs |
| LateDelivery, LateHandOuts, TimelyWrites | late deliveries, goods that were selected on a stale read, and late writes that nothing overtook |
| ClaimProtocol | overlapping payment requests on stale reads, tied back to the shop's transactions |
| Quotes | promo validation, discounts and prices |
| PanelRequest, PanelRecords, Provisioning | the panel client: the retry loop, the full-row update, create and extend |
| Delivery | account rows, configs, and one delivery attempt |
| DeliveredGoods, Expiries | what each delivery hands over, told on the order's fields; days sold over whole runs |
| World, WorldRuns, Service | tables, rows, configs and panel together, over whole runs; class `Bot` runs shop and warehouse as steps of them |
| RateLimits, ReferralCodes | the rate limiter; base-36 codes and the backfill |

Reading notes:

- A status "pending" of a payment is `Unreviewed`, "approved" is `Approved`, "rejected" is
  `Refused`. Row ids are positions in a sequence where rows are never deleted.
- The panel is assumed to behave as app/xui/client.py describes it: a rejected request has
  no effect, bulkAdjust is one atomic change that leaves unlimited values alone, and an
  update replaces the row. Any call may be rejected or lose its answer after its effect;
  a panel marked `reliable` never does.
- `route` in the tables, `payouts`, `grants` and `charges` are histories that the
  statements need; the program does not read them.
- Clock readings, random characters, the answer of each panel call and the moment of each
  step are parameters, and the results hold for all of them. Time goes forward only where
  a statement says so.
- Every handler of class `Shop` is shown to compute its transaction of the module Handlers. The
  table below lists those with loops, intermediate states or undone changes of their own.
- Offers carry non-negative prices, days and gigabytes, as plans and settings do.

Findings about the code:

- Several handlers write a status without a condition on the one that they read. What such a
  write must still find is stated exactly: `StaleWrites.LatePaymentIsSafeIff` and
  `ClaimProtocol.StaleReceiptIsSafeIff` for receipts and Stars payments,
  `StaleWrites.LateApprovalIsSafeIff` and `StaleWrites.LateRejectionIsSafeIff` for top-ups,
  `StaleWrites.LateCleanupIsSafeIff` and `StaleWrites.LateCleanupCountsIff` for the cleanup, and
  `LateRuns.RightAllTheWayIff` for runs of all of them.
  `ClaimProtocol.StaleReceiptReopens` and `StaleWrites.TwoApprovalsCreditTwice` show what happens otherwise.
- Two confirmations of a Stars payment that overlap, or one that is overtaken by another payment,
  break the unique index on pending payments: the customer has paid and the shop has no record
  (`ClaimProtocol.NothingLostIff`, `ClaimProtocol.SecondConfirmationLost`,
  `ClaimProtocol.OvertakenConfirmationLost`).
- Where the database does not lock rows on a read, as SQLite does not, two deliveries can select the
  same config or both insert a first account row (`LateHandOuts.TwoHandOutsCollide`,
  `LateHandOuts.TwoInsertsCollide`; exact conditions in the same module). The cleanup can lose a
  reservation that comes between its read and its write of a counter (`StaleWrites.ReservationLost`).
- fulfill_paid_order does not look at the statuses again. A second delivery of a completed order
  moves no row backwards (`Machine.LateDeliveryKeepsMachineIff`) and still sells the goods twice;
  `LateDelivery.LateDeliveryIsSafeIff` is the exact condition for tables and goods together, and
  `LateDelivery.RefundedYetDelivered` a run that ends with a refunded and completed order.
- A promo code that is created while an order carries it miscounts, whether the order reserved it
  before a deletion or came later on an old quote (`PromoCounters.CountersTrueIff`,
  `PromoCounters.RecreationMiscounts`).
- The device limit update falls back to the record read before the extension if the panel no longer
  finds the client, which undoes the extension (`Provisioning.FallbackKeepsExtensionIff`).
- Pruning in the rate limiter changes an answer only for windows longer than 3600 seconds (`RateLimits.PruningInvisibleIff`).
- A percentage code that loses against the referral discount is still carried by the order and
  reserved (`Quotes.QuoteGivesBonus` with `Quotes.PriceClosedForm`).
- The comment at app/services/referral.py:16 calls the second level a share of the first
  cashback; the code pays 5 percent of the order price, and the model follows the code.
- The `raise` at app/xui/client.py:382 and the renewal branch of complete_payment_approval
  (app/services/order_fulfillment.py:172-195) are unreachable.
- No endpoint creates a pending order that renews an account, so the renewal routes of a
  delivery only serve orders from elsewhere. They are modelled and kept all the same.

## Model

| member | source | states |
|---|---|---|
| `Runs.WalletConservation` | app/services/wallet.py:22-69 | In every reachable state a balance is non-negative and equals granted top-ups plus admin credits plus earned cashback minus what the customer's orders hold; earned cashback equals the payouts addressed to the customer |
| `Runs.DebitIsPrice` | app/web/api.py:494-529 | A non-zero wallet debit is the exact price of its order, and only a paid or completed order has one |
| `Runs.FinalStatesStay` | app/web/admin_api.py:247-330 | Over any continuation of a run completed, rejected and cancelled orders never change, a paid order never waits again, and the terms of an order stay as agreed |
| `Runs.OnePaymentForLife` | app/database/session.py:243-245 | Of all payments an order ever has, at any two moments of a run, at most one is not a duplicate |
| `Runs.PendingMeansPaid` | app/web/api.py:666-700 | A pending payment belongs to a paid order, and every paid order has a pending or approved payment |
| `Runs.PromoConservation` | app/services/promocodes.py:139-159 | A code's use counter is the number of non-cancelled orders that carry it, never negative and never above a positive limit, even though codes are validated on stale quotes |
| `Runs.OneRewardPerBuyer` | app/services/referral.py:155-217 | Two payouts triggered by the same buyer are of different levels, and no payout goes to its own buyer |
| `Runs.RewardsWithinQuarter` | app/services/referral.py:155-300 | All cashback ever paid is at most a quarter of the price of the completed discounted orders |
| `Runs.ReferralsAreForest` | app/services/referral.py:61-92 | No chain of referral links of any length leads back to the customer it started from |
| `Runs.RunHealthy` | app/services/order_fulfillment.py:123-342 | All these invariants hold together after any sequence of steps that starts from a healthy state, and rows only move forward |
| `Machine.StepSound` | app/web/api.py:400-714 | Every step keeps orders, payments and debits consistent and moves each row only forward along the state machine |
| `Machine.CancelStaleSpares` | app/services/orders_cleanup.py:32-67 | The cleanup never deletes a payment, and the orders that it cancels hold no debit and no payment other than duplicates |
| `Machine.UploadReceiptSound` | app/web/api.py:634-714 | Although the receipt endpoint also accepts a paid order, its payment check leaves only pending orders, and storing the receipt keeps the machine |
| `Machine.HandedOverSound` | app/services/order_fulfillment.py:240-342 | Whatever is handed to delivery is a paid order with its own live payment, in consistent tables |
| `Machine.LateDeliveryKeepsMachineIff` | app/services/order_fulfillment.py:240-342 | A completing delivery does not look at the statuses again: rows move only forward if and only if its payment is still pending or approved (the goods are the subject of LateDelivery.LateDeliveryIsSafeIff) |
| `Machine.DeliverSettles` | app/services/fulfillment.py:40-105 | A delivery either leaves the tables alone or closes the order and its payment together, with cashback as the only other change |
| `LateDelivery.LateDeliveryIsSafeIff` | app/services/order_fulfillment.py:240-342 | Whenever the delivery of a new account runs for its order's own payment, rows moving forward, rows and configs agreeing, and exact quotas all survive it if and only if the order is still paid, that is, neither delivered nor closed before (its config or account row is selected at the write; LateHandOuts has the earlier selection) |
| `LateDelivery.LateQuotaExactIff` | app/services/xui_provisioning.py:114-153 | After a late delivery or renewal through the panel every quota is still the sum sold if and only if the panel had not delivered that order before |
| `LateDelivery.LateDeliveryAfterRejection` | app/web/admin_api.py:275-330 | For every pending payment: if it is rejected while its delivery is on the way, the money goes back and the order is completed with an approved payment all the same |
| `LateDelivery.RefundedYetDelivered` | app/web/admin_api.py:275-330 | A run from the empty shop to a wallet payment of 500 that ends so |
| `StaleWrites.LatePaymentIsSafeIff` | app/web/api.py:690-705 | If a receipt or Stars payment on a stale read is stored at all, it keeps orders and payments consistent and moving forward if and only if the order still waits for a payment |
| `StaleWrites.LatePaymentStoredIff` | app/database/session.py:243-245 | A late receipt or Stars payment is stored if and only if no other payment of the order is pending; otherwise nothing is recorded |
| `StaleWrites.SecondStarsPaymentLost` | app/bot/payments.py:128-138 | For every order that awaits Stars: once one confirmation was stored, a second one that read the order before fails without a record |
| `StaleWrites.LateApprovalIsSafeIff` | app/web/admin_api.py:339-351 | A top-up approval on a stale read keeps wallets and top-ups right if and only if the request is still undecided |
| `StaleWrites.TwoApprovalsCreditTwice` | app/web/admin_api.py:339-351 | For every open request: two approvals that both read it as pending credit it twice, and the balance is no longer explained by the rows |
| `StaleWrites.LateRejectionIsSafeIff` | app/web/admin_api.py:368-391 | A top-up rejection on a stale read keeps the wallets right if and only if the request was not granted in between |
| `StaleWrites.LateCleanupIsSafeIff` | app/services/orders_cleanup.py:55-66 | The cleanup's writes for orders selected on a stale read keep orders and payments consistent and moving forward if and only if no selected order was paid, completed or rejected in between |
| `StaleWrites.LateCleanupCountsIff` | app/services/orders_cleanup.py:43-53 | With the counters that the cleanup read earlier: all promo counters stay true if and only if for each code the value that is written back, or left, is the counter at the write less the orders that the cleanup takes from the code |
| `StaleWrites.FreshCleanupCountsIff` | app/services/orders_cleanup.py:43-53 | If the counters are read as they stand: if and only if for each code no selected order was cancelled before, or all its remaining orders are selected |
| `StaleWrites.ReservationLost` | app/services/orders_cleanup.py:48-53 | A reservation between the read of a counter and its write leaves the counter false, although every selected order was still waiting |
| `StaleWrites.RunTopUps` | app/web/admin_api.py:334-391 | Over any run a top-up is decided once, and a granted one credited exactly what was requested |
| `LateRuns.NextRightIff` | app/web/api.py:634-714 | One event, on time or late: orders, payments, wallets, counters, referrals, cashback and top-ups stay right and no row moves back if and only if the event finds what it must |
| `LateRuns.RightAllTheWayIff` | app/web/admin_api.py:247-391 | Over any run from the empty shop with late receipts, Stars payments, top-up decisions and cleanups and with deleted codes, all of that holds in every state if and only if every event found what it must |
| `TimelyWrites.TimelyPaymentMatches` | app/web/api.py:634-714 | A late receipt or Stars payment that nothing overtook is exactly what the shop's handler writes |
| `TimelyWrites.TimelyDecisionMatches` | app/web/admin_api.py:334-391 | Likewise a decision on a top-up that is still undecided |
| `TimelyWrites.TimelyCleanupMatches` | app/services/orders_cleanup.py:24-67 | Likewise the cleanup, if its selected orders and the counters that it read are up to date |
| `TimelyWrites.TimelyHandOutMatches` | app/services/config_inventory.py:19-39 | Likewise the hand-out of a config that is still an oldest free one |
| `LateHandOuts.LateHandOutIsSafeIff` | app/services/config_inventory.py:24-38 | A config that was selected earlier is handed out without breaking the agreement of rows, configs and orders if and only if it is still free at the write |
| `LateHandOuts.TwoHandOutsCollide` | app/services/config_inventory.py:24-38 | Two paid orders whose deliveries selected the same free config: the second takes it from the first, which keeps only its account row |
| `LateHandOuts.LateInsertMirrorsIff` | app/services/order_fulfillment.py:63-101 | An account row that is inserted because none was found earlier leaves one active row with the panel's quota if and only if the user has no active one at the write |
| `LateHandOuts.TwoInsertsCollide` | app/services/order_fulfillment.py:63-101 | Two first deliveries to a user that both found no row leave two active ones |
| `LateHandOuts.LateRefreshMirrorsIff` | app/services/order_fulfillment.py:73-87 | A refresh with what provisioning reported earlier shows the panel's quota if and only if the report still is that quota |
| `Ledger.StepSolvent` | app/services/wallet.py:22-69 | Every step keeps each balance equal to what came in less what orders hold, and never negative |
| `Ledger.TakeWalletSolvent` | app/web/api.py:485-531 | The wallet payment takes exactly the price from the balance, records it as the order's debit and changes no other wallet or order |
| `Ledger.RejectPaymentSolvent` | app/web/admin_api.py:275-330 | A rejection adds exactly the order's debit to the balance, clears it and changes no other wallet or order |
| `PromoCounters.StepCounted` | app/web/api.py:420-446 | Every step keeps each counter equal to the number of orders that hold the code, within the limit |
| `PromoCounters.CancelStaleCounted` | app/services/orders_cleanup.py:43-53 | The cleanup lowers each counter by the number of cancelled orders, and its clamp at zero never fires |
| `PromoCounters.CreationCountsIff` | app/services/promocodes.py:162-194 | A code that is not in the table, new or deleted before, gets a true counter if and only if no order that is not cancelled carries it |
| `PromoCounters.StepCountersIff` | app/services/promocodes.py:139-208 | Every step of the shop, orders on deleted codes included, keeps all counters true unless it creates a code that an order carries, and then it does not |
| `PromoCounters.CountersTrueIff` | app/services/promocodes.py:139-208 | Over any run with deletions, re-creations and orders on deleted codes the counters are true all the way if and only if no code was created while an order carried it |
| `PromoCounters.LateOrderMiscounts` | app/web/api.py:434-446 | An order that comes with a code already deleted gives the next creation of the code a false counter, whatever the counter was at the deletion |
| `PromoCounters.OpenOrderMiscounts` | app/services/promocodes.py:206-208 | Deleting a code that an order carries gives its next creation a false counter |
| `PromoCounters.RecreationMiscounts` | app/services/promocodes.py:206-208 | A run in which the deleted code had not been used at all, and after which its creation has a false counter |
| `Referrals.StepForest` | app/services/users.py:23-36 | Every step keeps referral links pointing to customers created earlier, and referral codes distinct; which links are made is Requests.RegistrationBinds |
| `Referrals.NoReferralCycle` | app/services/referral.py:61-92 | Following referral links never returns to the start, and the chain is no longer than the customer's position in the order of creation |
| `Referrals.RecipientsDistinct` | app/services/referral.py:254-295 | The buyer and the two recipients of cashback are three different customers, so the self-credit guard is unreachable |
| `Referrals.CompletionSucceeds` | app/services/order_fulfillment.py:147-210 | Crediting cashback never fails, so a delivery that was accepted always completes its order |
| `Cashback.StepRewarded` | app/services/referral.py:155-300 | Every step keeps one payout per buyer and level, each marked on its order, and the total within a quarter of the revenue |
| `Rewards.PayoutsAreEarned` | app/services/referral.py:155-300 | In every reachable state each payout is for a discounted new order and is exactly 20 percent of its price to the buyer's referrer, or 5 percent to the referrer's referrer |
| `Rewards.NoRewardForgotten` | app/services/referral.py:155-300 | In every reachable state a buyer with a delivered discounted new order has had the referral of each level paid, unless a flagged order's share rounded to nothing |
| `Rewards.StepFair` | app/services/order_fulfillment.py:147-210 | Every step keeps payouts exact, flags every order that earns, and leaves no flagged referral unanswered |
| `OrderMoves.QuietStepKeeps` | app/services/orders_cleanup.py:24-67 | A step that hands nothing to delivery changes only statuses and debits of open orders, and neither delivers nor rewards any |
| `Requests.RegistrationBinds` | app/services/referral.py:61-92 | A customer who exists is left alone; a new one gets the drawn code, an empty wallet and an unused trial, and the owner of the link's code as referrer if and only if there is one; nobody else's row changes |
| `Requests.OrderIsStored` | app/web/api.py:400-456 | An order is accepted unless its code is switched off or full; it has the offer's values, waits for its payment since this moment, and reserves its code alone |
| `Requests.WalletPaymentIff` | app/web/api.py:485-531 | A wallet payment is taken if and only if the customer's own order is pending and the balance covers it; it moves the price, marks the order as paid and adds one pending payment |
| `Requests.StarsInvoiceIff` | app/web/api.py:546-597 | An invoice claims the customer's own pending order with a price, its revert only an order that awaits Stars, and both change the status alone |
| `Requests.StarsPaymentIff` | app/bot/payments.py:70-138 | A Stars payment is taken if and only if the customer's own order awaits it; with any other status it is put on record as a duplicate and changes nothing else |
| `Requests.ReceiptIff` | app/web/api.py:634-714 | A receipt is stored if and only if the customer's own order is pending, as its one pending payment |
| `Requests.ReviewIff` | app/web/admin_api.py:247-330 | Only a pending payment can be reviewed; an approval changes its status alone, a rejection also ends the order and gives exactly its debit back |
| `Requests.CompletionCloses` | app/services/order_fulfillment.py:147-237 | A delivering route closes exactly this order and this payment; a renewal pays nobody, and any other route changes nothing |
| `Requests.TopUpIff` | app/web/admin_api.py:334-391 | A request of at least 1 is put on record as asked; only an undecided one is decided, a grant credits exactly the amount asked for and a refusal nothing |
| `Requests.CreditIff` | app/web/admin_api.py:616-629 | An admin's credit needs a positive amount and a known customer, and adds exactly that amount to that wallet |
| `Requests.TrialIff` | app/services/trial.py:74-125 | The trial is given if and only if it is set up and the customer never had one and has no live account; its order is free, paid, for one device and over the days and gigabytes that are set |
| `Requests.RenewalIsStored` | app/web/admin_api.py:633-664 | The free renewal is a completed order over 30 days for the given account, without money |
| `Requests.CodeIff` | app/services/promocodes.py:162-208 | A code is created, if it is new, with the given kind, value and limit, unused and switched on; switching and deleting touch that code alone |
| `Requests.CleanupTakesExactly` | app/services/orders_cleanup.py:24-67 | The cleanup cancels an order if and only if it is pending or awaits Stars and was created before the cutoff, deletes only pending payments of those, and changes nothing else but counters |
| `Cancellations.OnlyCleanupCancels` | app/services/orders_cleanup.py:55-66 | No step but the cleanup cancels an order, whether it is old or new |
| `Cancellations.CancelledIff` | app/services/orders_cleanup.py:24-67 | Over any run from the empty shop an order ends cancelled if and only if some cleanup met it unpaid and older than its cutoff |
| `Cancellations.FreshOrdersSurvive` | app/services/orders_cleanup.py:24-38 | An order that was created at or after every cutoff that a run used is not cancelled in it |
| `RewardedRun.ThirdIsOffered` | app/web/api.py:188-239 | A referred customer without purchases is offered a product of 1000 for 850, marked as discounted |
| `RewardedRun.BothLevelsReachable` | app/services/order_fulfillment.py:147-210 | A run of six steps from the empty shop binds two referrals, sells that offer and ends with 170 for the referrer and 42 for the referrer's referrer |
| `Quotes.PriceClosedForm` | app/web/api.py:188-220 | The total is the base price less the larger of the two discounts, rounded up, between 0 and the base; they never stack, and the price is marked as discounted if and only if 15 percent is the larger one of an eligible customer |
| `Quotes.PriceMonotone` | app/web/api.py:188-220 | A higher base price never gives a lower total |
| `Quotes.PurchaseClampNeverBinds` | app/services/referral.py:132-144 | The referral discount is exactly 15 percent rounded down; the lower bound of 1 is never what decides |
| `Quotes.QuoteIsPriced` | app/web/api.py:139-239 | The price of every quote is its base less the larger of the percentage of the code that it carries and the referral discount of an eligible customer, rounded up; the quote is marked as discounted if and only if it took the latter |
| `Quotes.QuoteGivesBonus` | app/web/api.py:146-212 | A quote carries the code if and only if the customer can redeem it now, adds exactly its days or gigabytes, charges for the bonus on a custom plan only, and names the plan and its devices |
| `Quotes.OrderFollowsQuote` | app/web/api.py:400-456 | Whatever the shop did between quote and order: the order has the goods asked for with the bonus of a redeemable code, costs the base less the better discount, is marked as discounted if and only if that was the referral discount, and is of this moment |
| `Quotes.QuoteSucceedsIff` | app/web/api.py:139-188 | A quote is given if and only if the listed plan is on sale, or a custom one has 1 to 365 days and 1 to 500 gigabytes |
| `Quotes.EligibleAfterOrder` | app/services/referral.py:95-129 | Each further order takes the referral discount from its own customer if it is a completed new purchase or a discounted order that is alive, and from nobody else |
| `Quotes.NoDiscountAfterPurchase` | app/services/referral.py:95-129 | Once a new purchase was completed its customer is never eligible again, however the shop moves on |
| `Quotes.ReservationAfterOrder` | app/services/promocodes.py:62-136 | A customer holds a code from the order that carries it on, exactly while that is pending, paid or completed |
| `Quotes.StaleQuoteIsPossible` | app/web/api.py:400-456 | A quote stays acceptable to the order endpoint however the shop moved on in between |
| `ShopFront.Shop.TakeWallet` | app/web/api.py:485-531 | Claim, debit and payment row together or not at all, with every change undone on a refusal |
| `ShopFront.Shop.Deliver` | app/services/fulfillment.py:40-105 | Completes order and payment with cashback, or restores everything when a credit fails |
| `ShopFront.Shop.CountReservations` | app/services/orders_cleanup.py:43-47 | The dictionary built over the selected orders holds the number of their reservations of each code |
| `ShopFront.Shop.GiveBack` | app/services/orders_cleanup.py:48-53 | Every counter of a released code that still exists is lowered by its count, all others are untouched |
| `ShopFront.Shop.CancelStale` | app/services/orders_cleanup.py:24-67 | The three loops together compute the cleanup of the whole table: an order ends cancelled if and only if it was, or was pending or awaiting Stars and older than the cutoff; the count is the number of orders newly cancelled |
| `Service.Bot.PayWallet` | app/web/api.py:474-533 | The wallet handler and its delivery, run on shop, rows, stock and panel, make exactly one step of the combined state, with the route that is reported |
| `Service.Bot.ApprovePayment` | app/web/admin_api.py:247-271 | Likewise an admin's approval and the delivery that follows |
| `Service.Bot.RenewUser` | app/web/admin_api.py:633-664 | Likewise the free renewal: the order and the extended row are one step |
| `Service.Bot.StarsPaid` | app/bot/payments.py:70-141 | Likewise a Stars confirmation, with its delivery if the order awaits it and its duplicate record if not |
| `Service.Bot.TakeTrial` | app/web/api.py:859-898 | Likewise the free trial, which is refused to a customer with a live account |
| `Service.RunWithDelivery` | app/services/order_fulfillment.py:300-318 | There is a run of three steps from an empty shop and panel that ends with a delivery through the panel and the row that shows it |
| `ClaimProtocol.AcceptedAtMostOnce` | app/web/api.py:485-597 | For any interleaving of any number of wallet and Stars requests on stale reads, with lost invoices and their reverts and Stars confirmations that are stored in time, at most one payment is accepted, a wallet payment for exactly the price, and at most one request holds the order |
| `ClaimProtocol.AcceptedForGood` | app/web/api.py:485-597 | Once a payment was accepted, no continuation in which confirmations are stored in time makes the order pending or awaiting Stars again, cancels it or accepts another; every Stars payment that is still handled becomes a duplicate or is lost |
| `ClaimProtocol.SafeAllTheWayIff` | app/web/api.py:485-597 | For any interleaving of wallet and Stars requests and Stars confirmations, each acting on a stale read: at most one accepted payment, one holder and a status that never moves back hold in every state on the way if and only if each Stars payment that is stored finds the order still waiting |
| `ClaimProtocol.ConfirmationOutcome` | app/bot/payments.py:86-138 | A Stars confirmation becomes a duplicate if and only if the order did not await it at the read, is accepted if and only if it did and no payment is pending at the write, and is lost otherwise |
| `ClaimProtocol.StarsPaymentsAddUp` | app/bot/payments.py:86-138 | Over any interleaving, timely or not, the Stars payments handled to the end are exactly those accepted, recorded as duplicates, or lost |
| `ClaimProtocol.NothingLostIff` | app/database/session.py:243-245 | Over any interleaving no Stars payment is lost if and only if none that was awaited at its read is stored while another payment is pending |
| `ClaimProtocol.SecondConfirmationLost` | app/bot/payments.py:128-138 | Whenever an order awaits Stars: of two confirmations that both read so, the second leaves no trace |
| `ClaimProtocol.OvertakenConfirmationLost` | app/bot/payments.py:128-138 | A revert and a wallet payment between read and write lose the Stars payment as well |
| `ClaimProtocol.LateStarsMatchShop` | app/bot/payments.py:128-138 | Storing an awaited Stars payment, however late, is the shop's unconditional write, stored or lost under the same condition |
| `ClaimProtocol.RevertFreesOwnClaim` | app/web/api.py:576-597 | A revert frees the order exactly if it still awaits Stars, and then nobody else holds it |
| `ClaimProtocol.WalletMatchesShop` | app/web/api.py:485-531 | The wallet step of the protocol is the shop's wallet transaction seen from this order, success and failure alike |
| `ClaimProtocol.StarsMatchesShop` | app/web/api.py:546-575 | The Stars claim of the protocol is the shop's, seen from this order |
| `ClaimProtocol.RevertMatchesShop` | app/web/api.py:576-597 | The revert of the protocol is the shop's, seen from this order |
| `ClaimProtocol.StarsPaymentMatchesShop` | app/bot/payments.py:70-141 | A Stars confirmation that is stored right after its read is accepted or recorded as a duplicate exactly as by the shop, with the same effect on order and payment rows |
| `ClaimProtocol.RejectionMatchesShop` | app/web/admin_api.py:275-330 | The rejection of the protocol is the shop's, refund included |
| `ClaimProtocol.ApprovalMatchesShop` | app/web/admin_api.py:247-271 | The approval of the protocol is the shop's claim of the pending payment |
| `ClaimProtocol.DeliveryMatchesShop` | app/services/order_fulfillment.py:147-237 | A completing delivery is the protocol's final step, up to cashback on the wallet |
| `ClaimProtocol.CleanupMatchesShop` | app/services/orders_cleanup.py:24-67 | The cleanup cancels the order in the protocol exactly if it is stale in the shop |
| `ClaimProtocol.StaleReceiptIsSafeIff` | app/web/api.py:690-705 | A receipt stored on a stale read keeps the claim protocol if and only if the order still waits for its payment at that moment |
| `ClaimProtocol.StaleReceiptReopens` | app/web/api.py:690-705 | An interleaving in which a stale receipt reopens a completed order and adds a second accepted payment |
| `RateLimits.RateLimiter.PruneAll` | app/utils/rate_limiter.py:14-22 | The nested loops keep exactly the stamps that are at most an hour old and drop users without any |
| `RateLimits.PruningIsInvisible` | app/utils/rate_limiter.py:14-54 | On every run with a clock that does not go back and windows of at most an hour, the pruning limiter answers like one that keeps every stamp forever |
| `RateLimits.PruningInvisibleIff` | app/utils/rate_limiter.py:7-22 | For one window length pruning can never be noticed if and only if the window is at most 3600 seconds |
| `RateLimits.ResetForgets` | app/utils/rate_limiter.py:56-62 | A reset forgets the named stamp of the user, all of them if none is named, and no other |
| `RateLimits.GrantedIff` | app/utils/rate_limiter.py:24-54 | A check is granted if and only if no grant of that action lies within its window; otherwise the answer is the rest of the window in whole seconds |
| `RateLimits.GrantsSpan` | app/utils/rate_limiter.py:24-54 | Without resets, k grants of an action with window s span at least (k - 1) s |
| `RateLimits.MemoryIsBounded` | app/utils/rate_limiter.py:14-54 | Right after a check every kept stamp of every user is at most an hour old, and no user is kept without stamps |
| `ReferralCodes.ToBase36` | app/services/referral.py:21-31 | The loop produces the base-36 numeral of the absolute value |
| `ReferralCodes.ParseNumeral` | app/services/referral.py:21-31 | A numeral reads back as the number it was made from |
| `ReferralCodes.CodeReads` | app/services/referral.py:34-37 | A code ends with its four random characters and reads back as the size of the id in front of them |
| `ReferralCodes.CandidateReads` | app/database/session.py:200-205 | The backfill tries the drawn code, and then the code with the number of the try behind it in decimal |
| `ReferralCodes.CodesCollideIff` | app/services/referral.py:34-37 | Two ids can share a code, for some choice of the four random characters, if and only if their absolute values are equal |
| `ReferralCodes.FreeCandidate` | app/database/session.py:200-205 | The inner loop ends after at most as many tries as there are used codes, and returns the first free candidate |
| `ReferralCodes.UserCodes.Backfill` | app/database/session.py:182-211 | Afterwards everybody has a non-empty code, codes are distinct, no existing code changed, and each new one is the numeral of the id with the drawn tail and the number of tries behind it |
| `PanelRecords.PreparePayload` | app/xui/client.py:115-187 | The dictionary filled field after field is the update payload: record fields, address list, renamed fields, then the caller's values |
| `PanelRecords.ReplaceKeepsField` | app/xui/client.py:115-187 | Replacing a stored record by its own update payload changes the device limit and no other field |
| `PanelRecords.IpsRoundTrip` | app/xui/client.py:143-158 | Allowed addresses survive the way from comma separated text to a list and back |
| `PanelRecords.ReplaceKeepsIps` | app/xui/client.py:143-158 | The allowed addresses come out of the replacement as they went in |
| `PanelRecords.FieldsSurviveIff` | app/xui/client.py:83-112 | For any stored record, no field is lost by the replacement if and only if every field is one that the program carries |
| `Provisioning.ReplaceStaysGrown` | app/services/xui_provisioning.py:131-144 | A full replacement that follows bulkAdjust keeps the extended quota and expiry, sets the device limit and touches nothing else |
| `Provisioning.FallbackKeepsExtensionIff` | app/services/xui_provisioning.py:135-139 | If the client is no longer found after bulkAdjust, the update falls back to the record read before, and keeps the extension if and only if there was nothing to extend |
| `Provisioning.XuiPanel.BulkAdjust` | app/xui/client.py:612-650 | Assumed panel: all or nothing, unlimited stays unlimited, and a lost answer leaves one of the two |
| `Provisioning.Provisioner.ResolveLive` | app/services/xui_provisioning.py:54-80 | The selected inbounds that are live; the stored selection is pruned to them, and stays as it was when the panel does not answer |
| `Provisioning.Provisioner.SyncInbounds` | app/xui/client.py:559-591 | On success the client's inbounds are exactly the wanted ones; nothing else of any client changes, success or not |
| `Provisioning.Provisioner.UpdateLimit` | app/xui/client.py:593-610 | The device limit is set through a full record read after the adjustment, or the record stays as it was |
| `Provisioning.Provisioner.Extend` | app/services/xui_provisioning.py:114-153 | The record is as it was or adjusted once, never partly; on success it also has the order's device limit and the wanted inbounds |
| `Provisioning.Provisioner.Create` | app/xui/client.py:529-557 | A new client is enabled and has exactly the order's quota, expiry, device limit and inbounds, even when the answer was lost |
| `Provisioning.Provisioner.Provision` | app/services/xui_provisioning.py:83-191 | One attempt extends or creates this client only; the result reports what the panel holds; a reliable panel with a live inbound always serves |
| `Delivery.ClientEmailInjective` | app/utils/client_identity.py:10-21 | Different customers have different clients on the panel |
| `Delivery.RenewalsAddUp` | app/services/renewal.py:12-35 | After any renewals expiry is the first expiry plus all days sold plus the time spent expired at renewal moments, never earlier than before; traffic grows by exactly what was sold |
| `Delivery.UpsertMirrorsPanel` | app/services/order_fulfillment.py:43-101 | After an automatic delivery the user has exactly one active panel-backed row, with the panel's quota unless that is unlimited |
| `Delivery.DedupeOnlyParks` | app/database/session.py:251-272 | The start-up migration changes nothing but the activity of rows, and ends that exactly for panel-backed rows with a later one of the same user |
| `Delivery.DedupeKeepsActiveIff` | app/database/session.py:251-272 | The start-up migration leaves a user with an active panel-backed row if and only if the last inserted one is active, and then it is the only one |
| `Delivery.AssignTakesOne` | app/services/config_inventory.py:10-39 | Handing out a config lowers the available count of its plan by one and of no other plan |
| `Delivery.ClientEmailIsDecimal` | app/utils/client_identity.py:10-21 | The client's name is the numeric id in decimal, without leading zeros |
| `Delivery.Warehouse.CountAvailable` | app/services/config_inventory.py:10-16 | The number of free configs of the plan |
| `Delivery.Warehouse.AssignConfig` | app/services/config_inventory.py:19-39 | Takes an oldest free config of the plan, or none exactly if there is none, when nothing comes between selection and hand-out |
| `Delivery.Warehouse.ParkDuplicates` | app/services/order_fulfillment.py:104-120 | All other panel-backed rows of the user become inactive, no other row changes |
| `Delivery.Warehouse.UpsertAuto` | app/services/order_fulfillment.py:43-101 | Refreshes the latest panel-backed row and parks the others, or inserts the first one, and fails only on an order that has a row |
| `Delivery.Warehouse.Dedupe` | app/database/session.py:251-272 | Parks every panel-backed row that is followed by a later one of the same user |
| `Delivery.Warehouse.RenewNewest` | app/web/admin_api.py:633-664 | Extends a newest active row by 30 days, or nothing if there is none |
| `Delivery.Warehouse.ExtendAccount` | app/services/renewal.py:19-35 | The row after a renewal, and no other row |
| `Delivery.Warehouse.CompleteRenewal` | app/services/order_fulfillment.py:213-237 | The extended row then mirrors the panel's quota, and its expiry while that lies ahead |
| `Delivery.Warehouse.Fulfill` | app/services/order_fulfillment.py:240-342 | The route that is reported tells exactly what happened to rows, configs and panel, which DeliveredGoods states on the order's fields; an order goes to the admins only when neither panel nor stock can serve it, and a working panel always serves |
| `DeliveredGoods.PanelGetsOrder` | app/services/xui_provisioning.py:99-180 | Every delivery through the panel: a new client is enabled, expires the order's days from now and holds its gigabytes; an existing one grows by exactly these, unlimited values stay so, and it keeps its link; the device limit is the order's, at least 1; no other client changes |
| `DeliveredGoods.RowGetsOrder` | app/services/order_fulfillment.py:43-101 | After every new purchase through the panel the buyer's latest panel-backed row, or a first one for this order, is the one active one; it shows the client's expiry and quota, the order's own where the client's is unlimited, and the link of that client |
| `DeliveredGoods.RenewedRowGetsOrder` | app/services/order_fulfillment.py:213-237 | After a renewal through the panel the renewed row shows the client's link, its quota, and its expiry while that lies ahead, and otherwise grew by the order's days and gigabytes; no other row changes |
| `DeliveredGoods.DbRenewalGetsOrder` | app/services/order_fulfillment.py:288-296 | Without a panel the renewed row alone grows by the order's days, from now if it had expired, and by its gigabytes |
| `DeliveredGoods.AdminRenewalExtends` | app/web/admin_api.py:633-664 | The free renewal adds 30 days, from now if it had expired, to a newest active row of the customer, and does nothing if there is none |
| `DeliveredGoods.StockGetsOrder` | app/services/order_fulfillment.py:320-340 | A delivery from the stock adds one row: active, of the order and its buyer, with the text of an oldest free config of the plan, expiring the order's days from now, with its gigabytes; that config alone is marked, and every earlier row stays |
| `DeliveredGoods.ManualOnlyWithoutGoods` | app/services/order_fulfillment.py:320-342 | An order is left to the admins with no row or config touched and stays paid; a new purchase only if no config of its plan is free |
| `DeliveredGoods.TrialGoesOut` | app/services/trial.py:62-125 | A trial goes to delivery if and only if it is set up and the known customer never had one and has no active account that expires after this moment |
| `DeliveredGoods.ConfigIsAdded` | app/services/config_inventory.py:42-57 | A new config joins the end of the stock, free, of its plan and of this moment, with its text without the white space at both ends |
| `DeliveredGoods.AvailableCounts` | app/services/config_inventory.py:10-16 | The available count is the number of configs of the plan that nobody has |
| `Expiries.ExpiryIsSumSold` | app/services/xui_provisioning.py:99-180 | If no panel call fails midway, every client expires exactly all days sold to its customer through the panel after the moment of the first delivery |
| `Expiries.RowShowsExpiry` | app/services/order_fulfillment.py:43-101 | After each new purchase of such a run the customer's one active panel-backed row shows exactly that expiry |
| `World.StepKept` | app/services/order_fulfillment.py:240-342 | Every step keeps money, machine and goods together: rows belong to delivered orders, configs to their rows, and quotas cover what was sold |
| `World.HandoverDelivers` | app/services/order_fulfillment.py:147-237 | A delivering route completes the order that was paid, and any other outcome changes nothing more in the tables |
| `World.AttemptCovers` | app/services/xui_provisioning.py:114-153 | An attempt never lowers what a client's quota covers, and a success covers the new order as well |
| `WorldRuns.NothingSoldIsLost` | app/services/xui_provisioning.py:114-191 | In every state of every run, whatever panel calls failed, the client of each buyer exists and is unlimited or holds at least all gigabytes sold to them through the panel |
| `WorldRuns.QuotaIsSumSold` | app/services/xui_provisioning.py:114-191 | If no panel call fails midway and quotas sold are positive, every client's quota is exactly the sum sold, to the byte, and there are no other clients of customers |
| `WorldRuns.RowMirrorsPanel` | app/services/order_fulfillment.py:300-318 | After each delivery through the panel in any run, whatever calls failed before, the user has exactly one active panel-backed row; it shows the panel's quota, which is unlimited or covers all gigabytes sold |
| `WorldRuns.RowShowsAllSold` | app/services/order_fulfillment.py:300-318 | If no panel call failed midway, that row shows exactly the sum of all gigabytes sold |
| `WorldRuns.InventoryBijection` | app/database/models.py:99-134 | Handed-out configs and orders delivered from the stock correspond one to one, of the same plan, each pair with its account row |
| `WorldRuns.StockTakesOldest` | app/services/config_inventory.py:19-39 | Each delivery from the stock takes an oldest free config of the order's plan and lowers the count of that plan alone by one |
| `WorldRuns.GivenForLife` | app/services/order_fulfillment.py:320-340 | A config never changes its order for the rest of the run |
| `PanelRequest.XuiClient.Request` | app/xui/client.py:306-382 | For every sequence of answers: at most two requests, a second one only after an answer that refused the first, and after a new login or with a CSRF token given out since; success only for an accepted answer; a rejected token is dropped |
| `PanelRequest.CallReports` | app/xui/client.py:306-382 | A call succeeds if and only if its last answer has a success status and an envelope that says so, and returns that envelope's object; it asks twice only after 401 or 403, or without a token also after 419 or a declined answer with a CSRF hint |
| `PanelRequest.StaleHints` | app/xui/client.py:64-76 | A message points at the CSRF token if and only if it has one of the four hints, in any case |
| `PanelRequest.EffectAtMostOnce` | app/xui/client.py:306-382 | With a panel that keeps to its answers, a call takes effect at most once, and exactly once when it succeeds |
| `PanelRequest.TokenNeverReturns` | app/xui/client.py:336-351 | After a token was dropped, no later request of the session carries it |
| `PanelRequest.EffectsMatchCalls` | app/xui/client.py:612-650 | Over any session the panel carries out at least the calls that succeeded and no more than were made |
| `PanelRequest.XuiClient.LogIn` | app/xui/client.py:286-304 | A login that succeeds leaves no CSRF token of the anonymous session behind |

## Left out

- Telegram, HTTP and database transport, messages, QR codes, broadcast, backup, logging and scheduler timing: their failures appear only as outcomes of a step.
- The Mini App, texts and JSON envelopes; statistics and listing endpoints, which only read.
- Plan and settings editing and the parsing of request fields: single-branch code that would only add easy members.
- The check of launch data and the encryption of panel credentials: they rest on cryptography outside the repository.
- price_to_stars and remaining_traffic_percent: floating point that no stored value depends on.
- Interleaving inside a transaction: in Runs and WorldRuns each transaction is one step, and a delivery is one step with the payment it follows. ClaimProtocol interleaves the reads and writes for one order; LateRuns makes late receipts, Stars payments, top-up decisions and cleanups events of a run. LateDelivery and LateHandOuts state the exact conditions for one late delivery and one late selection of goods, not for runs of them, and not for both at once.
- Expiries.ExpiryIsSumSold: for runs in which no panel call fails midway and orders on the panel have at least a gigabyte, as WorldRuns.QuotaIsSumSold, and for a first delivery after the epoch; DeliveredGoods.PanelGetsOrder has no such conditions.
- WorldRuns.InventoryBijection: holds for deliveries that do not overlap; a hand-out after an overtaken selection is LateHandOuts.LateHandOutIsSafeIff.
- WorldRuns.GivenForLife: likewise; LateHandOuts.TwoHandOutsCollide shows what an overlap can do.
- WorldRuns.RowMirrorsPanel: likewise; late inserts and refreshes are LateHandOuts.LateInsertMirrorsIff and LateHandOuts.LateRefreshMirrorsIff.
- Delivery.Warehouse.AssignConfig: selection and hand-out are one step here; the write after an earlier selection is LateHandOuts.LateHandOutIsSafeIff.
- Machine.UploadReceiptSound: the check and the write of the receipt endpoint are one step here; the write after a stale read is StaleWrites.LatePaymentIsSafeIff and StaleWrites.LatePaymentStoredIff.
- LateDelivery.LateDeliveryIsSafeIff: covers new accounts, the only orders that endpoints create, and for a delivery from the stock a panel that was left unchanged. Of late renewals, which only orders from elsewhere can need, LateDelivery.LateQuotaExactIff covers those through the panel.
- Promo deletion in Runs and WorldRuns: their runs have no deletions; runs with deletions are the subject of PromoCounters.CountersTrueIff.
- Blocking of users, maintenance mode and the pre-checkout query: they refuse a request without changing anything.
- Creating the customer inside another request: it is a step of its own before that request.
- The retry loop of ensure_referral_code: the code that was finally drawn is a parameter of the registration.
- ReferralCodes.UserCodes.Backfill: the query result and the random characters are parameters.
- SQL's choice among rows with the same timestamp: every choice is allowed, and the statements hold for each.
- Delivery.ClientEmailInjective: covers the numeric form of the client name; the fallback to a user name applies only to the id 0, which Telegram does not give out.
- Provisioning.Provisioner.Provision: other writers do not change this client between its calls; inbound ids are sets, so their order and repetition are not captured.
- Provisioning.Provisioner.UpdateLimit: the panel finds the client that it has just adjusted; what the fallback to the older record does is Provisioning.FallbackKeepsExtensionIff.
- Notification flags, last_renewed_at and messages that go with a delivery; admin_renew_user extends only the account row and not the panel, as in the code.
- The panel's traffic counters, its login limiter, and the settings and token endpoints of the client.
- PanelRequest.XuiClient.Request: message texts are lowered in ASCII only.
- Legacy rows: Runs and WorldRuns start from an empty shop; Runs.RunHealthy and World.StepKept also apply to any state that meets the invariants.
