# Verified model of the stock, order and debt engine

This project models the part of the point-of-sale backend that keeps stock, orders, debts,
shifts and refresh tokens, and proves what holds of it on every run.

| File | Contents |
|---|---|
| `Fifo.dfy` | storage batches, the deduction loop, the queue of units it refines |
| `Stock.dfy`, `StockViews.dfy` | the six operations on one product; batches, summary row and movement log over whole runs |
| `StockTrail.dfy` | the log as the record of what was done, and the batches as what came in |
| `StockTasks.dfy` | all products; the loops over order lines |
| `Concurrency.dfy` | any interleaving of `create` transactions under row locks: safety and progress |
| `Pricing.dfy` | prices, discounts, rounding, the payment split |
| `Shop.dfy` | the database, the requests, and runs of requests |
| `ShopStock.dfy`, `Delivery.dfy`, `Accounting.dfy` | stock on runs of requests: views, reservations, deductions and returns per order |
| `Lifecycle.dfy`, `Debts.dfy`, `Totals.dfy` | order status, debts, shift totals, money columns, outstanding debt |
| `Isolation.dfy` | shops side by side: what a request of one can touch of another |
| `Witnesses.dfy` | runs of requests with all their stored amounts, and runs that reach what the code does not keep |
| `Inventory.dfy`, `OrderServices.dfy` | the services as classes whose methods change the database step by step |
| `Tokens.dfy`, `Auth.dfy` | refresh-token families, and the service that rotates them |

Each service method is proved to end in the state its transition in `Shop`, `Stock` or `Tokens`
gives; the theorems are about those transitions and about every run of them from an empty
database.

Conventions. Quantities are thousandths of a unit, stored money is whole cents, unrounded money
is a `real` number of cents, rounding is half up. A transaction is one step, an exception undoes
it. `addToStorage`, `repay`, `process` and `refresh` have no transaction and are taken as steps
that complete; `process` keeps its payment row when `markPaid` then refuses. Prices, tax rates
and the customer's default discount are inputs of a request; shop, unit type and stock tracking
of a product do not change. Fresh ids are counters.

## What the code does not keep

Six statements one would expect are false of the code. Each has its exact condition, and a run of
requests that fails it.

- **Batches, summary and log need not agree.** `returnToStorage` looks a level up by product
  alone and, finding none, inserts one without a shop
  (`src/modules/inventory/inventory.service.ts:226-228`, `367-377`); the next receipt searches by
  product and shop, does not find it and inserts a second. The views agree at every point of a
  run exactly when no receipt meets such a row (`StockViews.ViewsAgreeIff`), which for tracked
  products is always (`ShopStock.TrackedAlwaysAgrees`). Run: `Witnesses.ReturnThenReceiptSplits`.
- **Reserved need not be what the open orders ask.** `cancel` accepts a cancelled order and
  releases its lines again, and orders may name products that are not tracked. Reserved is what
  the open orders ask, within the stock and without a clamp, at every point of a run exactly when
  orders name tracked products, cancels and deductions hit orders still open and no correction
  goes below the reserved quantity (`Delivery.SecureIffDisciplined`). Run:
  `Witnesses.SecondCancelOversells`.
- **A debt can drift.** `repay` rounds the paid and the remaining column separately. On every
  run paid + remaining is the debt plus the number of instalments with exactly half a cent
  (`Debts.DebtConservation`), and a customer's books add up exactly when there was none
  (`Totals.DebtViewsAgree`). Exactly an instalment that leaves less than half a cent strands the
  debt at zero without marking it PAID (`Debts.StrandedIff`). Runs: `Witnesses.HalfCentDrifts`,
  `Witnesses.QuarterCentStrands`.
- **Returns are bounded per request line, not per product.** A request may name a product
  several times. All acceptable requests that name it k times stay within the order exactly when
  k times its first line does (`Accounting.ReturnStaysWithinIff`). Over a run the bound is k times
  the first line, twice that if the order had a debt (`Accounting.ReturnedUnitsBounded`); both
  factors are reached (`Witnesses.NamingTwiceReturnsTwice`,
  `Witnesses.RepaymentAllowsASecondReturn`).
- **A shop's shift totals are not its own.** A sale is added to the shift with the id the request
  names, found by that id alone (`src/modules/orders/orders.service.ts:151-163`). Stock, orders,
  debts and payments of other shops are never touched; a shift of another shop changes exactly if
  an accepted order names it (`Isolation.ShopsAreIsolated`). Run:
  `Witnesses.SaleOnAnotherShopsShift`.
- **Refresh tokens are looked up by value in a column of hashes.** The top-level README promises
  family-based rotation with reuse detection. `issueTokens` stores a bcrypt hash of the secret
  (`src/modules/auth/auth.service.ts:300-304`) but `refresh` searches for the secret itself
  (`176-183`). A value is found exactly if it is the hash of a secret handed out before
  (`Tokens.RefreshFindsOnlyHashes`), and every secret reaches its own row exactly if hashing
  changes none of them (`Tokens.LookupIsRightIff`). Runs: a secret fresh from a login is refused
  (`Tokens.GenuineSecretRefused`), and one whose row was rotated away comes back unnoticed, its
  family still valid (`Tokens.RotatedSecretStaysUnnoticed`). The family properties are proved for
  any hash, the identity included, which is the intended lookup.

## Model

| member | source | states |
|---|---|---|
| Fifo.DeductLoop | src/modules/inventory/inventory.service.ts:184-191 | the loop over open batches, oldest first, leaves the rows and the shortfall of `Drain` |
| Fifo.DrainDropsUnits | src/modules/inventory/inventory.service.ts:176-195 | with the batches seen as a queue of tagged units, a deduction drops exactly its first q units, keeps every row within 0 and its initial quantity, and reports what it could not find |
| Fifo.UnitsDetermineBatches | src/modules/inventory/inventory.service.ts:185-191 | the unit queue determines the rows, so the previous statement pins the deduction down completely |
| Fifo.DrainTwiceIsDrainOnce | src/modules/inventory/inventory.service.ts:184-191 | deducting a and then b leaves the rows and the shortfall of deducting a + b |
| Fifo.DrainShape | src/modules/inventory/inventory.service.ts:185-191 | after a deduction: emptied batches, at most one partly used, then untouched ones |
| Fifo.DrainSum | src/modules/inventory/inventory.service.ts:193-195 | a deduction falls short exactly when fewer than q units exist, and takes q off the sum otherwise |
| StockViews.AdjustLosesNothing | src/modules/inventory/inventory.service.ts:297-304 | the leftover the correction loop ignores is always zero where the views agree |
| StockViews.AdjustDownIsDeduct | src/modules/inventory/inventory.service.ts:288-304 | a downward correction takes the same units as deducting the difference |
| StockViews.AgreeStep | src/modules/inventory/inventory.service.ts:69-81 | one operation keeps batches, summary and log in agreement exactly when it is not a receipt that finds only a level row without a shop |
| StockViews.ViewsAgreeIff | src/modules/inventory/inventory.service.ts:367-377 | over a run from empty the three views agree at every point if and only if no such receipt occurs; every `quantityAfter` is the replay of the log up to it |
| Witnesses.ReturnThenReceiptSplits | src/modules/inventory/inventory.service.ts:226-243 | selling an untracked product, taking it back and then receiving it leaves two level rows and no agreement |
| StockViews.ReservedFromLog | src/modules/inventory/inventory.service.ts:154-201 | the clamped reserved counter is the running sum of RESERVE less RELEASE less SALE minus its lowest prefix value, and the clamp never fired exactly when that lowest value is zero |
| StockViews.LowestHeldIsLowest | src/modules/inventory/inventory.service.ts:133-142 | the lowest value used there is the minimum over all prefixes of the log |
| StockViews.BoundedIff | src/modules/inventory/inventory.service.ts:193-201 | 0 <= reserved <= on hand at every point of any run, double cancels included, exactly when no correction goes below the reserved quantity |
| StockViews.WholeStep | src/modules/inventory/inventory.service.ts:187-189 | whole quantities stay whole through the minimum of the loop, the clamps and the correction delta |
| StockTrail.TrailOnEveryRun | src/modules/inventory/inventory.service.ts:73-81 | in every reachable database the movements of a product are exactly its successful operations in order, with kind, amount and order, and its batches were inserted with what the log brought in, each holding between zero and its own |
| StockTasks.ReserveAllIff | src/modules/inventory/inventory.service.ts:128-134 | reserving line by line succeeds exactly when the total per product fits in its free stock, and then each product holds its total more and nothing else changes |
| StockTasks.LineOrderIsIrrelevant | src/modules/orders/orders.service.ts:60-69 | the same lines in another order fail alike or reserve the same quantities |
| Concurrency.Serializable | src/modules/inventory/inventory.service.ts:120-134 | any interleaving of transactions that lock a row, read it afterwards and hold the lock to the end leaves the stock of the committed ones run serially in commit order, none of which fails |
| Concurrency.NoOversell | src/modules/orders/orders.service.ts:55-84 | after any interleaving each product holds the lines of the committed orders more than at the start, and never more than is on hand |
| Concurrency.CommitsIffFits | src/modules/inventory/inventory.service.ts:120-134 | after any interleaving, a running transaction whose remaining rows nobody else holds, taken on line by line, commits if and only if its totals fit the committed stock |
| Concurrency.LoneOrderCommitsIffFits | src/modules/orders/orders.service.ts:55-84 | an order on its own commits if and only if its totals fit the stock |
| Concurrency.EndsOnlyWhenUnfit | src/modules/inventory/inventory.service.ts:124-134 | at any point a transaction that is not aborted from outside ends without committing only if its lines up to that one do not fit the committed stock |
| ShopStock.CreateReservesIffTotalsFit | src/modules/orders/orders.service.ts:60-84 | the line loop of `create` goes through exactly when every line is sold by the shop, active and in whole units if by the piece, and the totals of the tracked products fit |
| ShopStock.FailedCreateChangesNothing | src/modules/orders/orders.service.ts:55-123 | the exact condition under which an order is created, line by line and for the tenders; any failure leaves the database alone |
| ShopStock.NextShelves | src/queue/processors/order.processor.ts:37-46 | every request changes the stock by its list of stock operations and in no other way |
| ShopStock.StockViewsOnEveryRun | src/modules/inventory/inventory.service.ts:41-318 | in every reachable database: agreement of the views exactly on runs that never split a level, the counter recovered from the log, the exact condition for reserved within on hand |
| ShopStock.TrackedAlwaysAgrees | src/modules/orders/orders.service.ts:67-69 | for a tracked product the views agree on every run |
| ShopStock.PieceGoodsStayWhole | src/modules/products/utils/quantity.util.ts:7-13 | every quantity of a piece product is whole in every reachable database |
| Delivery.SecureIffDisciplined | src/modules/orders/orders.service.ts:237-253 | at every point of a run reserved is exactly what the orders neither cancelled nor deducted ask, within the batches and without a clamp, if and only if the run is disciplined: accepted orders name tracked products, accepted cancels and committed jobs of orders with lines hit open ones, accepted corrections stay at or above reserved |
| Delivery.PendingJobsNeverThrow | src/queue/processors/order.processor.ts:34-54 | after a disciplined run the jobs of any open orders, in any order, each deduct their stock, and the run with them is disciplined |
| Delivery.DeductAllIff | src/queue/processors/order.processor.ts:37-46 | the deduction loop of the job succeeds exactly when the total per product is in the batches, and takes it off |
| Delivery.JobDeductsIff | src/queue/processors/order.processor.ts:24-50 | in every reachable database the job deducts if and only if the order exists, is not flagged and its totals are in the batches, and is rejected if and only if they are not |
| Witnesses.SecondCancelOversells | src/modules/orders/orders.service.ts:241-247 | a run in which an order is cancelled twice, a later one then reserves stock that another still holds, and its job is rejected |
| Lifecycle.StatusAlongRun | src/modules/orders/orders.service.ts:237-310 | along a run CONFIRMED is never re-entered, PAID and REFUNDED are never left, the deduction flag is never cleared and the lines never change |
| Lifecycle.StatusIsTold | src/modules/orders/orders.service.ts:237-310 | on every run the status of an order is the one its last accepted request gave it: PAID or CONFIRMED by what it left unpaid when created, then CANCELLED, REFUNDED, or PAID by a payment or by the instalment of all that remained |
| Lifecycle.PaysIff | src/modules/payments/payments.service.ts:23-56 | marking paid succeeds exactly for a CONFIRMED order of the shop, paying also asks enough cash |
| Witnesses.TwoInstalmentsClose | src/modules/debts/debts.service.ts:75-83 | a run in which the first half of a debt leaves the order CONFIRMED and the second makes it PAID |
| Lifecycle.MarkedPaidOnce | src/modules/payments/payments.service.ts:26-56 | at most one `markPaid` or `process` succeeds for an order on any run |
| Lifecycle.CancelShutsTheOrder | src/modules/orders/orders.service.ts:241-249 | a cancel is accepted exactly for an order not settled, again if already cancelled, and shuts payment and return |
| Lifecycle.ReturnAcceptedIff | src/modules/orders/orders.service.ts:275-291 | a return is accepted exactly for a paid order of the shop and lines covered by the order's first line of the product, in whole units if by the piece |
| Lifecycle.ReturnsBounded | src/modules/orders/orders.service.ts:271-309 | at most two returns succeed for an order, and at most one if it was paid in full |
| Lifecycle.RefundedLeftByRepayment | src/modules/debts/debts.service.ts:81-83 | only the instalment that closes its debt takes an order out of REFUNDED |
| Accounting.DeductionsExact | src/queue/processors/order.processor.ts:24-54 | over any run the committed deductions of an order are the lost marks plus one once the flag is set, and its SALE movements are that many times its lines |
| Isolation.ShopsAreIsolated | src/modules/orders/orders.service.ts:225-235 | in every reachable database a request, or a job, leaves stock, orders, debts and payments of all other shops as they are, adds rows of its own shop only, and changes a shift of another shop exactly if an accepted order names it |
| Witnesses.SaleOnAnotherShopsShift | src/modules/orders/orders.service.ts:151-163 | a run in which a sale of one shop is added to the shift of another |
| Accounting.ReturnedIsAskedBack | src/modules/orders/orders.service.ts:293-303 | on every run the RETURN movements of an order and product add up to what its accepted returns asked, whatever the lines |
| Accounting.ReturnStaysWithinIff | src/modules/orders/orders.service.ts:279-291 | in every reachable database: all acceptable returns naming a product k times stay within the order if and only if k times the order's first line of it does |
| Accounting.ReturnedUnitsBounded | src/modules/orders/orders.service.ts:279-303 | if the returns of an order name a product at most k times each, it gives back at most k times its first line over any run, or twice that if it had a debt |
| Witnesses.NamingTwiceReturnsTwice | src/modules/orders/orders.service.ts:279-291 | a run that sells 2000 and takes 4000 back in one request naming the product twice |
| Witnesses.RepaymentAllowsASecondReturn | src/modules/debts/debts.service.ts:81-83 | a run that sells 2000 on credit and takes it back twice, before and after the instalment that closes the debt |
| Pricing.PricingBounds | src/modules/orders/orders.service.ts:71-108 | 0 <= discount <= subtotal and tax <= total <= subtotal + tax, for every kind of discount |
| Pricing.StoredSumsExact | src/modules/orders/orders.service.ts:71-74 | the stored subtotal and tax are the sums of price times quantity, and of that times the rate, in whole numbers at their scale, rounded half up |
| Pricing.OneRate | src/modules/orders/orders.service.ts:72 | with one rate for all lines the tax is that rate of the subtotal |
| Pricing.DiscountScale | src/modules/orders/orders.service.ts:99-106 | a percent discount is that part of the subtotal up to all of it, a fixed one its value up to the subtotal |
| Totals.CashierDiscountWins | src/modules/orders/orders.service.ts:86-97 | a cashier's discount decides whoever the customer is |
| Totals.DefaultDiscountStandsIn | src/modules/orders/orders.service.ts:86-97 | without one, a positive default of the named customer counts as if the cashier had given it, and otherwise nothing is taken off |
| Witnesses.MixedOrder | src/modules/orders/orders.service.ts:60-143 | a run whose order has two rates, fractions of a unit, a discount and two tenders, with every stored column |
| Pricing.StoredLinesMatchSubtotal | src/modules/orders/entities/order.entity.ts:133-134 | the stored line totals add up to the stored subtotal to within half a cent a line |
| Pricing.StoredTotalMatchesParts | src/modules/orders/entities/order.entity.ts:41-51 | stored total and stored subtotal + tax - discount differ by at most one cent |
| Pricing.ExactSplit | src/modules/orders/orders.service.ts:110-117 | with tenders of whole cents the stored total is cash + card + not paid and a receipt shows no change |
| Pricing.SplitWithinOneCent | src/modules/orders/orders.service.ts:334-335 | with any tenders the stored split, and the change of a receipt, is off by at most one cent |
| Pricing.HalfCentTendersShowChange | src/modules/orders/orders.service.ts:334-335 | that cent does occur |
| Totals.NewOrderColumns | src/modules/orders/orders.service.ts:125-143 | how the columns of a new order relate to one another, to the tenders and to the whole-number amounts, and that it starts PAID exactly when less than half a cent is owed |
| Totals.OrderColumnsOnEveryRun | src/modules/orders/entities/order.entity.ts:41-69 | those relations hold of every stored order of every run |
| Totals.ShiftTotalsHaveNoDrift | src/modules/orders/orders.service.ts:151-164 | in every reachable database cash, card, total and count of a shift are the sums over the orders carrying its id, given that a new shift gets an id no order carries |
| Totals.OneOpenShiftRun | src/modules/shifts/shifts.service.ts:20-25 | no cashier ever has two open shifts in one shop |
| Totals.DebtViewsAgree | src/modules/debts/debts.service.ts:114-148 | on every run and for every shop and customer the debtors summary and the reminder show the same amount: the debts less all instalments plus one cent for each half-cent instalment on them; so the books add up if and only if there was none |
| Totals.SummaryIsHistory | src/modules/debts/debts.service.ts:114-132 | on every run the summary of a customer in a shop is what the accepted orders of that customer there left unpaid, less what the accepted instalments took off those debts |
| Totals.ReminderRowsExact | src/modules/sms/sms.service.ts:45-51 | the reminder loads a debt exactly if it is of that customer, in that shop and not PAID |
| Witnesses.EachOwesTheirOwn | src/modules/debts/debts.service.ts:124-132 | a run in which two customers owe 1000 and 500, and each is shown their own |
| Totals.ReminderIsSummary | src/modules/sms/sms.service.ts:45-65 | the reduce over the reminder's rows is the filtered sum of the debtors summary |
| Debts.RepayDrift | src/modules/debts/debts.service.ts:75-79 | rounding both columns keeps their sum except that a half cent counts twice |
| Debts.DebtConservation | src/modules/debts/debts.service.ts:56-86 | on every run paid is the sum of the instalments and paid + remaining exceeds the debt by exactly the number of half-cent instalments |
| Debts.WholeCentDebts | src/modules/debts/debts.service.ts:38-86 | if the instalments accepted on a debt are whole cents: paid + remaining = debt = the order's notPaid, the status tells how much is paid, and it takes at most as many instalments as it has cents |
| Witnesses.HalfCentDrifts | src/modules/debts/debts.service.ts:75-79 | a run in which 1.5 cents on a debt of 1000 store 2 paid and 999 left |
| Witnesses.QuarterCentStrands | src/modules/debts/debts.service.ts:61-79 | a run in which 999.75 on a debt of 1000 leaves it at zero and PARTIAL, its order CONFIRMED, and every further instalment refused |
| Debts.StrandedIff | src/modules/debts/debts.service.ts:61-79 | exactly an instalment leaving less than half a cent strands the debt at zero unpaid, and then every further one is refused |
| Debts.PaidDebtIsFinal | src/modules/debts/debts.service.ts:58-60 | a PAID debt is never changed again on any run |
| Debts.DebtsOfOrdersRun | src/modules/orders/orders.service.ts:147-149 | every order not paid in full has exactly one debt, of that amount and with its shop and customer, and a PAID debt means an order PAID or REFUNDED |
| Tokens.OneLivePerFamily | src/modules/auth/auth.service.ts:271-315 | in every reachable state every family has at most one token that is not revoked |
| Tokens.RevocationIsPermanent | src/modules/auth/auth.service.ts:205-228 | a revoked token stays revoked, and a family without a valid token never gets one again |
| Tokens.LogoutRevokesSession | src/modules/auth/auth.service.ts:216-221 | a logout revokes every token of that session of that user and touches no other |
| Tokens.EntryLeavesValid | src/modules/auth/auth.service.ts:56-173 | what each way in leaves valid: choosing a shop leaves the user exactly the new token, switching ends the session it comes from and no other, a refused one changes nothing; a new token lives seven days, in a session and family of its own |
| Tokens.LoggedOutStaysOut | src/modules/auth/auth.service.ts:185-221 | on any run the tokens of a session logged out, or switched away from, are never valid again, and presenting one in time leaves its family without a valid token |
| Tokens.ReuseRevokesFamily | src/modules/auth/auth.service.ts:175-214 | for any lookup: presenting a revoked, unexpired token leaves its family without a valid one, and a valid one is replaced by exactly one other |
| Tokens.RefreshFindsOnlyHashes | src/modules/auth/auth.service.ts:176-183 | after any run a presented value is found if and only if it is the hash of a secret handed out before, and is refused with nothing changed if and only if it is none or the oldest row with it has expired |
| Tokens.LookupIsRightIff | src/modules/auth/auth.service.ts:300-304 | every secret handed out reaches its own row if and only if hashing changes none of them |
| Tokens.GenuineSecretRefused | src/modules/auth/auth.service.ts:176-183 | with a hash that changes it, the secret a login just handed out is refused |
| Tokens.RotatedSecretStaysUnnoticed | src/modules/auth/auth.service.ts:176-189 | presenting a rotated secret again kills the family if the column holds secrets, and leaves it valid if it holds hashes |
| Inventory.InventoryService.AddToStorage | src/modules/inventory/inventory.service.ts:41-90 | receiving succeeds exactly for a product of the shop in fitting units, raises the batches by the quantity, keeps the views in agreement exactly if it does not split the level, and leaves every other product alone |
| Inventory.InventoryService.ReserveStock | src/modules/inventory/inventory.service.ts:115-143 | a reservation succeeds exactly if the quantity is free, then holds that much more and changes no other stock, and keeps reserved within on hand |
| Inventory.InventoryService.ReleaseStock | src/modules/inventory/inventory.service.ts:145-164 | a release always succeeds, gives up the quantity or all that is reserved if that is less, and keeps the views and the bound |
| Inventory.InventoryService.DeductFromStorage | src/modules/inventory/inventory.service.ts:166-212 | a deduction succeeds exactly if the batches hold that much, takes it off and ends in the state of its transition; one that falls short leaves the batches drained for the caller's rollback |
| Inventory.InventoryService.ReturnToStorage | src/modules/inventory/inventory.service.ts:214-253 | a return always succeeds, raises the batches by the quantity, leaves reserved alone, and keeps the views and the bound |
| Inventory.InventoryService.Adjust | src/modules/inventory/inventory.service.ts:255-322 | a correction succeeds exactly for a product of the shop with a level row and fitting units, and leaves agreeing views in agreement at the new quantity with reserved untouched |
| OrderServices.OrdersService.ReserveAndPrice | src/modules/orders/orders.service.ts:56-84 | the line loop of `create`: first failing line decides the error, otherwise all reservations and the running sums |
| OrderServices.OrdersService.Create | src/modules/orders/orders.service.ts:49-184 | creating an order ends in the state of its transition, or is rolled back |
| OrderServices.OrdersService.Cancel | src/modules/orders/orders.service.ts:237-254 | cancelling releases every line and sets the status, or changes nothing |
| OrderServices.OrdersService.ReturnOrder | src/modules/orders/orders.service.ts:271-310 | both loops of a return against its transition |
| OrderServices.OrderProcessor.DeductItems | src/queue/processors/order.processor.ts:37-46 | the transaction of the job deducts all lines or none |
| OrderServices.OrderProcessor.HandleProcessPayment | src/queue/processors/order.processor.ts:21-55 | an attempt of the job for each way it can die |
| OrderServices.DebtsService.Repay | src/modules/debts/debts.service.ts:56-86 | an instalment is accepted exactly for an open debt of the shop up to what remains, keeps the books of its debt for whatever was repaid before, changes no other debt, and sets the order PAID if it closes the debt and leaves all orders alone otherwise |
| OrderServices.SmsService.ReminderAmount | src/modules/sms/sms.service.ts:45-65 | the loop sums to the debtors summary, and fails exactly when no debt is outstanding |
| OrderServices.PaymentsService.Process | src/modules/payments/payments.service.ts:23-60 | a payment succeeds exactly for a CONFIRMED order of the shop and enough cash, changes no order otherwise, and stores a row exactly if the order is neither PAID nor CANCELLED and the cash is enough, even when it then fails, with the rounded tender and, for cash, the change that adds up to it |
| OrderServices.ShiftsService.Open | src/modules/shifts/shifts.service.ts:19-37 | opening succeeds exactly if the cashier has no open shift in the shop, and the new one is open with no sales |
| OrderServices.ShiftsService.Close | src/modules/shifts/shifts.service.ts:39-55 | closing succeeds exactly for the cashier's own open shift, stores the float, changes the totals of no shift, keeps one open shift per cashier and shop, and leaves this cashier none |
| Auth.AuthService.Refresh | src/modules/auth/auth.service.ts:175-214 | a refresh keeps at most one valid token per family, kills the family of a revoked row it finds, and on success revokes the one row it found and appends its valid successor |

## Left out

- Controllers, guards, interceptors, configuration, migrations and request validation: framework wiring; only the ranges the validators accept are taken over.
- Printing, image storage, message delivery, the queue's scheduling, events and logging: input and output. The queue is any sequence of job attempts.
- bcrypt, token signing, UUIDs and clocks: a hash is any function, fresh ids are counters, time is an input.
- Binary floating point: amounts are exact decimals, so rounding errors of doubles before `toFixed` are not covered (`data.sql:126` shows one such cent).
- Two level rows for one product: once a run has split a level, an unordered query by product is taken to find the older row; no theorem depends on that choice.
- Costs, margins and selling prices of batches, and the product price that a receipt writes: no modelled property reads them; a cached price may be stale, so `create` takes the price as an input.
- Concurrent release, deduction and correction: they read the level without a lock, so only reservations are interleaved.
- `payments.service.ts` `refund`: it changes the status of one payment row and nothing else.
- Payments against debts: `process` records the full total and does not touch the debt, so nothing is claimed about the two agreeing.
- Reports, list queries, pagination, subscriptions, seat limits, user administration: queries and plumbing.
