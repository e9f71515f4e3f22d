# Ticketing backend: verified models

Dafny models of the parts of the event-ticketing backend where a mistake costs money or seats, and
proofs of what those parts keep. Every operation is one database transaction: it commits a new
state or leaves the old one. Money is in minor units and time is an integer.

- `inventory*.dfy`: reservation rows, the cached counters on ticket types, orders, payment
  confirmation, coin checkout, refunds, the expiry worker, the reconciler and edits of ticket types:
  everything that writes those rows. `InventoryStore` updates the tables in place and is proved
  against the operations in `Inventory`; the other modules prove what every run of those operations
  keeps.
- `payment_capture.dfy`: any number of attempts to pay one order, through the gateway or with coins,
  interleaved and cut anywhere; `payment_link.dfy` ties what admits an attempt to the inventory's own
  decision.
- `row_locks.dfy`: transactions that lock rows one by one.
- `ledger*.dfy`, `fees.dfy`: the double-entry ledger, its running balances, the hash chain under
  concurrent posting, and the split of refunds.
- `wallet*.dfy`: an organizer's pending, available and withdrawn balances over the escrow shared by
  the tenant; `wallet_ledger.dfy` ties them to the ledger's postings.
- `group_*.dfy`: group bookings paid in shares, on top of the inventory.
- `worker_pool.dfy`, `authed_request.dfy`, `latency_stats.dfy`: the client harness.
- `unique_slug.dfy`, `deep_equal.dfy`, `envelope.dfy`, `route_folders.dfy`: smaller algorithms.

## Results worth knowing

Several promises of the documentation, or of the scripts' own assertions, hold only under a
condition. Each has a proof of the exact condition and a run or input that breaks it.

- Overselling is impossible in every run, whatever availability each transaction believed it read, as
  long as the cached counters of every type go on covering its rows; and a step breaks that exactly
  when it is one of four: a repair whose sums come to less than what is sold and open when it writes
  them, `paid` or `completed` written over an unsettled order beyond the slack, a coin checkout of an
  order for which the counters have no room left, or an edit of the type whose counters say less than
  its rows (`StepKeepsBackedIff`, `NoOversell`). Counters that do not cover the rows let an ordinary
  reservation oversell (`CoveredIffNoneCanOversell`); runs that do are in `RepairWhileLapsedOversells`,
  `StaleRepairOversells`, `RepairAcrossSaleOversells` and `WritingPaidOversells`, and
  `EditingOversellsIff` says which edits do at once.
- The repair sums what is sold, then what is held, then writes, without a transaction or a lock. What
  it writes covers a type exactly when the type's load has since come down by what was sold between the
  two readings and what had lapsed at the second (`StaleRepairCoversIff`). So it is safe when nothing is
  sold between the readings, nothing has lapsed at the second, and nothing is reserved until the write
  (`QuietRepairCovers`).
- What each operation does when it is accepted is stated row by row and counter by counter in
  `inventory_effects.dfy`, with no reference to how it is computed; what a group grants, to whom, and
  what it then changes, in `group_runs.dfy`.
- Extending a reservation moves it to a status from which no payment, confirmation or release takes
  it; of all operations only a coin checkout of its order does, and it sells it
  (`StepKeepsStuckIff`, `ExtendedHoldNeedsCoins`, `CoinsSellExtended`).
- A coin checkout reads the order's status before it locks anything and books holds that are sold
  already. The gateway captures an order at most once, but a coin checkout that saw the order pending
  before that capture takes the buyer's coins for it as well, exactly when all its holds are sold in
  time and the rows have room (`StaleCoinsCaptureIff`, `CoinsCaptureAgain`); it then takes the
  order's quantity off what others have reserved (`StaleCoinsTakeFromOthers`).
- Tickets are counted and issued without a lock on the order: two issues that overlap double them, and
  nothing else does (`StepKeepsTicketsIff`, `OverlappingIssuesDouble`).
- The hash chain verifies exactly when postings committed in the order in which their transactions
  began. The tenant lock alone does not ensure that, because the head is the row with the latest
  `created_at`, which is the time a transaction began (`ReachableHealthyIff`, `ForksIff`).
- A capture has exactly one posting if and only if no attempt was cut between its posting, which
  commits on its own, and its commit, and a late capture exactly one refund posting likewise
  (`GatewayCapturesAtMostOnce`, `CutAfterPostingPostsTwice`).
- Payments convert ticket types in the order of reservation ids, so they can deadlock, and a payment
  and a coin checkout of the same order can, for they lock the order and its holds in opposite orders
  (`OppositeOrdersDeadlock`, `ThreeWithoutAPair`, `PaymentAndCoinsDeadlock`, `DeadlocksIff`);
  reservations lock ticket types in ascending order and never do (`NeverStuck`).
- A late payment, or a refund before settlement, leaves its credit row staged in full. Such a credit is
  paid out by a settlement run exactly when other captured money of the tenant covers its gross in
  escrow; alone it never is, and when it is, another organizer's settlement is refused in its place
  (`LateSaleIsPaidIff`, `RefundedSaleIsPaidIff`, `LateSaleTakesAnothersMoney`). The tenant as a whole
  never settles more than was captured, not refunded, and put in by upgrades (`RunKeepsEscrow`).
- Recalculating a wallet makes money available again that open withdrawals have locked: a second request
  for it is accepted, and one of the two cannot be paid out (`RecalculationPromisesTwice`,
  `WithdrawnTwice`). Every open withdrawal can be paid out as long as no settled refund takes locked
  money, no debit, hold or dispute in the ledger takes money that is available or locked, and no
  recalculation calls locked money available; a single step that does one of these, and no other, loses
  that (`StepKeepsFundedIff`, `PayOutNeverOverdraws`). All of them can be paid exactly when the ledger
  holds what they have locked (`AllPaidIff`).
- A refund of part of a settled payment is refused when its three rounded parts do not add up:
  900.00 of 4236.00 is (`PartialRefundPostsIff`, `NineHundredIsRefused`).
- A rebalance of group shares is checked against the total without the members it leaves out and
  counts a member named twice twice (`RebalanceKeepsTotalIff`, `NamingTwiceLosesShares`,
  `CarelessRebalanceOvercollects`).
- A group has longer to pay than its holds last. Once the expiry worker has swept one of them, the
  contribution that reaches the total is refused (`LastContributionIff`, `SweptHoldBlocksCompletion`).
- The idempotency middleware deletes the record of a request still in progress when it refuses a
  second one, when that record lapses, and when any earlier request under the key fails late. So a 409
  need not mean sold out, and a key is booked as often as tries reach a handler that books while no
  reply is saved and the try before holds no record (`CallBooks`, `BooksTwiceIff`). A saved reply
  answers for good, deleted from the cache or not (`LateFailureFreesTheKey`); a server that commits
  and saves as one books once (`AtomicServerBooksOnce`).
- The hash chain notices every change of a row except that of the last one with its hash computed anew,
  and changed creation times exactly when they change the order (`EditPassesIff`, `TimesPassIff`).

Where code and documentation disagree the code is followed:

- README.md:375 and README.md:410 tax the sum of fees and give the organizer gross minus
  commission. The code, like src/Scripts/phase12-smoke-test.ts:330, takes off the commission and 18%
  of the commission.
- src/Scripts/phase12-smoke-test.ts:283 expects a tax on the convenience fee at checkout.
  src/modules/payments/service.ts:115-139 charges the convenience fee alone, at a configurable rate.
- README.md:331-337 hashes a sequence number and the entries. The code has no sequence number and
  hashes amount, type, reference and entries
  (src/modules/finance/posting-engine/engine.ts:101-113).
- README.md:267 names a Redis lock per ticket type as the first layer; the reservation code takes
  none.
- README.md:269 names a unique index on order and ticket type; the code relies on a token derived
  from both, unique per tenant (src/modules/inventory/service.ts:78-81 and 400).

## Model

| member | source | states |
|---|---|---|
| InventoryCapacity.NoOversell | src/Scripts/inventory-reservation-enterprise-smoke-test.ts:672-708 | From a fresh platform, after any disciplined run, at any moment and for every type there is, sold, held and available tickets add up to the type's total and none is negative, whatever availability the transactions read |
| InventoryCapacity.RunKeepsBacked | drizzle/0045_inventory_oversell_invariant.sql:11-13 | In every disciplined run the cached counters cover what is sold and what is open |
| InventoryCapacity.StepKeepsBackedIff | src/modules/inventory/service.ts:339-876 | A step of any kind keeps the counters covering the rows exactly when it is refused or every type has room for it |
| InventoryCapacity.StepKeepsHeldIff | src/modules/inventory/service.ts:525-555 | The reserved counters go on covering what is open exactly when a repair and an edit write at least that much, and a coin checkout takes nothing from others |
| InventoryCapacity.CoveredIffNoneCanOversell | src/modules/inventory/service.ts:353-412 | A type's counters cover its rows exactly when no reservation, however old the availability it read, can take the type past its total |
| InventoryCapacity.CoinSurplus | src/modules/consumer/service.ts:463-482 | After a coin checkout the counters still cover a type exactly when the order was counted already or they have room for what it counts |
| InventoryCapacity.StepKeepsCapacity | src/modules/tickets/repository.ts:165-239 | Only an edit changes a type's total and only an addition brings a new type |
| InventoryCapacity.RunKeepsCapacity | src/modules/inventory/service.ts:406-412 | In every run a type whose total nobody edits keeps it |
| InventoryRepair.StaleRepairCoversIff | src/modules/inventory/service.ts:805-868 | Sums read in two earlier states cover the type exactly when its load has since come down by what was sold between the readings and what had lapsed at the second |
| InventoryRepair.RepairCoversIffNoneLapsed | src/modules/inventory/service.ts:823-873 | If nothing moves between reading and writing, a repair is refused exactly when the rows exceed the total, and covers the type exactly when no hold has lapsed unswept |
| InventoryRepair.StepAddsNoLoad | src/modules/inventory/service.ts:339-876 | Only reservations, coin checkouts and orders sold without conversion can add to what a type's counters have to cover |
| InventoryRepair.QuietRepairCovers | src/modules/finance/reconciliation/service.ts:251-324 | With anything happening between reading and writing, a repair covers the type if nothing was sold between the readings, nothing had lapsed at the second, and nothing was reserved after it |
| InventoryCapacity.CreateKeepsSurplus | src/modules/booking-orders/service.ts:283-337 | Creating an order, converted at once or not, never costs a type's counters any of their surplus over the rows |
| InventoryCapacity.UpdateSurplus | src/modules/booking-orders/service.ts:450-493 | A status change costs the surplus nothing, except that writing paid or completed over an unsettled order costs exactly its items |
| InventoryCapacity.ConfirmKeepsSurplus | src/modules/payments/service.ts:535-854 | Confirming a payment, on time or late, costs the surplus nothing |
| InventorySafety.StepKeepsSound | src/modules/inventory/service.ts:339-952 | Any operation, refunds, coin checkouts and edits included, keeps: rows within their constraints, every order's holds equal to its items, unique tokens, sold holds only in orders that are settled, or were and have been refunded in part or deleted since |
| InventorySafety.SweepMovesExactlyTouched | src/modules/inventory/service.ts:660-722 | A committed sweep puts exactly the rows it selects at their target, each from a status that allows it, and leaves every other row as it was |
| InventorySafety.SweepKeepsGap | src/modules/inventory/service.ts:525-555 | A sweep never narrows the gap between reserved and open, and raises sold by exactly what it sells |
| InventorySafety.ExpiryIsASweep | src/modules/inventory/service.ts:725-792 | What the expiry worker leaves, however far it got, is what one committed sweep of some of its rows leaves |
| InventorySafety.InsertAppends | src/modules/inventory/service.ts:381-448 | Reserving only appends active holds of the given order |
| InventorySafety.InsertLinks | src/modules/inventory/service.ts:608-630 | A new order's holds carry exactly its items and other orders keep theirs |
| InventorySafety.InsertKeepsGap | src/modules/inventory/service.ts:403-412 | Every inserted hold is added to its type's reserved counter, neither more nor less |
| InventorySafety.RefundSetsAside | src/modules/payments/service.ts:596-641 | The late branch sets aside exactly the order's holds, each of which could expire |
| InventorySafety.ExtensionProlongs | src/modules/inventory/service.ts:903-945 | An extension moves exactly the order's holds, all open and below three extensions, to the given expiry and one more extension |
| InventoryMoves.SweepCommitsIff | src/modules/inventory/service.ts:462-606 | A sweep commits exactly when every selected row may move; the counters never refuse it, provided that the reserved counter covers the open holds where it sells |
| InventoryMoves.UpdateCommitsIff | src/modules/booking-orders/service.ts:404-493 | A status change is accepted exactly when the order's table allows it and, where it closes or confirms the order, every hold may go along |
| InventoryMoves.OnTimePaymentCommitsIff | src/modules/payments/service.ts:572-801 | An on-time payment is accepted exactly when every hold of the order may start converting |
| InventoryMoves.PaymentMovesHeldToSold | src/modules/payments/service.ts:796-854 | An accepted on-time payment moves exactly the order's items, type by type, from held to sold and books all its holds |
| InventoryMoves.LatePaymentSetsAside | src/modules/payments/service.ts:584-641 | An accepted late payment sells nothing, expires the order, sets its holds aside and touches no counter |
| InventoryMoves.MovingTwiceIsMovingOnce | src/Scripts/inventory-smoke-test.ts:285-290 | Converting or releasing an order's holds a second time changes nothing |
| InventoryMoves.ClosingLeavesNothingHeld | src/modules/booking-orders/service.ts:471-479 | Closing an open order leaves each of its holds released, stamped with the time unless it was released before |
| InventoryMoves.InsertCommitsIff | src/modules/inventory/service.ts:381-412 | Lines of distinct types are all inserted exactly when each fits the slack of its own row |
| InventoryMoves.CreateCommitsIff | src/modules/inventory/service.ts:353-377 | With exact counters and a true view an order is accepted exactly when it is well formed and every item is available |
| InventoryMoves.SingleBookingTakesOne | src/modules/inventory/service.ts:357-376 | One more buyer is served exactly when a ticket is available, and then exactly one fewer is; otherwise the refusal is a conflict |
| InventoryMoves.WaveServesWhatIsAvailable | src/Scripts/inventory-reservation-enterprise-smoke-test.ts:672-685 | Of n buyers exactly as many are served as tickets were available, the rest are refused, and availability drops by the number served |
| InventoryEffects.MoveFollowsOpen | src/modules/inventory/service.ts:525-555 | A hold that closes, or opens again, takes its type's reserved counter with it by exactly its quantity, down to zero, and moves sold only when it is sold |
| InventoryEffects.SweepCounts | src/modules/inventory/service.ts:525-555 | A sweep takes off each type's reserved counter, down to zero, exactly what stops being open, adds to sold exactly what it sells, and leaves the total |
| InventoryEffects.CancellingGivesBack | src/modules/booking-orders/service.ts:450-479 | Cancelling or expiring an open order releases exactly its unreleased holds, stamped with the time, and each reserved counter falls by exactly what was open of it; no other order, hold or counter changes |
| InventoryEffects.DeletingGivesBack | src/modules/booking-orders/service.ts:532-575 | An order is deleted exactly when it is there and closed or releasable; it is then cancelled, and unless it was closed gives its tickets back likewise |
| InventoryEffects.RefundingGivesBack | src/modules/payments/service.ts:1404-1424 | A refund is recorded on any order, a full one if its holds may be released, and then gives the tickets back; a partial one changes the status alone |
| InventoryEffects.DecliningGivesBack | src/modules/payments/service.ts:1132-1157 | A declined payment leaves a settled order alone and otherwise cancels the order, giving its tickets back |
| InventoryEffects.ConfirmingSells | src/modules/booking-orders/service.ts:450-493 | Confirming an order converts exactly its unsold holds and moves their quantities from reserved to sold; any other change that closes nothing writes the status alone |
| InventoryEffects.PaymentSells | src/modules/payments/service.ts:796-854 | A payment in time books every hold, moves the quantities from reserved to sold, and makes the order paid unless it was settled |
| InventoryEffects.LatePaymentExpires | src/modules/payments/service.ts:584-641 | A late payment expires the order and puts exactly its holds at the outcome, released now unless expired before; no counter moves |
| InventoryEffects.CoinsBook | src/modules/consumer/service.ts:461-503 | A coin checkout makes the order paid and books exactly its holds |
| InventoryEffects.ExpiryGivesBack | src/modules/inventory/service.ts:725-792 | Rows that may all expire do, stamped with the time, and each reserved counter falls by exactly what was open of them |
| InventoryEffects.CreationAdds | src/modules/booking-orders/service.ts:283-337 | An accepted order is appended with one hold per item, active or converted at once, and its items are counted as reserved or as sold |
| InventoryEffects.ReservationCommitsIff | src/modules/inventory/service.ts:339-451 | A reservation without an order, under unused tokens, is accepted exactly when it lists something, all of it as available as was read, and every row has room; it appends one hold per line |
| InventoryEffects.ReservingTwiceIsReservingOnce | src/modules/inventory/service.ts:381-402 | Reserving the same lines under the same tokens again changes nothing |
| InventoryEffects.ExtensionCommitsIff | src/modules/inventory/service.ts:878-926 | An extension of at most five minutes is granted exactly when the order has holds, all open and extended less than three times |
| InventoryEffects.EditWritesWhatIsGiven | src/modules/tickets/service.ts:161-209 | An edit writes what it is given and keeps the rest, and is accepted exactly when the row it leaves is within its constraint and a given total positive |
| InventoryRefusals.Refusals | src/modules/booking-orders/service.ts:404-493 | A request about an order is not found exactly when the order or its holds are missing, malformed exactly when it otherwise never could be granted, and a conflict in every other refusal, but for coins that find no room |
| InventoryRefusals.ReservationRefusals | src/modules/inventory/service.ts:339-402 | Which error a reservation gets: malformed for no lines, an unknown type or a first misfit that asks for nothing, a conflict for a first misfit that asks for too much, and a row violation only when every line was available as read |
| InventoryRefusals.CreationRefusals | src/modules/booking-orders/service.ts:283-337 | Which error a new order gets, for its status, its items, or its reservation; converting a confirmed one never adds another |
| InventoryRuns.RepairWhileLapsedOversells | src/modules/inventory/service.ts:862-871 | A four-step run in which the last ticket is sold to one buyer while another holds it, although every transaction saw the true availability |
| InventoryRuns.StaleRepairOversells | src/modules/inventory/service.ts:813-868 | The same in six steps, although nothing is lapsed when the repair writes: its sums are older than the sweep and the next reservation |
| InventoryRuns.RepairAcrossSaleOversells | src/modules/inventory/service.ts:245-246 | A four-step run in which nothing ever lapses: the payment falls between the reading of what is sold and of what is held |
| InventoryRuns.WritingPaidOversells | src/modules/booking-orders/lifecycle.ts:3-13 | A four-step run in which writing paid sells a ticket somebody else holds |
| InventoryRuns.StepKeepsStuckIff | src/modules/inventory/service.ts:915-926 | An extended hold leaves the statuses in which it can only lapse or be refunded exactly at an accepted coin checkout of its order, which books it |
| InventoryRuns.ExtendedHoldNeedsCoins | src/modules/inventory/service.ts:915-926 | After an extension no run without a coin checkout of the order ever sells, releases or cancels its holds |
| InventoryCoins.CoinCommitsIff | src/modules/consumer/service.ts:376-432 | A coin checkout is accepted exactly when the order was read as pending, its holds are neither late nor given back, and every type's row admits its quantity |
| InventoryCoins.CoinSellsAll | src/modules/consumer/service.ts:461-503 | It books every hold, marks the order paid, and counts the whole order as sold whether it was before or not |
| InventoryCoins.StaleCoinsTakeFromOthers | src/modules/consumer/service.ts:382-484 | On an order that is sold already it is accepted while the rows have room, and the reserved counter then covers others' holds exactly when it had the order's quantity to spare |
| InventoryCoins.CoinsSellExtended | src/modules/consumer/service.ts:425-484 | Within the time of an extension a coin checkout is accepted and sells every hold of the order |
| InventoryTables.HoldsNeverComeBack | src/modules/inventory/service.ts:54-72 | A hold that moves as its table says never returns to a status it has left, and moves at most ten times |
| InventoryTables.LongestHistory | src/modules/inventory/service.ts:54-72 | Ten moves are possible |
| InventoryTables.OpenIffSaleAhead | src/modules/inventory/service.ts:515-525 | The statuses that occupy capacity are exactly those, short of the sold ones, from which some sequence of moves leads to a sale |
| InventoryTables.OrderReachesIff | src/modules/booking-orders/lifecycle.ts:3-13 | Which statuses an order can get to by any number of changes: forward, between confirmed and paid, and from closed ones only to refunds, if anywhere |
| InventoryTables.ClosedForGood | src/modules/booking-orders/lifecycle.ts:3-13 | From cancelled, expired or partially refunded no number of changes leads anywhere else |
| InventoryTables.ClosedAndSettledIff | src/modules/booking-orders/lifecycle.ts:23-30 | The statuses that release holds are those from which completion can no longer be reached; the settled ones those from confirmation until it can still be |
| InventoryClosed.StepKeepsClosed | src/modules/booking-orders/service.ts:471-479 | Any operation keeps cancelled, expired and refunded orders without held or sold tickets |
| InventoryClosed.ClosedOrdersHoldNothing | src/modules/booking-orders/service.ts:471-479 | In every run an order that is cancelled, expired or refunded, and not deleted, has no ticket held or sold |
| InventoryStamps.RunKeepsUnstamped | src/modules/inventory/service.ts:495-505 | In every run no open hold carries a conversion or a release time |
| InventoryStamps.SelectedIffLapsed | src/modules/inventory/service.ts:735-757 | In every run from a fresh platform a hold counts against availability exactly while it is open and its time runs, and from then on the worker selects it unless its payment is verified or being converted |
| InventoryDrain.BatchCompletesIff | src/modules/inventory/service.ts:735-789 | A batch of the expiry worker expires all its rows exactly when none is in a status that is selected but may not expire |
| InventoryDrain.BatchExpiresUpTo | src/modules/inventory/service.ts:774-789 | Otherwise it expires exactly its rows before the first such one, in id order, and those stay expired |
| InventoryDrain.BatchLeavesTheRest | src/modules/inventory/service.ts:774-789 | A batch leaves exactly the other rows due, at any later time |
| InventoryDrain.BatchReleasesItsQuantity | src/modules/inventory/service.ts:538-546 | A batch gives back to each reserved counter exactly the quantity that stops being due |
| InventoryDrain.BatchProgress | src/Scripts/inventory-reservation-enterprise-smoke-test.ts:816-823 | Batch by batch, while time passes, what was due at the start is expired first, a full batch or all there is each time |
| InventoryDrain.WorkerNeverStuck | src/modules/inventory/service.ts:725-792 | After any run, disciplined or not, a batch expires all its rows and leaves exactly the others due |
| InventoryStore.Store.Summary | src/modules/inventory/service.ts:118-174 | The two sums are the sold quantity of orders that count and the unexpired open quantity |
| InventoryStore.Store.Transition | src/modules/inventory/service.ts:462-606 | Moves one hold and its type's counters as specified, or reports the refusal and changes nothing |
| InventoryStore.Store.ReserveLines | src/modules/inventory/service.ts:339-451 | Checks lines against the availability read and inserts them as specified |
| InventoryStore.Store.CreateOrder | src/modules/booking-orders/service.ts:283-337 | Ends as the specified creation does under the availability it read, leaving no trace if refused |
| InventoryStore.Store.UpdateOrder | src/modules/booking-orders/service.ts:404-493 | Ends as the specified status change does, leaving no trace if refused |
| InventoryStore.Store.DeleteOrder | src/modules/booking-orders/service.ts:532-564 | Ends as the specified deletion does, leaving no trace if refused |
| InventoryStore.Store.RefundOrder | src/modules/payments/service.ts:1404-1425 | Writes the refund over the order and releases its holds if it is a full one, or leaves no trace |
| InventoryStore.Store.FailPayment | src/modules/payments/service.ts:1132-1154 | Cancels an unsettled order and releases its holds, or leaves no trace |
| InventoryStore.Store.ConfirmPayment | src/modules/payments/service.ts:535-854 | Ends as the specified payment confirmation does, leaving no trace if refused |
| InventoryStore.Store.CoinCheckout | src/modules/consumer/service.ts:376-503 | Ends as the specified coin checkout does under the status it was given, leaving no trace if refused |
| InventoryStore.Store.ExtendOrder | src/modules/inventory/service.ts:878-952 | Extends every hold of the order or none |
| InventoryStore.Store.WriteSums | src/modules/inventory/service.ts:830-871 | Writes sums taken earlier if the row read earlier differs from them, and nothing otherwise |
| InventoryStore.Store.Reconcile | src/modules/inventory/service.ts:794-876 | Undisturbed, makes one type's counters what its rows say, and fails exactly when they exceed the total |
| InventoryStore.Store.EditType | src/modules/tickets/service.ts:161-209 | Overwrites what is given of a type's total and counters, within the row's constraints, or leaves no trace |
| InventoryStore.Store.SelectDue | src/modules/inventory/service.ts:735-757 | The batch is the earliest due rows, as many as the limit allows |
| InventoryStore.Store.ExpireDue | src/modules/inventory/service.ts:725-792 | Takes a batch and leaves what expiring it row by row leaves; reports an error exactly when a row is refused |
| InventoryStore.Store.Drain | src/Scripts/inventory-reservation-enterprise-smoke-test.ts:816-823 | At most fifty batches of a hundred, each at its own time, expire at least the smaller of what was due at the start and 5000, that first, give back what they expire, and stop with nothing due or after fifty batches |
| PaymentCapture.GatewayCapturesAtMostOnce | src/Scripts/inventory-reservation-enterprise-smoke-test.ts:954-998 | Under any interleaving, cut anywhere, the gateway captures an order at most once and only first; captures have their postings, late ones their refund postings, and there are no others exactly when no attempt was lost between posting and commit |
| PaymentCapture.CapturedOnceWithoutStaleCoins | src/modules/consumer/service.ts:376-432 | In every run in which no coin checkout gets in after a capture the order is captured at most once |
| PaymentCapture.StaleCoinsAdmittedIff | src/modules/consumer/service.ts:415-432 | A coin checkout gets into a captured order exactly when its holds are all sold in time and the rows have room |
| PaymentCapture.StaleCoinsCaptureIff | src/modules/consumer/service.ts:382-593 | One that saw the order pending captures it once more exactly then |
| PaymentCapture.LaterCapturesAreWaitingCoins | src/modules/consumer/service.ts:382-384 | After the first capture each coin checkout that had seen the order pending captures at most once, and nobody else does |
| PaymentCapture.CoinsCaptureAgain | src/modules/consumer/service.ts:376-593 | The run of a payment and a coin checkout that capture one order twice |
| PaymentCapture.StepKeepsTicketsIff | src/modules/issued-tickets/service.ts:176-252 | A step keeps issued tickets within the seats exactly when it is not an issue that overlaps another |
| PaymentCapture.TicketsMatchSeats | src/modules/issued-tickets/service.ts:365-388 | In every run without overlapping issues there are never more tickets than seats, and a capture that found the order unsettled leaves one per seat |
| PaymentCapture.OnlyCoinsOverlap | src/modules/payments/service.ts:843-854 | Of the attempts that issue, only a coin checkout can be overlapped by another issue |
| PaymentCapture.OverlappingIssuesDouble | src/modules/issued-tickets/service.ts:183-195 | Two issues that both counted none double the tickets |
| PaymentCapture.FreshAttemptCaptures | src/Scripts/inventory-reservation-enterprise-smoke-test.ts:1066-1092 | Whatever happened before, one undisturbed attempt on free and payable rows is the order's only capture, posts it, and posts its refund if late. On time it books every hold, leaves the order settled as it was or paid, and issues the tickets of an unsettled order; late it expires the order and sets its holds aside |
| PaymentCapture.OnePaidBookingIffCaptured | src/modules/payments/service.ts:843-851 | In every run in which nobody else sets its status, an unsettled order ends settled exactly when it was captured in time, expired if its capture was late, and as it was if it was never captured |
| PaymentCapture.CutAfterPostingPostsTwice | src/modules/finance/posting-engine/engine.ts:235-236 | An attempt cut between posting and commit, then retried, leaves two postings for one capture, of which a late one is refunded once |
| PaymentCapture.ExecKeepsInv | src/modules/payments/service.ts:481-535 | Every interleaving keeps: one attempt at a time inside the row locks, a captured order's holds never payable through the gateway again, distinct posting keys, every posting accounted for |
| PaymentLink.AdmittedIffConfirmed | src/modules/payments/service.ts:535-854 | A gateway attempt is admitted exactly when the inventory, asked about the same rows at the same time, would commit the confirmation |
| PaymentLink.CoinsAdmittedIffCommitted | src/modules/consumer/service.ts:408-484 | A coin checkout is let in exactly when the inventory would commit it |
| PaymentLink.OthersStayWithin | src/modules/inventory/service.ts:453-952 | Whatever any other operation does to an order under payment and to its holds is among the moves the payment attempts' interleavings allow others at any time |
| RowLocks.NeverStuck | src/modules/inventory/service.ts:95-106 | With ascending lock orders, while some transaction is unfinished one can always step |
| RowLocks.NoWaitCycle | README.md:268 | With ascending lock orders the waits-for relation has no cycle in any state |
| RowLocks.CanAlwaysFinish | README.md:268 | From every state a schedule of exactly the remaining number of steps finishes every transaction |
| RowLocks.StepProgresses | README.md:268 | Every step that happens brings the end exactly one step nearer |
| RowLocks.RunKeepsExclusive | src/modules/inventory/service.ts:100-105 | No row is ever locked by two transactions |
| RowLocks.DeadlocksIff | src/modules/inventory/service.ts:453-460 | Any number of transactions can deadlock exactly when their lock orders can be knotted: disjoint beginnings, each going on with a row of another |
| RowLocks.DeadlockIsForGood | src/modules/inventory/service.ts:453-460 | Nothing anybody does gets a deadlocked group moving again |
| RowLocks.PairDeadlocksIff | src/modules/inventory/service.ts:453-460 | Two transactions can deadlock exactly when their lock orders cross |
| RowLocks.OppositeOrdersDeadlock | src/modules/payments/service.ts:797-826 | Two payments that convert the same two types in opposite order can deadlock |
| RowLocks.ThreeWithoutAPair | src/modules/payments/service.ts:797-826 | Three payments can deadlock although no two of them can |
| RowLocks.PaymentAndCoinsDeadlock | src/modules/consumer/service.ts:408-503 | A payment, which locks the order before its holds, and a coin checkout, which updates it after them, can deadlock |
| Ledger.LatestIsLatest | src/modules/finance/repository.ts:128-136 | The row taken as head is one with the latest creation time |
| LedgerBooks.RunKeepsSound | src/modules/finance/repository.ts:359-435 | In every run the running balances are a replay of the log and no protected account is overdrawn |
| LedgerBooks.PostKeepsSound | src/modules/finance/posting-engine/engine.ts:130-156 | An accepted posting keeps balances equal to the replay and protected accounts solvent |
| LedgerBooks.TrialBalances | src/modules/finance/reporting/service.ts:12-44 | After any run debits equal credits in the trial balance, and both are the total of the log |
| LedgerBooks.PostAcceptedIff | src/modules/finance/posting-engine/builder.ts:86-110 | A posting that touches each account once is accepted exactly when it is balanced, positive, and takes from no protected account more than it has |
| LedgerBooks.WithdrawalAcceptedIff | src/modules/finance/journal/templates.ts:171-190 | A withdrawal is posted exactly when it is positive and covered |
| LedgerBooks.TransferAcceptedIff | src/modules/finance/operations/service.ts:63-149 | A manual operation, hold, dispute or change of a booking is posted exactly when it is positive and a protected account it debits covers it |
| LedgerBooks.SettlementAcceptedIff | src/modules/finance/journal/templates.ts:63-95 | A settlement is posted exactly when its parts add up, the escrow covers it and every part is positive |
| LedgerBooks.EscrowRefundAcceptedIff | src/modules/finance/journal/templates.ts:114-129 | A refund out of escrow is posted exactly when it is positive and covered |
| LedgerBooks.SettledRefundAcceptedIff | src/modules/finance/journal/templates.ts:130-163 | A refund of a settled sale is posted exactly when its parts are positive, add up, and the organizer still has their share |
| LedgerBooks.CaptureThenRefundRestores | README.md:388 | A capture and its refund out of escrow are always accepted and leave every account where it was |
| LedgerBooks.FullCycleRestores | src/modules/finance/journal/templates.ts:36-163 | Capture, settlement and full settled refund are accepted and leave every account where it was |
| LedgerStore.Store.Check | src/modules/finance/posting-engine/builder.ts:86-110 | Tells malformed postings from those with a non-positive entry and from acceptable ones |
| LedgerStore.Store.UpdateRunningBalance | src/modules/finance/repository.ts:359-435 | Adds one entry to its account's balance unless that overdraws a protected account |
| LedgerStore.Store.Post | src/modules/finance/posting-engine/engine.ts:67-206 | Posts as specified, or leaves no trace |
| LedgerStore.Store.Rebuild | src/modules/finance/projections/service.ts:48-103 | Sets one account's balance to what a replay of the log finds |
| LedgerStore.Store.RebuildAll | src/Scripts/ledger-enterprise-smoke-test.ts:294-306 | Rebuilding every account of sound books changes nothing |
| LedgerStore.Store.TrialBalance | src/modules/finance/reporting/service.ts:28-34 | Returns both column sums of the running balances |
| LedgerChain.VerifyChain | src/modules/finance/ledger/audit.service.ts:24-74 | Counts every wrong link and wrong hash and reports health exactly when there is none |
| LedgerChain.TamperingIsDetected | src/Scripts/ledger-enterprise-smoke-test.ts:264-292 | Editing what any row of a healthy chain records is reported exactly once, and undoing the edit heals it |
| LedgerChain.EditPassesIff | src/modules/finance/ledger/audit.service.ts:29-71 | Whatever is changed in a row, its link and hash included, passes verification exactly when nothing read has changed or the row is the last one and its hash was computed anew |
| LedgerChain.TimesPassIff | src/modules/finance/ledger/audit.service.ts:17-22 | Changed creation times pass verification exactly when they keep the order of the rows |
| LedgerChain.SameHeadSameHistory | README.md:351 | Two healthy chains with the same last hash record the same postings |
| LedgerChain.ExecKeepsInv | src/modules/finance/posting-engine/engine.ts:92-128 | In every interleaving of workers and aborts each row is linked to the row that was latest when it committed |
| LedgerChain.HealthyIffBeginOrder | src/modules/finance/ledger/audit.service.ts:17-22 | A linked log verifies exactly when rows were committed in the order in which their transactions began |
| LedgerChain.ReachableHealthyIff | README.md:763 | The same for every log any number of workers can produce |
| LedgerChain.ForksIff | src/modules/finance/repository.ts:452-464 | The chain forks exactly when the rows before the last were not committed in begin order |
| LedgerChain.LateLockBreaksChain | src/db/schema/ledger.ts:81 | A run of two workers after which the chain no longer verifies |
| LedgerChain.SequentialRunIsHealthy | src/Scripts/ledger-enterprise-smoke-test.ts:257-262 | Postings made one after another leave a chain that verifies and does not fork |
| Fees.PartsAddUpIff | src/modules/finance/tax/service.ts:132-139 | The rounded parts of a refund are off by at most one unit, and add up exactly when as many are rounded up as their remainders fill wholes |
| Fees.RatesToTheNearest | src/modules/finance/tax/service.ts:137-139 | The commission is a tenth of the subtotal and the tax 18% of the fee, each to the nearest unit, halves upwards |
| Fees.FullRefundSplitsExactly | src/modules/finance/tax/service.ts:132-135 | A refund of the whole payment splits into exactly the parts that were settled |
| Fees.PartialRefundPostsIff | src/modules/payments/service.ts:1431-1447 | A refund of part of a settled payment is posted exactly when its rounded parts are positive, add up, and the organizer's balance covers theirs |
| Fees.NineHundredIsRefused | src/Scripts/phase12-smoke-test.ts:329-333 | The scripts' own payment of 4236.00 nets 3764.00, and a settled refund of 900.00 of it is refused by any books |
| Wallet.RunKeepsClaims | src/modules/payments/service.ts:712-949 | In every run what the rows promise an organizer is the shares of all sales, late ones included, less what settled refunds took back, and what recalculations wrote over |
| Wallet.RunKeepsEscrow | src/modules/finance/repository.ts:398-408 | In every run the tenant never settles and refunds more than it captured and upgrades put in, on balance, and no organizer's account goes below zero |
| Wallet.StepKeepsBackedIff | src/modules/payments/service.ts:712-753 | A step keeps the balances backed by the rows exactly when it is refused or not a sale with more fees than its gross, a late sale with a share, a refund that moves the pending balance, a settled refund of locked money, a recalculation that finds other balances, or money moved in the ledger alone |
| Wallet.RunConserves | src/Scripts/phase12-smoke-test.ts:325-427 | In every disciplined run the balances add up to what came in and none is negative |
| Wallet.StepKeepsFundedIff | src/modules/finance/operations/service.ts:77-111 | The ledger goes on holding what is available and locked exactly when a step is refused, or is no settled refund of locked money, no debit of available or locked money, and no recalculation that calls locked money available |
| Wallet.PayOutNeverOverdraws | src/modules/payments/service.ts:2042-2075 | In every run without such steps each open withdrawal can be paid out, and all of them together |
| Wallet.AllPaidIff | src/modules/finance/repository.ts:398-408 | The open withdrawals can all be paid out exactly when the ledger holds what they have locked |
| Wallet.RecalculationPromisesTwice | src/modules/finance/projections/service.ts:122-210 | With withdrawals open a recalculation raises what is promised by what is locked; a further request is accepted up to all the ledger holds, and then all can be paid exactly when it stays within what was available before |
| Wallet.WithdrawnTwice | src/modules/finance/routes.ts:35 | A sale of 120.00 requested twice in full with a recalculation between: both requests are accepted and the second payout is refused |
| Wallet.RebuildAgreesIff | src/modules/finance/projections/service.ts:122-210 | After a disciplined run a rebuild finds the kept balances exactly when no withdrawal is open |
| Wallet.SettleConservesIff | src/modules/payments/service.ts:1742-1753 | Settling a credit that the ledger takes conserves the wallet exactly when the pending balance still holds it |
| Wallet.SettlementCreates | src/modules/payments/service.ts:1688-1762 | A settlement run pays out exactly the shares of the credits it settles and creates what they exceed the pending balance by |
| Wallet.SettlementPaysAllIff | src/modules/payments/service.ts:1736-1766 | It leaves nothing staged exactly when the escrow covers the gross of everything staged |
| Wallet.LateSaleIsPaidIff | src/modules/payments/service.ts:712-779 | The credit left by a late payment is paid at its settlement exactly when its parts are positive and other sales have left enough in escrow |
| Wallet.LateSaleAloneIsNotPaid | src/modules/payments/service.ts:1736-1766 | With an empty escrow the credit of a late payment stays staged |
| Wallet.LateSaleTakesAnothersMoney | src/modules/payments/service.ts:1736-1766 | With just another organizer's sale in escrow it is paid out of that, and that organizer's own settlement is refused |
| Wallet.RefundedSaleIsPaidIff | src/modules/payments/service.ts:1471-1505 | The credit of a staged sale refunded in part is paid in full exactly when the escrow, less the refund, covers the whole sale |
| WalletLedger.SettlementAgrees | src/modules/finance/journal/templates.ts:63-95 | A staged credit is settled exactly when the ledger takes its posting, and both then stand alike |
| WalletLedger.SaleAgrees | src/modules/finance/journal/templates.ts:36-61 | A sale goes through exactly when the ledger takes its capture |
| WalletLedger.StagedRefundAgrees | src/modules/finance/journal/templates.ts:114-129 | A refund before settlement goes through exactly when the ledger takes it out of escrow |
| WalletLedger.SettledRefundAgrees | src/modules/finance/journal/templates.ts:130-163 | A refund after settlement goes through exactly when the ledger takes it from the organizer |
| WalletLedger.LedgerMoveAgrees | src/modules/finance/operations/service.ts:70-124 | A manual credit or debit, a hold or its release, or a disputed payment goes through exactly when the ledger takes it |
| WalletLedger.EscrowMoveAgrees | src/modules/payments/service.ts:3819-3880 | An upgrade or downgrade of a booking goes through exactly when the ledger takes it |
| WalletLedger.PayOutAgrees | src/modules/finance/journal/templates.ts:171-190 | A withdrawal is paid out exactly when the ledger takes it from the organizer |
| WalletLedger.OthersSettlementAgrees | src/modules/finance/journal/templates.ts:63-95 | Another organizer's settlement takes its gross out of the shared escrow exactly when the ledger does |
| Wallet.RunKeepsLimit | src/modules/payments/service.ts:1893-1911 | In every run no day's withdrawal requests exceed the daily limit |
| Wallet.UnverifiedNeverWithdraws | src/modules/payments/service.ts:1889-1891 | While the organizer is not verified no run opens a withdrawal or locks any money |
| WalletStore.Store.Capture | src/modules/payments/service.ts:927-949 | Stages a sale, or a late sale, as specified |
| WalletStore.Store.SettleCredit | src/modules/payments/service.ts:1736-1766 | Settles one staged credit as specified, and tells what it paid |
| WalletStore.Store.SettleRun | src/modules/payments/service.ts:1676-1770 | Settles in row order what the ledger takes: pays out what stops being staged, takes its gross from escrow, and if all parts are positive leaves nothing staged exactly when the escrow covers it all |
| WalletStore.Store.Refund | src/modules/payments/service.ts:1431-1506 | Takes a refund out of the right balance, or is refused without a trace |
| WalletStore.Store.RequestWithdrawal | src/modules/payments/service.ts:1858-1944 | Accepts exactly the requests of a verified organizer from the minimum to what is available and what the day allows, locks that money under a new waiting request, or leaves no trace |
| WalletStore.Store.ProcessWithdrawal | src/modules/payments/service.ts:1985-2138 | Moves a withdrawal on as specified, or leaves no trace |
| WalletStore.Store.Sums | src/modules/finance/projections/service.ts:144-176 | Sums the staged credits and the completed withdrawals |
| WalletStore.Store.WriteBalances | src/modules/finance/projections/service.ts:178-207 | Overwrites the balances with sums taken earlier |
| WalletStore.Store.Rebuild | src/modules/finance/projections/service.ts:122-210 | Undisturbed, makes the three balances what the rows say |
| GroupBookingRuns.EveryRun | src/Scripts/group-bookings-smoke-test.ts:404-429 | In every run, whatever else happens to the order, collected is what members paid, nobody paid more than their share, and the group is complete only once the total is collected |
| GroupBookingRuns.InvitationGrantedIff | src/modules/group-bookings/service.ts:264-343 | An invitation is granted exactly to the owner, for somebody who is no member or has declined, and makes them an invited member owing nothing |
| GroupBookingRuns.AnswerTakenIff | src/modules/group-bookings/service.ts:345-417 | An answer is taken exactly from an invited member and recorded as given |
| GroupBookingRuns.RemovalGrantedIff | src/modules/group-bookings/service.ts:419-478 | A removal is granted exactly to the owner with a current echo, if any, for another member who has paid nothing; they are gone and the owner has their share |
| GroupBookingRuns.RebalanceGrantedIff | src/modules/group-bookings/service.ts:480-543 | A rebalance is granted exactly to the owner with a current echo, for a list of positive amounts that accepted members may hold and that sums to the total within one unit; each member ends with the amount listed last for them or their share |
| GroupBookingRuns.ContributionGrantedIff | src/modules/group-bookings/service.ts:564-624 | A contribution is granted exactly to an accepted member with a current echo, within what is left of the share; it is recorded, and completes the group exactly when the total is reached |
| GroupBookingRuns.RequestRefusals | src/modules/group-bookings/service.ts:264-712 | Exactly when a request to a running group is outdated, forbidden, not found or in conflict; any other refusal is for a malformed request |
| GroupBookingRuns.OverdueGroupExpires | src/modules/group-bookings/service.ts:60-123 | A running group past its time expires with its order as soon as anybody looks, if the order may be moved; any other request is refused and only the order's end stays |
| GroupBookingRuns.RequestCarriedOut | src/modules/group-bookings/service.ts:605-712 | What a running group grants is carried out, with its order confirmed or cancelled if that ends it, or is refused for the inventory's reason; what it rejects changes nothing |
| GroupBookingRuns.OnlyOwnerCallsOff | src/modules/group-bookings/service.ts:672-675 | In every run a group is called off only at its owner's own request |
| GroupBookingRuns.OverlappedRemovalLosesPayment | src/modules/group-bookings/service.ts:446-469 | One after the other, the second of a removal and a contribution of one member is refused; if the removal looked before the contribution was recorded, collected exceeds what members paid by exactly the contribution |
| GroupBookingRuns.OrderFollowsGroup | src/modules/group-bookings/service.ts:545-712 | In every run in which nobody else moves the order, it is confirmed exactly when the group is complete, and a group called off or overdue holds none of its seats |
| GroupBookingRuns.ClosingReleasesSeats | src/modules/group-bookings/service.ts:60-93 | Calling a group off, or finding it overdue, leaves none of its seats held or sold, even if the request is then refused |
| GroupBookingRuns.LastContributionIff | src/modules/group-bookings/service.ts:605-624 | The contribution that reaches the total is accepted exactly when the order is gone, or confirmed already, or may be confirmed with every hold sold or convertible |
| GroupBookingRuns.CompletionSellsSeats | src/modules/group-bookings/service.ts:613-624 | Completing a group confirms its order and sells each of its seats |
| GroupBookingRuns.SweptHoldBlocksCompletion | src/modules/group-bookings/service.ts:143 | Once one of the order's holds has been swept, the contribution that reaches the total is refused and changes nothing |
| GroupBookingRuns.StepKeepsSound | src/modules/group-bookings/service.ts:264-712 | Every request, accepted or refused, and everything done to the inventory in between keeps that invariant |
| GroupBookingRuns.RebalanceKeepsTotalIff | src/modules/group-bookings/service.ts:507-535 | Any accepted rebalance sums to the total exactly when the last amount listed for each member named plus the shares left out does |
| GroupBookingRuns.NamingTwiceLosesShares | src/modules/group-bookings/service.ts:511-535 | A list naming the owner twice is accepted and leaves one unit of shares |
| GroupBookingRuns.CarefulRunCollectsTotal | src/Scripts/group-bookings-smoke-test.ts:404-429 | With careful rebalances the group never collects more than its total and, running or complete, is complete exactly when it has collected it |
| GroupBookingRuns.CarelessRebalanceOvercollects | src/modules/group-bookings/service.ts:525-528 | A five-step run that collects one unit less than twice the total |
| GroupBookingRuns.FreeGroupNeverCompletes | src/modules/group-bookings/service.ts:571-573 | A group booking with nothing to pay is never completed in a careful run |
| GroupCaps.CapsCoverSeats | src/modules/group-bookings/service.ts:786-798 | Members' attendee caps sum to at least the seats and to fewer than one more per member |
| GroupStore.Store.View | src/modules/group-bookings/service.ts:60-123 | Looking at an overdue group expires it and its order, releasing the holds, as specified |
| GroupStore.Store.Invite | src/modules/group-bookings/service.ts:264-343 | Invites as specified; for anybody but the owner it changes nothing |
| GroupStore.Store.Answer | src/modules/group-bookings/service.ts:345-417 | Accepts or declines as specified |
| GroupStore.Store.Remove | src/modules/group-bookings/service.ts:419-478 | Removes an unpaid member and gives the owner the share, as specified; for anybody but the owner it changes nothing |
| GroupStore.Store.CheckShares | src/modules/group-bookings/service.ts:510-523 | Accepts exactly the lists of accepted members at or above what they paid, and then returns their sum |
| GroupStore.Store.Rebalance | src/modules/group-bookings/service.ts:480-543 | Rebalances as specified, or leaves the members alone; for anybody but the owner it changes nothing |
| GroupStore.Store.Contribute | src/modules/group-bookings/service.ts:545-647 | Records a contribution and completes the group and its order, or falls with the refusal of the order |
| GroupStore.Store.CallOff | src/modules/group-bookings/service.ts:649-712 | Cancels the group and its order, releasing the holds, as specified; for anybody but the owner it changes nothing |
| WorkerPool.RunPool | src/Scripts/inventory-reservation-enterprise-smoke-test.ts:178-203 | Under any schedule of at least one runner each index is called exactly once, in cursor order, never more than the smaller of concurrency and total at a time, and every result is in its item's place; with no runner nothing is called |
| WorkerPool.Pool.Run | src/Scripts/inventory-reservation-enterprise-smoke-test.ts:189-201 | Any schedule terminates with every runner finished, their number unchanged, two runners never on the same index |
| WorkerPool.Pool.FinishedIsComplete | src/Scripts/inventory-reservation-enterprise-smoke-test.ts:201-202 | When every runner has finished every result is recorded and everything is counted and reported |
| WorkerPool.ProgressReports | src/Scripts/inventory-reservation-enterprise-smoke-test.ts:195-197 | A complete run reports at most nineteen times, each time further, and last the total |
| WorkerPool.ReservationWave | src/Scripts/inventory-reservation-enterprise-smoke-test.ts:623-646 | The handles are exactly the bookings of the users whose own requests made them, the conflicts the users turned away with a 409, the other failures the rest |
| WorkerPool.ReportedIff | src/Scripts/inventory-reservation-enterprise-smoke-test.ts:195-197 | Reported are the total and, on the way, every whole tenth of it, or every item of fewer than twenty |
| AuthedRequest.AuthedCall | src/Scripts/inventory-reservation-enterprise-smoke-test.ts:272-298 | The retry loop does exactly the specified tries |
| AuthedRequest.SendsAtMost | src/Scripts/inventory-reservation-enterprise-smoke-test.ts:280-296 | At most 2n - 1 requests for n attempts, and a 409 is always the last status |
| AuthedRequest.AtomicServerBooksOnce | src/Scripts/inventory-reservation-enterprise-smoke-test.ts:377-391 | Against a server that commits and saves its reply as one: at most one booking under any losses, a final 201 means exactly one, a final 409 none |
| AuthedRequest.CallBooks | src/lib/idempotency.ts:28-231 | Against the middleware, with stalled tries saving, failing or hanging at any later time and records lapsing: a call makes exactly the bookings of the tries that are made and reach a handler that books |
| AuthedRequest.BooksTwiceIff | src/lib/idempotency.ts:156-231 | So a fresh key is booked more than once exactly when two tries that are made book, each reaching the server while no reply is saved and the last try before it holds no record |
| LatencyStats.PercentileIsNearestRank | src/Scripts/inventory-reservation-enterprise-smoke-test.ts:209-213 | The percentile is a member, at least the rank many entries are at most it, and fewer are below it |
| LatencyStats.PercentileGrows | src/Scripts/inventory-reservation-enterprise-smoke-test.ts:209-213 | A higher percentile is never smaller |
| LatencyStats.ComputeStats | src/Scripts/inventory-reservation-enterprise-smoke-test.ts:216-229 | Count, sum and average are the list's, the percentiles are its nearest ranks, min, p50, p95, p99 and max are in order, and the extremes occur |
| LatencyStats.StatsIgnoreOrder | src/Scripts/inventory-reservation-enterprise-smoke-test.ts:218 | The statistics depend only on how often each latency occurs |
| UniqueSlug.Search | src/Scripts/seed-demo-artists.ts:153-167 | Returns the first free candidate after at most as many probes as slugs are taken |
| UniqueSlug.SeedArtists | src/Scripts/seed-demo-artists.ts:176-212 | Every inserted slug is new, among the existing ones and among themselves |
| UniqueSlug.CandidatesDiffer | src/Scripts/seed-demo-artists.ts:165 | No two tries are the same slug |
| UniqueSlug.SlugIsWellFormed | src/Scripts/seed-demo-artists.ts:140-151 | A slug is 1 to 200 long, starts with a letter or digit and never doubles a dash |
| UniqueSlug.SlugSpellsName | src/Scripts/seed-demo-artists.ts:140-151 | A slug is the name's words in small letters, joined by single dashes and cut to two hundred characters, or "artist" if there are none |
| UniqueSlug.SlugOfSlugIff | src/Scripts/seed-demo-artists.ts:147-149 | Making a slug of a slug changes it exactly when it ends in a dash |
| DeepEqual.EqualMeans | src/Scripts/auth-verification-smoke-test.ts:54-65 | The comparison succeeds exactly when the two values mean the same tree |
| DeepEqual.EqualIsEquivalence | src/Scripts/auth-verification-smoke-test.ts:54-65 | The comparison is reflexive, symmetric and transitive |
| Envelope.Respond | src/app.ts:51-129 | Whatever is sent is an envelope: one passed in leaves as it is, anything else as a success without error or as a failure without data and with a code |
| Envelope.WrappingTwiceIsWrappingOnce | src/app.ts:57-70 | Whatever is sent passes through unchanged the next time, for any status |
| RouteFolders.Deduplicate | src/Scripts/generate-postman-suite.ts:37-44 | The ordered map holds the specified distinct routes |
| RouteFolders.DistinctIsFirstOccurrences | src/Scripts/generate-postman-suite.ts:37-44 | Exactly the non-wildcard routes are kept, once each, in order of first occurrence |
| RouteFolders.File | src/Scripts/generate-postman-suite.ts:809-850 | Folder sizes sum to the routes and each folder is the routes of its prefix in order |
| RouteFolders.FiledInOwnFolder | src/Scripts/generate-postman-suite.ts:816-838 | A route is in a folder exactly when that folder is its own |
| RouteFolders.FolderClaims | src/Scripts/generate-postman-suite.ts:816-838 | A path is filed in the one folder that claims its beginning, and in the last exactly when none does |

## Left out

- Interleavings inside an inventory transaction: an operation is one atomic step. The availability
  a creation reads may be stale; nothing in the capacity results rests on it. The repair and the
  recalculation of a wallet take their sums earlier than they write, and are modelled so.
- InventoryMoves.LatePaymentSetsAside: writes the status its holds end in within the same step; the
  program does so once the gateway has answered, over holds that nothing can open again.
- Row versions of reservations, event rows, notifications, metrics and audit tables: written beside
  the modelled rows and never read by them.
- Sale windows, per-order limits, prices and roles, which only refuse requests earlier.
- Soft deletion of ticket types and reservations, and the sharing of tables by tenants.
- What refuses a refund before it reaches the order: amounts, and tickets whose status does not allow it.
- The extension of a reservation has no caller in the program; it is modelled as the service offers it.
- Group bookings reach order creation without the check for repeated ticket types; orders with
  repeated types are refused here.
- InventoryStore.Store.Drain: does not model others acting between two batches, because rows that fall
  due through them have no bound.
- PaymentCapture.GatewayCapturesAtMostOnce: does not model the Redis lock in front of an attempt, because
  the result does not rest on it; the gateway's refund after a late payment follows the commit.
- PaymentCapture.FreshAttemptCaptures: does not model the payment order's own status table, whose
  status is read before the transaction, nor the buyer's coin balance.
- PaymentCapture.TicketsMatchSeats: counts the tickets of one item; attendees are not modelled.
- Ties in creation times: two transactions that begin in the same microsecond are ordered by their
  begin here and left to the database there.
- Digests are values that determine their inputs; collisions and JSON text are not modelled.
- LedgerChain.VerifyChain: does not model the order in which the database returns a row's entries,
  which the program leaves open although the digest depends on it.
- Floating point: amounts are exact minor units, so the tolerances of half a unit and less vanish,
  and quotients are rounded exactly.
- Wallet.SettlementCreates: does not model event eligibility, which skips credits as a refused posting
  does, nor a crash between a posting, which commits on its own, and the wallet row's update.
- Wallet.LateSaleIsPaidIff: takes the late capture and its refund as one step, and a sale's amounts as
  fixed; ticket upgrades change an order's total afterwards, and its settlement then does not add up.
- The records of disputes, manual operations, upgrades and downgrades; what they move in the ledger is
  modelled.
- GroupBookingRuns.EveryRun: takes requests to one group one after the other. The program reads what a
  member has paid without a lock and makes the echoed timestamp optional, so a removal and a
  contribution can overlap; OverlappedRemovalLosesPayment says what that leaves.
- AuthedRequest.BooksTwiceIff: does not model failures of the cache or the database themselves, the
  moment between a reply's two writes, their expiry after a day, a key that was used for a request of
  another kind, or requests that arrive out of order.
- GroupCaps.CapsCoverSeats: is about the caps alone; the item's own capacity limit, counted
  per item, is left out.
- UniqueSlug.SlugIsWellFormed: covers ASCII names; the lower case of other letters is not modelled.
- DeepEqual.EqualMeans: numbers are integers, so NaN, which differs from itself, does not occur; the
  shortcut for identical objects is the reflexive case.
- Envelope.Respond: leaves out the index keys that a list given as meta would add.
- HTTP, token refresh details, backoff delays and logging of the client harness.
