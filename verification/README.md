# Protocol proofs for the food-ordering services

This project models five stateful parts of the food-ordering back end and proves
what holds of them over whole runs.

- **The order pipeline** (`OrderModel`, `OrderPipeline`, `OrderLoss`, `OrderCharges`,
  `OrderEvents`, `RelayRepeats`, `Checkout`, `CheckoutRepeats`, `CheckoutLock`,
  `OrderRepository`, `OutboxRelay`, `OrderService`). The database transactions are functions
  on tables; `OrderPipeline` interleaves any number of placers, cancellers, relay ticks and
  finalizers around them, one repository, provider or publish call at a time; `Checkout`
  interleaves any number of `placeOrder` calls with their locks and carts, with lapsing
  locks, throwing calls and lost answers. The classes are the same operations updated in place, each
  proved equal to the transaction or to the protocol's schedule in which it runs alone.
- **Sessions and counters** (`SessionModel`, `TokenFamilies`, `SessionCalls`,
  `AccessTokens`, `SessionEnds`, `SessionTokens`, `TokenLifetimes`, `SessionScopes`,
  `Identity`, `OtpLogin`, `OtpCalls`, `RateLimiter`, `LimiterCalls`). Refresh and login
  calls interleave at every await, with every revoking primitive happening at any point and
  time passing in between. One-time codes and rate limits are proved both for calls taken
  whole and for calls interleaved at every Redis command.
- **The WebSocket registry** (`ConnectionRegistry`, `Subscriptions`, `OrderStatusGateway`):
  connection and disconnection handlers interleaved at every await, with the message
  listeners and the Redis channel subscriptions they leave.
- **Cart and money** (`Money`, `CartModel`, `CartService`): binary64 rounding to nearest,
  ties to even, is defined and the running total is proved exact; the Redis hash refines
  a finite map of lines.
- **Catalog cache and notification retries** (`Catalog`, `CatalogCalls`, `CatalogService`,
  `NotificationDispatcher`).

A protocol is a datatype of states, a datatype of actions and a function `Step`; a run is
any sequence of actions, and an action whose caller is not at that point changes nothing.
The main results are for every run. Where a property fails in some runs, the result is an
equivalence: it holds at every moment of a run if and only if no step of the run is one of
the failing kind, and a lemma gives a run in which it fails.

## Assumptions

- Each `dataSource.transaction` block, each single statement outside one and each Redis
  command or pipeline is one atomic step; transactions are serializable.
- UUIDs are fresh: an action that draws one already in use changes nothing. Hashes are
  injective, so a token or code stands for its hash.
- There is one clock and it never goes back. A Redis key with a time to live is gone from
  the moment it expires.
- The Kafka producer is connected and the finalizer is subscribed. Messages may be
  delivered again at any time and in any order; messages of one order are consumed one at
  a time, since they carry the order id as key.
- Outbox rows are claimed in the order they were inserted (`createdAt`).
- In `Checkout` each cart call is atomic: an edit replaces the cart in one step, and what it
  puts in counts as added. `addItem` reads the cart and saves it later, so a clear in
  between is overwritten; the lines its save brings back count as added anew.
- Catalog calls are atomic, and new rows come under ids not in use.
- Prices have two decimals and are held in paisa; quantities are natural numbers. A
  binary64 operation rounds to nearest with ties to even (section 4.3.1 of IEEE 754-2019);
  `toFixed(2)` gives the integer n for which n/100 is nearest, the larger on a tie (section
  21.1.3.3 of ECMA-262, ES2022). Subnormals and overflow lie outside the amounts involved.
- The catalog's answers, the provider's answers, UUIDs and times are parameters.

## Where the code differs from what one might expect

- A finalizer that throws before `markStatus` is caught and logged, so its message counts
  as consumed. If the row is marked published and no other message of the order is left,
  the order stays pending until its message is delivered again or it is cancelled
  (`OrderLoss.LostUntilRescued`). `OrderLoss.NoOrderLost` says exactly which steps lose an
  order.
- An order is charged twice exactly when a finalizer charges one that a thrown finalizer had
  charged before (`OrderCharges.ChargedOnceExactly`).
- The events of a finalization are published even when `markStatus` changed nothing; they
  disagree with the order exactly when a cancel fell between reading it and marking it
  (`OrderEvents.EventsAgreeExactly`, `OrderEvents.PendingUnlessCancelled`).
- Ticks that overlap, or follow a failed one, publish a row again
  (`RelayRepeats.SentOnceExactly`).
- A lapsed checkout lock lets a second caller in, and the first caller's release then
  deletes the second caller's key (`CheckoutLocks.LateReleaseFreesAnother`). Idempotency
  does not depend on the lock (`Checkout.OneOrderPerKey`), but a cart can be ordered twice
  under two keys: exactly when a commit finds another call about to clear the cart for an
  earlier order, or an earlier order whose call left without clearing it
  (`CheckoutRepeats.AlternatesExactly`).
- Two refreshes of one token that both read it before either revokes it leave two active
  tokens in the family (`SessionCalls.OneActiveExactly`). A family is therefore dead exactly
  when it has no usable token and no refresh of it is past its read
  (`TokenFamilies.DeadExactlyWhenQuiet`).
- Revoking a session while a refresh of it is past its read leaves the session a new access
  token and a new refresh token that work (`SessionEnds.RevokedSessionRevives`); a session is
  over exactly otherwise (`SessionEnds.OverExactly`). The same happens when a refresh
  finishes between the reads and the writes of `revokeSession`
  (`SessionEnds.RefreshBetweenEscapes`) or of `logoutAll` (`SessionEnds.RefreshEscapesLogoutAll`).
- `revokeSession` and `logoutAll` deny only a session's current access token; one that a
  refresh replaced stays active until its exp
  (`SessionTokens.RevokeLeavesActive`, `SessionTokens.ReplacedTokenStaysActive`).
- `logout` with an already rotated token ends nothing but the session row
  (`AccessTokens.LogoutEndsFamily`).
- The limit of five guesses per code holds for calls that do not overlap
  (`OtpLogin.FiveGuesses`). When they do, a code can be compared a sixth time
  (`OtpCalls.SixComparisons`) and accepted twice; `OtpCalls.AtMostFiveExactly` and
  `OtpCalls.AcceptedOnceExactly` say exactly when.
- The limiter's comment speaks of a sliding window; the code is a fixed window, so a span of
  one window may hold up to 2 * limit - 1 accepted hits and no more
  (`RateLimiting.SpanBound`, `RateLimiting.SpanReached`). When the EXPIRE of a first hit
  throws, the counter never expires and the limiter ends up refusing for ever
  (`LimiterCalls.StuckExactly`, `LimiterCalls.StuckRefusesForEver`).
- A connection admitted while a subscribe of its user is pending makes messages arrive
  twice; one admitted while the last unsubscribe is pending hears nothing
  (`Subscriptions.HeardExactly`).
- `deleteVariant` leaves its product cached, and `upsertVariant` naming another product
  leaves the owner cached with the old values; `getProduct` answers something old exactly
  then (`CatalogCalls.GetIsCurrentExactly`).
- Two products can share a cart key when one id continues the other past a `:`
  (`CartModel.ItemKeyCollides`). `updateItem` and `removeItem` look a line up by whatever ids
  they are given; `addItem` stores a line only for ids the catalog resolves, and those are
  UUIDs, so no stored line can be hit by other ids (`CartModel.ForeignIdsMiss`).

## Model

| member | source | states |
|---|---|---|
| OrderLoss.NoOrderLost | apps/order/src/infrastructure/messaging/kafka.workers.ts:79-139 | in every interleaving of placers, cancels, overlapping or failing ticks, redeliveries and finalizers: at every moment each pending order has an unpublished row, a message in the topic or a finalizer, if and only if no finalizer throws holding the only message of a marked order and no tick marks the row of an order whose finalizer had thrown |
| OrderLoss.StepLoses | apps/order/src/infrastructure/messaging/kafka.workers.ts:118-137 | one step of any caller, from a reachable state with nothing lost, loses an order exactly when it is one of those two |
| OrderLoss.LostUntilRescued | apps/order/src/infrastructure/messaging/kafka.workers.ts:84-93 | a lost order stays lost through a step exactly unless the step delivers or sends its message again or cancels it |
| OrderLoss.FailedFinalizerLosesOrder | apps/order/src/infrastructure/messaging/kafka.workers.ts:118-137 | a run of the first kind: row published, message gone, order pending |
| OrderLoss.MarkedRowLosesOrder | apps/order/src/infrastructure/messaging/kafka.workers.ts:84-93 | a run of the second kind: the finalizer throws first, and the order is lost only when its row is marked |
| OrderLoss.DrainedOutcome | apps/order/src/application/order.service.ts:174-209 | once everything is drained, every order is cancelled, has the outcome of its own payment or is lost; with no losing step none is pending |
| OrderLoss.DrainedConfluence | apps/order/src/application/order.service.ts:174-209 | without cancels and losing steps the drained table does not depend on the schedule: each order has exactly its own outcome and a two-entry history |
| OrderCharges.ChargedOnceExactly | apps/order/src/application/order.service.ts:180-188 | in every interleaving each order is charged at most once if and only if no finalizer charges an order again that one which threw between charge and markStatus had charged |
| OrderCharges.ChargedOnce | apps/order/src/application/order.service.ts:180-188 | the number of charges lies between the number of such throws and one more |
| OrderCharges.ChargedTwice | apps/order/src/infrastructure/messaging/kafka.workers.ts:118-137 | a run that charges twice: charge, throw, redelivery, charge |
| OrderEvents.EventsAgreeExactly | apps/order/src/application/order.service.ts:187-208 | at every moment of every run each verdict published or about to be is in its order's history, if and only if no markStatus finds its order no longer pending |
| OrderEvents.PendingUnlessCancelled | apps/order/src/application/order.service.ts:175-188 | from finding an order pending until recording its outcome, the order is still pending if and only if it was not cancelled in between |
| OrderEvents.CancelledButAnnounced | apps/order/src/application/order.service.ts:187-196 | a run that announces the charge's outcome of an order its customer cancelled meanwhile |
| OrderEvents.FinalizeAlone | apps/order/src/application/order.service.ts:174-209 | a finalizer nobody interrupts charges a pending order once, settles it by its own payment, publishes StatusChanged and then the verdict once each, and changes nothing else |
| OrderEvents.FoundSettled | apps/order/src/application/order.service.ts:175-178 | one that finds its order no longer pending ends there |
| RelayRepeats.SentOnceExactly | apps/order/src/infrastructure/messaging/kafka.workers.ts:79-95 | at every moment of every run no row was published twice and none is about to be, if and only if no tick claimed a row published before or owed by another live tick |
| RelayRepeats.ApartExactly | apps/order/src/infrastructure/messaging/kafka.workers.ts:84-92 | from a reachable state the live ticks can publish what they owe without repeating a row if and only if they owe distinct unpublished rows |
| RelayRepeats.TwoTicksRepeat | apps/order/src/infrastructure/messaging/kafka.workers.ts:67-71 | two overlapping ticks publish one row twice |
| RelayRepeats.LoneTicksSendInOrder | apps/order/src/infrastructure/messaging/kafka.workers.ts:79-95 | in every run whose ticks never overlap or fail, with placers, cancellers and finalizers going on at any point, the rows published are 0, 1, 2 and so on, each once, and every marked row is among them |
| RelayRepeats.FailedTickIsRepeated | apps/order/src/infrastructure/messaging/kafka.workers.ts:79-95 | a failed tick is gone and leaves its rows unmarked, so the next tick claims them again |
| OrderPipeline.MarkedWasPublished | apps/order/src/infrastructure/messaging/kafka.workers.ts:84-93 | under any overlap of ticks and any publish failure, a row marked published was published before |
| OrderPipeline.PipelineDb | apps/order/src/infrastructure/persistence/typeorm.repositories.ts:58-283 | every run keeps keys, orders and outbox rows in bijection and every life cycle legal |
| OrderPipeline.StepEffect | apps/order/src/application/order.service.ts:134-209 | every protocol step is at most one repository transaction |
| OrderPipeline.SettledHistory | apps/order/src/infrastructure/persistence/typeorm.repositories.ts:232-259 | an order that is Paid or Failed has the history Pending, then that status, and is not soft-deleted |
| OrderModel.LifeCycleHolds | apps/order/src/infrastructure/persistence/typeorm.repositories.ts:200-259 | after any transactions a history is Pending, at most one of Paid and Failed, then Cancelled entries; status is its last entry; Cancelled and soft deletion are permanent; a settled order is Cancelled only with soft deletion; histories only grow |
| OrderModel.StepKeepsOrder | apps/order/src/infrastructure/persistence/typeorm.repositories.ts:200-259 | one transaction takes a good order to a good order that evolves from it |
| OrderModel.BijectionHolds | apps/order/src/infrastructure/persistence/typeorm.repositories.ts:65-136 | each key names exactly one order and each order one key and one outbox row, after any transactions, and a recorded result never changes |
| OrderModel.OutboxGrows | apps/order/src/infrastructure/persistence/typeorm.repositories.ts:107-119 | no transaction removes or reorders outbox rows, and only markOutboxPublished marks them |
| Checkout.OneOrderPerKey | apps/order/src/application/order.service.ts:46-100 | in every interleaving of placeOrder calls, with lapsed locks too, two successful calls return the same result and the same order exactly when they used the same key |
| Checkout.ResultIsFixed | apps/order/src/application/order.service.ts:46-60 | once a key has a result, every later state of every run has that same result |
| Checkout.AlwaysIdempotent | apps/order/src/infrastructure/persistence/typeorm.repositories.ts:65-136 | the invariant behind it: a result held by any call is the one recorded under its key |
| Checkout.OrderTotalExact | apps/order/src/application/order.service.ts:67-93 | a stored total is the exact sum of the order's lines printed with two digits, in every run, up to 4000 lines and numeric(12,2) |
| Checkout.LockIsCriticalSection | apps/order/src/application/order.service.ts:51-99 | while no lock of the user lapses, at every step and on every error exit the user is locked exactly while a call of theirs is inside, or after a release that failed or an acquire whose answer was lost, and at most one of their calls is inside; other users' locks may lapse |
| Checkout.CommitsAlternateWithClears | apps/order/src/application/order.service.ts:87-96 | while no lock of the user lapses and every order of theirs is followed by its clear call, between two of their orders their cart was cleared, whatever happens to other users |
| Checkout.UnitsOrderedOnce | apps/order/src/application/order.service.ts:62-96 | under the same conditions on one user, all their orders together hold no more units of a variant than were ever put in their cart |
| CheckoutRepeats.AlternatesExactly | apps/order/src/application/order.service.ts:51-99 | in every run, lapsed locks, failing calls and lost answers included, a clear lies between any two orders of a user if and only if no commit of theirs finds a call still to clear the cart for an earlier order, or an earlier order whose call left without clearing and no clear since |
| CheckoutRepeats.OpenExactly | apps/order/src/application/order.service.ts:87-96 | the invariant behind it: in every run a user's last order has not been followed by a clear exactly while such a call or such an order exists, and every order not followed by a clear is one of the two |
| CheckoutRepeats.OnlyFailuresRepeat | apps/order/src/application/order.service.ts:51-99 | while no lock of the user lapses, a commit orders again exactly when an earlier order's clear threw or its commit's answer was lost, with no clear since |
| CheckoutRepeats.OnlyLapsesRepeat | apps/order/src/application/order.service.ts:51-99 | while every order's call goes on to clear, a commit orders again exactly when a second call of the user is inside and has still to clear an earlier order |
| CheckoutRepeats.LapsedLockOrdersTwice | apps/order/src/application/order.service.ts:51-99 | a run in which a lapsed lock lets one line be ordered twice: twice the units the cart was given |
| CheckoutRepeats.FailedClearOrdersTwice | apps/order/src/application/order.service.ts:95-99 | the same after a clear that threw, under another key |
| CheckoutRepeats.UnheardCommitOrdersTwice | apps/order/src/application/order.service.ts:87-99 | the same after a commit whose answer was lost |
| OrderRepositories.OrderRepository.PlaceOrder | apps/order/src/infrastructure/persistence/typeorm.repositories.ts:58-137 | order, outbox row and idempotency row are written together, or the recorded response is returned and nothing is written |
| OrderRepositories.OrderRepository.FindIdempotency | apps/order/src/infrastructure/persistence/typeorm.repositories.ts:50-56 | the recorded response, if there is one |
| OrderRepositories.OrderRepository.Cancel | apps/order/src/infrastructure/persistence/typeorm.repositories.ts:200-230 | unknown and already settled orders are refused unchanged; otherwise status, soft deletion and history change together |
| OrderRepositories.OrderRepository.MarkStatus | apps/order/src/infrastructure/persistence/typeorm.repositories.ts:232-259 | settles a pending order and leaves any other as it is |
| OrderRepositories.OrderRepository.ClaimOutboxBatch | apps/order/src/infrastructure/persistence/typeorm.repositories.ts:261-270 | the first unpublished rows, at most limit |
| OrderRepositories.OrderRepository.MarkOutboxPublished | apps/order/src/infrastructure/persistence/typeorm.repositories.ts:272-283 | marks exactly the rows named |
| OutboxRelays.OutboxRelay.Tick | apps/order/src/infrastructure/messaging/kafka.workers.ts:79-95 | a tick publishes its claimed rows in order and then marks them; one whose claim, publish or mark throws keeps what it sent and marks nothing |
| OutboxRelays.DrainsInOrder | apps/order/src/infrastructure/messaging/kafka.workers.ts:79-95 | ticks that neither overlap nor fail send the unpublished rows in creation order, each once, and what is left is the rest |
| OutboxRelays.ShareIsFifties | apps/order/src/infrastructure/messaging/kafka.workers.ts:80-80 | k such ticks send the first 50k rows, or all of them |
| OutboxRelays.DrainTime | apps/order/src/infrastructure/messaging/kafka.workers.ts:79-95 | the outbox of n unpublished rows is empty after k such ticks if and only if k is at least n/50 rounded up |
| OutboxRelays.TickTakesFront | apps/order/src/infrastructure/persistence/typeorm.repositories.ts:261-283 | one tick takes the oldest rows off the front and leaves the others in order |
| OutboxRelays.ClaimIsUnpublished | apps/order/src/infrastructure/persistence/typeorm.repositories.ts:261-270 | an unlimited claim lists exactly the unpublished rows, ascending |
| CheckoutLocks.RedisCheckoutLock.Acquire | apps/order/src/infrastructure/redis/checkout.lock.ts:8-12 | succeeds exactly when no unexpired key stands, and then sets one for the time to live |
| CheckoutLocks.RedisCheckoutLock.Release | apps/order/src/infrastructure/redis/checkout.lock.ts:14-16 | deletes the user's key, whoever set it |
| CheckoutLocks.Checkouts.Enter | apps/order/src/application/order.service.ts:51-54 | acquiring the Redis lock at the start of the section is the protocol's entering step |
| CheckoutLocks.Checkouts.Leave | apps/order/src/application/order.service.ts:97-99 | releasing it in the finally block is the protocol's leaving step |
| CheckoutLocks.ExclusiveExactlyInTime | apps/order/src/infrastructure/redis/checkout.lock.ts:5-17 | no two callers of one user are ever inside together if and only if no caller asks for the lock of a user whose holder is still inside after its key lapsed |
| CheckoutLocks.GuardedStep | apps/order/src/infrastructure/redis/checkout.lock.ts:8-16 | from a state without overlap, a step makes one exactly when its caller finds such a late holder |
| CheckoutLocks.LateReleaseFreesAnother | apps/order/src/infrastructure/redis/checkout.lock.ts:14-16 | after a lapse, the first holder's release lets a third caller in beside the second, whose own time is not up |
| OrderServices.InMemoryCheckoutLock.Acquire | apps/order/src/infrastructure/redis/checkout.lock.ts:21-27 | succeeds exactly when the user is not in the set, and adds it |
| OrderServices.OrderService.PlaceOrder | apps/order/src/application/order.service.ts:33-100 | answers bad input exactly for a blank field or a payment type other than "COD" and "Card", changing nothing; otherwise one new order is stored exactly when nothing before the clear throws, the key is new, the user not locked and every line of a non-empty cart is sold, and it is paid as asked ("COD" as Cod, "Card" as Card); whichever call throws, result, tables, locks and carts are those of the schedule in which the call runs alone |
| OrderServices.SoloStores | apps/order/src/application/order.service.ts:62-93 | what that schedule stores: the cart's products and quantities with the catalog's names, labels and prices, pending, of the user and payment type asked, with the exact sum of its lines as total within the stated bounds |
| OrderServices.PlaceThenFinalize | apps/order/src/application/order.service.ts:33-209 | an order placed with "COD" is paid, and one placed with "Card" fails if and only if its total in paisa is 13 modulo 100 |
| OrderServices.OrderService.PriceCart | apps/order/src/application/order.service.ts:67-85 | the pricing loop computes the protocol's priced lines and rounded running total, or stops at the first unavailable line |
| OrderServices.SoloOrders | apps/order/src/application/order.service.ts:51-99 | that schedule, from a free lock and a cart whose lines resolve, commits the order, empties the cart unless the clear throws, and frees the lock unless the release throws |
| OrderServices.SoloRefused | apps/order/src/application/order.service.ts:56-99 | with an empty cart, an unavailable line or a call that throws before the commit it leaves tables and carts as they were, with the error of the first of these |
| OrderServices.SoloLooks | apps/order/src/application/order.service.ts:46-49 | with a known key, or a first lookup that throws, it returns the recorded result or fails, and changes nothing |
| OrderServices.SoloLocked | apps/order/src/application/order.service.ts:51-54 | with the user locked, or an acquire that throws, it fails and changes nothing, and the lock stays |
| OrderServices.OrderService.CancelOrder | apps/order/src/application/order.service.ts:134-171 | succeeds exactly for the order's own customer while it is visible and pending, or for an admin, with each error's exact condition; a second cancel changes and announces nothing; otherwise the cancel transaction and one event |
| OrderServices.OrderService.FinalizeOrder | apps/order/src/application/order.service.ts:174-209 | a pending order fails exactly when it is Card with a total ending in .13 and is paid otherwise; its history grows by that status, and StatusChanged with it and then OrderPaid or OrderFailed to match are published with the row's user and total; any other order is left alone silently |
| OrderServices.FinalizationIsConfluent | apps/order/src/application/order.service.ts:174-209 | the table after consuming any sequence of messages is a function of the set of ids in it |
| OrderServices.OneVerdictEach | apps/order/src/application/order.service.ts:190-208 | each pending order consumed gets exactly one Paid or Failed event, every other order none |
| OrderServices.EventsAdded | apps/order/src/application/order.service.ts:190-208 | over any sequence of messages the events added come in pairs, one for each pending order consumed and no other: a StatusChanged with the status the row has afterwards, then OrderPaid if that is Paid and OrderFailed if it is Failed, with the row's user and total |
| OrderServices.FailsOnThirteen | apps/order/src/infrastructure/payment/payment.provider.ts:6-20 | an order with a printed total fails exactly when it is Card and the total is 13 paisa above a whole amount |
| Money.FlIsNearest | apps/cart/src/domain/cart.ts:20-26 | the rounding gives a value with 53 significant bits to which no other such value is nearer, at every scale |
| Money.Binary64IsNearest | apps/cart/src/domain/cart.ts:20-26 | its relative error is at most 2^-53, and it keeps the sign |
| Money.TotalIsExact | apps/cart/src/domain/cart.ts:20-26 | for any rounding with that error, up to 4000 lines and numeric(12,2), toFixed(2) of the accumulated total is the exact integer sum of the lines |
| Money.SumError | apps/cart/src/domain/cart.ts:21-24 | the error of n rounded additions of rounded lines grows at most linearly |
| Money.EndsInThirteen | apps/order/src/infrastructure/payment/payment.provider.ts:16-16 | the printed amount ends in .13 exactly when it is 13 modulo 100 |
| Money.FormatReads | apps/cart/src/domain/cart.ts:25-25 | a printed amount has its point before the last two digits, no leading zeros, and read as a number is the amount |
| TokenFamilies.FamilyIsSession | apps/identity/src/application/identity.service.ts:443-465 | in every run two tokens share a family exactly when they share a session |
| TokenFamilies.DeadStaysDead | apps/identity/src/application/identity.service.ts:250-305 | a family without a usable token and without a refresh past its read grants no refresh in any later run |
| TokenFamilies.DeadExactlyWhenQuiet | apps/identity/src/application/identity.service.ts:250-305 | and only such a family: from any reachable state with either of them, some continuation grants a refresh |
| TokenFamilies.ReuseKillsFamily | apps/identity/src/application/identity.service.ts:258-273 | the revocation step leaves every token of the family revoked, and the family dead exactly when no rotation of it is in flight at that moment |
| TokenFamilies.RevokedForEver | apps/identity/src/infrastructure/persistence/typeorm.repositories.ts:250-264 | a revoked token stays revoked, in its family, in every later run |
| SessionCalls.OneActiveTokenPerFamily | apps/identity/src/application/identity.service.ts:279-294 | while calls do not overlap, a family never has two unrevoked tokens |
| SessionCalls.OneActiveExactly | apps/identity/src/application/identity.service.ts:250-305 | in every interleaving no family ever has two unrevoked tokens if and only if no refresh stores a token while its family has an unrevoked one |
| SessionCalls.OverlapGivesTwo | apps/identity/src/application/identity.service.ts:286-294 | two refreshes of one family that both reached minting leave two active tokens |
| SessionCalls.OverlapReachesMinting | apps/identity/src/application/identity.service.ts:250-284 | two refreshes that both read a usable token get there |
| SessionCalls.RotationAlone | apps/identity/src/application/identity.service.ts:275-304 | a refresh run alone through its awaits leaves what the call taken whole leaves, and counts as one grant |
| SessionCalls.ReuseAlone | apps/identity/src/application/identity.service.ts:258-273 | likewise for a reused token, with or without a session row: refused, no grant |
| AccessTokens.DeniedForEver | apps/identity/src/application/identity.service.ts:346-365 | a denied access token whose denylist key outlasts it is inactive at every later time, in every interleaving |
| AccessTokens.DenyOutlasts | apps/identity/src/infrastructure/redis/redis.adapters.ts:37-39 | the key set by a revocation lasts at least until the exp of any token issued before |
| SessionEnds.OverExactly | apps/identity/src/application/identity.service.ts:250-365 | from any reachable state, a session's current access token is inactive in every continuation if and only if that token is finished, no refresh token of the family is usable and no refresh of it is past its read, save one about to record a finished token |
| SessionEnds.OverStaysOver | apps/identity/src/application/identity.service.ts:250-365 | such a session stays so in every later interleaving |
| SessionEnds.RevokedSessionIsOver | apps/identity/src/application/identity.service.ts:418-427 | over whole runs: revokeSession puts the session out for good if and only if no refresh of it is past its read, with that one exception |
| SessionEnds.ReusedSessionIsOver | apps/identity/src/application/identity.service.ts:252-273 | over whole runs: presenting a token rotated at any earlier time fails, leaves its whole family and its session revoked, and puts the session out for good under exactly that condition |
| SessionEnds.LoggedOutSessionIsOver | apps/identity/src/application/identity.service.ts:327-334 | over whole runs: logoutAll taken whole does the same for every live session of the user |
| SessionEnds.InterleavedLogoutAll | apps/identity/src/application/identity.service.ts:327-334 | logoutAll interleaved at every await, with no refresh past its read when the refresh tokens go: a session that was live is out for good after its turn of the loop if and only if the token denied is still the current one then, or that one is finished |
| SessionEnds.RefreshEscapesLogoutAll | apps/identity/src/application/identity.service.ts:328-334 | a refresh that records its token after the sessions were read leaves that token undenied |
| SessionTokens.RevokeLeavesActive | apps/identity/src/application/identity.service.ts:418-427 | after revokeSession in any reachable state, of all access tokens the session was ever given exactly the current one stopped being active, and each other one is active exactly until its exp if nothing else happens |
| SessionTokens.LogoutAllLeavesActive | apps/identity/src/application/identity.service.ts:327-334 | after logoutAll, of all access tokens any session of the user was ever given exactly the current one stopped being active, and that only if the session was live |
| SessionTokens.TokensApart | apps/identity/src/application/identity.service.ts:286-295 | an access token is signed for one session only |
| SessionTokens.ReplacedTokenStaysActive | apps/identity/src/application/identity.service.ts:284-295 | the failing case: an active token, replaced by a refresh, is still active once its session is revoked |
| AccessTokens.LogoutEndsFamily | apps/identity/src/application/identity.service.ts:307-325 | logout ends the family exactly when the token presented is its active one or none is left |
| SessionEnds.RevokedSessionRevives | apps/identity/src/application/identity.service.ts:286-295 | the failing case: a refresh about to mint gives the revoked session an active access token and an unrevoked refresh token |
| SessionEnds.InterleavedRevoke | apps/identity/src/application/identity.service.ts:418-427 | revokeSession interleaved at every await, with no refresh past its read when the refresh tokens go: the session is out for good if and only if the token denied is the current one then, or that one is finished |
| SessionEnds.RefreshBetweenEscapes | apps/identity/src/application/identity.service.ts:419-427 | a refresh that records its token between the read and the writes leaves that token undenied |
| AccessTokens.Reached | apps/identity/src/application/identity.service.ts:443-476 | every run from an empty store has what these results ask for |
| Identity.IdentityService.Refresh | apps/identity/src/application/identity.service.ts:250-305 | the imperative call leaves the store of the call taken whole, in every branch |
| TokenLifetimes.RefreshGrants | apps/identity/src/application/identity.service.ts:276-305 | a granted refresh revokes the token presented and answers another of the same user, session and family, and an active access token that is now the session's current one |
| TokenLifetimes.RefreshTokenLives | apps/identity/src/application/identity.service.ts:276-293 | a refresh token stored by any refresh or login: whatever runs afterwards, presenting it rotates it if and only if it was not revoked meanwhile and refreshSeconds have not passed since it was stored |
| TokenLifetimes.RefreshedTokenLives | apps/identity/src/application/identity.service.ts:276-293 | the same for refreshes taken whole, by the outcome of presenting the minted token |
| TokenLifetimes.LoggedInTokenLives | apps/identity/src/application/identity.service.ts:443-465 | the same for the token of a login |
| TokenLifetimes.AccessTokenLives | apps/identity/src/application/identity.service.ts:346-365 | an access token signed at any step: whatever runs afterwards, it is active if and only if fewer than accessSeconds have passed, in whole seconds, and no denylist key for it stands |
| Identity.IdentityService.Logout | apps/identity/src/application/identity.service.ts:307-325 | likewise, with each of the two inputs optional |
| Identity.IdentityService.LogoutAll | apps/identity/src/application/identity.service.ts:327-344 | likewise: the loop denies the current token of every session that was live |
| Identity.IdentityService.RevokeSession | apps/identity/src/application/identity.service.ts:418-441 | likewise, refusing another user's session |
| Identity.IdentityService.IntrospectToken | apps/identity/src/application/identity.service.ts:346-365 | active exactly when signed, unexpired and not on the denylist now |
| SessionScopes.RevokeReaches | apps/identity/src/application/identity.service.ts:418-427 | revokeSession answers not found exactly for a session that is not the caller's, changing nothing; otherwise it revokes that session and its refresh tokens, denies its current access token for the access lifetime, and leaves everything else alone |
| SessionScopes.LogoutAllReaches | apps/identity/src/application/identity.service.ts:327-334 | logoutAll revokes the user's sessions and refresh tokens, denies the current access tokens of those that were live, and leaves every other user's rows alone |
| SessionScopes.ReuseReaches | apps/identity/src/application/identity.service.ts:261-273 | a reused token is refused and takes its family, its session and that session's current access token, and nothing else |
| SessionScopes.LogoutReaches | apps/identity/src/application/identity.service.ts:307-325 | logout takes the token presented, its session and the access token given, and nothing else |
| SessionScopes.RefreshReaches | apps/identity/src/application/identity.service.ts:276-295 | a granted refresh changes nothing but the token presented, the one minted and the current token of their session |
| SessionScopes.RefreshRefuses | apps/identity/src/application/identity.service.ts:252-291 | a refresh is granted exactly for a known, unrevoked, unexpired token of a known user |
| SessionScopes.LoginGrants | apps/identity/src/application/identity.service.ts:443-465 | a login leaves a live session with its access token current and active and an unrevoked refresh token of its family |
| SessionScopes.RefreshAlone | apps/identity/src/application/identity.service.ts:250-305 | refresh run alone at its awaits, in every branch, leaves the store of the call taken whole and returns its outcome |
| SessionScopes.LoginAlone | apps/identity/src/application/identity.service.ts:443-465 | issueSession run alone is the login taken whole |
| SessionScopes.PrimitivesReach | apps/identity/src/infrastructure/persistence/typeorm.repositories.ts:204-263 | each revoking update changes exactly the rows of its token, family, session or user, and each of them only by revoking it |
| OtpLogin.FiveGuesses | apps/identity/src/application/identity.service.ts:199-244 | over every run with any waiting and expiry, the answers show each code requested compared at most five times and accepted at most once |
| OtpLogin.GuessAnswered | apps/identity/src/application/identity.service.ts:199-244 | a code requested, then any guesses and waiting: the next guess is accepted if and only if it is the code, five minutes have not passed, at most four guesses were made and none was the code; a wrong one is told how many are left, the sixth in time is refused, and afterwards the code is gone |
| OtpLogin.TallyIsRight | apps/identity/src/application/identity.service.ts:208-241 | the counts per code are those of the answers given |
| OtpLogin.StepKeepsBounds | apps/identity/src/application/identity.service.ts:148-244 | the counter guarding a live code expires no earlier than the code and has counted every comparison |
| OtpLogin.RedisOtpStore.RequestOtp | apps/identity/src/application/identity.service.ts:169-171 | sets the new code with its expiry and forgets the attempts |
| OtpLogin.RedisOtpStore.VerifyOtp | apps/identity/src/application/identity.service.ts:208-241 | counts the attempt first, then refuses, finds the code expired, mismatches or accepts, with the keys left by each |
| OtpLogin.RedisOtpStore.IncrAttempts | apps/identity/src/infrastructure/redis/redis.adapters.ts:20-27 | increments the live counter or starts one with a new expiry |
| OtpCalls.GuessLedger | apps/identity/src/application/identity.service.ts:148-244 | in every interleaving of both calls at their Redis commands, while a code is live its comparisons and the calls yet to read it are exactly the attempts on the counter, plus the calls in flight when it was set, plus the attempts wiped since, less what the counter stood at |
| OtpCalls.GuessesBounded | apps/identity/src/application/identity.service.ts:199-244 | whether live or gone, a code is compared at most five times and what the ledger adds |
| OtpCalls.AtMostFiveExactly | apps/identity/src/application/identity.service.ts:208-227 | in every interleaving each code is compared at most five times if and only if no call reads a live code while the attempts in flight at its setting and those wiped since make up for all still free on the counter |
| OtpCalls.SixComparisons | apps/identity/src/application/identity.service.ts:169-227 | a run from the empty store that compares one code six times |
| OtpCalls.StragglerIsUncounted | apps/identity/src/application/identity.service.ts:169-227 | a call counted before a new code is set compares that code with the new counter at zero |
| OtpCalls.AcceptedOnceExactly | apps/identity/src/application/identity.service.ts:215-243 | in every interleaving each code is accepted at most once if and only if no call reads it with a match between another call's match and that call's delete |
| OtpCalls.SecondAcceptance | apps/identity/src/application/identity.service.ts:227-240 | one step makes a second acceptance exactly when it is such a read |
| OtpCalls.VerifyAlone | apps/identity/src/application/identity.service.ts:208-241 | verifyOtp run alone through its awaits leaves the keys and returns the verdict of the call taken whole |
| OtpCalls.RequestAlone | apps/identity/src/application/identity.service.ts:169-171 | requestOtp run alone leaves the keys of the call taken whole and wipes exactly what the counter stood at |
| OtpCalls.LoneRuns | apps/identity/src/application/identity.service.ts:176-244 | over every run of calls that do not overlap, the interleaved commands leave the keys and return the answers of the calls taken whole |
| RateLimiting.RedisRateLimiter.Allow | apps/identity/src/infrastructure/redis/redis.adapters.ts:51-58 | one hit on one key: the counter afterwards and whether it is within the limit; when the EXPIRE throws, a counter of one without expiry |
| LimiterCalls.StuckExactly | apps/identity/src/infrastructure/redis/redis.adapters.ts:51-58 | with hits interleaved at INCR and EXPIRE and time passing, the counter is left without an expiry for ever if and only if the EXPIRE of a caller that began a counter threw |
| LimiterCalls.StuckRefusesForEver | apps/identity/src/infrastructure/redis/redis.adapters.ts:53-57 | from then on, at a count of n, exactly the next limit - n hits are let through, however much time passes |
| LimiterCalls.HitAlone | apps/identity/src/infrastructure/redis/redis.adapters.ts:51-58 | a hit whose two commands run one after the other is the hit taken whole |
| LimiterCalls.WindowPasses | apps/identity/src/infrastructure/redis/redis.adapters.ts:52-57 | after the hit that begins a counter, the next one counts as the second exactly while the window has not passed |
| RateLimiting.CounterCounts | apps/identity/src/infrastructure/redis/redis.adapters.ts:53-56 | after each hit the counter is the number of hits since its window began, a window defined by the hit times alone |
| RateLimiting.FirstHitsOfWindow | apps/identity/src/infrastructure/redis/redis.adapters.ts:51-58 | a hit is accepted exactly when it is among the first limit hits of its window |
| RateLimiting.SpanBound | apps/identity/src/infrastructure/redis/redis.adapters.ts:47-59 | any half-open span as long as the window contains at most 2 * limit - 1 accepted hits |
| RateLimiting.SpanReached | apps/identity/src/infrastructure/redis/redis.adapters.ts:47-59 | for every positive limit and window of at least two units a trace with exactly that many |
| RateLimiting.SpanExceedsExactly | apps/identity/src/infrastructure/redis/redis.adapters.ts:47-59 | a span holds more than the limit if and only if two accepted hits of it, in different windows, have more than the limit between them, the rest of the first window's quota and the hits of the second counted |
| ConnectionRegistry.RegistryAlwaysAgrees | apps/realtime/src/interface/ws/order-status.gateway.ts:40-133 | in every interleaving of handlers at their awaits each user's set is exactly the admitted sockets not yet removed, each address's count is its admitted sockets whose disconnect has not finished, no entry is empty and both caps hold |
| ConnectionRegistry.AlwaysQuiet | apps/realtime/src/interface/ws/order-status.gateway.ts:80-123 | with handlers one at a time there is one listener per user with sockets, named by that user's unsubscriber, and none else |
| ConnectionRegistry.DeliveredOnce | apps/realtime/src/interface/ws/order-status.gateway.ts:80-147 | then a user is subscribed exactly while a socket of theirs is registered, and a message reaches each open socket of its user once and no other |
| Subscriptions.HeardExactly | apps/realtime/src/interface/ws/order-status.gateway.ts:76-123 | in every interleaving: at every moment, whichever pending connection is let finish, every connected open socket hears a message of its user exactly once, if and only if no socket is admitted while a subscribe or an unsubscribe of its user is pending |
| Subscriptions.StepOrderly | apps/realtime/src/interface/ws/order-status.gateway.ts:76-123 | one step keeps every user's one subscription in order exactly unless it is such a connection; a listener left by a connection closed early counts as in order |
| Subscriptions.OverlapDeliversTwice | apps/realtime/src/interface/ws/order-status.gateway.ts:80-85 | two overlapping connections of one user make a message arrive twice |
| Subscriptions.LateConnectHearsNothing | apps/realtime/src/interface/ws/order-status.gateway.ts:116-122 | a connection admitted while the last unsubscribe is pending ends connected and hears nothing |
| OrderStatusGateways.OrderStatusGateway.HandleConnection | apps/realtime/src/interface/ws/order-status.gateway.ts:40-106 | refuses a missing token, then an address with as many open sockets as its cap, then a user with as many as theirs, changing nothing; otherwise the socket is added, greeted once, and the registry is that of the handler run alone, kept quiet |
| OrderStatusGateways.OrderStatusGateway.HandleDisconnect | apps/realtime/src/interface/ws/order-status.gateway.ts:108-133 | closes an admitted socket and leaves the registry of the handler run alone, and does nothing for a socket never admitted |
| OrderStatusGateways.OrderStatusGateway.FanOut | apps/realtime/src/interface/ws/order-status.gateway.ts:135-146 | sends the message once to each open socket in the user's set and nothing to any other |
| OrderStatusGateways.OrderStatusGateway.Deliver | apps/realtime/src/infrastructure/redis/presence-pubsub.ts:53-69 | a message on a user's channel, fanned out by every listener of the user, is sent once to each open socket of the user and to no other |
| CartModel.ItemKeyInjective | apps/cart/src/domain/cart.ts:16-18 | for product ids without a colon two keys are equal exactly when product and variant are |
| CartModel.ItemKeyCollides | apps/cart/src/domain/cart.ts:16-18 | lines of two products can share a key if and only if the products are the same or one id continues the other past a colon |
| CartModel.ForeignIdsMiss | apps/cart/src/application/cart.service.ts:76-97 | any ids name a line whose own ids have no colon only by being those ids |
| CartModel.TotalIgnoresOrder | apps/cart/src/domain/cart.ts:20-26 | two lists of the same lines in different order have the same total, the exact sum, although rounding depends on the order |
| CartModel.AddTwice | apps/cart/src/application/cart.service.ts:45-64 | adding q1 and then q2 at one price is adding q1 + q2 |
| CartModel.AddTouchesOnePair | apps/cart/src/application/cart.service.ts:47-62 | adding changes the line of its own product and variant, by the quantity given, and no other pair's |
| CartModel.AddSells | apps/cart/src/application/cart.service.ts:47-62 | the line added to, old or new, has the label and price of the catalog and the quantity added |
| CartModel.PriceTwice | apps/cart/src/application/cart.service.ts:110-123 | pricing a priced cart changes nothing |
| CartModel.PriceSells | apps/cart/src/application/cart.service.ts:115-121 | pricing gives every line the catalog's price and label and touches no key, id or quantity |
| CartModel.TotalPrints | apps/cart/src/domain/cart.ts:20-26 | the computed total prints the sum of price times quantity over the lines exactly |
| CartServices.SaveThenLoad | apps/cart/src/infrastructure/redis/redis-cart.store.ts:20-46 | reading back the hash of a saved cart gives the same lines: the total's field is never taken for one |
| CartServices.RedisCartStore.GetItems | apps/cart/src/infrastructure/redis/redis-cart.store.ts:20-30 | the loop over fields yields the lines of the hash, each key once |
| CartServices.RedisCartStore.SaveItems | apps/cart/src/infrastructure/redis/redis-cart.store.ts:32-46 | replaces the hash by the lines and their total |
| CartServices.CartService.GetCart | apps/cart/src/application/cart.service.ts:19-34 | answers exactly the lines stored, and while the key stands the total stored, whatever order the fields come in |
| CartServices.CartService.AddItem | apps/cart/src/application/cart.service.ts:36-65 | succeeds exactly on a valid user, positive quantity and available variant; then the line of that key has the catalog's label and price and the quantity added to what it was, every other line is as before, hash and snapshot totals agree and print the exact sum, and no other cart changes |
| CartServices.CartService.UpdateItem | apps/cart/src/application/cart.service.ts:67-89 | likewise, for a line that exists: it keeps its ids and has the quantity given and the catalog's label and price |
| CartServices.CartService.RemoveItem | apps/cart/src/application/cart.service.ts:91-100 | likewise, removing exactly the line of that key |
| CartServices.CartService.ClearCart | apps/cart/src/application/cart.service.ts:102-107 | removes hash and snapshot of that user only |
| CartServices.CartService.PriceCart | apps/cart/src/application/cart.service.ts:110-123 | all or nothing: succeeds exactly when every line is available, and then every line returned and stored has the catalog's price and label for its ids, with ids, quantities and keys as they were |
| CatalogServices.CatalogService.ListProducts | apps/catalog/src/application/catalog.service.ts:42-54 | with any keys expired, answers the page asked, clamped to page 1 at least and 1 to 100 items: the number of active products, and exactly those active products whose number of newer active ones falls on the page, each in its place |
| Catalog.PageHolds | apps/catalog/src/infrastructure/persistence/typeorm.repositories.ts:45-54 | the repository's page holds the active rows of the ranks that fall on it, newest first, at most limit, none left out, and the total is the number of active rows |
| Catalog.RankIsAge | apps/catalog/src/infrastructure/persistence/typeorm.repositories.ts:48-48 | of two active rows the newer has the smaller rank |
| Catalog.OnOnePage | apps/catalog/src/infrastructure/persistence/typeorm.repositories.ts:49-50 | every active row stands on exactly one page, its rank divided by the limit |
| CatalogServices.CatalogService.GetProduct | apps/catalog/src/application/catalog.service.ts:56-67 | answers the cached product or else the repository's, after a success the product is cached as answered, and the answer is the repository's exactly unless the cached product is outdated |
| CatalogCalls.GetIsCurrentExactly | apps/catalog/src/application/catalog.service.ts:56-151 | over every sequence of calls and expiries: getProduct answers something else than the repository would if and only if the product is cached and, since it was cached, one of its variants was deleted or was last given other values by an upsert naming another product |
| CatalogCalls.TargetedRunsAreCurrent | apps/catalog/src/application/catalog.service.ts:56-67 | in every run without deleteVariant whose upserted variant ids belong to the product given, getProduct always answers what the repository would |
| CatalogCalls.ListIsCurrent | apps/catalog/src/application/catalog.service.ts:42-54 | over every sequence of calls and expiries each cached list is what the repository would return |
| CatalogCalls.AlwaysOwnedOnce | apps/catalog/src/infrastructure/persistence/typeorm.repositories.ts:58-140 | in every run a variant belongs to one product |
| CatalogCalls.AlwaysIdsOnce | apps/catalog/src/infrastructure/persistence/typeorm.repositories.ts:64-112 | in every run product ids are distinct |
| CatalogCalls.DeletedVariantIsServed | apps/catalog/src/application/catalog.service.ts:137-151 | from any reachable state a run after which getProduct answers a product with a variant that was deleted |
| CatalogCalls.MisnamedUpsertIsServed | apps/catalog/src/application/catalog.service.ts:113-135 | from any reachable state a run after which getProduct answers the values from before an upsert that named another product |
| CatalogServices.CatalogService.CreateProduct | apps/catalog/src/application/catalog.service.ts:69-93 | refuses exactly names blank after trimming, empty variant lists, prices that are no finite amount from zero up and blank labels; otherwise appends the row with the trimmed name and description, the variants as given under ids not in use and active unless told otherwise, and makes no other cached product stale |
| Text.TrimLeaves | apps/catalog/src/application/catalog.service.ts:86-87 | trimming leaves nothing exactly of a blank string, and otherwise a string that starts and ends in other characters |
| Text.TrimTakes | apps/catalog/src/application/catalog.service.ts:86-87 | trimming takes off white space in front and behind and nothing else |
| Text.SpacesAre | apps/catalog/src/application/catalog.service.ts:71-71 | the characters trimmed, by code point |
| CatalogServices.CatalogService.UpdateProduct | apps/catalog/src/application/catalog.service.ts:95-104 | replaces in the row exactly the fields given, and the product is no longer outdated |
| CatalogServices.CatalogService.DeleteProduct | apps/catalog/src/application/catalog.service.ts:106-111 | takes the product's row out and leaves the others in their order, and its cached copy goes |
| CatalogServices.CatalogService.UpdateVariant | apps/catalog/src/application/catalog.service.ts:113-135 | every variant of that id gets the label, price and, if given, activity asked, and nothing else of any row changes; a current cached product goes stale exactly when it lists the variant with other values and is not the product given |
| Catalog.UpdateVariantChanges | apps/catalog/src/infrastructure/persistence/typeorm.repositories.ts:121-131 | updating a variant changes exactly the products that list it with other values |
| CatalogServices.CatalogService.AddVariant | apps/catalog/src/application/catalog.service.ts:113-135 | a variant without id is added last to the product given, with the label and price asked and active unless told otherwise, under an id not in use, and makes no cached product stale |
| CatalogServices.CatalogService.DeleteVariant | apps/catalog/src/application/catalog.service.ts:137-151 | a current cached product goes stale exactly when it owned the variant |
| CatalogServices.DeletedVariantStaysCached | apps/catalog/src/application/catalog.service.ts:139-142 | a cached product is stale after deleteVariant if and only if it owned the variant |
| Catalog.RemoveVariantChanges | apps/catalog/src/infrastructure/persistence/typeorm.repositories.ts:142-148 | deleting a variant changes exactly the product that owned it |
| Catalog.WithoutOne | apps/catalog/src/infrastructure/persistence/typeorm.repositories.ts:142-148 | deleting a variant leaves the others of its product in their order |
| NotificationDispatching.NotificationDispatcher.Dispatch | apps/notification/src/application/notification.dispatcher.ts:24-108 | whichever of its calls throw, the rows, the notification, the dead letter and the outcome are those of the specification |
| NotificationDispatching.RetryShape | apps/notification/src/application/notification.dispatcher.ts:73-107 | with delivery writes succeeding the rows are numbered 1..k with k at most three, all but the last failed, and dead-lettering happens exactly when all three attempts failed |
| NotificationDispatching.OneOutcome | apps/notification/src/application/notification.dispatcher.ts:24-108 | each outcome has its exact condition, and a forced job is never skipped |
| NotificationDispatching.DispatchedMeans | apps/notification/src/application/notification.dispatcher.ts:24-116 | whichever calls throw: a job is skipped exactly when it is not forced and its user turned the channel off, one without a provider leaves one failed row, and otherwise the rows are those of the attempts up to the first sent and recorded, the first failure not recorded, or the third, the last failure being dead |
| NotificationDispatching.StreamRows | apps/notification/src/application/notification.dispatcher.ts:73-107 | for every stream of jobs and every pattern of failing calls each notification's rows are so numbered and none belongs to a notification not created |
| NotificationDispatching.StreamNumbers | apps/notification/src/application/notification.dispatcher.ts:26-60 | a stream creates one notification for each job that is wanted and whose calls up to the creation succeed |
| NotificationDispatching.DeadLettersExact | apps/notification/src/application/notification.dispatcher.ts:105-107 | for every stream the dead-letter queue is the sequence of jobs whose three attempts failed |

## Left out

- OrderServices.OneVerdictEach: is for finalizeOrder taken whole; the interleaved case is the subject of OrderEvents.
- OutboxRelays.DrainsInOrder: is for ticks that neither overlap nor fail; the others are the subject of RelayRepeats.
- OtpLogin.FiveGuesses: takes requestOtp and verifyOtp as whole calls; overlapping calls are the subject of OtpCalls, where the plain bound of five fails.
- SessionCalls.OneActiveTokenPerFamily: is for calls that do not overlap; OneActiveExactly is for those that do.
- Checkout.UnitsOrderedOnce: is for runs in which no lock of the user lapses on a caller inside and every order's call goes on to clear the cart, since the code orders a cart twice otherwise; CheckoutRepeats has the runs and the exact condition on commits.
- Checkout: a clear or a release that takes effect and then throws is not an action of its own; it differs from one that succeeds only in the answer its caller gets. In OrderServices a call that throws has had no effect.
- Overlapping catalog calls: each call is atomic here, so a read that caches a row changed meanwhile is not modelled.
- Checkout: the resolveLine calls of one cart are one action, since between them a call reads and writes nothing that others see.
- SessionEnds.OverExactly: asks for an access lifetime above zero; with a lifetime of zero no access token is ever active.
- CartServices.CartService.AddItem: quantities are integers; a fractional quantity, which the code refuses, has no counterpart.
- CatalogServices.CatalogService.CreateProduct: prices are what Number() makes of them in whole paisa, or not finite; image addresses are not modelled.
- The times of locks in the Checkout protocol: a lapse is an action that may happen at any moment; the arithmetic of the time to live is in CheckoutLock.
- The in-memory stores other than the lock: they are the maps the models already use.
- Deleting users: the set of users is fixed, although a refresh for an unknown user is modelled.
- SessionEnds.LoggedOutSessionIsOver: takes logoutAll as one call; SessionEnds.InterleavedLogoutAll takes it await by await.
- SessionEnds.ReusedSessionIsOver: takes the awaits of the detecting call one after another; SessionEnds.OverExactly applies to any state in which they are interleaved.
- The item count of a cart.
- The rate limit in front of requestOtp, audit rows, logging, metrics, trace headers and session-revoked events.
- The notification's backoff delays and the error texts of failed rows.
- Registration, password login, role assignment and validation of addresses: single checks; sessions are created through the login protocol step.
- REST, gRPC and Swagger layers, mappers, guards, the web application, migrations, entities, configuration, health checks and deployment files.
- Pagination and summaries of order lists.
- Presence keys and heartbeats of the WebSocket gateway, and parsing the token from the request.
- Isolation levels below serializable and network partitions.
