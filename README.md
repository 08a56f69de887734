# Flash-sale admission controller, modelled in Dafny

The backend sells one product (a smart watch) in a timed flash sale. One
in-memory sale record holds the sale window, the stock left and the set of
user ids that have bought. Status reads recreate the record once its window
has passed, then report UPCOMING, ENDED, SOLD_OUT, PURCHASE_SUCCESS or
ACTIVE. A purchase attempt checks the window, then an earlier purchase by
the same user, then the stock. On success it takes one unit and records the
buyer. A small login service keeps a table of users keyed by `user_` plus
the username.

Files:

- `models.dfy` (module `Models`): the value records (status, product, state
  snapshot, purchase result, user) and the `Option`/`Result` wrappers for
  `null` and thrown errors.
- `flash_sale.dfy` (module `FlashSale`): the sale record as a `SaleData`
  value, with these parts:
  - the status projection and one purchase attempt as functions;
  - lemmas about single attempts and about whole sequences of attempts
    (`Run`): conservation, at most one success per user, exact exhaustion of
    the stock;
  - the class `FlashSaleService`, whose methods are proved against those
    functions.
- `auth.dfy` (module `Auth`): the class `AuthService` over a
  `map<string, User>`.

The clock is a `now: int` parameter of every operation that reads it. The
three configuration values (stock, pre-sale wait, sale duration) are
constructor parameters.

The model follows the code on these points, where a reader might expect
otherwise (the source's own comment calls the purchase step "atomic
operation for concurrency control", flashSaleService.js:83):

- The window is closed at both ends: a purchase at exactly the start or the
  end time is admitted.
- Nothing is locked. Each operation is one sequential step.
- A configured value of zero (or one that does not parse) falls back to its
  default, but a negative value reaches the service unchanged. So the
  invariant "stock is never negative" is stated as "stock is never negative
  unless nobody has bought", which is the only state a negative configured
  total can reach.
- The login id is the raw username behind `user_`, and a user has an `id`
  and a `username`. The login unit test expects a sanitised id and an
  `email` field; the code does neither.

## Model

| member | source | states |
|---|---|---|
| `FlashSale.SmartWatch` | backend/src/services/flashSaleService.js:6-12 | the product has id `prod_123` and the configured total stock |
| `FlashSale.InitialSale` | backend/src/services/flashSaleService.js:21-31 | a fresh record opens after the pre-sale wait and lasts the sale duration; it holds the full stock with no buyers, so it satisfies the conservation invariant |
| `FlashSale.Status` | backend/src/services/flashSaleService.js:41-54 | the five statuses partition the inputs. UPCOMING iff before the start. ENDED iff after the end. ACTIVE iff inside the window with stock left. With no stock inside the window, PURCHASE_SUCCESS iff the named user is a buyer, else SOLD_OUT (also when no user is named) |
| `FlashSale.Purchase` | backend/src/services/flashSaleService.js:65-88 | success iff inside the window, the user has not bought yet and stock is left. A success takes exactly one unit and adds exactly that user. A refusal changes nothing. The duplicate flag is set iff inside the window and the user already bought |
| `FlashSale.NotActiveOutsideWindow` | backend/src/services/flashSaleService.js:68-71 | outside the window the result is "The sale is not active." with the duplicate flag false, and the record is unchanged |
| `FlashSale.DuplicateWinsOverSoldOut` | backend/src/services/flashSaleService.js:73-81 | inside the window, a returning buyer gets "You have already purchased this item." with the flag true, whatever the stock, and the record is unchanged |
| `FlashSale.SoldOutForNewBuyer` | backend/src/services/flashSaleService.js:78-81 | inside the window, a new buyer with no stock left gets "Sorry, the item is sold out." and the record is unchanged |
| `FlashSale.AcceptedMessage` | backend/src/services/flashSaleService.js:83-87 | a success reports "Congratulations! You got one!" with the duplicate flag false |
| `FlashSale.PurchasePreservesConsistency` | backend/src/services/flashSaleService.js:83-85 | one attempt keeps stock + buyers = total and keeps the stock non-negative |
| `FlashSale.StatusPredictsPurchase` | backend/src/services/flashSaleService.js:41-81 | what a user is shown predicts their attempt at the same moment. UPCOMING or ENDED means not active. PURCHASE_SUCCESS means duplicate. SOLD_OUT means sold out. ACTIVE means success iff the user has not bought |
| `FlashSale.FreshSaleStatus` | backend/src/services/flashSaleService.js:33-54 | a record created at `createdAt` and seen at any `now` no later than that is UPCOMING with the full stock when the pre-sale wait is positive, and is never ENDED when wait plus duration is not negative |
| `FlashSale.Run` | backend/src/services/flashSaleService.js:65-88 | a sequence of attempts gives one result per request, never changes the window and never removes a buyer |
| `FlashSale.RunCountsAccepted` | backend/src/services/flashSaleService.js:83-85 | over any sequence of attempts, stock falls and buyers rise by exactly the number of successes |
| `FlashSale.RunPreservesConsistency` | backend/src/services/flashSaleService.js:83-85 | conservation holds after every sequence of attempts on a consistent record |
| `FlashSale.RunAcceptsEachUserAtMostOnce` | backend/src/services/flashSaleService.js:73-85 | a user succeeds at most once over any sequence, and never if they had bought before. Afterwards they are a buyer iff they were one or succeeded |
| `FlashSale.RunExhaustsStock` | backend/src/services/flashSaleService.js:79-87 | with distinct new users all inside the window and n units left, the first n succeed and every later one gets sold out, never duplicate. Successes = min(n, requests) and the final stock is n minus that |
| `FlashSale.FlashSaleService.constructor` | backend/src/services/flashSaleService.js:4-19 | the service holds the product with the configured stock, both durations, and a fresh record started at creation time |
| `FlashSale.FlashSaleService.InitializeSale` | backend/src/services/flashSaleService.js:21-31 | the record is replaced by a fresh one with full stock and no buyers, and the invariant holds |
| `FlashSale.FlashSaleService.GetCurrentSaleState` | backend/src/services/flashSaleService.js:33-63 | the record is recreated iff it is missing or its end is before `now`, else left unchanged. Recreation uses the second clock reading `initNow`. The snapshot carries the resulting record's stock, window and `Status` at `now`. When `now <= initNow`, a recreation with positive wait reads UPCOMING with full stock, and ENDED is never returned when wait plus duration is not negative |
| `FlashSale.FlashSaleService.AttemptPurchase` | backend/src/services/flashSaleService.js:65-88 | needs an existing record (it does not recreate one). The result and new record are those of `Purchase`, the invariant is kept, and a success makes the user a buyer with one unit less |
| `FlashSale.FlashSaleService.HasUserPurchased` | backend/src/services/flashSaleService.js:90-92 | false with no record, else membership in the buyers. A user reported as a buyer is counted in the statistics |
| `FlashSale.FlashSaleService.ResetSale` | backend/src/services/flashSaleService.js:95-97 | whatever the prior state, the record becomes the same fresh one as `InitializeSale`, with full stock and no buyers |
| `FlashSale.FlashSaleService.GetStats` | backend/src/services/flashSaleService.js:100-114 | with no record: 0 purchases, the full stock, 0 users. Otherwise purchases = unique users = number of buyers, and remaining = stock. Under the invariant, purchases + remaining = total |
| `FlashSale.FlashSaleService.ListAllPurchases` | backend/src/services/flashSaleService.js:116-118 | the list holds exactly the users for whom `HasUserPurchased` holds, each once, so its length is the purchase count. It is empty with no record |
| `Auth.UserIdFor` | backend/src/services/authService.js:17 | the id is `user_` followed by the unchanged username |
| `Auth.UserIdInjective` | backend/src/services/authService.js:17-21 | distinct usernames get distinct ids, so one login never overwrites another user's entry |
| `Auth.AuthService.constructor` | backend/src/services/authService.js:4-8 | the table starts empty |
| `Auth.AuthService.Login` | backend/src/services/authService.js:10-24 | an empty username fails with "Username is required." and leaves the table unchanged. Otherwise it returns the user with id `user_`+username and that username, stores it under that id (overwriting), leaves every other entry unchanged, and keeps the table's invariant |
| `Auth.AuthService.GetUserById` | backend/src/services/authService.js:26-28 | the stored user iff the id is a key, otherwise nothing. Under the invariant, a found user has that id and was made from the matching username |
| `Auth.AuthService.ClearUsers` | backend/src/services/authService.js:31-33 | the table is empty and every lookup finds nothing |

## Left out

- Concurrency: the service has no locks. Each operation is modelled as one indivisible sequential step, which is what the single-threaded runtime gives. A sequence of such steps is modelled by `Run`. Interleavings and locking are not modelled.
- Clock and configuration: Each `Date.now()` reading becomes a parameter: `now`, plus `initNow` for the second reading taken when `GetCurrentSaleState` recreates the record. The environment parsing with its fallback defaults (10 units, 5 minutes, 30 seconds) becomes constructor parameters.
- Numbers: times and stock are unbounded integers. The source's double-precision numbers agree with them only while the configured values and the times stay below 2^53; larger values parsed from the environment would round in `now + PRE_SALE_WAIT_MS` and `currentStock--`, and that rounding is not modelled.
- In-place update: the sale record is mutated in place in the source and reassigned as a value here. No other object holds a reference to it, so no aliasing is lost.
- Unchecked inputs: a missing or non-string user id (JavaScript `undefined`, `null`) is not modelled for purchases. For status reads an absent user id is `None`. `Login` treats only the empty string as a missing username.
- Password: the `password` argument of `Login` is accepted and ignored, as in the source.
- Asynchrony: `Login` and `GetUserById` are `async` in the source and are modelled as direct calls. A thrown error is a `Failure` result.
- `FlashSale.FlashSaleService.AttemptPurchase`: requires a sale record. With no record the source throws a `TypeError` when it reads the window; that thrown error is not modelled. The service itself always holds a record after construction, and only outside code (the unit tests) sets it to `null`.
- `FlashSale.FlashSaleService.ListAllPurchases`: does not state the order of the list. The source returns the buyers in insertion order, and the model keeps them in a set.
- HTTP controllers, response caching and ETags, artificial latency, routing, validation, middleware, the stress test and the frontend are outside the modelled services.
