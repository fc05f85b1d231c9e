# Shoe marketplace canister: a Dafny model

This project models the core of a shoe marketplace canister for the Internet
Computer, written in TypeScript with Azle. It has three stable key-value stores:

- `shoesStorage`: shoe id to `Shoe`;
- `pendingOrders`: correlation id (memo) to `Order`;
- `persistedOrders`: completing principal to `Order`.

A seller lists a shoe. A buyer reserves it with `createOrder`, which files a
`PaymentPending` order under a memo hashed from the shoe id, the caller and
the time, and arms an expiry timer. The buyer then pays on the ICP ledger
with that memo and calls `completePurchase`. That call checks the ledger block
for a matching transfer, removes the pending order, adds one to the shoe's
`soldAmount` and files a `Completed` copy of the order under the caller. If
the timer fires first, it removes the memo's pending order.

Files and modules:

- `types.dfy` (`Types`): the Candid records (`Shoe`, `ShoePayload`, `Order`,
  `OrderStatus`, `Message`) and the `nat64` and `int8` widths. It also holds
  `Result`, `Option` and `Outcome`: a call either returns a value or traps.
  `Platform` holds the foreign functions: `hash` and
  `binaryAddressFromPrincipal(_, 0)`.
- `ledger.dfy` (`Ledger`): `verifyPaymentInternal` as a pure function over the
  block list the ledger returned.
- `correlation.dfy` (`Correlation`): `generateCorrelationId`. The text
  `${shoeId}_${caller}_${time}` is built explicitly; the hash is left abstract.
- `catalog.dfy` (`Catalog`): the `getShoesBy*` filters.
- `market.dfy` (`Market`): the three stores as one value, `Stores`. Each update
  handler is a function from the old stores to the new stores and the reply.
  The invariant `Consistent` is proved to hold after every handler and every
  sequence of calls. The lifecycle lemmas are here too.
- `store.dfy` (`Canister`): the class `Store`, whose fields are the three maps.
  Its methods change those fields step by step, as the handlers do. Each
  method is proved to reach the state and reply that its `Market` function
  gives. Each `Market` handler function is the specification of the
  `Canister.Store` method of the same name.

Modelling decisions:

- A `throw` escaping a handler is a trap (`Outcome.Trapped`). The Internet
  Computer discards every state change a trapped call made since its last
  `await`. So in the model a trapped call leaves all three stores unchanged.
  This includes `completePurchase`'s removal of the pending order when the
  shoe turns out to be missing (index.ts:246 and index.ts:254).
- Storing a record whose field is outside its Candid width fails. The model
  therefore traps when `likeShoe` would store a `like` of 128 in the `int8`
  field, and when `completePurchase` would store a `soldAmount` of 2^64 in the
  `nat64` field.
- In `verifyPaymentInternal`, a block whose memo matches but which has no
  operation makes the test read `Transfer` of `undefined`, which throws, so
  the call traps. A block whose operation is not a transfer never matches,
  because its amount is `undefined`.
- `ic.caller()`, `ic.time()`, the uuid of a new shoe, and the block list
  returned by `query_blocks` are parameters. `hash` and
  `binaryAddressFromPrincipal` are fields of a `Platform` value. Nothing is
  assumed about them, so hash collisions are possible in the model.

What the code does at points where a reader might expect otherwise, and the
model does too:

- A failed verification is reported as `NotFound`. There is no separate
  verification-failure error (index.ts:244).
- A shoe missing at completion is a trap, not an error result (index.ts:254).
- As written, `addShoe` traps on every payload it does not refuse, and
  `verifyPayment` traps on every call (see Findings). `Market.AddShoe` and
  `Canister.Store.VerifyPaymentComposite` model the evidently intended
  handlers. The rest of the model uses `Market.AddShoe`; `completePurchase`,
  an update call, reaches the verifier directly through
  `Ledger.VerifyPaymentInternal`.
- `completePurchase` checks the payment against the seller and price
  passed in by the caller, not against the pending order's. It also credits
  the shoe `id` that was passed in, which need not be the order's `shoeId`.
  `Market.CompletionIgnoresOrderTerms` proves this: any live reservation
  completes when the matching transfer exists, whatever amount or receiver the
  caller names.
- `persistedOrders` is keyed by the caller. A second completion by the same
  caller overwrites the first entry (index.ts:259).
- `updateShoe` checks no ownership. Any caller can replace any stored shoe,
  including its seller and `soldAmount` (index.ts:154-161). Only
  `deleteShoeById` is restricted to the seller.

## Model

| member | source | states |
|---|---|---|
| `Ledger.FindPayment` | src/dfinity_js_backend/src/index.ts:337-345 | `blocks.find`: ends up empty-handed exactly when no block pays the claim and none makes the test throw. A hit is a paying block with no throwing block before it; a throw comes from a faulting block with no paying block before it |
| `Ledger.VerifyPaymentInternal` | src/dfinity_js_backend/src/index.ts:332-347 | false on an empty block list. True only if some block has the memo, sender hash, receiver hash and amount of the claim. False exactly when no block matches and none throws. A trap only when some block has the memo but no operation. On the single block `query_blocks` is asked for, true exactly when it pays the claim and a trap exactly when it has the memo but no operation |
| `Ledger.VerifyPaymentDecides` | src/dfinity_js_backend/src/index.ts:334-346 | when every block carries an operation, the verifier never traps and answers true iff some block pays the claim |
| `Ledger.MismatchRejected` | src/dfinity_js_backend/src/index.ts:341-344 | a single transfer block that differs from the claim in memo, hashed sender, hashed receiver or amount is rejected |
| `Ledger.MatchAccepted` | src/dfinity_js_backend/src/index.ts:337-346 | a single block that pays the claim is accepted |
| `Correlation.Decimal` | src/dfinity_js_backend/src/index.ts:317 | the rendering of the timestamp in the template string is non-empty, made of decimal digits only, and starts with `0` only for zero |
| `Correlation.CorrelationId` | src/dfinity_js_backend/src/index.ts:316-319 | the memo is `hash` applied to the text `${shoeId}_${caller}_${time}`; its properties are stated by `Correlation.CorrelationTextSeparatesTimes` |
| `Correlation.DecimalInjective` | src/dfinity_js_backend/src/index.ts:317 | the decimal rendering of the timestamp is injective |
| `Correlation.CorrelationTextSeparatesTimes` | src/dfinity_js_backend/src/index.ts:316-319 | for one shoe and one caller, correlation texts at different times differ, so only a hash collision can give them one memo |
| `Catalog.Filter` | src/dfinity_js_backend/src/index.ts:84-97 | `filter` returns exactly the accepted elements of the listing and is no longer than it |
| `Catalog.FilterCounts` | src/dfinity_js_backend/src/index.ts:84-97 | each accepted element is kept as often as it occurs; every other element is dropped |
| `Catalog.FilterAppend` | src/dfinity_js_backend/src/index.ts:84-97 | filtering a concatenation filters each part, so the listing's order is kept |
| `Catalog.ShoesByLocation` | src/dfinity_js_backend/src/index.ts:84-87 | a shoe is in the result iff it is listed and has exactly that location |
| `Catalog.ShoesByPrice` | src/dfinity_js_backend/src/index.ts:89-92 | a shoe is in the result iff it is listed and minPrice <= price <= maxPrice; the result is empty when maxPrice < minPrice |
| `Catalog.ShoesBySeller` | src/dfinity_js_backend/src/index.ts:94-97 | a shoe is in the result iff it is listed and has that seller |
| `Market.AddShoe` | src/dfinity_js_backend/src/index.ts:109-135 | the intended `addShoe`, without the `isNaN` test: a refusal is `InvalidPayload` with nothing changed; a listed shoe is stored under the new id; orders are never touched |
| `Market.AddShoeAsWritten` | src/dfinity_js_backend/src/index.ts:109-135 | `addShoe` as written: it never changes any store, and every reply it returns is `InvalidPayload` |
| `Market.AddShoeAsWrittenDiffers` | src/dfinity_js_backend/src/index.ts:119 | as written, `addShoe` traps exactly on the payloads the intended handler stores; on every other payload both refuse with `InvalidPayload` and change nothing |
| `Market.UpdateShoe` | src/dfinity_js_backend/src/index.ts:154-161 | `NotFound` changes nothing; a success returns the caller's record for a stored id; orders are never touched |
| `Market.DeleteShoeById` | src/dfinity_js_backend/src/index.ts:168-181 | a refusal changes nothing; no shoe is ever added; orders are never touched |
| `Market.LikeShoe` | src/dfinity_js_backend/src/index.ts:184-197 | an unknown id and a trap both leave the stores unchanged; orders are never touched |
| `Market.InsertComment` | src/dfinity_js_backend/src/index.ts:200-209 | `NotFound` changes nothing; orders are never touched |
| `Market.CreateOrder` | src/dfinity_js_backend/src/index.ts:222-239 | shoes and persisted orders never change; `NotFound` changes nothing; a success adds exactly the new order's memo to the pending keys |
| `Market.CompletePurchase` | src/dfinity_js_backend/src/index.ts:241-261 | every reply but a success (an error or any trap) leaves all three stores as they were; no memo becomes pending, and the only new persisted key can be the caller |
| `Market.Discard` | src/dfinity_js_backend/src/index.ts:325-330 | the pending keys lose exactly `memo`; shoes and persisted orders stay; something is returned iff `memo` was pending |
| `Market.VerifyPaymentAsWritten` | src/dfinity_js_backend/src/index.ts:264-266 | `verifyPayment` as written: a plain query cannot make the `query_blocks` call, so every call traps; stated by `Market.VerifyPaymentAsWrittenDiffers` |
| `Market.VerifyPaymentAsWrittenDiffers` | src/dfinity_js_backend/src/index.ts:264-266 | on a single block that pays the claim the verifier answers true, while `verifyPayment` as written, a plain query that would have to call the ledger, traps |
| `Market.CreateOrderUnknownShoe` | src/dfinity_js_backend/src/index.ts:222-226 | an unknown shoe id gives `NotFound` and leaves all three stores unchanged |
| `Market.CreateOrderReserves` | src/dfinity_js_backend/src/index.ts:227-238 | the order is `PaymentPending` with no paid block. Its shoe id, price and seller are the stored shoe's. Its memo is the correlation id of (id, caller, time). It is filed under its memo; shoes and persisted orders are unchanged |
| `Market.CompleteUnverified` | src/dfinity_js_backend/src/index.ts:242-245 | a failed verification returns `NotFound` and changes no store, so the reservation stays for a retry |
| `Market.CompleteWithoutReservation` | src/dfinity_js_backend/src/index.ts:246-249 | a verified payment for a memo that is not pending returns `NotFound` and changes no store |
| `Market.CompleteMissingShoe` | src/dfinity_js_backend/src/index.ts:250-255 | a missing shoe traps, and the pending order's removal is rolled back |
| `Market.CompleteSucceedsIff` | src/dfinity_js_backend/src/index.ts:241-261 | completion succeeds iff the payment verifies, the memo is pending, the shoe exists and its sold count can grow |
| `Market.CompleteSettles` | src/dfinity_js_backend/src/index.ts:250-260 | on success the memo leaves `pendingOrders` and shoe `id` sells exactly one more; no other shoe changes. The returned order is the pending one with only status `Completed` and `paidAtBlock = Some(block)` changed, and it is filed under the caller |
| `Market.DiscardRemovesOnlyMemo` | src/dfinity_js_backend/src/index.ts:325-330 | the timer callback removes key `memo` and no other; it never touches shoes or persisted orders; it removes something iff the key was present |
| `Market.DiscardIdempotent` | src/dfinity_js_backend/src/index.ts:325-330 | firing the callback twice has the effect of firing it once; the second time removes nothing |
| `Market.DeleteShoeByIdCases` | src/dfinity_js_backend/src/index.ts:168-181 | an absent id gives `NotFound` and a foreign caller `NotOwner`, both with nothing changed. Otherwise exactly that key is removed and the id returned |
| `Market.AddShoeValidates` | src/dfinity_js_backend/src/index.ts:109-135 | refused with `InvalidPayload`, with nothing changed, exactly when the name is empty or the price is zero. Otherwise the stored and returned shoe has the new id, the caller as seller, zero sold, zero likes, no comments, and the payload's name, description, location, price, size and URL; it is the only change |
| `Market.UpdateShoeReplaces` | src/dfinity_js_backend/src/index.ts:154-161 | an unknown id gives `NotFound` with nothing changed; any caller's record for a stored id replaces that shoe, is returned, and is the only change |
| `Market.LikeShoeCounts` | src/dfinity_js_backend/src/index.ts:184-197 | an unknown id gives `NotFound` and a count at the `int8` maximum traps, both with nothing changed. Otherwise the shoe gains exactly one like, nothing else changes, and the liked shoe is returned |
| `Market.InsertCommentAppends` | src/dfinity_js_backend/src/index.ts:200-209 | an unknown id gives `NotFound` with nothing changed. Otherwise the new comments are the old ones, a line break and the comment, or the comment alone if there were none; they are stored and returned, and orders are untouched |
| `Market.AddShoePreserves` | src/dfinity_js_backend/src/index.ts:123-134 | `addShoe` keeps the stores consistent |
| `Market.UpdateShoePreserves` | src/dfinity_js_backend/src/index.ts:155-160 | `updateShoe` keeps every shoe stored under its own id |
| `Market.DeleteShoeByIdPreserves` | src/dfinity_js_backend/src/index.ts:168-181 | `deleteShoeById` keeps the stores consistent |
| `Market.LikeShoePreserves` | src/dfinity_js_backend/src/index.ts:184-197 | `likeShoe` keeps the stores consistent |
| `Market.InsertCommentPreserves` | src/dfinity_js_backend/src/index.ts:200-209 | `insertComment` keeps the stores consistent |
| `Market.CreateOrderPreserves` | src/dfinity_js_backend/src/index.ts:227-236 | every pending order is filed under its own memo and awaits payment |
| `Market.CompletePurchasePreserves` | src/dfinity_js_backend/src/index.ts:250-259 | every persisted order is `Completed` with a paid block |
| `Market.DiscardPreserves` | src/dfinity_js_backend/src/index.ts:325-330 | the timer callback keeps the stores consistent |
| `Market.RunPreservesConsistent` | src/dfinity_js_backend/src/index.ts:59-61 | every sequence of update calls keeps the three stores consistent |
| `Market.StepKeepsMemoOut` | src/dfinity_js_backend/src/index.ts:236 | only a reservation whose correlation id is `m` can make `m` pending |
| `Market.CompletionConsumes` | src/dfinity_js_backend/src/index.ts:246-249 | a successful completion of `m` needs `m` pending and removes it |
| `Market.CompletedAtMostOnce` | src/dfinity_js_backend/src/index.ts:246-260 | in any sequence of calls that reserves `m` no more, `m` is completed at most once, and not at all if it is not pending at the start |
| `Market.CompleteTwice` | src/dfinity_js_backend/src/index.ts:246-249 | repeating a successful completion returns `NotFound` and changes nothing, so the shoe is credited once |
| `Market.DiscardAfterCompletion` | src/dfinity_js_backend/src/index.ts:325-330 | the timer firing after a completion removes nothing and changes nothing |
| `Market.ExpiredNeverCompleted` | src/dfinity_js_backend/src/index.ts:325-330 | after expiry, no later call completes the memo unless it is reserved anew |
| `Market.CompletionIgnoresOrderTerms` | src/dfinity_js_backend/src/index.ts:241-244 | any live reservation completes when the ledger shows a transfer under its memo of the amount to the receiver that the caller names, whatever the order's price and seller |
| `Canister.Store.constructor` | src/dfinity_js_backend/src/index.ts:59-61 | the three stores start empty and consistent |
| `Canister.Store.AddShoe` | src/dfinity_js_backend/src/index.ts:109-135 | ends in the state and reply of `Market.AddShoe` and keeps `Valid()` |
| `Canister.Store.UpdateShoe` | src/dfinity_js_backend/src/index.ts:154-161 | ends in the state and reply of `Market.UpdateShoe` and keeps `Valid()` |
| `Canister.Store.DeleteShoeById` | src/dfinity_js_backend/src/index.ts:168-181 | ends in the state and reply of `Market.DeleteShoeById` and keeps `Valid()` |
| `Canister.Store.LikeShoe` | src/dfinity_js_backend/src/index.ts:184-197 | ends in the state and reply of `Market.LikeShoe` and keeps `Valid()` |
| `Canister.Store.InsertComment` | src/dfinity_js_backend/src/index.ts:200-209 | ends in the state and reply of `Market.InsertComment` and keeps `Valid()` |
| `Canister.Store.CreateOrder` | src/dfinity_js_backend/src/index.ts:222-239 | ends in the state and reply of `Market.CreateOrder` and keeps `Valid()` |
| `Canister.Store.CompletePurchase` | src/dfinity_js_backend/src/index.ts:241-261 | runs verify, remove, credit and file in the source's order, rolling back on a trap. It ends in the state and reply of `Market.CompletePurchase` and keeps `Valid()` |
| `Canister.Store.Discard` | src/dfinity_js_backend/src/index.ts:326-329 | ends in the state of `Market.Discard`, returns what it removed, and keeps `Valid()` |
| `Canister.Store.VerifyPaymentComposite` | src/dfinity_js_backend/src/index.ts:264-266 | `verifyPayment` as a composite query: it answers as the verifier does, and true only if some block pays the claim |
| `Canister.PurchaseScenario` | src/dfinity_js_backend/src/index.ts:222-261 | reserve, pay and complete. The order is pending at the shoe's price and seller; the first completion returns it settled at `block`; a second completion gets `NotFound` and the later timer removes nothing. The store ends with exactly one more sale of the shoe, the settled order under the buyer and the memo no longer pending, which is the state right after the first completion |

## Left out

- `makePayment` (index.ts:269-291): an outbound ledger transfer and a fee query, which the order flow does not use.
- The `hashCode` package and `Math.abs` in `hash` (index.ts:298-300): `hash` is an arbitrary function to `nat64`. The model does not claim it is collision-free, and it assumes `hash` does not throw, including on `undefined`.
- `uuidv4` and the `globalThis.crypto` workaround (index.ts:303-314): use randomness. The new shoe's id is a parameter.
- The `query_blocks` call and `binaryAddressFromPrincipal`: the returned block list and the address function are inputs. Blocks the ledger reports as archived are not looked at, as in the source.
- Timer mechanics: `ic.setTimer`, the `ORDER_RESERVATION_PERIOD` of 120, and when the callback runs relative to other calls. Only the callback's effect is modelled, as `Discard`.
- Suspension at `await` and interleaving between handlers: every call is modelled as one atomic step. `console.log` is left out.
- The read-only queries `getShoes`, `getOrders`, `getPendingOrders`, `getShoe`, `getComments`, `searchShoe` (which depends on `toLowerCase`/`includes`) and `getNoOfShoes` (with its `Number` conversion).
- The order of `shoesStorage.values()`: it is decided by the storage library. The `getShoesBy*` functions take the listing as a sequence.
- Candid serialisation details, the texts carried by `Message` cases, and the text payloads of `OrderStatus`. The `typeof` and `Object.keys` checks in `addShoe` (index.ts:110-112) are left out: a decoded `shoePayload` is always a record with six fields, so they never refuse it. Its `isNaN` test is modelled (see Findings).
- `Market.CompletedAtMostOnce`: assumes no later reservation hashes to the same memo. Two cases are outside what it states: a hash collision between two reservations, and the same caller reserving the same shoe again at the same `ic.time()` (two calls in one round), which gives the same correlation text and so the same memo.

## Findings

| source | as written | input that shows it | evidently intended | confidence | as-written member | corrected member |
|---|---|---|---|---|---|---|
| src/dfinity_js_backend/src/index.ts:119 | `isNaN(payload.price)` is applied to the `nat64` price, which is a BigInt; `isNaN` converts it to a Number, and that throws a `TypeError` for a BigInt, so the call traps | any payload with a non-empty name and a non-zero price, e.g. name `"a"` and price `1` | store the shoe; refuse only an empty name or a zero price | medium, not executed | `Market.AddShoeAsWritten` | `Market.AddShoe` |
| src/dfinity_js_backend/src/index.ts:264-266 | `verifyPayment` is declared a plain `query`, but its body awaits `verifyPaymentInternal`, which calls the ledger's `query_blocks`; a plain query may not call another canister, so every call traps | any call, e.g. one whose ledger block pays the claim, which `Ledger.MatchAccepted` shows the verifier accepts | a composite query that returns the verifier's answer | medium, not executed | `Market.VerifyPaymentAsWritten` | `Canister.Store.VerifyPaymentComposite` |
