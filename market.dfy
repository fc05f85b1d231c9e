/** The canister's three stores as one value, and each update handler as a
    function from the stores before the call to the stores after it and the
    reply. These functions specify the methods of `Canister.Store`; the
    lemmas below state what the handlers promise, alone and in sequence. */
module Market {
  import opened Types
  import Ledger
  import Correlation

  /** `shoesStorage` (id to shoe), `pendingOrders` (memo to order) and
      `persistedOrders` (completing principal to order). */
  datatype Stores = Stores(
    shoes: map<string, Shoe>,
    pending: map<Nat64, Order>,
    persisted: map<Principal, Order>)

  /** What every handler keeps: a shoe is stored under its own id, a pending
      order under its own memo and still awaiting payment, and a persisted
      order is settled. */
  ghost predicate Consistent(s: Stores) {
    && (forall id :: id in s.shoes ==> s.shoes[id].id == id)
    && (forall m :: m in s.pending ==> s.pending[m].memo == m && Awaiting(s.pending[m]))
    && (forall p :: p in s.persisted ==> Settled(s.persisted[p]))
  }

  // ---------------------------------------------------------------- catalog

  /** The shoe `addShoe` builds: the payload's fields, the caller as seller,
      nothing sold, no likes, no comments. */
  function ListedShoe(id: string, seller: Principal, p: ShoePayload): Shoe {
    Shoe(id, p.name, p.description, p.location, p.price, p.size, seller, p.shoeURL, 0, 0, "")
  }

  /** `addShoe`: a payload without a name or with a zero price is refused; a
      valid one is stored under the fresh id `newId`. */
  function AddShoe(s: Stores, payload: ShoePayload, newId: string, caller: Principal): (r: (Stores, Result<Shoe>))
    ensures r.0.pending == s.pending && r.0.persisted == s.persisted
    ensures r.1.Err? ==> r == (s, Err(InvalidPayload))
    ensures r.1.Ok? ==> r.0.shoes == s.shoes[newId := r.1.value]
  {
    if payload.name == "" || payload.price == 0 then (s, Err(InvalidPayload))
    else
      var shoe := ListedShoe(newId, caller, payload);
      (s.(shoes := s.shoes[shoe.id := shoe]), Ok(shoe))
  }

  /** `addShoe` as written. Its last test applies `isNaN` to the price, which
      is a BigInt; `isNaN` converts its argument to a Number, and that
      conversion throws for a BigInt. Every payload that passes the name and
      price tests therefore traps, and no shoe is ever stored. */
  function AddShoeAsWritten(s: Stores, payload: ShoePayload, newId: string, caller: Principal): (r: (Stores, Outcome<Result<Shoe>>))
    ensures r.0 == s
    ensures r.1.Returned? ==> r.1.value == Err(InvalidPayload)
  {
    if payload.name == "" || payload.price == 0 then (s, Returned(Err(InvalidPayload)))
    else (s, Trapped)
  }

  /** `updateShoe`: replaces a stored shoe by the caller's record, whoever
      the caller is. */
  function UpdateShoe(s: Stores, payload: Shoe): (r: (Stores, Result<Shoe>))
    ensures r.0.pending == s.pending && r.0.persisted == s.persisted
    ensures r.1.Err? ==> r.0 == s
    ensures r.1.Ok? ==> r.1.value == payload && payload.id in s.shoes
  {
    if payload.id !in s.shoes then (s, Err(NotFound))
    else (s.(shoes := s.shoes[s.shoes[payload.id].id := payload]), Ok(payload))
  }

  /** `deleteShoeById`: only the shoe's seller may remove it. */
  function DeleteShoeById(s: Stores, id: string, caller: Principal): (r: (Stores, Result<string>))
    ensures r.0.pending == s.pending && r.0.persisted == s.persisted
    ensures r.1.Err? ==> r.0 == s
    ensures r.0.shoes.Keys <= s.shoes.Keys
  {
    if id !in s.shoes then (s, Err(NotFound))
    else if s.shoes[id].seller != caller then (s, Err(NotOwner))
    else (s.(shoes := s.shoes - {id}), Ok(s.shoes[id].id))
  }

  /** `likeShoe`: one more like. A count already at the `int8` maximum cannot
      be stored again, so the call traps. */
  function LikeShoe(s: Stores, id: string): (r: (Stores, Outcome<Result<Shoe>>))
    ensures r.0.pending == s.pending && r.0.persisted == s.persisted
    ensures !(r.1.Returned? && r.1.value.Ok?) ==> r.0 == s
  {
    if id !in s.shoes then (s, Returned(Err(NotFound)))
    else
      var shoe := s.shoes[id];
      if shoe.like == MAX_INT8 then (s, Trapped)
      else
        var liked := shoe.(like := shoe.like + 1);
        (s.(shoes := s.shoes[liked.id := liked]), Returned(Ok(liked)))
  }

  /** The comment text after `comment` is added to `comments`. */
  function JoinComments(comments: string, comment: string): string {
    if comments != "" then comments + "\n" + comment else comment
  }

  /** `insertComment`: appends a line to the shoe's comments and returns them. */
  function InsertComment(s: Stores, id: string, comment: string): (r: (Stores, Result<string>))
    ensures r.0.pending == s.pending && r.0.persisted == s.persisted
    ensures r.1.Err? ==> r.0 == s
  {
    if id !in s.shoes then (s, Err(NotFound))
    else
      var shoe := s.shoes[id];
      var commented := shoe.(comments := JoinComments(shoe.comments, comment));
      (s.(shoes := s.shoes[commented.id := commented]), Ok(commented.comments))
  }

  // ----------------------------------------------------------------- orders

  /** `createOrder`, called by `caller` at `time`: reserves the shoe at its
      current price by a pending order under a fresh correlation id. */
  function CreateOrder(s: Stores, id: string, caller: Principal, time: Nat64, hash: Hashable -> Nat64): (r: (Stores, Result<Order>))
    ensures r.0.shoes == s.shoes && r.0.persisted == s.persisted
    ensures r.1.Err? ==> r.0 == s
    ensures r.1.Ok? ==> r.0.pending.Keys == s.pending.Keys + {r.1.value.memo}
  {
    if id !in s.shoes then (s, Err(NotFound))
    else
      var shoe := s.shoes[id];
      var order := Order(shoe.id, shoe.price, PaymentPending, shoe.seller, None,
                         Correlation.CorrelationId(id, caller, time, hash));
      (s.(pending := s.pending[order.memo := order]), Ok(order))
  }

  /** What `completePurchase` asks the ledger to show: a transfer under
      `memo`, from the caller's account to `seller`'s, of `price`. */
  function PaymentClaim(seller: Principal, price: Nat64, memo: Nat64, caller: Principal, p: Platform): Ledger.Claim {
    Ledger.Claim(memo, p.accountOf(caller), p.accountOf(seller), price)
  }

  /** The verifier's answer for a completion; `blocks` is what `query_blocks`
      returned for the one block at the given index. */
  function Verdict(seller: Principal, price: Nat64, memo: Nat64, caller: Principal, blocks: seq<Ledger.Block>, p: Platform): Outcome<bool> {
    Ledger.VerifyPaymentInternal(blocks, PaymentClaim(seller, price, memo, caller, p), p.hash)
  }

  /** `verifyPayment` as written. It is declared a plain `query`, and a plain
      query may not call another canister, so the `query_blocks` call inside
      `verifyPaymentInternal` traps, whatever the arguments and the blocks. */
  function VerifyPaymentAsWritten(receiver: Principal, amount: Nat64, memo: Nat64, caller: Principal,
                                  blocks: seq<Ledger.Block>, p: Platform): Outcome<bool> {
    Trapped
  }

  /** On a block that pays the claim, the verifier accepts while the
      `verifyPayment` query as written traps. */
  lemma VerifyPaymentAsWrittenDiffers(receiver: Principal, amount: Nat64, memo: Nat64, caller: Principal,
                                      b: Ledger.Block, p: Platform)
    requires Ledger.PaysFor(b, PaymentClaim(receiver, amount, memo, caller, p), p.hash)
    ensures Verdict(receiver, amount, memo, caller, [b], p) == Returned(true)
    ensures VerifyPaymentAsWritten(receiver, amount, memo, caller, [b], p) == Trapped
  {
    Ledger.MatchAccepted(b, PaymentClaim(receiver, amount, memo, caller, p), p.hash);
  }

  /** The order `completePurchase` persists and returns. */
  function Settle(o: Order, block: Nat64): Order {
    o.(status := Completed, paidAtBlock := Some(block))
  }

  /** `completePurchase`, called by `caller`. A failed verification is
      reported as `NotFound`. Every trap (a throwing verifier, a shoe missing
      at completion, a sold count that no longer fits `nat64`) leaves the
      stores as they were, the removal of the pending order included. */
  function CompletePurchase(s: Stores, seller: Principal, id: string, price: Nat64, block: Nat64, memo: Nat64,
                            caller: Principal, blocks: seq<Ledger.Block>, p: Platform): (r: (Stores, Outcome<Result<Order>>))
    ensures !(r.1.Returned? && r.1.value.Ok?) ==> r.0 == s
    ensures r.0.pending.Keys <= s.pending.Keys && r.0.persisted.Keys <= s.persisted.Keys + {caller}
  {
    var verdict := Verdict(seller, price, memo, caller, blocks, p);
    if verdict.Trapped? then (s, Trapped)
    else if !verdict.value then (s, Returned(Err(NotFound)))
    else if memo !in s.pending then (s, Returned(Err(NotFound)))
    else if id !in s.shoes then (s, Trapped)
    else
      var shoe := s.shoes[id];
      if shoe.soldAmount == MAX_NAT64 then (s, Trapped)
      else
        var updated := Settle(s.pending[memo], block);
        var sold := shoe.(soldAmount := shoe.soldAmount + 1);
        (Stores(s.shoes[sold.id := sold], s.pending - {memo}, s.persisted[caller := updated]),
         Returned(Ok(updated)))
  }

  /** The `discardByTimeout` timer callback: removes the key, whatever it
      holds, and hands back what was removed (which the source only logs). */
  function Discard(s: Stores, memo: Nat64): (r: (Stores, Option<Order>))
    ensures r.0.shoes == s.shoes && r.0.persisted == s.persisted
    ensures r.0.pending.Keys == s.pending.Keys - {memo}
    ensures r.1.Some? <==> memo in s.pending
  {
    (s.(pending := s.pending - {memo}), if memo in s.pending then Some(s.pending[memo]) else None)
  }

  // --------------------------------------------------- single-call lemmas

  lemma CreateOrderUnknownShoe(s: Stores, id: string, caller: Principal, time: Nat64, hash: Hashable -> Nat64)
    requires id !in s.shoes
    ensures CreateOrder(s, id, caller, time, hash) == (s, Err(NotFound))
  {
  }

  lemma CreateOrderReserves(s: Stores, id: string, caller: Principal, time: Nat64, hash: Hashable -> Nat64)
    requires Consistent(s) && id in s.shoes
    ensures var (s', r) := CreateOrder(s, id, caller, time, hash);
      && r.Ok?
      && Awaiting(r.value)
      && r.value.shoeId == id
      && r.value.price == s.shoes[id].price
      && r.value.seller == s.shoes[id].seller
      && r.value.memo == Correlation.CorrelationId(id, caller, time, hash)
      && s'.pending == s.pending[r.value.memo := r.value]
      && s'.shoes == s.shoes && s'.persisted == s.persisted
  {
  }

  /** A failed verification changes nothing, so the reservation stays for a retry. */
  lemma CompleteUnverified(s: Stores, seller: Principal, id: string, price: Nat64, block: Nat64, memo: Nat64,
                           caller: Principal, blocks: seq<Ledger.Block>, p: Platform)
    requires Verdict(seller, price, memo, caller, blocks, p) == Returned(false)
    ensures CompletePurchase(s, seller, id, price, block, memo, caller, blocks, p) == (s, Returned(Err(NotFound)))
  {
  }

  /** A verified payment without a live reservation (never made, expired or
      already completed) is refused and changes nothing. */
  lemma CompleteWithoutReservation(s: Stores, seller: Principal, id: string, price: Nat64, block: Nat64, memo: Nat64,
                                   caller: Principal, blocks: seq<Ledger.Block>, p: Platform)
    requires Verdict(seller, price, memo, caller, blocks, p) == Returned(true)
    requires memo !in s.pending
    ensures CompletePurchase(s, seller, id, price, block, memo, caller, blocks, p) == (s, Returned(Err(NotFound)))
  {
  }

  /** A shoe missing at completion traps, and the trap undoes the removal of
      the pending order. */
  lemma CompleteMissingShoe(s: Stores, seller: Principal, id: string, price: Nat64, block: Nat64, memo: Nat64,
                            caller: Principal, blocks: seq<Ledger.Block>, p: Platform)
    requires Verdict(seller, price, memo, caller, blocks, p) == Returned(true)
    requires memo in s.pending && id !in s.shoes
    ensures CompletePurchase(s, seller, id, price, block, memo, caller, blocks, p) == (s, Trapped)
  {
  }

  /** A successful completion happens exactly when the payment verifies, the
      reservation is live and the shoe is there to be credited. */
  lemma CompleteSucceedsIff(s: Stores, seller: Principal, id: string, price: Nat64, block: Nat64, memo: Nat64,
                            caller: Principal, blocks: seq<Ledger.Block>, p: Platform)
    ensures CompletePurchase(s, seller, id, price, block, memo, caller, blocks, p).1.Returned? &&
            CompletePurchase(s, seller, id, price, block, memo, caller, blocks, p).1.value.Ok?
        <==> Verdict(seller, price, memo, caller, blocks, p) == Returned(true) &&
             memo in s.pending && id in s.shoes && s.shoes[id].soldAmount < MAX_NAT64
  {
  }

  /** A successful completion consumes the reservation, credits the shoe
      `id` with exactly one sale and nothing else, and files the settled
      order under the caller, replacing what the caller had there. */
  lemma CompleteSettles(s: Stores, seller: Principal, id: string, price: Nat64, block: Nat64, memo: Nat64,
                        caller: Principal, blocks: seq<Ledger.Block>, p: Platform)
    requires Consistent(s)
    requires CompletePurchase(s, seller, id, price, block, memo, caller, blocks, p).1.Returned?
    requires CompletePurchase(s, seller, id, price, block, memo, caller, blocks, p).1.value.Ok?
    ensures var (s', r) := CompletePurchase(s, seller, id, price, block, memo, caller, blocks, p);
      && memo in s.pending && id in s.shoes
      && r.value.value == s.pending[memo].(status := Completed, paidAtBlock := Some(block))
      && s'.pending == s.pending - {memo}
      && s'.shoes.Keys == s.shoes.Keys
      && s'.shoes[id] == s.shoes[id].(soldAmount := s.shoes[id].soldAmount + 1)
      && (forall k :: k in s.shoes && k != id ==> s'.shoes[k] == s.shoes[k])
      && s'.persisted == s.persisted[caller := r.value.value]
  {
  }

  /** The expiry callback removes the key `memo` and nothing else. */
  lemma DiscardRemovesOnlyMemo(s: Stores, memo: Nat64)
    ensures var (s', removed) := Discard(s, memo);
      && memo !in s'.pending
      && (forall m :: m != memo ==> (m in s'.pending <==> m in s.pending))
      && (forall m :: m in s'.pending ==> s'.pending[m] == s.pending[m])
      && s'.shoes == s.shoes && s'.persisted == s.persisted
      && (removed.Some? <==> memo in s.pending)
  {
  }

  /** Expiry is idempotent. */
  lemma DiscardIdempotent(s: Stores, memo: Nat64)
    ensures Discard(Discard(s, memo).0, memo) == (Discard(s, memo).0, None)
  {
    assert (s.pending - {memo}) - {memo} == s.pending - {memo};
  }

  /** `deleteShoeById`: absent id, foreign caller, or removal of that key only. */
  lemma DeleteShoeByIdCases(s: Stores, id: string, caller: Principal)
    requires Consistent(s)
    ensures var (s', r) := DeleteShoeById(s, id, caller);
      && (id !in s.shoes ==> r == Err(NotFound) && s' == s)
      && (id in s.shoes && s.shoes[id].seller != caller ==> r == Err(NotOwner) && s' == s)
      && (id in s.shoes && s.shoes[id].seller == caller ==>
            r == Ok(id) && s'.shoes == s.shoes - {id} && s'.pending == s.pending && s'.persisted == s.persisted)
  {
  }

  /** As written, `addShoe` traps on exactly the payloads the intended
      handler stores. */
  lemma AddShoeAsWrittenDiffers(s: Stores, payload: ShoePayload, newId: string, caller: Principal)
    ensures AddShoeAsWritten(s, payload, newId, caller).1 == Trapped <==> AddShoe(s, payload, newId, caller).1.Ok?
    ensures AddShoe(s, payload, newId, caller).1.Err? ==>
      AddShoeAsWritten(s, payload, newId, caller) == (s, Returned(AddShoe(s, payload, newId, caller).1))
  {
  }

  /** `addShoe` refuses exactly the payloads without a name or without a price. */
  lemma AddShoeValidates(s: Stores, payload: ShoePayload, newId: string, caller: Principal)
    ensures var (s', r) := AddShoe(s, payload, newId, caller);
      && (r.Err? <==> payload.name == "" || payload.price == 0)
      && (r.Err? ==> r.error == InvalidPayload && s' == s)
      && (r.Ok? ==> r.value == ListedShoe(newId, caller, payload) &&
                    r.value.id == newId && r.value.seller == caller && r.value.soldAmount == 0 &&
                    r.value.like == 0 && r.value.comments == "" &&
                    r.value.name == payload.name && r.value.description == payload.description &&
                    r.value.location == payload.location && r.value.price == payload.price &&
                    r.value.size == payload.size && r.value.shoeURL == payload.shoeURL &&
                    s'.shoes == s.shoes[newId := r.value] && s'.pending == s.pending && s'.persisted == s.persisted)
  {
  }

  /** `updateShoe` checks no ownership: any caller's record for a stored id
      replaces the stored shoe. */
  lemma UpdateShoeReplaces(s: Stores, payload: Shoe)
    requires Consistent(s)
    ensures payload.id !in s.shoes ==> UpdateShoe(s, payload) == (s, Err(NotFound))
    ensures payload.id in s.shoes ==> UpdateShoe(s, payload) == (s.(shoes := s.shoes[payload.id := payload]), Ok(payload))
  {
  }

  /** `likeShoe`: an unknown id is refused, a count at the `int8` maximum
      traps, and otherwise exactly one like is added to that shoe and nothing
      else changes. */
  lemma LikeShoeCounts(s: Stores, id: string)
    requires Consistent(s)
    ensures id !in s.shoes ==> LikeShoe(s, id) == (s, Returned(Err(NotFound)))
    ensures id in s.shoes && s.shoes[id].like == MAX_INT8 ==> LikeShoe(s, id) == (s, Trapped)
    ensures id in s.shoes && s.shoes[id].like < MAX_INT8 ==>
      var (s', r) := LikeShoe(s, id);
      && r == Returned(Ok(s'.shoes[id]))
      && s'.shoes == s.shoes[id := s.shoes[id].(like := s.shoes[id].like + 1)]
      && s'.pending == s.pending && s'.persisted == s.persisted
  {
  }

  /** `insertComment` returns the new comments: the old ones, a line break and
      the comment, or the comment alone if there were none. An unknown id is
      refused. */
  lemma InsertCommentAppends(s: Stores, id: string, comment: string)
    requires Consistent(s)
    ensures id !in s.shoes ==> InsertComment(s, id, comment) == (s, Err(NotFound))
    ensures id in s.shoes ==>
      var (s', r) := InsertComment(s, id, comment);
      var old_ := s.shoes[id].comments;
      && r.Ok?
      && (old_ == "" ==> r.value == comment)
      && (old_ != "" ==> r.value[..|old_|] == old_ && r.value[|old_|] == '\n' && r.value[|old_| + 1..] == comment)
      && s'.shoes == s.shoes[id := s.shoes[id].(comments := r.value)]
      && s'.pending == s.pending && s'.persisted == s.persisted
  {
  }

  // ------------------------------------------------------ invariant kept

  lemma AddShoePreserves(s: Stores, payload: ShoePayload, newId: string, caller: Principal)
    requires Consistent(s)
    ensures Consistent(AddShoe(s, payload, newId, caller).0)
  {
  }

  lemma UpdateShoePreserves(s: Stores, payload: Shoe)
    requires Consistent(s)
    ensures Consistent(UpdateShoe(s, payload).0)
  {
  }

  lemma DeleteShoeByIdPreserves(s: Stores, id: string, caller: Principal)
    requires Consistent(s)
    ensures Consistent(DeleteShoeById(s, id, caller).0)
  {
  }

  lemma LikeShoePreserves(s: Stores, id: string)
    requires Consistent(s)
    ensures Consistent(LikeShoe(s, id).0)
  {
  }

  lemma InsertCommentPreserves(s: Stores, id: string, comment: string)
    requires Consistent(s)
    ensures Consistent(InsertComment(s, id, comment).0)
  {
  }

  lemma CreateOrderPreserves(s: Stores, id: string, caller: Principal, time: Nat64, hash: Hashable -> Nat64)
    requires Consistent(s)
    ensures Consistent(CreateOrder(s, id, caller, time, hash).0)
  {
  }

  lemma CompletePurchasePreserves(s: Stores, seller: Principal, id: string, price: Nat64, block: Nat64, memo: Nat64,
                                  caller: Principal, blocks: seq<Ledger.Block>, p: Platform)
    requires Consistent(s)
    ensures Consistent(CompletePurchase(s, seller, id, price, block, memo, caller, blocks, p).0)
  {
  }

  lemma DiscardPreserves(s: Stores, memo: Nat64)
    requires Consistent(s)
    ensures Consistent(Discard(s, memo).0)
  {
  }

  // -------------------------------------------------- sequences of calls

  /** One update call to the canister, with the environment it sees. */
  datatype Call =
    | ListShoe(payload: ShoePayload, newId: string, caller: Principal)
    | EditShoe(shoe: Shoe)
    | RemoveShoe(id: string, caller: Principal)
    | Like(id: string)
    | Comment(id: string, comment: string)
    | Reserve(id: string, caller: Principal, time: Nat64)
    | Complete(seller: Principal, id: string, price: Nat64, block: Nat64, memo: Nat64,
               caller: Principal, blocks: seq<Ledger.Block>)
    | Expire(memo: Nat64)

  function Step(s: Stores, c: Call, p: Platform): Stores {
    match c
    case ListShoe(payload, newId, caller) => AddShoe(s, payload, newId, caller).0
    case EditShoe(shoe) => UpdateShoe(s, shoe).0
    case RemoveShoe(id, caller) => DeleteShoeById(s, id, caller).0
    case Like(id) => LikeShoe(s, id).0
    case Comment(id, comment) => InsertComment(s, id, comment).0
    case Reserve(id, caller, time) => CreateOrder(s, id, caller, time, p.hash).0
    case Complete(seller, id, price, block, memo, caller, blocks) =>
      CompletePurchase(s, seller, id, price, block, memo, caller, blocks, p).0
    case Expire(memo) => Discard(s, memo).0
  }

  function Run(s: Stores, calls: seq<Call>, p: Platform): Stores
    decreases |calls|
  {
    if calls == [] then s else Run(Step(s, calls[0], p), calls[1..], p)
  }

  /** Every sequence of calls keeps the stores consistent. */
  lemma {:induction false} RunPreservesConsistent(s: Stores, calls: seq<Call>, p: Platform)
    requires Consistent(s)
    ensures Consistent(Run(s, calls, p))
    decreases |calls|
  {
    if calls != [] {
      match calls[0] {
        case ListShoe(payload, newId, caller) => AddShoePreserves(s, payload, newId, caller);
        case EditShoe(shoe) => UpdateShoePreserves(s, shoe);
        case RemoveShoe(id, caller) => DeleteShoeByIdPreserves(s, id, caller);
        case Like(id) => LikeShoePreserves(s, id);
        case Comment(id, comment) => InsertCommentPreserves(s, id, comment);
        case Reserve(id, caller, time) => CreateOrderPreserves(s, id, caller, time, p.hash);
        case Complete(seller, id, price, block, memo, caller, blocks) =>
          CompletePurchasePreserves(s, seller, id, price, block, memo, caller, blocks, p);
        case Expire(memo) => DiscardPreserves(s, memo);
      }
      RunPreservesConsistent(Step(s, calls[0], p), calls[1..], p);
    }
  }

  /** The call is a reservation whose correlation id is `m`. */
  predicate Reserves(c: Call, p: Platform, m: Nat64) {
    c.Reserve? && Correlation.CorrelationId(c.id, c.caller, c.time, p.hash) == m
  }

  /** The call completes a purchase under memo `m` successfully. */
  predicate CompletesMemo(s: Stores, c: Call, p: Platform, m: Nat64) {
    && c.Complete? && c.memo == m
    && var r := CompletePurchase(s, c.seller, c.id, c.price, c.block, c.memo, c.caller, c.blocks, p).1;
       r.Returned? && r.value.Ok?
  }

  /** How many calls of the sequence successfully complete memo `m`. */
  function Completions(s: Stores, calls: seq<Call>, p: Platform, m: Nat64): nat
    decreases |calls|
  {
    if calls == [] then 0
    else (if CompletesMemo(s, calls[0], p, m) then 1 else 0) + Completions(Step(s, calls[0], p), calls[1..], p, m)
  }

  /** Only a reservation with correlation id `m` can make `m` pending. */
  lemma StepKeepsMemoOut(s: Stores, c: Call, p: Platform, m: Nat64)
    requires !Reserves(c, p, m) && m !in s.pending
    ensures m !in Step(s, c, p).pending
  {
  }

  /** A successful completion of `m` consumes the reservation of `m`. */
  lemma CompletionConsumes(s: Stores, c: Call, p: Platform, m: Nat64)
    requires CompletesMemo(s, c, p, m)
    ensures m in s.pending && m !in Step(s, c, p).pending
  {
  }

  /** A memo is completed at most once, and not at all once its reservation
      is gone, unless a later reservation produces the same memo again. */
  lemma {:induction false} CompletedAtMostOnce(s: Stores, calls: seq<Call>, p: Platform, m: Nat64)
    requires forall i :: 0 <= i < |calls| ==> !Reserves(calls[i], p, m)
    ensures Completions(s, calls, p, m) <= if m in s.pending then 1 else 0
    decreases |calls|
  {
    if calls != [] {
      var s' := Step(s, calls[0], p);
      CompletedAtMostOnce(s', calls[1..], p, m);
      if CompletesMemo(s, calls[0], p, m) {
        CompletionConsumes(s, calls[0], p, m);
      } else if m !in s.pending {
        StepKeepsMemoOut(s, calls[0], p, m);
      }
    }
  }

  /** Completing the same purchase twice in succession: the second call is
      refused and changes nothing, so the shoe is credited once. */
  lemma CompleteTwice(s: Stores, seller: Principal, id: string, price: Nat64, block: Nat64, memo: Nat64,
                      caller: Principal, blocks: seq<Ledger.Block>, p: Platform)
    requires CompletePurchase(s, seller, id, price, block, memo, caller, blocks, p).1.Returned?
    requires CompletePurchase(s, seller, id, price, block, memo, caller, blocks, p).1.value.Ok?
    ensures var s' := CompletePurchase(s, seller, id, price, block, memo, caller, blocks, p).0;
      CompletePurchase(s', seller, id, price, block, memo, caller, blocks, p) == (s', Returned(Err(NotFound)))
  {
    var s' := CompletePurchase(s, seller, id, price, block, memo, caller, blocks, p).0;
    CompleteSucceedsIff(s, seller, id, price, block, memo, caller, blocks, p);
    CompleteWithoutReservation(s', seller, id, price, block, memo, caller, blocks, p);
  }

  /** The timer firing after a completion finds nothing and leaves the
      stores as the completion left them. */
  lemma DiscardAfterCompletion(s: Stores, seller: Principal, id: string, price: Nat64, block: Nat64, memo: Nat64,
                               caller: Principal, blocks: seq<Ledger.Block>, p: Platform)
    requires CompletePurchase(s, seller, id, price, block, memo, caller, blocks, p).1.Returned?
    requires CompletePurchase(s, seller, id, price, block, memo, caller, blocks, p).1.value.Ok?
    ensures var s' := CompletePurchase(s, seller, id, price, block, memo, caller, blocks, p).0;
      Discard(s', memo) == (s', None)
  {
    var s' := CompletePurchase(s, seller, id, price, block, memo, caller, blocks, p).0;
    CompleteSucceedsIff(s, seller, id, price, block, memo, caller, blocks, p);
    assert s'.pending - {memo} == s'.pending;
  }

  /** Once a reservation has expired, no later call completes it, whatever
      the ledger shows, unless its memo is reserved anew. */
  lemma ExpiredNeverCompleted(s: Stores, memo: Nat64, calls: seq<Call>, p: Platform)
    requires forall i :: 0 <= i < |calls| ==> !Reserves(calls[i], p, memo)
    ensures Completions(Discard(s, memo).0, calls, p, memo) == 0
  {
    CompletedAtMostOnce(Discard(s, memo).0, calls, p, memo);
  }

  /** Completion compares the payment with the seller and price given by
      the caller, not with the pending order's: any live reservation is
      completed by a transfer of any amount, to any account, under its memo. */
  lemma CompletionIgnoresOrderTerms(s: Stores, seller: Principal, id: string, price: Nat64, block: Nat64, memo: Nat64,
                                    caller: Principal, p: Platform)
    requires memo in s.pending && id in s.shoes && s.shoes[id].soldAmount < MAX_NAT64
    ensures var blocks := [Ledger.Block(memo, Some(Ledger.Transfer(p.accountOf(caller), p.accountOf(seller), price)))];
      var r := CompletePurchase(s, seller, id, price, block, memo, caller, blocks, p).1;
      r.Returned? && r.value.Ok?
  {
    var blocks := [Ledger.Block(memo, Some(Ledger.Transfer(p.accountOf(caller), p.accountOf(seller), price)))];
    Ledger.MatchAccepted(blocks[0], PaymentClaim(seller, price, memo, caller, p), p.hash);
  }
}
