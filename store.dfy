/** The canister's stable state and its update handlers. Each handler changes
    the three stores step by step, as the source does, and is proved to end
    in the state and reply its `Market` function gives. */
module Canister {
  import opened Types
  import Ledger
  import Correlation
  import Market

  class Store {
    var shoesStorage: map<string, Shoe>
    var pendingOrders: map<Nat64, Order>
    var persistedOrders: map<Principal, Order>

    function State(): Market.Stores
      reads this
    {
      Market.Stores(shoesStorage, pendingOrders, persistedOrders)
    }

    ghost predicate Valid()
      reads this
    {
      Market.Consistent(State())
    }

    /** A freshly installed canister: three empty stores. */
    constructor ()
      ensures Valid()
      ensures shoesStorage == map[] && pendingOrders == map[] && persistedOrders == map[]
    {
      shoesStorage := map[];
      pendingOrders := map[];
      persistedOrders := map[];
    }

    /** `addShoe`; `newId` is the id `uuidv4()` produced. */
    method AddShoe(payload: ShoePayload, newId: string, caller: Principal) returns (r: Result<Shoe>)
      requires Valid()
      modifies this
      ensures Valid()
      ensures (State(), r) == Market.AddShoe(old(State()), payload, newId, caller)
    {
      Market.AddShoePreserves(State(), payload, newId, caller);
      if payload.name == "" || payload.price == 0 {
        return Err(InvalidPayload);
      }
      var shoe := Market.ListedShoe(newId, caller, payload);
      shoesStorage := shoesStorage[shoe.id := shoe];
      r := Ok(shoe);
    }

    method UpdateShoe(payload: Shoe) returns (r: Result<Shoe>)
      requires Valid()
      modifies this
      ensures Valid()
      ensures (State(), r) == Market.UpdateShoe(old(State()), payload)
    {
      Market.UpdateShoePreserves(State(), payload);
      if payload.id !in shoesStorage {
        return Err(NotFound);
      }
      var product := shoesStorage[payload.id];
      shoesStorage := shoesStorage[product.id := payload];
      r := Ok(payload);
    }

    method DeleteShoeById(id: string, caller: Principal) returns (r: Result<string>)
      requires Valid()
      modifies this
      ensures Valid()
      ensures (State(), r) == Market.DeleteShoeById(old(State()), id, caller)
    {
      Market.DeleteShoeByIdPreserves(State(), id, caller);
      if id !in shoesStorage {
        return Err(NotFound);
      }
      if shoesStorage[id].seller != caller {
        return Err(NotOwner);
      }
      var deleted := shoesStorage[id];
      shoesStorage := shoesStorage - {id};
      r := Ok(deleted.id);
    }

    method LikeShoe(id: string) returns (r: Outcome<Result<Shoe>>)
      requires Valid()
      modifies this
      ensures Valid()
      ensures (State(), r) == Market.LikeShoe(old(State()), id)
    {
      Market.LikeShoePreserves(State(), id);
      if id !in shoesStorage {
        return Returned(Err(NotFound));
      }
      var likes := shoesStorage[id];
      var count: int := likes.like + 1;
      if count > MAX_INT8 {
        // the record's `int8` field cannot hold the count: the insert throws
        return Trapped;
      }
      likes := likes.(like := count);
      shoesStorage := shoesStorage[likes.id := likes];
      r := Returned(Ok(likes));
    }

    method InsertComment(id: string, comment: string) returns (r: Result<string>)
      requires Valid()
      modifies this
      ensures Valid()
      ensures (State(), r) == Market.InsertComment(old(State()), id, comment)
    {
      Market.InsertCommentPreserves(State(), id, comment);
      if id !in shoesStorage {
        return Err(NotFound);
      }
      var shoe := shoesStorage[id];
      shoe := shoe.(comments := Market.JoinComments(shoe.comments, comment));
      shoesStorage := shoesStorage[shoe.id := shoe];
      r := Ok(shoe.comments);
    }

    /** `createOrder` called by `caller` at `time`. Arming the expiry timer
        is not part of this method; its callback is `Discard`. */
    method CreateOrder(id: string, caller: Principal, time: Nat64, hash: Hashable -> Nat64) returns (r: Result<Order>)
      requires Valid()
      modifies this
      ensures Valid()
      ensures (State(), r) == Market.CreateOrder(old(State()), id, caller, time, hash)
    {
      Market.CreateOrderPreserves(State(), id, caller, time, hash);
      if id !in shoesStorage {
        return Err(NotFound);
      }
      var shoe := shoesStorage[id];
      var order := Order(shoe.id, shoe.price, PaymentPending, shoe.seller, None,
                         Correlation.CorrelationId(id, caller, time, hash));
      pendingOrders := pendingOrders[order.memo := order];
      r := Ok(order);
    }

    /** `completePurchase` called by `caller`; `blocks` is the ledger's answer
        to `query_blocks` for the one block at index `block`. */
    method CompletePurchase(seller: Principal, id: string, price: Nat64, block: Nat64, memo: Nat64,
                            caller: Principal, blocks: seq<Ledger.Block>, p: Platform)
      returns (r: Outcome<Result<Order>>)
      requires Valid()
      modifies this
      ensures Valid()
      ensures (State(), r) == Market.CompletePurchase(old(State()), seller, id, price, block, memo, caller, blocks, p)
    {
      Market.CompletePurchasePreserves(State(), seller, id, price, block, memo, caller, blocks, p);
      var paymentVerified := Ledger.VerifyPaymentInternal(blocks, Market.PaymentClaim(seller, price, memo, caller, p), p.hash);
      if paymentVerified.Trapped? {
        return Trapped;
      }
      if !paymentVerified.value {
        return Returned(Err(NotFound));
      }
      // What follows runs after the last `await`: a trap from here on rolls
      // the stores back to `committed`.
      var committed := pendingOrders;
      var pendingOrderOpt := if memo in pendingOrders then Some(pendingOrders[memo]) else None;
      pendingOrders := pendingOrders - {memo};
      if pendingOrderOpt.None? {
        assert pendingOrders == committed;
        return Returned(Err(NotFound));
      }
      var order := pendingOrderOpt.value;
      var updatedOrder := order.(status := Completed, paidAtBlock := Some(block));
      if id !in shoesStorage {
        pendingOrders := committed;
        return Trapped;
      }
      var shoe := shoesStorage[id];
      var sold: int := shoe.soldAmount + 1;
      if sold > MAX_NAT64 {
        // the record's `nat64` field cannot hold the count: the insert throws
        pendingOrders := committed;
        return Trapped;
      }
      shoe := shoe.(soldAmount := sold);
      shoesStorage := shoesStorage[shoe.id := shoe];
      persistedOrders := persistedOrders[caller := updatedOrder];
      r := Returned(Ok(updatedOrder));
    }

    /** The expiry timer's callback for `memo`; returns what it removed. */
    method Discard(memo: Nat64) returns (removed: Option<Order>)
      requires Valid()
      modifies this
      ensures Valid()
      ensures (State(), removed) == Market.Discard(old(State()), memo)
    {
      Market.DiscardPreserves(State(), memo);
      removed := if memo in pendingOrders then Some(pendingOrders[memo]) else None;
      pendingOrders := pendingOrders - {memo};
    }

    /** `verifyPayment` declared a composite query, as evidently intended: the
        verifier's answer for a claim by `caller`, with nothing changed. */
    method VerifyPaymentComposite(receiver: Principal, amount: Nat64, memo: Nat64, caller: Principal,
                                  blocks: seq<Ledger.Block>, p: Platform) returns (r: Outcome<bool>)
      ensures r == Market.Verdict(receiver, amount, memo, caller, blocks, p)
      ensures r == Returned(true) ==>
        exists i :: 0 <= i < |blocks| && Ledger.PaysFor(blocks[i], Market.PaymentClaim(receiver, amount, memo, caller, p), p.hash)
    {
      r := Ledger.VerifyPaymentInternal(blocks, Market.PaymentClaim(receiver, amount, memo, caller, p), p.hash);
    }
  }

  /** A buyer's session on one store: reserve a shoe, pay, complete; the
      second completion is refused and the timer that fires afterwards
      changes nothing. The store ends with one more sale of the shoe, the
      settled order filed under the buyer, and the reservation gone. */
  method PurchaseScenario(store: Store, id: string, buyer: Principal, time: Nat64, block: Nat64, p: Platform)
    returns (order: Order, first: Outcome<Result<Order>>, second: Outcome<Result<Order>>, removed: Option<Order>)
    requires store.Valid() && id in store.shoesStorage && store.shoesStorage[id].soldAmount < MAX_NAT64
    modifies store
    ensures store.Valid()
    ensures Awaiting(order) && order.shoeId == id
    ensures order.price == old(store.shoesStorage[id].price) && order.seller == old(store.shoesStorage[id].seller)
    ensures first == Returned(Ok(Market.Settle(order, block)))
    ensures second == Returned(Err(NotFound))
    ensures removed == None
    ensures store.shoesStorage == old(store.shoesStorage)[id := old(store.shoesStorage[id]).(soldAmount := old(store.shoesStorage[id].soldAmount) + 1)]
    ensures store.pendingOrders == old(store.pendingOrders) - {order.memo}
    ensures store.persistedOrders == old(store.persistedOrders)[buyer := Market.Settle(order, block)]
  {
    var created := store.CreateOrder(id, buyer, time, p.hash);
    Market.CreateOrderReserves(old(store.State()), id, buyer, time, p.hash);
    order := created.value;
    var blocks := [Ledger.Block(order.memo, Some(Ledger.Transfer(p.accountOf(buyer), p.accountOf(order.seller), order.price)))];
    ghost var before := store.State();
    first := store.CompletePurchase(order.seller, id, order.price, block, order.memo, buyer, blocks, p);
    Market.CompletionIgnoresOrderTerms(before, order.seller, id, order.price, block, order.memo, buyer, p);
    Market.CompleteSettles(before, order.seller, id, order.price, block, order.memo, buyer, blocks, p);
    assert first == Returned(Ok(Market.Settle(order, block)));
    assert store.pendingOrders == old(store.pendingOrders) - {order.memo};
    ghost var after := store.State();
    second := store.CompletePurchase(order.seller, id, order.price, block, order.memo, buyer, blocks, p);
    Market.CompleteTwice(before, order.seller, id, order.price, block, order.memo, buyer, blocks, p);
    assert second == Returned(Err(NotFound)) && store.State() == after;
    removed := store.Discard(order.memo);
    Market.DiscardAfterCompletion(before, order.seller, id, order.price, block, order.memo, buyer, blocks, p);
    assert removed == None && store.State() == after;
  }
}
