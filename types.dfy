/** Value types of the shoe marketplace canister: the Candid records it stores
    and returns, the integer widths of their fields, and the result and
    failure wrappers its handlers use. */
module Types {

  /** Candid `nat64`. */
  type Nat64 = x: int | 0 <= x < 0x1_0000_0000_0000_0000
  const MAX_NAT64: Nat64 := 0xFFFF_FFFF_FFFF_FFFF

  /** Candid `int8`. */
  type Int8 = x: int | -128 <= x < 128
  const MAX_INT8: Int8 := 127

  /** A principal, identified by its textual form; the canister compares
      principals by `toString()`. */
  type Principal = string

  datatype Option<T> = None | Some(value: T)

  /** What an update call ends with: a returned value, or a trap (an exception
      that escapes the handler). A trap discards every state change the call
      made since its last `await`. */
  datatype Outcome<T> = Returned(value: T) | Trapped

  /** The `Message` variant; the texts carried by its cases are not modelled. */
  datatype Message = NotFound | NotOwner | Owner | InvalidPayload | PaymentFailed | PaymentCompleted

  /** Azle's `Result(T, Message)`. */
  datatype Result<T> = Ok(value: T) | Err(error: Message)

  datatype Shoe = Shoe(
    id: string,
    name: string,
    description: string,
    location: string,
    price: Nat64,
    size: string,
    seller: Principal,
    shoeURL: string,
    soldAmount: Nat64,
    like: Int8,
    comments: string)

  /** What a seller submits to list a shoe. */
  datatype ShoePayload = ShoePayload(
    name: string,
    description: string,
    location: string,
    price: Nat64,
    size: string,
    shoeURL: string)

  datatype OrderStatus = PaymentPending | Completed

  datatype Order = Order(
    shoeId: string,
    price: Nat64,
    status: OrderStatus,
    seller: Principal,
    paidAtBlock: Option<Nat64>,
    memo: Nat64)

  /** What the hash function is applied to: the correlation text of an order,
      or the bytes of a ledger account address. */
  datatype Hashable = Text(text: string) | Bytes(bytes: seq<bv8>)

  /** The canister's foreign collaborators, as functions the model does not
      look inside: the `hashCode`-based `hash` (with its `Math.abs`), and
      `binaryAddressFromPrincipal(p, 0)`. Nothing is assumed of either; in
      particular `hash` may collide. */
  datatype Platform = Platform(hash: Hashable -> Nat64, accountOf: Principal -> seq<bv8>)

  /** An order waiting for its payment. */
  predicate Awaiting(o: Order) {
    o.status == PaymentPending && o.paidAtBlock == None
  }

  /** An order whose payment was verified at some ledger block. */
  predicate Settled(o: Order) {
    o.status == Completed && o.paidAtBlock.Some?
  }
}
