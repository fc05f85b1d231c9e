/** Payment verification: the search, over the blocks the ICP ledger returned
    for a `query_blocks` request, for a transfer that pays an order. */
module Ledger {
  import opened Types

  type Address = seq<bv8>

  /** A block's operation. Only transfers are looked into; mints, burns and
      approvals have no `Transfer` case. */
  datatype Operation = Transfer(from: Address, to: Address, amount: Nat64) | OtherOperation

  datatype Block = Block(memo: Nat64, operation: Option<Operation>)

  /** What a payment must show: the order's memo, the paying account
      (the caller's), the receiving account, and the amount in e8s. */
  datatype Claim = Claim(memo: Nat64, sender: Address, receiver: Address, amount: Nat64)

  /** How `blocks.find` ends: a block satisfied the test, no block did, or
      evaluating the test threw. */
  datatype Search = Found | Exhausted | Raised

  /** The test `find` applies to one block. The addresses are compared
      through `hash`, as the source does, not byte for byte. */
  predicate PaysFor(b: Block, c: Claim, hash: Hashable -> Nat64) {
    && b.memo == c.memo
    && b.operation.Some?
    && b.operation.value.Transfer?
    && hash(Bytes(c.sender)) == hash(Bytes(b.operation.value.from))
    && hash(Bytes(c.receiver)) == hash(Bytes(b.operation.value.to))
    && c.amount == b.operation.value.amount
  }

  /** The test throws on a block whose memo matches but which carries no
      operation: it then reads `Transfer` of `undefined`. */
  predicate Faults(b: Block, c: Claim) {
    b.memo == c.memo && b.operation.None?
  }

  /** `blocks.find(test)`, scanning from the front and stopping at the first
      block that satisfies the test or makes it throw. */
  function FindPayment(blocks: seq<Block>, c: Claim, hash: Hashable -> Nat64): (r: Search)
    ensures r == Exhausted <==>
      forall i :: 0 <= i < |blocks| ==> !PaysFor(blocks[i], c, hash) && !Faults(blocks[i], c)
    ensures r == Found ==>
      exists i :: 0 <= i < |blocks| && PaysFor(blocks[i], c, hash) &&
        forall j :: 0 <= j < i ==> !Faults(blocks[j], c)
    ensures r == Raised ==>
      exists i :: 0 <= i < |blocks| && Faults(blocks[i], c) &&
        forall j :: 0 <= j < i ==> !PaysFor(blocks[j], c, hash)
    decreases |blocks|
  {
    if blocks == [] then Exhausted
    else if PaysFor(blocks[0], c, hash) then Found
    else if Faults(blocks[0], c) then Raised
    else
      var rest := FindPayment(blocks[1..], c, hash);
      assert forall i :: 1 <= i < |blocks| ==> blocks[i] == blocks[1..][i - 1];
      rest
  }

  /** `verifyPaymentInternal` once the ledger's answer is known: false for an
      empty block list, otherwise whether `find` located a paying block; a
      throwing test traps the call. */
  function VerifyPaymentInternal(blocks: seq<Block>, c: Claim, hash: Hashable -> Nat64): (r: Outcome<bool>)
    ensures blocks == [] ==> r == Returned(false)
    ensures r == Returned(true) ==> exists i :: 0 <= i < |blocks| && PaysFor(blocks[i], c, hash)
    ensures r == Returned(false) <==>
      forall i :: 0 <= i < |blocks| ==> !PaysFor(blocks[i], c, hash) && !Faults(blocks[i], c)
    ensures r == Trapped ==> exists i :: 0 <= i < |blocks| && Faults(blocks[i], c)
    ensures |blocks| == 1 ==>
      (r == Returned(true) <==> PaysFor(blocks[0], c, hash)) && (r == Trapped <==> Faults(blocks[0], c))
  {
    if |blocks| == 0 then Returned(false)
    else
      match FindPayment(blocks, c, hash)
      case Found => Returned(true)
      case Exhausted => Returned(false)
      case Raised => Trapped
  }

  /** On blocks that all carry an operation the verifier never traps, and it
      answers true exactly when some block pays the claim. */
  lemma VerifyPaymentDecides(blocks: seq<Block>, c: Claim, hash: Hashable -> Nat64)
    requires forall i :: 0 <= i < |blocks| ==> blocks[i].operation.Some?
    ensures VerifyPaymentInternal(blocks, c, hash) ==
      Returned(exists i :: 0 <= i < |blocks| && PaysFor(blocks[i], c, hash))
  {
  }

  /** A single transfer block whose memo, sender, receiver or amount differs
      from the claim's does not verify it. */
  lemma MismatchRejected(b: Block, c: Claim, hash: Hashable -> Nat64)
    requires b.operation.Some? && b.operation.value.Transfer?
    requires b.memo != c.memo
          || hash(Bytes(c.sender)) != hash(Bytes(b.operation.value.from))
          || hash(Bytes(c.receiver)) != hash(Bytes(b.operation.value.to))
          || c.amount != b.operation.value.amount
    ensures VerifyPaymentInternal([b], c, hash) == Returned(false)
  {
  }

  /** A single block that pays the claim verifies it. */
  lemma MatchAccepted(b: Block, c: Claim, hash: Hashable -> Nat64)
    requires PaysFor(b, c, hash)
    ensures VerifyPaymentInternal([b], c, hash) == Returned(true)
  {
  }
}
