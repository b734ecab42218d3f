/**
 The values that travel through the exchange: order ids, resting leaves, queued
 requests and emitted events (dex/src/state.rs, dex/src/critbit.rs).  An
 OpenOrders account is named by a number instead of its 32-byte address.
 */
module Orders {
  import opened Numbers
  import opened Fees

  datatype Option<+T> = None | Some(value: T)

  datatype Result<+T> = Ok(value: T) | Err(error: Error) {
    predicate IsFailure() {
      Err?
    }

    function PropagateFailure<U>(): Result<U>
      requires Err?
    {
      Err(error)
    }

    function Extract(): T
      requires Ok?
    {
      value
    }
  }

  datatype Error =
    | EventQueueFull
    | RequestQueueFull
    | InsufficientFunds
    | TransferFailed
    | TooManyOpenOrders
    | ClientIdNotFound
    | AssertionError

  datatype Side = Bid | Ask
  datatype OrderType = Limit | ImmediateOrCancel | PostOnly
  datatype SelfTrade = DecrementTake | CancelProvide

  function SelfTradeCode(b: SelfTrade): nat {
    if b == DecrementTake then 0 else 1
  }

  function SelfTradeFrom(n: nat): Option<SelfTrade> {
    if n == 0 then Some(DecrementTake) else if n == 1 then Some(CancelProvide) else None
  }

  /** A resting order; `key` is its order id. */
  datatype Leaf = Leaf(key: nat, slot: nat, owner: nat, qty: nat, tier: FeeTier, clientId: nat)

  /** What a NewOrder request carries; `pcLocked` is 0 on the ask side. */
  datatype Order = Order(
    side: Side, orderType: OrderType, id: nat, owner: nat, slot: nat, tier: FeeTier,
    coinQty: nat, pcLocked: nat, clientId: nat, selfTrade: SelfTrade)

  datatype Request =
    | NewOrder(order: Order)
    | CancelOrder(side: Side, id: nat, cancelId: nat, slot: nat, owner: nat, clientId: nat)

  datatype Event =
    | Fill(side: Side, maker: bool, paid: int, received: int, fee: int,
           id: nat, owner: nat, slot: nat, tier: FeeTier, clientId: nat)
    | Out(side: Side, unlocked: int, locked: int, id: nat, owner: nat, slot: nat, clientId: nat)

  // ----- order ids -----

  function Price(id: nat): nat {
    id / TWO64
  }

  /** Sequence number of an order id: bids store it inverted, so that an older bid has a larger key. */
  function SeqOf(side: Side, id: nat): nat {
    if side == Bid then TWO64 - 1 - id % TWO64 else id % TWO64
  }

  /** gen_order_id: the price above, the (for bids inverted) sequence number below */
  function OrderId(side: Side, price: nat, seqNum: nat): nat
    requires seqNum < TWO64
  {
    price * TWO64 + (if side == Bid then TWO64 - 1 - seqNum else seqNum)
  }

  lemma OrderIdFields(side: Side, price: nat, seqNum: nat)
    requires seqNum < TWO64
    ensures Price(OrderId(side, price, seqNum)) == price
    ensures SeqOf(side, OrderId(side, price, seqNum)) == seqNum
    ensures price < TWO64 ==> OrderId(side, price, seqNum) < TWO128
  {
  }

  /** `a` is ahead of `b` in the queue of `side`: better price, or the same price and older. */
  predicate Ahead(side: Side, a: nat, b: nat) {
    || (if side == Bid then Price(a) > Price(b) else Price(a) < Price(b))
    || (Price(a) == Price(b) && SeqOf(side, a) < SeqOf(side, b))
  }

  /** The plain order on keys is price-time order on asks and its reverse on bids. */
  lemma KeyOrderIsPriceTime(side: Side, a: nat, b: nat)
    ensures Ahead(side, a, b) <==> if side == Bid then a > b else a < b
  {
    assert a == Price(a) * TWO64 + a % TWO64 && b == Price(b) * TWO64 + b % TWO64;
  }
}
