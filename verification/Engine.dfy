/**
 What one step of the matching engine (dex/src/matching.rs) does to the book and
 which events it emits, as a function.  A step is one call of `new_ask`,
 `new_bid` or `cancel_order`: each makes at most one match.  The methods of
 module Matching compute these functions in place.
 */
module Engine {
  import opened Numbers
  import opened Fees
  import opened Orders
  import opened Ladder

  datatype RawConfig = RawConfig(coinLot: nat, pcLot: nat, bidSlots: nat, askSlots: nat)

  /** Lot sizes are positive and the slabs hold more than 200 nodes (assert_minimum_capacity). */
  type Config = c: RawConfig | 0 < c.coinLot && 0 < c.pcLot && 200 < c.bidSlots && 200 < c.askSlots
    witness RawConfig(1, 1, 201, 201)

  datatype Book = Book(bids: seq<Leaf>, asks: seq<Leaf>)

  /** `rest` is the request that goes back to the front of the queue, if the order is not done. */
  datatype Outcome = Outcome(book: Book, events: seq<Event>, rest: Option<Order>, fee: int, rebate: int)

  function LeafOf(o: Order, qty: nat): Leaf {
    Leaf(o.id, o.slot, o.owner, qty, o.tier, o.clientId)
  }

  function OrderOut(o: Order, unlocked: int, locked: int): Event {
    Out(o.side, unlocked, locked, o.id, o.owner, o.slot, o.clientId)
  }

  function LeafOut(side: Side, x: Leaf, unlocked: int, locked: int): Event {
    Out(side, unlocked, locked, x.key, x.owner, x.slot, x.clientId)
  }

  function TakerFill(o: Order, paid: int, received: int, fee: int): Event {
    Fill(o.side, false, paid, received, fee, o.id, o.owner, o.slot, o.tier, o.clientId)
  }

  function MakerFill(side: Side, x: Leaf, paid: int, received: int, rebate: int): Event {
    Fill(side, true, paid, received, rebate, x.key, x.owner, x.slot, x.tier, x.clientId)
  }

  function BestBid(b: Book): Leaf
    requires b.bids != []
  {
    b.bids[|b.bids| - 1]
  }

  function BestAsk(b: Book): Leaf
    requires b.asks != []
  {
    b.asks[0]
  }

  /** Set the quantity of the best bid, or drop it at zero. */
  function ReduceBid(s: seq<Leaf>, qty: nat): seq<Leaf>
    requires s != []
  {
    var n := |s| - 1;
    if qty == 0 then s[..n] else s[..n] + [s[n].(qty := qty)]
  }

  function ReduceAsk(s: seq<Leaf>, qty: nat): seq<Leaf>
    requires s != []
  {
    if qty == 0 then s[1..] else [s[0].(qty := qty)] + s[1..]
  }

  /** A slab of `slots` nodes has no room for one more leaf. */
  predicate Full(s: seq<Leaf>, slots: nat) {
    2 * |s| + 1 > slots
  }

  /** Post a bid; a full book first boots its least aggressive bid. */
  function PostBid(c: Config, s: seq<Leaf>, x: Leaf): (seq<Leaf>, seq<Event>) {
    if Find(s, x.key).None? && Full(s, c.bidSlots) && s != [] then
      (Insert(s[1..], x), [LeafOut(Bid, s[0], Notional(s[0].qty, Price(s[0].key), c.pcLot), 0)])
    else (Insert(s, x), [])
  }

  function PostAsk(c: Config, s: seq<Leaf>, x: Leaf): (seq<Leaf>, seq<Event>) {
    var n := |s| - 1;
    if Find(s, x.key).None? && Full(s, c.askSlots) && s != [] then
      (Insert(s[..n], x), [LeafOut(Ask, s[n], s[n].qty * c.coinLot, 0)])
    else (Insert(s, x), [])
  }

  // ----- new_ask -----

  function AskReject(c: Config, b: Book, o: Order): Outcome {
    Outcome(b, [OrderOut(o, o.coinQty * c.coinLot, 0)], None, 0, 0)
  }

  function AskRest(c: Config, b: Book, o: Order): Outcome {
    if o.orderType == ImmediateOrCancel || o.coinQty == 0 then AskReject(c, b, o)
    else
      var (asks, booted) := PostAsk(c, b.asks, LeafOf(o, o.coinQty));
      Outcome(b.(asks := asks), booted, None, 0, 0)
  }

  /** Lots taken out of the resting order and out of the new one when both have the same owner. */
  function SelfTradeProvide(o: Order, best: Leaf, tradeQty: nat): nat {
    if o.selfTrade == DecrementTake then tradeQty else best.qty
  }

  function SelfTradeTake(o: Order, tradeQty: nat): nat {
    if o.selfTrade == DecrementTake then tradeQty else 0
  }

  function AskTradeQty(o: Order, best: Leaf): nat {
    Min(best.qty, o.coinQty)
  }

  function AskSelfTrade(c: Config, b: Book, o: Order): Outcome
    requires b.bids != []
  {
    var best := BestBid(b);
    var q := AskTradeQty(o, best);
    var p := Price(best.key);
    var provide := SelfTradeProvide(o, best, q);
    var left: nat := best.qty - provide;
    var unfilled: nat := o.coinQty - SelfTradeTake(o, q);
    Outcome(
      b.(bids := ReduceBid(b.bids, left)),
      [LeafOut(Bid, best, Notional(provide, p, c.pcLot), Notional(left, p, c.pcLot)),
       OrderOut(o, SelfTradeTake(o, q) * c.coinLot, unfilled)],
      if unfilled == 0 then None else Some(o.(coinQty := unfilled)), 0, 0)
  }

  function AskFill(c: Config, b: Book, o: Order): Outcome
    requires b.bids != []
  {
    var best := BestBid(b);
    var q := AskTradeQty(o, best);
    var native := Notional(q, Price(best.key), c.pcLot);
    var rebate := MakerRebate(best.tier, native);
    var fee := TakerFee(o.tier, native);
    var left: nat := best.qty - q;
    var unfilled: nat := o.coinQty - q;
    Outcome(
      b.(bids := ReduceBid(b.bids, left)),
      [MakerFill(Bid, best, native - rebate, q * c.coinLot, rebate)]
      + (if left == 0 then [LeafOut(Bid, best, 0, 0)] else [])
      + [TakerFill(o, q * c.coinLot, native - fee, fee)]
      + (if unfilled == 0 then [OrderOut(o, 0, 0)] else []),
      if unfilled == 0 then None else Some(o.(coinQty := unfilled)), fee, rebate)
  }

  function AskStep(c: Config, b: Book, o: Order): Outcome {
    if b.bids == [] || Price(o.id) > Price(BestBid(b).key) then AskRest(c, b, o)
    else if o.orderType == PostOnly || AskTradeQty(o, BestBid(b)) == 0 then AskReject(c, b, o)
    else if o.owner == BestBid(b).owner then AskSelfTrade(c, b, o)
    else AskFill(c, b, o)
  }

  // ----- new_bid -----

  /** Price-currency lots the bid can spend once the taker fee is set aside. */
  function MaxPcQty(c: Config, o: Order): int {
    RemoveTakerFee(o.tier, o.pcLocked) / c.pcLot
  }

  function BidTradeQty(c: Config, o: Order, best: Leaf): int {
    Min(best.qty, Min(o.coinQty, Quot(MaxPcQty(c, o), Price(best.key))))
  }

  function BidReject(c: Config, b: Book, o: Order): Outcome {
    Outcome(b, [OrderOut(o, o.pcLocked, 0)], None, 0, 0)
  }

  /** Lots of a resting bid: what the locked funds pay for at the limit price. */
  function BidPostQty(c: Config, o: Order): nat {
    Min(o.coinQty, Quot(o.pcLocked / c.pcLot, Price(o.id)))
  }

  function BidRest(c: Config, b: Book, o: Order): Outcome {
    if o.orderType == ImmediateOrCancel || BidPostQty(c, o) == 0 then BidReject(c, b, o)
    else
      var keep := Notional(BidPostQty(c, o), Price(o.id), c.pcLot);
      var (bids, booted) := PostBid(c, b.bids, LeafOf(o, BidPostQty(c, o)));
      Outcome(b.(bids := bids), [OrderOut(o, o.pcLocked - keep, keep)] + booted, None, 0, 0)
  }

  function BidSelfTrade(c: Config, b: Book, o: Order): Outcome
    requires b.asks != [] && 0 <= BidTradeQty(c, o, BestAsk(b))
  {
    var best := BestAsk(b);
    var q: nat := BidTradeQty(c, o, best);
    var provide := SelfTradeProvide(o, best, q);
    var left: nat := best.qty - provide;
    var coinLeft: nat := o.coinQty - SelfTradeTake(o, q);
    var unlocked := Notional(SelfTradeTake(o, q), Price(best.key), c.pcLot);
    var done := coinLeft == 0 || o.pcLocked <= unlocked;
    Outcome(
      b.(asks := ReduceAsk(b.asks, left)),
      [LeafOut(Ask, best, provide * c.coinLot, left * c.coinLot),
       if done then OrderOut(o, o.pcLocked, 0) else OrderOut(o, unlocked, o.pcLocked - unlocked)],
      if done then None else Some(o.(coinQty := coinLeft, pcLocked := o.pcLocked - unlocked)), 0, 0)
  }

  function BidFill(c: Config, b: Book, o: Order): Outcome
    requires b.asks != [] && 0 <= BidTradeQty(c, o, BestAsk(b))
  {
    var best := BestAsk(b);
    var q: nat := BidTradeQty(c, o, best);
    var native := Notional(q, Price(best.key), c.pcLot);
    var rebate := MakerRebate(best.tier, native);
    var fee := TakerFee(o.tier, native);
    var left: nat := best.qty - q;
    var coinLeft: nat := o.coinQty - q;
    var pcLeft := o.pcLocked - native - fee;
    var done := coinLeft == 0 || pcLeft <= 0;
    Outcome(
      b.(asks := ReduceAsk(b.asks, left)),
      [MakerFill(Ask, best, q * c.coinLot, native + rebate, rebate)]
      + (if left == 0 then [LeafOut(Ask, best, 0, 0)] else [])
      + [TakerFill(o, native + fee, q * c.coinLot, fee)]
      + (if done then [OrderOut(o, pcLeft, 0)] else []),
      if done then None else Some(o.(coinQty := coinLeft, pcLocked := pcLeft)), fee, rebate)
  }

  function BidStep(c: Config, b: Book, o: Order): Outcome {
    if b.asks == [] || Price(o.id) < Price(BestAsk(b).key) then BidRest(c, b, o)
    else if o.orderType == PostOnly || BidTradeQty(c, o, BestAsk(b)) <= 0 then BidReject(c, b, o)
    else if o.owner == BestAsk(b).owner then BidSelfTrade(c, b, o)
    else BidFill(c, b, o)
  }

  function OrderStep(c: Config, b: Book, o: Order): Outcome {
    if o.side == Bid then BidStep(c, b, o) else AskStep(c, b, o)
  }

  // ----- cancel_order -----

  function SideOf(b: Book, side: Side): seq<Leaf> {
    if side == Bid then b.bids else b.asks
  }

  function WithSide(b: Book, side: Side, s: seq<Leaf>): Book {
    if side == Bid then b.(bids := s) else b.(asks := s)
  }

  /** The native amount a resting order keeps locked. */
  function LeafLock(c: Config, side: Side, x: Leaf): int {
    if side == Bid then Notional(x.qty, Price(x.key), c.pcLot) else x.qty * c.coinLot
  }

  function CancelStep(c: Config, b: Book, side: Side, id: nat, owner: nat, slot: nat): Outcome {
    var x := Find(SideOf(b, side), id);
    if x.Some? && x.value.owner == owner && x.value.slot == slot then
      Outcome(WithSide(b, side, Remove(SideOf(b, side), id)),
              [LeafOut(side, x.value, LeafLock(c, side, x.value), 0)], None, 0, 0)
    else Outcome(b, [], None, 0, 0)
  }

  function Step(c: Config, b: Book, r: Request): Outcome {
    match r
    case NewOrder(o) => OrderStep(c, b, o)
    case CancelOrder(side, id, _, slot, owner, _) => CancelStep(c, b, side, id, owner, slot)
  }
}
