/**
 What a new order gets in one step, said without the functions that compute it:
 how many lots, at which amounts, what remains of both orders, and every field of
 every event.  The four cases are a trade, a trade with oneself, resting and release,
 and each order is in exactly one of them.
 */
module Outcomes {
  import opened Numbers
  import opened Fees
  import opened Orders
  import opened Ladder
  import opened Engine
  import opened BookLaws
  import opened Accounting
  import opened Events
  import opened Progress
  import opened Disposition

  // ----- quantities -----

  /** `k` lots are there on both sides, and a bid can pay for them with the taker fee. */
  predicate CanTrade(c: Config, o: Order, x: Leaf, k: nat) {
    var native := k * Price(x.key) * c.pcLot;
    k <= x.qty && k <= o.coinQty && (o.side == Bid ==> native + TakerFee(o.tier, native) <= o.pcLocked)
  }

  /** `q` is the greatest number of lots that can be traded. */
  ghost predicate MostLots(c: Config, o: Order, x: Leaf, q: nat) {
    forall k: nat :: CanTrade(c, o, x, k) <==> k <= q
  }

  /** `k` lots can rest: an ask's always, a bid's if its lock covers them at its own price. */
  predicate CanRestWith(c: Config, o: Order, k: nat) {
    k <= o.coinQty && (o.side == Bid ==> k * Price(o.id) * c.pcLot <= o.pcLocked)
  }

  ghost predicate MostResting(c: Config, o: Order, q: nat) {
    forall k: nat :: CanRestWith(c, o, k) <==> k <= q
  }

  // ----- who is on the other side -----

  /** `x` is in front on the other side, and within the limit. */
  ghost predicate Meets(b: Book, o: Order, x: Leaf) {
    IsBest(Opposite(o.side), SideOf(b, Opposite(o.side)), x) && WithinLimit(o, Price(x.key))
  }

  /** Some order meets `o` if and only if some order is within its limit; and there is only one in front. */
  lemma MeetsIsBest(c: Config, b: Book, o: Order, x: Leaf)
    requires BookOk(c, b) && IsBest(Opposite(o.side), SideOf(b, Opposite(o.side)), x)
    ensures SideOf(b, Opposite(o.side)) != [] && x == BestOther(b, o)
  {
    MarketableAtBest(c, b, o);
    var y := BestOther(b, o);
    if x != y {
      KeyOrderIsPriceTime(Opposite(o.side), x.key, y.key);
      KeyOrderIsPriceTime(Opposite(o.side), y.key, x.key);
    }
  }

  /** Of the orders of one side only `x` changed: it has `left` lots, and is gone if that is zero. */
  ghost predicate OnlyReduced(s: seq<Leaf>, x: Leaf, left: nat, t: seq<Leaf>) {
    forall key: nat ::
      Find(t, key) == if key != x.key then Find(s, key) else if left == 0 then None else Some(x.(qty := left))
  }

  lemma ReducedBest(s: seq<Leaf>, left: nat)
    requires Ascending(s) && s != []
    ensures OnlyReduced(s, s[|s| - 1], left, ReduceBid(s, left)) && OnlyReduced(s, s[0], left, ReduceAsk(s, left))
  {
    hide Find, ReduceBid, ReduceAsk, Ascending;
    forall key: nat
      ensures Find(ReduceBid(s, left), key)
           == if key != s[|s| - 1].key then Find(s, key) else if left == 0 then None else Some(s[|s| - 1].(qty := left))
      ensures Find(ReduceAsk(s, left), key)
           == if key != s[0].key then Find(s, key) else if left == 0 then None else Some(s[0].(qty := left))
    {
      ReducedFinds(s, left, key);
    }
  }

  // ----- a trade -----

  /** Everything about a step in which `o` trades `q` lots with resting order `x`. */
  ghost predicate Traded(c: Config, b: Book, o: Order, x: Leaf, q: nat, out: Outcome)
    requires q <= x.qty && q <= o.coinQty
  {
    var native, coins, other := q * Price(x.key) * c.pcLot, q * c.coinLot, Opposite(o.side);
    var fee, rebate := TakerFee(o.tier, native), MakerRebate(x.tier, native);
    var lotsLeft: nat := o.coinQty - q;
    var fundsLeft := if o.side == Bid then o.pcLocked - native - fee else o.pcLocked;
    var done := lotsLeft == 0 || (o.side == Bid && fundsLeft <= 0);
    && out.fee == fee && out.rebate == rebate
    && SideOf(out.book, o.side) == SideOf(b, o.side)
    && OnlyReduced(SideOf(b, other), x, x.qty - q, SideOf(out.book, other))
    && (out.rest.None? <==> done)
    && (out.rest.Some? ==> fundsLeft >= 0 && out.rest.value == o.(coinQty := lotsLeft, pcLocked := fundsLeft))
    && out.events ==
         [if o.side == Ask then Fill(Bid, true, native - rebate, coins, rebate, x.key, x.owner, x.slot, x.tier,
             x.clientId)
          else Fill(Ask, true, coins, native + rebate, rebate, x.key, x.owner, x.slot, x.tier, x.clientId)]
         + (if q == x.qty then [Out(other, 0, 0, x.key, x.owner, x.slot, x.clientId)] else [])
         + [if o.side == Ask then Fill(Ask, false, coins, native - fee, fee, o.id, o.owner, o.slot, o.tier, o.clientId)
            else Fill(Bid, false, native + fee, coins, fee, o.id, o.owner, o.slot, o.tier, o.clientId)]
         + (if done then [Out(o.side, if o.side == Bid then fundsLeft else 0, 0, o.id, o.owner, o.slot,
             o.clientId)] else [])
  }

  /** An order that meets another owner's, and can pay for one lot, trades the most lots possible. */
  lemma TradeOutcome(c: Config, b: Book, o: Order, x: Leaf) returns (q: nat)
    requires BookOk(c, b) && OrderOk(c, o) && Meets(b, o, x)
    requires o.orderType != PostOnly && x.owner != o.owner && CanTrade(c, o, x, 1)
    ensures 1 <= q && MostLots(c, o, x, q) && q <= x.qty && q <= o.coinQty && Traded(c, b, o, x, q, OrderStep(c, b, o))
  {
    MeetsIsBest(c, b, o, x);
    q := MostIs(c, b, o, x);
    hide BookOk, OrderOk, IsBest, MostLots, Traded, CanTrade, Price;
    if o.side == Ask {
      AskTraded(c, b, o);
    } else {
      BidTraded(c, b, o);
    }
  }

  /** The number of lots that the two functions of the engine compute is the greatest possible. */
  lemma MostIs(c: Config, b: Book, o: Order, x: Leaf) returns (q: nat)
    requires BookOk(c, b) && OrderOk(c, o) && x in SideOf(b, Opposite(o.side))
    ensures MostLots(c, o, x, q) && q <= x.qty && q <= o.coinQty
    ensures q == if o.side == Ask then AskTradeQty(o, x) else BidTradeQty(c, o, x)
  {
    hide TakerFee, MaxPcQty;
    if o.side == Ask {
      q := AskTradeQty(o, x);
    } else {
      TradeQtyBounds(c, o, x);
      TradeAffordable(c, o, x);
      q := BidTradeQty(c, o, x);
      forall k: nat ensures CanTrade(c, o, x, k) <==> k <= q {
        TradesAllItCan(c, o, x, k);
      }
    }
  }

  lemma AskTraded(c: Config, b: Book, o: Order)
    requires BookOk(c, b) && o.side == Ask && b.bids != [] && WithinLimit(o, Price(BestBid(b).key))
    requires o.orderType != PostOnly && BestBid(b).owner != o.owner && AskTradeQty(o, BestBid(b)) > 0
    ensures Traded(c, b, o, BestBid(b), AskTradeQty(o, BestBid(b)), OrderStep(c, b, o))
  {
    hide TakerFee, MakerRebate, Price, ReduceBid, Ascending, Find;
    var best := BestBid(b);
    ReducedBest(b.bids, best.qty - AskTradeQty(o, best));
    hide OnlyReduced;
  }

  lemma BidTraded(c: Config, b: Book, o: Order)
    requires BookOk(c, b) && OrderOk(c, o) && o.side == Bid && b.asks != [] && WithinLimit(o, Price(BestAsk(b).key))
    requires o.orderType != PostOnly && BestAsk(b).owner != o.owner && BidTradeQty(c, o, BestAsk(b)) > 0
    ensures BidTradeQty(c, o, BestAsk(b)) <= BestAsk(b).qty && BidTradeQty(c, o, BestAsk(b)) <= o.coinQty
    ensures Traded(c, b, o, BestAsk(b), BidTradeQty(c, o, BestAsk(b)), OrderStep(c, b, o))
  {
    hide TakerFee, MakerRebate, Price, ReduceAsk, Ascending, Find, BidTradeQty;
    var best := BestAsk(b);
    BestAskOk(c, b);
    TradeQtyBounds(c, o, best);
    TradeAffordable(c, o, best);
    ReducedBest(b.asks, best.qty - BidTradeQty(c, o, best));
    hide OnlyReduced;
  }

  /** After a trade one of the two orders is used up, or it was a bid that cannot pay for one more lot. */
  lemma TradeExhausts(c: Config, o: Order, x: Leaf, q: nat)
    requires OrderOk(c, o) && 0 < Price(x.key) && MostLots(c, o, x, q) && q < x.qty && q < o.coinQty
    ensures var p := Price(x.key);
            var native, one := q * p * c.pcLot, p * c.pcLot;
            o.side == Bid && o.pcLocked - native - TakerFee(o.tier, native) < one + TakerFee(o.tier, one)
  {
    var p := Price(x.key);
    var native, one := Notional(q, p, c.pcLot), Notional(1, p, c.pcLot);
    assert CanTrade(c, o, x, q) && !CanTrade(c, o, x, q + 1);
    hide TakerFee, Price;
    NotionalSplit(q, 1, p, c.pcLot);
    NotionalPositive(q, p, c.pcLot);
    NotionalPositive(1, p, c.pcLot);
    TakerFeeSubadditive(o.tier, native, one);
  }

  // ----- a trade with oneself -----

  /** Everything about a step in which `o` meets resting order `x` of its own owner and `q` lots could trade. */
  ghost predicate SelfTraded(c: Config, b: Book, o: Order, x: Leaf, q: nat, out: Outcome)
    requires q <= x.qty && q <= o.coinQty
  {
    var other, p := Opposite(o.side), Price(x.key);
    var provide: nat := match o.selfTrade case DecrementTake => q case CancelProvide => x.qty;
    var take: nat := match o.selfTrade case DecrementTake => q case CancelProvide => 0;
    var left: nat := x.qty - provide;
    var lotsLeft: nat := o.coinQty - take;
    var unlocked := if o.side == Bid then take * p * c.pcLot else take * c.coinLot;
    var fundsLeft := if o.side == Bid then o.pcLocked - unlocked else o.pcLocked;
    var done := lotsLeft == 0 || (o.side == Bid && fundsLeft <= 0);
    && out.fee == 0 && out.rebate == 0
    && SideOf(out.book, o.side) == SideOf(b, o.side)
    && OnlyReduced(SideOf(b, other), x, left, SideOf(out.book, other))
    && (out.rest.None? <==> done)
    && (out.rest.Some? ==> fundsLeft >= 0 && out.rest.value == o.(coinQty := lotsLeft, pcLocked := fundsLeft))
    && out.events ==
         [if o.side == Ask then Out(Bid, provide * p * c.pcLot, left * p * c.pcLot, x.key, x.owner, x.slot, x.clientId)
          else Out(Ask, provide * c.coinLot, left * c.coinLot, x.key, x.owner, x.slot, x.clientId),
          if o.side == Ask then Out(Ask, unlocked, lotsLeft, o.id, o.owner, o.slot, o.clientId)
          else if done then Out(Bid, o.pcLocked, 0, o.id, o.owner, o.slot, o.clientId)
          else Out(Bid, unlocked, fundsLeft, o.id, o.owner, o.slot, o.clientId)]
  }

  /**
   An order that meets one of its own owner's does not trade.  Under DecrementTake both lose the lots that
   would have traded; under CancelProvide the resting order goes and the new one stays as it is.
   */
  lemma SelfTradeOutcome(c: Config, b: Book, o: Order, x: Leaf) returns (q: nat)
    requires BookOk(c, b) && OrderOk(c, o) && Meets(b, o, x)
    requires o.orderType != PostOnly && x.owner == o.owner && CanTrade(c, o, x, 1)
    ensures 1 <= q && MostLots(c, o, x, q) && q <= x.qty && q <= o.coinQty
          && SelfTraded(c, b, o, x, q, OrderStep(c, b, o))
  {
    MeetsIsBest(c, b, o, x);
    q := MostIs(c, b, o, x);
    hide BookOk, OrderOk, IsBest, MostLots, SelfTraded, CanTrade, Price;
    if o.side == Ask {
      AskSelfTraded(c, b, o);
    } else {
      BidSelfTraded(c, b, o);
    }
  }

  lemma AskSelfTraded(c: Config, b: Book, o: Order)
    requires BookOk(c, b) && o.side == Ask && b.bids != [] && WithinLimit(o, Price(BestBid(b).key))
    requires o.orderType != PostOnly && BestBid(b).owner == o.owner && AskTradeQty(o, BestBid(b)) > 0
    ensures SelfTraded(c, b, o, BestBid(b), AskTradeQty(o, BestBid(b)), OrderStep(c, b, o))
  {
    hide Price, ReduceBid, Ascending, Find;
    var best := BestBid(b);
    ReducedBest(b.bids, best.qty - SelfTradeProvide(o, best, AskTradeQty(o, best)));
    hide OnlyReduced;
  }

  lemma BidSelfTraded(c: Config, b: Book, o: Order)
    requires BookOk(c, b) && OrderOk(c, o) && o.side == Bid && b.asks != [] && WithinLimit(o, Price(BestAsk(b).key))
    requires o.orderType != PostOnly && BestAsk(b).owner == o.owner && BidTradeQty(c, o, BestAsk(b)) > 0
    ensures BidTradeQty(c, o, BestAsk(b)) <= BestAsk(b).qty && BidTradeQty(c, o, BestAsk(b)) <= o.coinQty
    ensures SelfTraded(c, b, o, BestAsk(b), BidTradeQty(c, o, BestAsk(b)), OrderStep(c, b, o))
  {
    hide Price, ReduceAsk, Ascending, Find, BidTradeQty;
    var best := BestAsk(b);
    TradeQtyBounds(c, o, best);
    var q: nat := BidTradeQty(c, o, best);
    ReducedBest(b.asks, best.qty - SelfTradeProvide(o, best, q));
    hide OnlyReduced;
  }

  // ----- resting -----

  /** The order that is last in the queue of its side. */
  function LastInQueue(side: Side, s: seq<Leaf>): Leaf
    requires s != []
  {
    if side == Bid then s[0] else s[|s| - 1]
  }

  lemma LastIsWorst(side: Side, s: seq<Leaf>)
    requires Ascending(s) && s != []
    ensures forall y :: y in s && y != LastInQueue(side, s) ==> Ahead(side, y.key, LastInQueue(side, s).key)
  {
    forall y | y in s && y != LastInQueue(side, s) ensures Ahead(side, y.key, LastInQueue(side, s).key) {
      KeyOrderIsPriceTime(side, y.key, LastInQueue(side, s).key);
    }
  }

  /** Everything about a step in which `o` enters the book with `q` lots. */
  ghost predicate Rested(c: Config, b: Book, o: Order, q: nat, out: Outcome) {
    var s, t := SideOf(b, o.side), SideOf(out.book, o.side);
    var full := s != [] && 2 * |s| + 1 > (if o.side == Bid then c.bidSlots else c.askSlots);
    && out.fee == 0 && out.rebate == 0 && out.rest.None?
    && SideOf(out.book, Opposite(o.side)) == SideOf(b, Opposite(o.side))
    && (forall key: nat ::
          Find(t, key) == if key == o.id then Some(Leaf(o.id, o.slot, o.owner, q, o.tier, o.clientId))
                          else if full && key == LastInQueue(o.side, s).key then None else Find(s, key))
    && out.events ==
         (if o.side == Bid then
            [Out(Bid, o.pcLocked - q * Price(o.id) * c.pcLot, q * Price(o.id) * c.pcLot, o.id, o.owner, o.slot,
                o.clientId)]
          else [])
         + (if full then
              var y := LastInQueue(o.side, s);
              [Out(o.side, if o.side == Bid then y.qty * Price(y.key) * c.pcLot else y.qty * c.coinLot, 0,
                   y.key, y.owner, y.slot, y.clientId)]
            else [])
  }

  /**
   An order that nobody meets enters the book with the most lots its lock covers; a full side first loses its
   last order.
   */
  lemma RestOutcome(c: Config, b: Book, o: Order) returns (q: nat)
    requires BookOk(c, b) && OrderOk(c, o) && Find(SideOf(b, o.side), o.id).None?
    requires (forall x :: x in SideOf(b, Opposite(o.side)) ==> !WithinLimit(o, Price(x.key)))
    requires o.orderType != ImmediateOrCancel && CanRestWith(c, o, 1)
    ensures 1 <= q && MostResting(c, o, q) && Rested(c, b, o, q, OrderStep(c, b, o))
  {
    MarketableAtBest(c, b, o);
    q := RestingIs(c, o);
    hide OrderOk, MostResting, Rested, CanRestWith, Price, IsBest;
    if o.side == Ask {
      AskRested(c, b, o);
    } else {
      BidRested(c, b, o);
    }
  }

  lemma RestingIs(c: Config, o: Order) returns (q: nat)
    requires OrderOk(c, o)
    ensures MostResting(c, o, q) && q == if o.side == Ask then o.coinQty else BidPostQty(c, o)
  {
    if o.side == Ask {
      q := o.coinQty;
    } else {
      q := BidPostQty(c, o);
      forall k: nat ensures CanRestWith(c, o, k) <==> k <= q {
        PostsAllItCan(c, o, k);
      }
    }
  }

  lemma AskRested(c: Config, b: Book, o: Order)
    requires BookOk(c, b) && o.side == Ask && 0 < o.coinQty && Find(b.asks, o.id).None?
    requires b.bids != [] ==> !WithinLimit(o, Price(BestBid(b).key))
    requires o.orderType != ImmediateOrCancel
    ensures Rested(c, b, o, o.coinQty, OrderStep(c, b, o))
  {
    var x := Leaf(o.id, o.slot, o.owner, o.coinQty, o.tier, o.clientId);
    hide Price, Find, Insert, Ascending;
    forall key: nat
      ensures Find(PostAsk(c, b.asks, x).0, key)
           == if key == o.id then Some(x) else if Booted(c, b.asks, Ask, key) then None else Find(b.asks, key)
    {
      PostedFinds(c, b.asks, Ask, x, key);
    }
  }

  lemma BidRested(c: Config, b: Book, o: Order)
    requires BookOk(c, b) && o.side == Bid && 0 < BidPostQty(c, o) && Find(b.bids, o.id).None?
    requires b.asks != [] ==> !WithinLimit(o, Price(BestAsk(b).key))
    requires o.orderType != ImmediateOrCancel
    ensures Rested(c, b, o, BidPostQty(c, o), OrderStep(c, b, o))
  {
    var x := Leaf(o.id, o.slot, o.owner, BidPostQty(c, o), o.tier, o.clientId);
    hide Price, Find, Insert, Ascending, BidPostQty;
    forall key: nat
      ensures Find(PostBid(c, b.bids, x).0, key)
           == if key == o.id then Some(x) else if Booted(c, b.bids, Bid, key) then None else Find(b.bids, key)
    {
      PostedFinds(c, b.bids, Bid, x, key);
    }
  }

  // ----- release -----

  /** Everything about a step that ends `o` without a trace in the book: its whole lock is released. */
  predicate Released(c: Config, b: Book, o: Order, out: Outcome) {
    && out.book == b && out.fee == 0 && out.rebate == 0 && out.rest.None?
    && out.events == [Out(o.side, if o.side == Bid then o.pcLocked else o.coinQty * c.coinLot, 0,
                          o.id, o.owner, o.slot, o.clientId)]
  }

  /** An order that meets one in front but may not or cannot take a lot of it is released. */
  lemma RefusalOutcome(c: Config, b: Book, o: Order, x: Leaf)
    requires BookOk(c, b) && OrderOk(c, o) && Meets(b, o, x)
    requires o.orderType == PostOnly || !CanTrade(c, o, x, 1)
    ensures Released(c, b, o, OrderStep(c, b, o))
  {
    MeetsIsBest(c, b, o, x);
    var q := MostIs(c, b, o, x);
    hide BookOk, Price, IsBest, CanTrade, BidTradeQty;
  }

  /** An order that nobody meets is released if it is immediate-or-cancel or its lock covers no lot. */
  lemma LapseOutcome(c: Config, b: Book, o: Order)
    requires BookOk(c, b) && OrderOk(c, o)
    requires (forall x :: x in SideOf(b, Opposite(o.side)) ==> !WithinLimit(o, Price(x.key)))
    requires o.orderType == ImmediateOrCancel || !CanRestWith(c, o, 1)
    ensures Released(c, b, o, OrderStep(c, b, o))
  {
    MarketableAtBest(c, b, o);
    var q := RestingIs(c, o);
    hide BookOk, Price, IsBest, CanRestWith, BidPostQty;
  }

  /** A bid that was just accepted is never short of funds: it can take whatever is within its limit. */
  lemma FreshBidCanPay(c: Config, o: Order, x: Leaf, k: nat)
    requires OrderOk(c, o) && o.side == Bid && WithinLimit(o, Price(x.key)) && k <= x.qty && k <= o.coinQty
    requires var native := o.coinQty * Price(o.id) * c.pcLot; o.pcLocked == native + TakerFee(o.tier, native)
    ensures CanTrade(c, o, x, k)
  {
    hide TakerFee, Price;
    var limit, p := Price(o.id), Price(x.key);
    NotionalMonotone(k, o.coinQty, limit, c.pcLot);
    ProductMonotone(p, limit, k);
    ProductMonotone(k * p, k * limit, c.pcLot);
    ProductMonotone(0, k, p);
    ProductMonotone(0, k * p, c.pcLot);
    TakerFeeMonotone(o.tier, k * p * c.pcLot, Notional(o.coinQty, limit, c.pcLot));
  }

  // ----- cancel -----

  /** A cancel of one's own resting order: it goes, and its whole lock is released. */
  lemma CancelOutcome(c: Config, b: Book, side: Side, id: nat, owner: nat, slot: nat, x: Leaf)
    requires BookOk(c, b) && x in SideOf(b, side) && x.key == id && x.owner == owner && x.slot == slot
    ensures var out := CancelStep(c, b, side, id, owner, slot);
            && SideOf(out.book, Opposite(side)) == SideOf(b, Opposite(side))
            && OnlyReduced(SideOf(b, side), x, 0, SideOf(out.book, side))
            && out.fee == 0 && out.rebate == 0 && out.rest.None?
            && out.events == [Out(side, if side == Bid then x.qty * Price(id) * c.pcLot else x.qty * c.coinLot, 0,
                                  id, owner, slot, x.clientId)]
  {
    var s := SideOf(b, side);
    FindInAscending(s, x);
    hide Ascending, Price, Remove, Find;
    forall key: nat ensures Find(Remove(s, id), key) == if key == id then None else Find(s, key) {
      FindAfterRemove(s, id, key);
    }
  }

  lemma FindInAscending(s: seq<Leaf>, x: Leaf)
    requires Ascending(s) && x in s
    ensures Find(s, x.key) == Some(x)
  {
  }
}
