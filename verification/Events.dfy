/**
 What the events of one matching step say: whom they name, that their amounts
 are in range, that a fill is made at the best resting price, and that there are
 at most four of them.
 */
module Events {
  import opened Numbers
  import opened Fees
  import opened Orders
  import opened Ladder
  import opened Engine
  import opened BookLaws
  import opened Accounting

  const MAX_EVENTS_PER_STEP: nat := 4

  ghost predicate EventOk(e: Event) {
    e.slot < 128 &&
    match e
    case Fill(_, _, paid, received, fee, _, _, _, _, _) => FitsU64(paid) && FitsU64(received) && FitsU64(fee)
    case Out(_, unlocked, locked, _, _, _, _) => FitsU64(unlocked) && 0 <= locked
  }

  ghost predicate NamesOrder(e: Event, o: Order) {
    e.side == o.side && e.id == o.id && e.owner == o.owner && e.slot == o.slot && e.clientId == o.clientId
  }

  ghost predicate NamesLeaf(e: Event, side: Side, x: Leaf) {
    e.side == side && e.id == x.key && e.owner == x.owner && e.slot == x.slot && e.clientId == x.clientId
  }

  ghost predicate NamesResting(e: Event, b: Book) {
    exists x :: x in SideOf(b, e.side) && NamesLeaf(e, e.side, x)
  }

  predicate SameSlot(a: Event, e: Event) {
    a.owner == e.owner && a.slot == e.slot
  }

  /** Nothing follows the event that frees an account slot. */
  ghost predicate NothingAfterOut(s: seq<Event>) {
    forall i, j :: 0 <= i < j < |s| && FullyOut(s[i]) ==> !SameSlot(s[i], s[j])
  }

  /** `x` is ahead of everything else on its side. */
  ghost predicate IsBest(side: Side, s: seq<Leaf>, x: Leaf) {
    x in s && forall y :: y in s && y != x ==> Ahead(side, x.key, y.key)
  }

  function Opposite(side: Side): Side {
    if side == Bid then Ask else Bid
  }

  /** `o` accepts the price of a resting order. */
  predicate WithinLimit(o: Order, price: nat) {
    if o.side == Bid then price <= Price(o.id) else Price(o.id) <= price
  }

  /** Event `e` reports `q` lots of `o` traded against resting order `x`, at the price of `x`. */
  ghost predicate FillOf(c: Config, o: Order, x: Leaf, q: nat, e: Event)
    requires e.Fill?
  {
    var native := Notional(q, Price(x.key), c.pcLot);
    if e.maker then
      && NamesLeaf(e, Opposite(o.side), x) && e.fee == MakerRebate(x.tier, native)
      && (if e.side == Bid then e.paid == native - e.fee && e.received == q * c.coinLot
          else e.paid == q * c.coinLot && e.received == native + e.fee)
    else
      && NamesOrder(e, o) && e.fee == TakerFee(o.tier, native)
      && (if e.side == Bid then e.paid == native + e.fee && e.received == q * c.coinLot
          else e.paid == q * c.coinLot && e.received == native - e.fee)
  }

  /** Price-time priority: both fills of a step are the same trade with the best resting order. */
  ghost predicate TradesWithBest(c: Config, b: Book, o: Order, events: seq<Event>, x: Leaf, q: nat) {
    && IsBest(Opposite(o.side), SideOf(b, Opposite(o.side)), x)
    && 1 <= q && q <= x.qty && q <= o.coinQty
    && WithinLimit(o, Price(x.key)) && x.owner != o.owner
    && forall e :: e in events && e.Fill? ==> FillOf(c, o, x, q, e)
  }

  ghost predicate AnyFill(events: seq<Event>) {
    exists e :: e in events && e.Fill?
  }

  lemma LastIsBest(s: seq<Leaf>)
    requires Ascending(s) && s != []
    ensures IsBest(Bid, s, s[|s| - 1]) && IsBest(Ask, s, s[0])
  {
    forall y | y in s && y != s[|s| - 1] ensures Ahead(Bid, s[|s| - 1].key, y.key) {
      KeyOrderIsPriceTime(Bid, s[|s| - 1].key, y.key);
    }
    forall y | y in s && y != s[0] ensures Ahead(Ask, s[0].key, y.key) {
      KeyOrderIsPriceTime(Ask, s[0].key, y.key);
    }
  }

  lemma AskFillPriority(c: Config, b: Book, o: Order)
    requires BookOk(c, b) && o.side == Ask && b.bids != []
    requires WithinLimit(o, Price(BestBid(b).key)) && AskTradeQty(o, BestBid(b)) > 0 && o.owner != BestBid(b).owner
    ensures TradesWithBest(c, b, o, AskFill(c, b, o).events, BestBid(b), AskTradeQty(o, BestBid(b)))
  {
    hide Notional, MakerRebate, TakerFee, ReduceBid, IsBest, Price, Ascending, Ahead;
    LastIsBest(b.bids);
  }

  lemma AskPriority(c: Config, b: Book, o: Order)
    requires BookOk(c, b) && o.side == Ask && AnyFill(AskStep(c, b, o).events)
    ensures b.bids != [] && TradesWithBest(c, b, o, AskStep(c, b, o).events, BestBid(b), AskTradeQty(o, BestBid(b)))
  {
    hide Notional, AskFill, ReduceBid, TradesWithBest, Insert, Find, BookOk, AskTradeQty;
    if b.bids != [] && WithinLimit(o, Price(BestBid(b).key)) && AskTradeQty(o, BestBid(b)) > 0
        && o.owner != BestBid(b).owner {
      AskFillPriority(c, b, o);
    }
  }

  lemma BidFillPriority(c: Config, b: Book, o: Order)
    requires BookOk(c, b) && o.side == Bid && b.asks != []
    requires WithinLimit(o, Price(BestAsk(b).key)) && BidTradeQty(c, o, BestAsk(b)) > 0 && o.owner != BestAsk(b).owner
    ensures TradesWithBest(c, b, o, BidFill(c, b, o).events, BestAsk(b), BidTradeQty(c, o, BestAsk(b)))
  {
    hide Notional, MakerRebate, TakerFee, ReduceAsk, IsBest, Price, BidTradeQty, Ascending, Ahead;
    LastIsBest(b.asks);
    TradeQtyBounds(c, o, BestAsk(b));
  }

  lemma BidPriority(c: Config, b: Book, o: Order)
    requires BookOk(c, b) && o.side == Bid && AnyFill(BidStep(c, b, o).events)
    ensures b.asks != [] && BidTradeQty(c, o, BestAsk(b)) > 0
    ensures TradesWithBest(c, b, o, BidStep(c, b, o).events, BestAsk(b), BidTradeQty(c, o, BestAsk(b)))
  {
    hide Notional, BidFill, ReduceAsk, TradesWithBest, Insert, Find, BookOk, BidTradeQty, BidPostQty;
    if b.asks != [] && WithinLimit(o, Price(BestAsk(b).key)) && BidTradeQty(c, o, BestAsk(b)) > 0
        && o.owner != BestAsk(b).owner {
      BidFillPriority(c, b, o);
    }
  }

  /** Every fill is at the maker's price, within the taker's limit, with the first order in price-time order. */
  lemma FillPriority(c: Config, b: Book, o: Order)
    requires BookOk(c, b) && AnyFill(OrderStep(c, b, o).events)
    ensures exists x, q :: TradesWithBest(c, b, o, OrderStep(c, b, o).events, x, q)
  {
    hide TradesWithBest, BidStep, AskStep, AnyFill;
    if o.side == Bid {
      BidPriority(c, b, o);
    } else {
      AskPriority(c, b, o);
    }
  }

  // ----- order types -----

  /** A post-only order never trades: no fill, and the other side of the book is untouched. */
  lemma PostOnlyNeverTakes(c: Config, b: Book, o: Order)
    requires o.orderType == PostOnly
    ensures var out := OrderStep(c, b, o);
            !AnyFill(out.events) && SideOf(out.book, Opposite(o.side)) == SideOf(b, Opposite(o.side)) && out.rest.None?
  {
    hide Notional, Insert, Find, BidTradeQty, BidPostQty, Price;
  }

  /** An immediate-or-cancel order never rests: its own side of the book is untouched. */
  lemma ImmediateOrCancelNeverRests(c: Config, b: Book, o: Order)
    requires o.orderType == ImmediateOrCancel
    ensures SideOf(OrderStep(c, b, o).book, o.side) == SideOf(b, o.side)
  {
    hide Notional, Insert, Find, BidTradeQty, BidPostQty, Price, ReduceBid, ReduceAsk, MakerRebate, TakerFee;
  }

  // ----- number of events -----

  /** A step pushes at most four events. */
  lemma StepEventBound(c: Config, b: Book, r: Request)
    ensures |Step(c, b, r).events| <= MAX_EVENTS_PER_STEP
  {
    hide Notional, MakerRebate, TakerFee, ReduceAsk, ReduceBid, BidTradeQty, Insert, Find, Remove;
  }

  // ----- whom the events name, and their amounts -----

  ghost predicate EventsOk(b: Book, o: Order, events: seq<Event>) {
    forall e :: e in events ==> EventOk(e) && (NamesOrder(e, o) || NamesResting(e, b))
  }

  lemma LeafOutOk(c: Config, b: Book, side: Side, x: Leaf, unlocked: int, locked: int)
    requires x in SideOf(b, side) && LeafOk(c, side, x) && 0 <= unlocked <= LeafLock(c, side, x) && 0 <= locked
    ensures var e := LeafOut(side, x, unlocked, locked); EventOk(e) && NamesResting(e, b)
  {
    var e := LeafOut(side, x, unlocked, locked);
    assert NamesLeaf(e, e.side, x);
  }

  lemma MakerFillOk(c: Config, b: Book, side: Side, x: Leaf, paid: int, received: int, rebate: int)
    requires x in SideOf(b, side) && LeafOk(c, side, x) && FitsU64(paid) && FitsU64(received) && FitsU64(rebate)
    ensures var e := MakerFill(side, x, paid, received, rebate); EventOk(e) && NamesResting(e, b)
  {
    var e := MakerFill(side, x, paid, received, rebate);
    assert NamesLeaf(e, e.side, x);
  }

  lemma BootedOk(c: Config, b: Book, side: Side, x: Leaf)
    requires BookOk(c, b)
    ensures var booted := if side == Bid then PostBid(c, b.bids, x).1 else PostAsk(c, b.asks, x).1;
            forall e :: e in booted ==> EventOk(e) && NamesResting(e, b)
  {
    hide Insert, Notional, Ascending, Find;
    var s := SideOf(b, side);
    if s != [] {
      var gone := if side == Bid then s[0] else s[|s| - 1];
      assert gone in s;
      LeafOutOk(c, b, side, gone, LeafLock(c, side, gone), 0);
    }
  }

  lemma AskRestEventsOk(c: Config, b: Book, o: Order)
    requires BookOk(c, b) && OrderOk(c, o) && o.side == Ask
    ensures EventsOk(b, o, AskRest(c, b, o).events) && EventsOk(b, o, AskReject(c, b, o).events)
  {
    hide NamesResting, PostAsk, Price, Ascending, LeafLock;
    ProductMonotone(0, o.coinQty, c.coinLot);
    BootedOk(c, b, Ask, LeafOf(o, o.coinQty));
  }

  lemma AskMatchEventsOk(c: Config, b: Book, o: Order)
    requires BookOk(c, b) && OrderOk(c, o) && o.side == Ask && b.bids != []
    ensures EventsOk(b, o, AskSelfTrade(c, b, o).events) && EventsOk(b, o, AskFill(c, b, o).events)
  {
    hide Notional, MakerRebate, TakerFee, ReduceBid, NamesResting, Price, LeafLock, Ascending;
    var best := BestBid(b);
    assert best in b.bids;
    var q := AskTradeQty(o, best);
    ProductMonotone(q, o.coinQty, c.coinLot);
    ProductMonotone(0, q, c.coinLot);
    AskMakerEvents(c, b, o, best, q);
  }

  lemma AskStepEventsOk(c: Config, b: Book, o: Order)
    requires BookOk(c, b) && OrderOk(c, o) && o.side == Ask
    ensures EventsOk(b, o, AskStep(c, b, o).events)
  {
    hide EventsOk, AskRest, AskReject, AskSelfTrade, AskFill, Price, AskTradeQty, BookOk, OrderOk;
    AskRestEventsOk(c, b, o);
    if b.bids != [] {
      AskMatchEventsOk(c, b, o);
    }
  }

  /** The events a taken bid gets. */
  lemma AskMakerEvents(c: Config, b: Book, o: Order, best: Leaf, q: nat)
    requires BookOk(c, b) && best in b.bids && q <= best.qty && FitsU64(q * c.coinLot)
    ensures var p := Price(best.key);
            var native := Notional(q, p, c.pcLot);
            var fee, rebate := TakerFee(o.tier, native), MakerRebate(best.tier, native);
            && FitsU64(native) && FitsU64(fee) && FitsU64(native - fee)
            && (forall left: nat :: left + q == best.qty ==>
                  var e := LeafOut(Bid, best, native, Notional(left, p, c.pcLot)); EventOk(e) && NamesResting(e, b))
            && (var e := LeafOut(Bid, best, Notional(best.qty, p, c.pcLot), Notional(0, p, c.pcLot));
                EventOk(e) && NamesResting(e, b))
            && (var e := LeafOut(Bid, best, 0, 0); EventOk(e) && NamesResting(e, b))
            && (var e := MakerFill(Bid, best, native - rebate, q * c.coinLot, rebate); EventOk(e) && NamesResting(e, b))
  {
    hide Ascending, NamesResting, EventOk, Uncrossed;
    var p := Price(best.key);
    var native := Notional(q, p, c.pcLot);
    PartLock(c, Bid, best, q);
    PartLock(c, Bid, best, best.qty);
    PartLock(c, Bid, best, 0);
    FillFeesNonNegative(o.tier, best.tier, native);
    LeafOutOk(c, b, Bid, best, Notional(best.qty, p, c.pcLot), Notional(0, p, c.pcLot));
    LeafOutOk(c, b, Bid, best, 0, 0);
    MakerFillOk(c, b, Bid, best, native - MakerRebate(best.tier, native), q * c.coinLot,
        MakerRebate(best.tier, native));
    forall left: nat | left + q == best.qty
      ensures var e := LeafOut(Bid, best, native, Notional(left, p, c.pcLot)); EventOk(e) && NamesResting(e, b)
    {
      PartLock(c, Bid, best, left);
      LeafOutOk(c, b, Bid, best, native, Notional(left, p, c.pcLot));
    }
  }

  lemma BidRestEventsOk(c: Config, b: Book, o: Order)
    requires BookOk(c, b) && OrderOk(c, o) && o.side == Bid
    ensures EventsOk(b, o, BidRest(c, b, o).events) && EventsOk(b, o, BidReject(c, b, o).events)
  {
    hide Notional, NamesResting, PostBid, Price, Ascending, BidPostQty, LeafLock;
    PostQtyAffordable(c, o);
    BootedOk(c, b, Bid, LeafOf(o, BidPostQty(c, o)));
  }

  lemma BidMatchEventsOk(c: Config, b: Book, o: Order)
    requires BookOk(c, b) && OrderOk(c, o) && o.side == Bid && b.asks != [] && 0 <= BidTradeQty(c, o, BestAsk(b))
    ensures EventsOk(b, o, BidSelfTrade(c, b, o).events) && EventsOk(b, o, BidFill(c, b, o).events)
  {
    hide Notional, MakerRebate, TakerFee, ReduceAsk, NamesResting, Price, LeafLock, Ascending, BidTradeQty;
    var best := BestAsk(b);
    BestAskOk(c, b);
    TradeQtyBounds(c, o, best);
    TradeAffordable(c, o, best);
    BidMakerEvents(c, b, o, best, BidTradeQty(c, o, best));
    NotionalPositive(0, Price(best.key), c.pcLot);
  }

  lemma BidStepEventsOk(c: Config, b: Book, o: Order)
    requires BookOk(c, b) && OrderOk(c, o) && o.side == Bid
    ensures EventsOk(b, o, BidStep(c, b, o).events)
  {
    hide EventsOk, BidRest, BidReject, BidSelfTrade, BidFill, Price, BidTradeQty, BookOk, OrderOk;
    BidRestEventsOk(c, b, o);
    if b.asks != [] && 0 <= BidTradeQty(c, o, BestAsk(b)) {
      BidMatchEventsOk(c, b, o);
    }
  }

  /** The events a taken ask gets. */
  lemma BidMakerEvents(c: Config, b: Book, o: Order, best: Leaf, q: nat)
    requires BookOk(c, b) && best in b.asks && q <= best.qty
    requires var native := Notional(q, Price(best.key), c.pcLot);
             0 <= native && native + TakerFee(o.tier, native) < TWO64
    ensures var native := Notional(q, Price(best.key), c.pcLot);
            var fee, rebate := TakerFee(o.tier, native), MakerRebate(best.tier, native);
            && 0 <= fee && FitsU64(q * c.coinLot)
            && (forall left: nat :: left + q == best.qty ==>
                  var e := LeafOut(Ask, best, q * c.coinLot, left * c.coinLot); EventOk(e) && NamesResting(e, b))
            && (var e := LeafOut(Ask, best, best.qty * c.coinLot, 0 * c.coinLot); EventOk(e) && NamesResting(e, b))
            && (var e := LeafOut(Ask, best, 0, 0); EventOk(e) && NamesResting(e, b))
            && (var e := MakerFill(Ask, best, q * c.coinLot, native + rebate, rebate); EventOk(e) && NamesResting(e, b))
  {
    hide Ascending, NamesResting, EventOk, Uncrossed;
    var native := Notional(q, Price(best.key), c.pcLot);
    PartLock(c, Ask, best, q);
    PartLock(c, Ask, best, best.qty);
    FillFeesNonNegative(o.tier, best.tier, native);
    LeafOutOk(c, b, Ask, best, best.qty * c.coinLot, 0);
    LeafOutOk(c, b, Ask, best, 0, 0);
    MakerFillOk(c, b, Ask, best, q * c.coinLot, native + MakerRebate(best.tier, native),
        MakerRebate(best.tier, native));
    forall left: nat | left + q == best.qty
      ensures var e := LeafOut(Ask, best, q * c.coinLot, left * c.coinLot); EventOk(e) && NamesResting(e, b)
    {
      PartLock(c, Ask, best, left);
      LeafOutOk(c, b, Ask, best, q * c.coinLot, left * c.coinLot);
    }
  }

  /** Every event of a step on a new order names that order or a resting one, with amounts in range. */
  lemma OrderStepEventsOk(c: Config, b: Book, o: Order)
    requires BookOk(c, b) && OrderOk(c, o)
    ensures EventsOk(b, o, OrderStep(c, b, o).events)
  {
    hide EventsOk, BidStep, AskStep, BookOk, OrderOk;
    if o.side == Bid {
      BidStepEventsOk(c, b, o);
    } else {
      AskStepEventsOk(c, b, o);
    }
  }

  lemma CancelStepEventsOk(c: Config, b: Book, side: Side, id: nat, owner: nat, slot: nat)
    requires BookOk(c, b)
    ensures forall e :: e in CancelStep(c, b, side, id, owner, slot).events ==> EventOk(e) && NamesResting(e, b)
  {
    hide NamesResting, EventOk, Ascending, Remove;
    var x := Find(SideOf(b, side), id);
    if x.Some? {
      LeafOutOk(c, b, side, x.value, LeafLock(c, side, x.value), 0);
    }
  }

  /** No resting order occupies the same account slot as `o`. */
  ghost predicate SlotApart(b: Book, o: Order) {
    && (forall x :: x in b.bids ==> !(x.owner == o.owner && x.slot == o.slot))
    && (forall x :: x in b.asks ==> !(x.owner == o.owner && x.slot == o.slot))
  }

  /** Within one step, too, nothing follows a fully-out event for its slot. */
  lemma StepNothingAfterOut(c: Config, b: Book, o: Order)
    requires BookOk(c, b) && OrderOk(c, o) && SlotApart(b, o)
    ensures NothingAfterOut(OrderStep(c, b, o).events)
  {
    hide Notional, MakerRebate, TakerFee, ReduceAsk, ReduceBid, BidTradeQty, Insert, Find, BidPostQty, Price, Ascending;
    if b.bids != [] {
      assert BestBid(b) in b.bids && b.bids[0] in b.bids;
    }
    if b.asks != [] {
      assert BestAsk(b) in b.asks;
    }
    if o.side == Bid {
      NotionalPositive(BidPostQty(c, o), Price(o.id), c.pcLot);
    }
  }
}
