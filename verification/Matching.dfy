/**
 The matching engine in place (dex/src/matching.rs): the same decisions as the
 program, on the slabs, the market account and the event queue.  Every machine
 quantity is a `u64`, so each method also proves that none of its additions,
 subtractions and products leaves that range.  The contracts say that a method
 computes the corresponding function of module Engine.
 */
module Matching {
  import opened Numbers
  import opened Fees
  import opened Orders
  import opened Ladder
  import opened SlabStore
  import opened Queues
  import opened Engine
  import opened BookLaws
  import opened Accounting
  import opened Crank

  /** The counters of the market account that matching and settlement change. */
  class MarketState {
    var coinDepositsTotal: u64
    var pcDepositsTotal: u64
    var pcFeesAccrued: u64
    var referrerRebatesAccrued: u64

    constructor ()
      ensures View() == Market(0, 0, 0, 0)
    {
      coinDepositsTotal, pcDepositsTotal, pcFeesAccrued, referrerRebatesAccrued := 0, 0, 0, 0;
    }

    function View(): Market
      reads this
    {
      Market(coinDepositsTotal, pcDepositsTotal, pcFeesAccrued, referrerRebatesAccrued)
    }
  }

  /** The net fee of a step can be taken from the deposits, and the counters stay in range. */
  ghost predicate CanAccrue(m: Market, fee: int, rebate: int) {
    && 0 <= rebate <= fee && 0 <= ReferrerRebate(fee) <= fee - rebate <= m.pcDeposits
    && 0 <= m.pcFees && 0 <= m.referrals && m.pcDeposits + m.pcFees + m.referrals < TWO64
  }

  /** The best bid with another quantity, zero included. */
  function LastSetTo(s: seq<Leaf>, qty: nat): (r: seq<Leaf>)
    requires s != []
    ensures |r| == |s| && r[|s| - 1] == s[|s| - 1].(qty := qty) && r[..|s| - 1] == s[..|s| - 1]
  {
    s[..|s| - 1] + [s[|s| - 1].(qty := qty)]
  }

  /** The best ask with another quantity, zero included. */
  function FirstSetTo(s: seq<Leaf>, qty: nat): (r: seq<Leaf>)
    requires s != []
    ensures |r| == |s| && r[0] == s[0].(qty := qty) && r[1..] == s[1..]
  {
    [s[0].(qty := qty)] + s[1..]
  }

  lemma OverwriteBest(s: seq<Leaf>, qty: nat)
    requires Ascending(s) && s != []
    ensures Insert(s, s[|s| - 1].(qty := qty)) == LastSetTo(s, qty)
    ensures Insert(s, s[0].(qty := qty)) == FirstSetTo(s, qty)
  {
    hide Insert, Ascending, AllBelow;
    var n := |s| - 1;
    InitBelow(s);
    OverwriteAfter(s[..n], s[n], s[n].(qty := qty));
    assert s[..n] + [s[n]] == s;
    ReplaceHead(s, s[0].(qty := qty));
  }

  lemma InitBelow(s: seq<Leaf>)
    requires Ascending(s) && s != []
    ensures AllBelow(s[..|s| - 1], s[|s| - 1].key)
  {
  }

  lemma OverwriteAfter(a: seq<Leaf>, y: Leaf, x: Leaf)
    requires AllBelow(a, y.key) && x.key == y.key
    ensures Insert(a + [y], x) == a + [x]
  {
    hide Insert, AllBelow;
    InsertRight(a, [y], x);
    ReplaceHead([y], x);
    assert [x] + [y][1..] == [x];
  }

  lemma ReplaceHead(s: seq<Leaf>, x: Leaf)
    requires s != [] && s[0].key == x.key
    ensures Insert(s, x) == [x] + s[1..]
  {
  }

  /** Part of a well-formed leaf locks an amount that fits, and so does every intermediate product. */
  lemma PartFits(c: Config, side: Side, x: Leaf, qty: nat)
    requires LeafOk(c, side, x) && qty <= x.qty
    ensures FitsU64(qty) && FitsU64(LeafLock(c, side, x.(qty := qty)))
    ensures if side == Bid then FitsU64(qty * Price(x.key)) && FitsU64(Notional(qty, Price(x.key), c.pcLot))
            else FitsU64(qty * c.coinLot)
  {
    PartLock(c, side, x, qty);
    NotionalPositive(x.qty, Price(x.key), c.pcLot);
    NotionalPositive(qty, Price(x.key), c.pcLot);
    ProductMonotone(1, c.coinLot, x.qty);
  }

  lemma LeafPrice(c: Config, side: Side, x: Leaf)
    requires LeafOk(c, side, x)
    ensures Price(x.key) > 0 && FitsU64(x.qty)
  {
    PartFits(c, side, x, x.qty);
  }

  lemma LeafFits(c: Config, side: Side, s: seq<Leaf>, x: Leaf)
    requires SideOk(c, side, s) && x in s
    ensures FitsU64(LeafLock(c, side, x))
  {
  }

  lemma RebateFits(t: FeeTier, native: u64)
    ensures 0 <= MakerRebate(t, native) <= native
  {
    FillFeesNonNegative(t, t, native);
  }

  lemma RebateNonNegative(t: FeeTier, native: nat)
    ensures 0 <= MakerRebate(t, native)
  {
    MakerRebateIsFloor(t, native);
  }

  lemma DroppedLast(s: seq<Leaf>, qty: nat)
    requires s != []
    ensures ReduceBid(s, qty) == if qty == 0 then LastSetTo(s, qty)[..|s| - 1] else LastSetTo(s, qty)
    ensures ReduceBid(s, 0) == s[..|s| - 1]
  {
  }

  lemma DroppedFirst(s: seq<Leaf>, qty: nat)
    requires s != []
    ensures ReduceAsk(s, qty) == if qty == 0 then FirstSetTo(s, qty)[1..] else FirstSetTo(s, qty)
    ensures ReduceAsk(s, 0) == s[1..]
  {
  }

  /** The method left behind what the outcome of module Engine says, or ran out of event slots. */
  ghost predicate Computes(out: Outcome, market: Market, events: seq<Event>, eventCap: nat,
                           book': Book, market': Market, events': seq<Event>, r: Result<Option<Order>>)
  {
    if |events| + |out.events| > eventCap then r == Err(EventQueueFull)
    else r == Ok(out.rest) && book' == out.book && market' == Accrue(market, out.fee, out.rebate)
         && events' == events + out.events
  }

  lemma TakerFeeFits(t: FeeTier, native: u64)
    ensures 0 <= TakerFee(t, native) <= native && FitsU64(native - TakerFee(t, native))
    ensures native == 0 ==> TakerFee(t, native) == 0
  {
    FillFeesNonNegative(t, t, native);
  }

  /** Part of a quantity whose native size fits has a native size that fits. */
  lemma SplitFits(total: nat, part: nat, lotSize: nat)
    requires part <= total && FitsU64(total * lotSize)
    ensures FitsU64(part * lotSize) && FitsU64((total - part) * lotSize)
  {
    ProductMonotone(part, total, lotSize);
    ProductMonotone(0, part, lotSize);
    assert (total - part) * lotSize == total * lotSize - part * lotSize;
  }

  /** The amount a bid may spend is in range. */
  lemma SpendableFits(c: Config, o: Order)
    requires OrderOk(c, o) && o.side == Bid
    ensures FitsU64(RemoveTakerFee(o.tier, o.pcLocked)) && FitsU64(MaxPcQty(c, o))
  {
    FeesFit(o.tier, o.pcLocked);
    FloorTimes(RemoveTakerFee(o.tier, o.pcLocked), c.pcLot);
    NotionalPositive(MaxPcQty(c, o), 1, c.pcLot);
  }

  lemma PostQtyFits(c: Config, o: Order)
    requires OrderOk(c, o) && o.side == Bid
    ensures FitsU64(BidPostQty(c, o)) && FitsU64(BidPostQty(c, o) * Price(o.id))
  {
    PostQtyAffordable(c, o);
    FloorTimes(o.pcLocked, c.pcLot);
    NotionalPositive(BidPostQty(c, o), Price(o.id), c.pcLot);
  }

  /** Locking nothing leaves nothing locked; posting something locks something. */
  lemma BidPostLock(c: Config, o: Order, qty: nat)
    requires OrderOk(c, o) && o.side == Bid && (qty == 0 || qty == BidPostQty(c, o))
    ensures 0 <= Notional(qty, Price(o.id), c.pcLot) <= o.pcLocked
    ensures Notional(0, Price(o.id), c.pcLot) == 0
    ensures qty * Price(o.id) > 0 <==> qty > 0
  {
    PostQtyAffordable(c, o);
    NotionalPositive(qty, Price(o.id), c.pcLot);
  }

  lemma AbsentUnchanged(b: Book, side: Side, id: nat)
    requires Find(SideOf(b, side), id).None?
    ensures WithSide(b, side, Remove(SideOf(b, side), id)) == b
  {
    RemoveAbsent(SideOf(b, side), id);
  }

  /** A removed leaf can be put back, and then the side is as it was. */
  lemma ReinsertFits(c: Config, side: Side, s: seq<Leaf>, id: nat)
    requires SideOk(c, side, s) && Find(s, id).Some?
    ensures 2 * |Remove(s, id)| + 1 <= Slots(c, side) && Find(s, id).value.key < TWO128
    ensures Insert(Remove(s, id), Find(s, id).value) == s
  {
    ReinsertRestores(s, id);
    FindAfterRemove(s, id, id);
    assert LeafOk(c, side, Find(s, id).value);
  }

  /** Without a fill nothing accrues. */
  lemma NoFeeOnNothing(t: FeeTier, m: Market)
    ensures TakerFee(t, 0) == 0
    ensures forall fee, rebate :: CanAccrue(m, fee, rebate) ==> CanAccrue(m, 0, 0)
  {
  }

  lemma NoAccrual(m: Market)
    ensures Accrue(m, 0, 0) == m
  {
  }

  lemma LeafPositive(c: Config, x: Leaf, qty: nat)
    requires LeafOk(c, Bid, x) && 0 < qty <= x.qty
    ensures Notional(qty, Price(x.key), c.pcLot) > 0
  {
    NotionalPositive(qty, Price(x.key), c.pcLot);
  }

  // ----- steps of the crank as the methods see them -----

  function WithRest(rest: Option<Order>, tail: seq<Request>): seq<Request> {
    (if rest.Some? then [NewOrder(rest.value)] else []) + tail
  }

  /** In a good crank state the front order can be stepped. */
  lemma StepReady(c: Config, s: CrankState, n: int)
    requires CrankOk(c, s, n) && s.requests != []
    ensures BookOk(c, s.book) && RequestOk(c, s.requests[0])
    ensures var out := Step(c, s.book, s.requests[0]); CanAccrue(s.market, out.fee, out.rebate)
  {
    assert s.requests[0] in s.requests;
    AfterStepBacked(c, s, n);
    StepFees(c, s.book, s.requests[0]);
  }

  lemma RunUnfolds(c: Config, eventCap: nat, s: CrankState, o: Order, tail: seq<Request>, limit: nat)
    requires s.requests == [NewOrder(o)] + tail && 0 < limit
    ensures var out := OrderStep(c, s.book, o);
            Run(c, eventCap, s, limit)
            == if |s.events| + |out.events| > eventCap then Err(EventQueueFull)
               else Run(c, eventCap, CrankState(out.book, Accrue(s.market, out.fee, out.rebate),
                                                WithRest(out.rest, tail), s.events + out.events), limit - 1)
  {
    assert s.requests[0] == NewOrder(o) && s.requests[1..] == tail;
    hide OrderStep;
  }

  /** The state a step method leaves behind is the next crank state, and a good one. */
  lemma StepResult(c: Config, eventCap: nat, s: CrankState, o: Order, tail: seq<Request>, t: CrankState,
                   r: Result<Option<Order>>, n: int)
    requires CrankOk(c, s, n) && s.requests == [NewOrder(o)] + tail
    requires Computes(OrderStep(c, s.book, o), s.market, s.events, eventCap, t.book, t.market, t.events, r)
    ensures var out := OrderStep(c, s.book, o);
            if |s.events| + |out.events| > eventCap then r == Err(EventQueueFull)
            else
              var next := CrankState(out.book, Accrue(s.market, out.fee, out.rebate), WithRest(out.rest, tail),
                  s.events + out.events);
              && r == Ok(out.rest) && next == CrankState(t.book, t.market, WithRest(out.rest, tail), t.events)
              && CrankOk(c, next, n)
  {
    assert s.requests[0] == NewOrder(o) && s.requests[1..] == tail;
    CrankStepKeeps(c, eventCap, s, n);
    hide OrderStep, CrankOk;
  }

  lemma RunStops(c: Config, eventCap: nat, s: CrankState)
    ensures Run(c, eventCap, s, 0) == Ok(s)
    ensures s.requests == [] ==> forall limit: nat :: Run(c, eventCap, s, limit) == Ok(s)
  {
  }

  /** A cancel request takes one unit of the limit, moves no fees and leaves nothing behind. */
  lemma CancelUnfolds(c: Config, eventCap: nat, s: CrankState, r: Request, tail: seq<Request>, limit: nat, n: int)
    requires s.requests == [r] + tail && r.CancelOrder? && 0 < limit && CrankOk(c, s, n)
    ensures var out := CancelStep(c, s.book, r.side, r.id, r.owner, r.slot);
            var next := CrankState(out.book, s.market, tail, s.events + out.events);
            if |s.events| + |out.events| > eventCap then Run(c, eventCap, s, limit) == Err(EventQueueFull)
            else Run(c, eventCap, s, limit) == Run(c, eventCap, next, limit - 1) && CrankOk(c, next, n)
  {
    assert s.requests[0] == r && s.requests[1..] == tail;
    CrankStepKeeps(c, eventCap, s, n);
    CancelHasNoFee(c, s.book, r.side, r.id, r.owner, r.slot);
    NoAccrual(s.market);
    assert [] + tail == tail;
    hide CancelStep, CrankOk, Accrue;
  }

  lemma CancelResult(c: Config, s: CrankState, r: Request, eventCap: nat, t: CrankState, result: Result<Option<Order>>)
    requires r.CancelOrder?
    requires Computes(CancelStep(c, s.book, r.side, r.id, r.owner, r.slot), s.market, s.events, eventCap,
                      t.book, t.market, t.events, result)
    ensures var out := CancelStep(c, s.book, r.side, r.id, r.owner, r.slot);
            if |s.events| + |out.events| > eventCap then result == Err(EventQueueFull)
            else result == Ok(None) && t.book == out.book && t.market == s.market && t.events == s.events + out.events
  {
    CancelHasNoFee(c, s.book, r.side, r.id, r.owner, r.slot);
    NoAccrual(s.market);
    hide CancelStep, Accrue;
  }

  class OrderBookState {
    const config: Config
    const bids: Slab
    const asks: Slab
    const market: MarketState

    constructor (config: Config, bids: Slab, asks: Slab, market: MarketState)
      ensures this.config == config && this.bids == bids && this.asks == asks && this.market == market
    {
      this.config, this.bids, this.asks, this.market := config, bids, asks, market;
    }

    ghost predicate Valid()
      reads bids, bids.nodes, asks, asks.nodes
    {
      && bids != asks && bids.nodes != asks.nodes
      && bids.Valid() && asks.Valid()
      && bids.Capacity() == config.bidSlots && asks.Capacity() == config.askSlots
    }

    ghost function View(): Book
      reads bids, asks
    {
      Book(bids.leaves, asks.leaves)
    }

    // ----- shared steps -----

    /** find_bbo */
    method FindBest(side: Side) returns (h: Option<nat>)
      requires Valid()
      ensures h.None? <==> SideOf(View(), side) == []
      ensures h.Some? && side == Bid ==> bids.IsHandle(h.value) && bids.LeafAt(h.value) == BestBid(View())
      ensures h.Some? && side == Ask ==> asks.IsHandle(h.value) && asks.LeafAt(h.value) == BestAsk(View())
    {
      hide Slab.Valid, Slab.IsHandle;
      if side == Bid {
        h := bids.FindMinMax(true);
      } else {
        h := asks.FindMinMax(false);
      }
    }

    /** Fee accrual at the end of a match. */
    method AccrueFees(takerFee: u64, makerRebates: u64)
      requires CanAccrue(market.View(), takerFee, makerRebates)
      modifies market
      ensures market.View() == Accrue(old(market.View()), takerFee, makerRebates)
    {
      var netFeesBeforeReferrerRebate: u64 := takerFee - makerRebates;
      var referrerRebate: u64 := ReferrerRebate(takerFee);
      var netFees: u64 := netFeesBeforeReferrerRebate - referrerRebate;
      market.referrerRebatesAccrued := market.referrerRebatesAccrued + referrerRebate;
      market.pcFeesAccrued := market.pcFeesAccrued + netFees;
      market.pcDepositsTotal := market.pcDepositsTotal - netFeesBeforeReferrerRebate;
    }

    /** Set the quantity of the best bid behind handle `h`. */
    method SetBidQuantity(h: nat, qty: u64)
      requires Valid() && bids.leaves != []
      requires bids.IsHandle(h) && bids.LeafAt(h) == BestBid(View())
      modifies bids, bids.nodes
      ensures Valid()
      ensures bids.leaves == LastSetTo(old(bids.leaves), qty)
      ensures bids.IsHandle(h) && bids.LeafAt(h) == BestBid(View())
      ensures asks.leaves == old(asks.leaves)
    {
      hide Insert, Find, Ascending, Slab.Valid, Slab.IsHandle, LastSetTo;
      bids.LeavesAreAscending();
      ghost var s := bids.leaves;
      OverwriteBest(s, qty);
      var x := bids.LeafAt(h).(qty := qty);
      bids.Overwrite(h, x);
      assert bids.leaves == Insert(s, x) && bids.leaves[|s| - 1] == x;
    }

    method SetAskQuantity(h: nat, qty: u64)
      requires Valid() && asks.leaves != []
      requires asks.IsHandle(h) && asks.LeafAt(h) == BestAsk(View())
      modifies asks, asks.nodes
      ensures Valid()
      ensures asks.leaves == FirstSetTo(old(asks.leaves), qty)
      ensures asks.IsHandle(h) && asks.LeafAt(h) == BestAsk(View())
      ensures bids.leaves == old(bids.leaves)
    {
      hide Insert, Find, Ascending, Slab.Valid, Slab.IsHandle, FirstSetTo;
      asks.LeavesAreAscending();
      ghost var s := asks.leaves;
      OverwriteBest(s, qty);
      var x := asks.LeafAt(h).(qty := qty);
      asks.Overwrite(h, x);
      assert asks.leaves == Insert(s, x) && asks.leaves[0] == x;
    }

    /** Drop the best order of a side by its key. */
    method DropBest(side: Side, key: nat)
      requires Valid() && SideOf(View(), side) != []
      requires key == if side == Bid then BestBid(View()).key else BestAsk(View()).key
      modifies bids, bids.nodes, asks, asks.nodes
      ensures Valid()
      ensures View() == if side == Bid then old(View()).(bids := old(bids.leaves)[..|old(bids.leaves)| - 1])
                        else old(View()).(asks := old(asks.leaves)[1..])
    {
      hide Remove, Find, Ascending, Slab.Valid;
      if side == Bid {
        bids.LeavesAreAscending();
        RemoveEnd(bids.leaves, true);
        var _ := bids.RemoveByKey(key);
      } else {
        asks.LeavesAreAscending();
        RemoveEnd(asks.leaves, false);
        var _ := asks.RemoveByKey(key);
      }
    }

    // ----- a match against the best order -----

    /** Lower the quantity of the best bid; at zero, emit its fully-out event and remove it. */
    method TakeBestBid(h: nat, left: u64, q: Queue<Event>) returns (ok: bool)
      requires Valid() && q.Valid() && bids.leaves != [] && bids.IsHandle(h) && bids.LeafAt(h) == BestBid(View())
      modifies bids, bids.nodes, asks, asks.nodes, q, q.buf
      ensures Valid() && q.Valid()
      ensures ok <==> left > 0 || |old(q.contents)| < q.buf.Length
      ensures ok ==>
                q.contents == old(q.contents) + (if left == 0 then [LeafOut(Bid, old(BestBid(View())), 0, 0)] else [])
      ensures ok ==> View() == old(View()).(bids := ReduceBid(old(bids.leaves), left))
    {
      hide Slab.Valid, Slab.IsHandle, Queue.Valid, LastSetTo, Ascending, ReduceBid;
      var best := bids.LeafAt(h);
      ghost var s := bids.leaves;
      SetBidQuantity(h, left);
      ok := true;
      if left == 0 {
        ok := q.PushBack(LeafOut(Bid, best, 0, 0));
        if !ok {
          return;
        }
        DropBest(Bid, best.key);
      }
      DroppedLast(s, left);
    }

    method TakeBestAsk(h: nat, left: u64, q: Queue<Event>) returns (ok: bool)
      requires Valid() && q.Valid() && asks.leaves != [] && asks.IsHandle(h) && asks.LeafAt(h) == BestAsk(View())
      modifies bids, bids.nodes, asks, asks.nodes, q, q.buf
      ensures Valid() && q.Valid()
      ensures ok <==> left > 0 || |old(q.contents)| < q.buf.Length
      ensures ok ==>
                q.contents == old(q.contents) + (if left == 0 then [LeafOut(Ask, old(BestAsk(View())), 0, 0)] else [])
      ensures ok ==> View() == old(View()).(asks := ReduceAsk(old(asks.leaves), left))
    {
      hide Slab.Valid, Slab.IsHandle, Queue.Valid, FirstSetTo, Ascending, ReduceAsk;
      var best := asks.LeafAt(h);
      ghost var s := asks.leaves;
      SetAskQuantity(h, left);
      ok := true;
      if left == 0 {
        ok := q.PushBack(LeafOut(Ask, best, 0, 0));
        if !ok {
          return;
        }
        DropBest(Ask, best.key);
      }
      DroppedFirst(s, left);
    }

    /** Maker side of a match against the best bid: fill event, quantity, and removal when it is used up. */
    method FillBestBid(h: nat, tradeQty: u64, q: Queue<Event>) returns (ok: bool, rebate: u64)
      requires Valid() && q.Valid() && bids.leaves != [] && bids.IsHandle(h) && bids.LeafAt(h) == BestBid(View())
      requires LeafOk(config, Bid, BestBid(View())) && 0 < tradeQty <= BestBid(View()).qty
            && FitsU64(tradeQty * config.coinLot)
      modifies bids, bids.nodes, asks, asks.nodes, q, q.buf
      ensures Valid() && q.Valid()
      ensures var best := old(BestBid(View()));
              var native := Notional(tradeQty, Price(best.key), config.pcLot);
              var events := [MakerFill(Bid, best, native - rebate, tradeQty * config.coinLot, rebate)]
                            + (if best.qty - tradeQty == 0 then [LeafOut(Bid, best, 0, 0)] else []);
              && rebate == MakerRebate(best.tier, native)
              && (ok <==> |old(q.contents)| + |events| <= q.buf.Length)
              && (ok ==> q.contents == old(q.contents) + events
                         && View() == old(View()).(bids := ReduceBid(old(bids.leaves), best.qty - tradeQty)))
    {
      hide Slab.Valid, Slab.IsHandle, Queue.Valid, Notional, MakerRebate, LeafOk, LastSetTo, Ascending, Price,
          ReduceBid, LeafLock;
      var best := bids.LeafAt(h);
      LeafPrice(config, Bid, best);
      PartFits(config, Bid, best, tradeQty);
      var lots: u64 := tradeQty * Price(best.key);
      var nativeMakerPcQty: u64 := Notional(tradeQty, Price(best.key), config.pcLot);
      RebateFits(best.tier, nativeMakerPcQty);
      rebate := MakerRebate(best.tier, nativeMakerPcQty);
      var nativePaid: u64 := nativeMakerPcQty - rebate;
      var nativeReceived: u64 := tradeQty * config.coinLot;
      ok := q.PushBack(MakerFill(Bid, best, nativePaid, nativeReceived, rebate));
      if !ok {
        return;
      }
      ok := TakeBestBid(h, best.qty - tradeQty, q);
    }

    /** The same for the best ask. */
    method FillBestAsk(h: nat, tradeQty: u64, q: Queue<Event>) returns (ok: bool, rebate: u64)
      requires Valid() && q.Valid() && asks.leaves != [] && asks.IsHandle(h) && asks.LeafAt(h) == BestAsk(View())
      requires LeafOk(config, Ask, BestAsk(View())) && 0 < tradeQty <= BestAsk(View()).qty
      requires var native := Notional(tradeQty, Price(BestAsk(View()).key), config.pcLot);
               0 <= native && native + MakerRebate(BestAsk(View()).tier, native) < TWO64
      modifies bids, bids.nodes, asks, asks.nodes, q, q.buf
      ensures Valid() && q.Valid()
      ensures var best := old(BestAsk(View()));
              var native := Notional(tradeQty, Price(best.key), config.pcLot);
              var events := [MakerFill(Ask, best, tradeQty * config.coinLot, native + rebate, rebate)]
                            + (if best.qty - tradeQty == 0 then [LeafOut(Ask, best, 0, 0)] else []);
              && rebate == MakerRebate(best.tier, native)
              && (ok <==> |old(q.contents)| + |events| <= q.buf.Length)
              && (ok ==> q.contents == old(q.contents) + events
                         && View() == old(View()).(asks := ReduceAsk(old(asks.leaves), best.qty - tradeQty)))
    {
      hide Slab.Valid, Slab.IsHandle, Queue.Valid, Notional, MakerRebate, LeafOk, FirstSetTo, Ascending, Price,
          ReduceAsk, LeafLock;
      var best := asks.LeafAt(h);
      LeafPrice(config, Ask, best);
      PartFits(config, Ask, best, tradeQty);
      NotionalPositive(tradeQty, Price(best.key), config.pcLot);
      var nativeMakerPcQty := Notional(tradeQty, Price(best.key), config.pcLot);
      RebateNonNegative(best.tier, nativeMakerPcQty);
      var lots: u64 := tradeQty * Price(best.key);
      rebate := MakerRebate(best.tier, nativeMakerPcQty);
      var nativePaid: u64 := tradeQty * config.coinLot;
      var nativeReceived: u64 := nativeMakerPcQty + rebate;
      ok := q.PushBack(MakerFill(Ask, best, nativePaid, nativeReceived, rebate));
      if !ok {
        return;
      }
      ok := TakeBestAsk(h, best.qty - tradeQty, q);
    }

    /** Maker side of a self-trade: take `provide` lots out of the best bid. */
    method CancelBestBid(h: nat, provide: u64, q: Queue<Event>) returns (ok: bool)
      requires Valid() && q.Valid() && bids.leaves != [] && bids.IsHandle(h) && bids.LeafAt(h) == BestBid(View())
      requires LeafOk(config, Bid, BestBid(View())) && provide <= BestBid(View()).qty
      modifies bids, bids.nodes, asks, asks.nodes, q, q.buf
      ensures Valid() && q.Valid()
      ensures var best := old(BestBid(View()));
              var p, left := Price(best.key), best.qty - provide;
              var e := LeafOut(Bid, best, Notional(provide, p, config.pcLot), Notional(left, p, config.pcLot));
              && (ok <==> |old(q.contents)| < q.buf.Length)
              && (ok ==> q.contents == old(q.contents) + [e]
                         && View() == old(View()).(bids := ReduceBid(old(bids.leaves), left)))
    {
      hide Slab.Valid, Slab.IsHandle, Queue.Valid, Notional, LeafOk, LastSetTo, Ascending;
      var best := bids.LeafAt(h);
      ghost var s := bids.leaves;
      LeafPrice(config, Bid, best);
      var left: u64 := best.qty - provide;
      PartFits(config, Bid, best, provide);
      PartFits(config, Bid, best, left);
      var unlocked: u64 := Notional(provide, Price(best.key), config.pcLot);
      var stillLocked: u64 := Notional(left, Price(best.key), config.pcLot);
      ok := q.PushBack(LeafOut(Bid, best, unlocked, stillLocked));
      if !ok {
        return;
      }
      if left == 0 {
        DropBest(Bid, best.key);
      } else {
        SetBidQuantity(h, left);
      }
      DroppedLast(s, left);
    }

    method CancelBestAsk(h: nat, provide: u64, q: Queue<Event>) returns (ok: bool)
      requires Valid() && q.Valid() && asks.leaves != [] && asks.IsHandle(h) && asks.LeafAt(h) == BestAsk(View())
      requires LeafOk(config, Ask, BestAsk(View())) && provide <= BestAsk(View()).qty
      modifies bids, bids.nodes, asks, asks.nodes, q, q.buf
      ensures Valid() && q.Valid()
      ensures var best := old(BestAsk(View()));
              var left := best.qty - provide;
              var e := LeafOut(Ask, best, provide * config.coinLot, left * config.coinLot);
              && (ok <==> |old(q.contents)| < q.buf.Length)
              && (ok ==> q.contents == old(q.contents) + [e]
                         && View() == old(View()).(asks := ReduceAsk(old(asks.leaves), left)))
    {
      hide Slab.Valid, Slab.IsHandle, Queue.Valid, Notional, LeafOk, FirstSetTo, Ascending;
      var best := asks.LeafAt(h);
      ghost var s := asks.leaves;
      LeafPrice(config, Ask, best);
      var left: u64 := best.qty - provide;
      PartFits(config, Ask, best, provide);
      PartFits(config, Ask, best, left);
      var unlocked: u64 := provide * config.coinLot;
      var stillLocked: u64 := left * config.coinLot;
      ok := q.PushBack(LeafOut(Ask, best, unlocked, stillLocked));
      if !ok {
        return;
      }
      if left == 0 {
        DropBest(Ask, best.key);
      } else {
        SetAskQuantity(h, left);
      }
      DroppedFirst(s, left);
    }

    // ----- posting -----

    /** Post an ask; when the slab is full, boot the least aggressive offer first. */
    method PlaceAsk(x: Leaf, q: Queue<Event>) returns (ok: bool)
      requires Valid() && q.Valid() && x.key < TWO128 && SideOk(config, Ask, asks.leaves)
      modifies asks, asks.nodes, q, q.buf
      ensures Valid() && q.Valid()
      ensures var (after, booted) := PostAsk(config, old(asks.leaves), x);
              && (ok <==> |old(q.contents)| + |booted| <= q.buf.Length)
              && (ok ==> q.contents == old(q.contents) + booted && View() == old(View()).(asks := after))
    {
      hide Slab.Valid, Slab.IsHandle, Queue.Valid, Insert, Find, Ascending, LeafOk, Price, Notional;
      ghost var s := asks.leaves;
      var inserted := asks.InsertLeaf(x);
      if inserted.Inserted? {
        q.WithinCapacity();
        assert q.contents == old(q.contents) + [];
        return true;
      }
      var order := asks.RemoveMinMax(true);
      LeafFits(config, Ask, s, order.value);
      var unlocked: u64 := order.value.qty * config.coinLot;
      ok := q.PushBack(LeafOut(Ask, order.value, unlocked, 0));
      if !ok {
        return;
      }
      var again := asks.InsertLeaf(x);
      assert again.Inserted?;
    }

    /** Post a bid; when the slab is full, boot the least aggressive bid first. */
    method PlaceBid(x: Leaf, q: Queue<Event>) returns (ok: bool)
      requires Valid() && q.Valid() && x.key < TWO128 && SideOk(config, Bid, bids.leaves)
      modifies bids, bids.nodes, q, q.buf
      ensures Valid() && q.Valid()
      ensures var (after, booted) := PostBid(config, old(bids.leaves), x);
              && (ok <==> |old(q.contents)| + |booted| <= q.buf.Length)
              && (ok ==> q.contents == old(q.contents) + booted && View() == old(View()).(bids := after))
    {
      hide Slab.Valid, Slab.IsHandle, Queue.Valid, Insert, Find, Ascending, LeafOk, Notional, Price;
      ghost var s := bids.leaves;
      var inserted := bids.InsertLeaf(x);
      if inserted.Inserted? {
        q.WithinCapacity();
        assert q.contents == old(q.contents) + [];
        return true;
      }
      var order := bids.RemoveMinMax(false);
      LeafFits(config, Bid, s, order.value);
      var unlocked: u64 := Notional(order.value.qty, Price(order.value.key), config.pcLot);
      ok := q.PushBack(LeafOut(Bid, order.value, unlocked, 0));
      if !ok {
        return;
      }
      var again := bids.InsertLeaf(x);
      assert again.Inserted?;
    }

    // ----- new_ask -----

    /** What follows the matching loop of new_ask: taker fill, fees, and the order's end or its remainder. */
    method FinishAsk(o: Order, unfilledQty: u64, nativeTakerPcQty: u64, makerRebates: u64, done: bool, crossed: bool,
                     q: Queue<Event>)
      returns (r: Result<Option<Order>>)
      requires Valid() && q.Valid() && SideOk(config, Ask, asks.leaves)
      requires o.side == Ask && o.id < TWO128 && unfilledQty <= o.coinQty && 0 < o.coinQty
            && FitsU64(o.coinQty * config.coinLot)
      requires done ==> nativeTakerPcQty == 0 && makerRebates == 0 && unfilledQty == o.coinQty
      requires !done ==> nativeTakerPcQty > 0 && crossed
      requires CanAccrue(market.View(), TakerFee(o.tier, nativeTakerPcQty), makerRebates)
      modifies asks, asks.nodes, market, q, q.buf
      ensures Valid() && q.Valid()
      ensures done ==>
                Computes(if crossed then AskReject(config, old(View()), o) else AskRest(config, old(View()), o),
                         old(market.View()), old(q.contents), q.buf.Length, View(), market.View(), q.contents, r)
      ensures !done ==>
                var fee := TakerFee(o.tier, nativeTakerPcQty);
                var events := [TakerFill(o, (o.coinQty - unfilledQty) * config.coinLot, nativeTakerPcQty - fee, fee)]
                              + (if unfilledQty == 0 then [OrderOut(o, 0, 0)] else []);
                var rest := if unfilledQty == 0 then None else Some(o.(coinQty := unfilledQty));
                Computes(Outcome(old(View()), events, rest, fee, makerRebates),
                         old(market.View()), old(q.contents), q.buf.Length, View(), market.View(), q.contents, r)
    {
      hide Slab.Valid, Queue.Valid, Insert, Find, Ascending, LeafOk, Notional, TakerFee, PostAsk;
      TakerFeeFits(o.tier, nativeTakerPcQty);
      var nativeTakerFee: u64 := TakerFee(o.tier, nativeTakerPcQty);
      if nativeTakerPcQty > 0 {
        SplitFits(o.coinQty, unfilledQty, config.coinLot);
        var nativePaid: u64 := (o.coinQty - unfilledQty) * config.coinLot;
        var nativeReceived: u64 := nativeTakerPcQty - nativeTakerFee;
        var pushed := q.PushBack(TakerFill(o, nativePaid, nativeReceived, nativeTakerFee));
        if !pushed {
          return Err(EventQueueFull);
        }
      }
      AccrueFees(nativeTakerFee, makerRebates);
      if !done && unfilledQty > 0 {
        return Ok(Some(o.(coinQty := unfilledQty)));
      }
      var postAllowed := o.orderType != ImmediateOrCancel;
      if postAllowed && !crossed && unfilledQty > 0 {
        var posted := PlaceAsk(LeafOf(o, unfilledQty), q);
        if !posted {
          return Err(EventQueueFull);
        }
      } else {
        SplitFits(o.coinQty, unfilledQty, config.coinLot);
        var nativeQtyUnlocked: u64 := unfilledQty * config.coinLot;
        var pushed := q.PushBack(OrderOut(o, nativeQtyUnlocked, 0));
        if !pushed {
          return Err(EventQueueFull);
        }
      }
      return Ok(None);
    }

    /** One match of an incoming ask, or its resting place. */
    method NewAsk(o: Order, q: Queue<Event>) returns (r: Result<Option<Order>>)
      requires Valid() && q.Valid()
      requires BookOk(config, View()) && OrderOk(config, o) && o.side == Ask
      requires var out := AskStep(config, View(), o); CanAccrue(market.View(), out.fee, out.rebate)
      modifies bids, bids.nodes, asks, asks.nodes, market, q, q.buf
      ensures Valid() && q.Valid()
      ensures Computes(AskStep(config, old(View()), o), old(market.View()), old(q.contents), q.buf.Length,
                       View(), market.View(), q.contents, r)
    {
      hide Slab.Valid, Slab.IsHandle, Queue.Valid, LeafOk, Notional, TakerFee, MakerRebate, Ascending, AskRest,
          ReduceBid, Price, CanAccrue;
      NoFeeOnNothing(o.tier, market.View());
      var h := FindBest(Bid);
      if h.None? {
        r := FinishAsk(o, o.coinQty, 0, 0, true, false, q);
        return;
      }
      var best := bids.LeafAt(h.value);
      assert best in bids.leaves;
      var tradePrice := Price(best.key);
      var crossed := Price(o.id) <= tradePrice;
      if !crossed || o.orderType == PostOnly {
        r := FinishAsk(o, o.coinQty, 0, 0, true, crossed, q);
        return;
      }
      var tradeQty := AskTradeQty(o, best);
      if tradeQty == 0 {
        r := FinishAsk(o, o.coinQty, 0, 0, true, crossed, q);
        return;
      }
      LeafPrice(config, Bid, best);
      SplitFits(o.coinQty, o.coinQty - tradeQty, config.coinLot);
      if o.owner == best.owner {
        r := SelfTradeAsk(o, h.value, tradeQty, q);
        return;
      }
      PartFits(config, Bid, best, tradeQty);
      var filled, makerRebate := FillBestBid(h.value, tradeQty, q);
      if !filled {
        return Err(EventQueueFull);
      }
      var unfilledQty: u64 := o.coinQty - tradeQty;
      LeafPositive(config, best, tradeQty);
      var nativeTakerPcQty: u64 := Notional(tradeQty, tradePrice, config.pcLot);
      r := FinishAsk(o, unfilledQty, nativeTakerPcQty, makerRebate, false, true, q);
    }

    /** Same owner on both sides. */
    method SelfTradeAsk(o: Order, h: nat, tradeQty: u64, q: Queue<Event>) returns (r: Result<Option<Order>>)
      requires Valid() && q.Valid() && bids.leaves != [] && bids.IsHandle(h) && bids.LeafAt(h) == BestBid(View())
      requires LeafOk(config, Bid, BestBid(View())) && OrderOk(config, o) && o.side == Ask
      requires tradeQty == AskTradeQty(o, BestBid(View()))
      modifies bids, bids.nodes, asks, asks.nodes, q, q.buf
      ensures Valid() && q.Valid()
      ensures Computes(AskSelfTrade(config, old(View()), o), market.View(), old(q.contents), q.buf.Length,
                       View(), market.View(), q.contents, r)
    {
      hide Slab.Valid, Slab.IsHandle, Queue.Valid, LeafOk, Notional, Ascending, ReduceBid, Price;
      var best := bids.LeafAt(h);
      LeafPrice(config, Bid, best);
      NoAccrual(market.View());
      var provide: u64 := SelfTradeProvide(o, best, tradeQty);
      var take: u64 := SelfTradeTake(o, tradeQty);
      var ok := CancelBestBid(h, provide, q);
      if !ok {
        return Err(EventQueueFull);
      }
      var unfilledQty: u64 := o.coinQty - take;
      SplitFits(o.coinQty, take, config.coinLot);
      var nativeQtyUnlocked: u64 := take * config.coinLot;
      ok := q.PushBack(OrderOut(o, nativeQtyUnlocked, unfilledQty));
      if !ok {
        return Err(EventQueueFull);
      }
      return Ok(if unfilledQty == 0 then None else Some(o.(coinQty := unfilledQty)));
    }

    // ----- new_bid -----

    /** What follows the matching loop of new_bid when nothing was traded. */
    method FinishIdleBid(o: Order, crossed: bool, q: Queue<Event>) returns (r: Result<Option<Order>>)
      requires Valid() && q.Valid() && SideOk(config, Bid, bids.leaves) && OrderOk(config, o) && o.side == Bid
      requires CanAccrue(market.View(), 0, 0)
      modifies bids, bids.nodes, market, q, q.buf
      ensures Valid() && q.Valid()
      ensures Computes(if crossed then BidReject(config, old(View()), o) else BidRest(config, old(View()), o),
                       old(market.View()), old(q.contents), q.buf.Length, View(), market.View(), q.contents, r)
    {
      hide Slab.Valid, Queue.Valid, Insert, Find, Ascending, LeafOk, Notional, Price, PostBid, BidPostQty, SideOk;
      NoAccrual(market.View());
      AccrueFees(0, 0);
      var coinQtyToPost, pcQtyToKeepLocked := 0, 0;
      if o.orderType != ImmediateOrCancel && !crossed {
        PostQtyAffordable(config, o);
        PostQtyFits(config, o);
        coinQtyToPost := BidPostQty(config, o);
        pcQtyToKeepLocked := coinQtyToPost * Price(o.id);
      }
      BidPostLock(config, o, coinQtyToPost);
      var lotsLocked: u64 := pcQtyToKeepLocked;
      var nativeQtyStillLocked: u64 := Notional(coinQtyToPost, Price(o.id), config.pcLot);
      var nativeQtyUnlocked: u64 := o.pcLocked - nativeQtyStillLocked;
      var pushed := q.PushBack(OrderOut(o, nativeQtyUnlocked, nativeQtyStillLocked));
      if !pushed {
        return Err(EventQueueFull);
      }
      if pcQtyToKeepLocked > 0 {
        var posted := PlaceBid(LeafOf(o, coinQtyToPost), q);
        if !posted {
          return Err(EventQueueFull);
        }
      }
      return Ok(None);
    }

    /** What follows the matching loop of new_bid after a fill. */
    method FinishFilledBid(o: Order, coinQtyRemaining: u64, nativeAccumFillPrice: u64, makerRebates: u64,
        q: Queue<Event>)
      returns (r: Result<Option<Order>>)
      requires Valid() && q.Valid() && OrderOk(config, o) && o.side == Bid && coinQtyRemaining <= o.coinQty
      requires 0 < nativeAccumFillPrice && nativeAccumFillPrice + TakerFee(o.tier, nativeAccumFillPrice) <= o.pcLocked
      requires FitsU64((o.coinQty - coinQtyRemaining) * config.coinLot)
      requires CanAccrue(market.View(), TakerFee(o.tier, nativeAccumFillPrice), makerRebates)
      modifies market, q, q.buf
      ensures q.Valid()
      ensures var native, fee := nativeAccumFillPrice, TakerFee(o.tier, nativeAccumFillPrice);
              var pcLeft: nat := o.pcLocked - native - fee;
              var done := coinQtyRemaining == 0 || pcLeft <= 0;
              var events := [TakerFill(o, native + fee, (o.coinQty - coinQtyRemaining) * config.coinLot, fee)]
                            + (if done then [OrderOut(o, pcLeft, 0)] else []);
              var rest := if done then None else Some(o.(coinQty := coinQtyRemaining, pcLocked := pcLeft));
              Computes(Outcome(old(View()), events, rest, fee, makerRebates),
                       old(market.View()), old(q.contents), q.buf.Length, View(), market.View(), q.contents, r)
    {
      hide Slab.Valid, Queue.Valid, Ascending, Notional, TakerFee, Price;
      var nativeTakerFee: u64 := TakerFee(o.tier, nativeAccumFillPrice);
      var nativePcQtyRemaining: u64 := o.pcLocked - nativeAccumFillPrice - nativeTakerFee;
      var nativePaid: u64 := nativeAccumFillPrice + nativeTakerFee;
      var nativeReceived: u64 := (o.coinQty - coinQtyRemaining) * config.coinLot;
      var pushed := q.PushBack(TakerFill(o, nativePaid, nativeReceived, nativeTakerFee));
      if !pushed {
        return Err(EventQueueFull);
      }
      AccrueFees(nativeTakerFee, makerRebates);
      if coinQtyRemaining > 0 && nativePcQtyRemaining > 0 {
        return Ok(Some(o.(coinQty := coinQtyRemaining, pcLocked := nativePcQtyRemaining)));
      }
      pushed := q.PushBack(OrderOut(o, nativePcQtyRemaining, 0));
      if !pushed {
        return Err(EventQueueFull);
      }
      return Ok(None);
    }

    /** One match of an incoming bid, or its resting place. */
    method NewBid(o: Order, q: Queue<Event>) returns (r: Result<Option<Order>>)
      requires Valid() && q.Valid()
      requires BookOk(config, View()) && OrderOk(config, o) && o.side == Bid
      requires var out := BidStep(config, View(), o); CanAccrue(market.View(), out.fee, out.rebate)
      modifies bids, bids.nodes, asks, asks.nodes, market, q, q.buf
      ensures Valid() && q.Valid()
      ensures Computes(BidStep(config, old(View()), o), old(market.View()), old(q.contents), q.buf.Length,
                       View(), market.View(), q.contents, r)
    {
      hide Slab.Valid, Slab.IsHandle, Queue.Valid, LeafOk, Notional, TakerFee, MakerRebate, Ascending, BidRest,
          ReduceAsk, Price,
        CanAccrue, MaxPcQty, RemoveTakerFee;
      NoFeeOnNothing(o.tier, market.View());
      SpendableFits(config, o);
      var maxPcQty: u64 := MaxPcQty(config, o);
      var h := FindBest(Ask);
      if h.None? {
        r := FinishIdleBid(o, false, q);
        return;
      }
      var best := asks.LeafAt(h.value);
      BestAskOk(config, View());
      LeafPrice(config, Ask, best);
      var tradePrice := Price(best.key);
      var crossed := Price(o.id) >= tradePrice;
      if !crossed || o.orderType == PostOnly {
        r := FinishIdleBid(o, crossed, q);
        return;
      }
      TradeAffordable(config, o, best);
      TradeQtyBounds(config, o, best);
      var tradeQty: u64 := Min(best.qty, Min(o.coinQty, maxPcQty / tradePrice));
      if tradeQty == 0 {
        r := FinishIdleBid(o, crossed, q);
        return;
      }
      if o.owner == best.owner {
        r := SelfTradeBid(o, h.value, tradeQty, q);
        return;
      }
      r := FillBid(o, h.value, tradeQty, q);
    }

    /** A bid takes the best ask. */
    method FillBid(o: Order, h: nat, tradeQty: u64, q: Queue<Event>) returns (r: Result<Option<Order>>)
      requires Valid() && q.Valid() && asks.leaves != [] && asks.IsHandle(h) && asks.LeafAt(h) == BestAsk(View())
      requires LeafOk(config, Ask, BestAsk(View())) && OrderOk(config, o) && o.side == Bid
      requires tradeQty == BidTradeQty(config, o, BestAsk(View())) && 0 < tradeQty
      requires var out := BidFill(config, View(), o); CanAccrue(market.View(), out.fee, out.rebate)
      modifies bids, bids.nodes, asks, asks.nodes, market, q, q.buf
      ensures Valid() && q.Valid()
      ensures Computes(BidFill(config, old(View()), o), old(market.View()), old(q.contents), q.buf.Length,
                       View(), market.View(), q.contents, r)
    {
      hide Slab.Valid, Slab.IsHandle, Queue.Valid, LeafOk, Notional, TakerFee, MakerRebate, Ascending, ReduceAsk, Price,
        BidTradeQty;
      var best := asks.LeafAt(h);
      LeafPrice(config, Ask, best);
      TradeAffordable(config, o, best);
      TradeQtyBounds(config, o, best);
      PartFits(config, Ask, best, tradeQty);
      NotionalPositive(tradeQty, Price(best.key), config.pcLot);
      var native: u64 := Notional(tradeQty, Price(best.key), config.pcLot);
      FillFeesNonNegative(o.tier, best.tier, native);
      var filled, makerRebate := FillBestAsk(h, tradeQty, q);
      if !filled {
        return Err(EventQueueFull);
      }
      var coinQtyRemaining: u64 := o.coinQty - tradeQty;
      r := FinishFilledBid(o, coinQtyRemaining, native, makerRebate, q);
    }

    method SelfTradeBid(o: Order, h: nat, tradeQty: u64, q: Queue<Event>) returns (r: Result<Option<Order>>)
      requires Valid() && q.Valid() && asks.leaves != [] && asks.IsHandle(h) && asks.LeafAt(h) == BestAsk(View())
      requires LeafOk(config, Ask, BestAsk(View())) && OrderOk(config, o) && o.side == Bid
      requires tradeQty == BidTradeQty(config, o, BestAsk(View()))
      modifies bids, bids.nodes, asks, asks.nodes, q, q.buf
      ensures Valid() && q.Valid()
      ensures Computes(BidSelfTrade(config, old(View()), o), market.View(), old(q.contents), q.buf.Length,
                       View(), market.View(), q.contents, r)
    {
      hide Slab.Valid, Slab.IsHandle, Queue.Valid, LeafOk, Notional, Ascending, ReduceAsk, Price, BidTradeQty;
      var best := asks.LeafAt(h);
      LeafPrice(config, Ask, best);
      TradeAffordable(config, o, best);
      TradeQtyBounds(config, o, best);
      NotionalPositive(0, Price(best.key), config.pcLot);
      NoAccrual(market.View());
      var provide: u64 := SelfTradeProvide(o, best, tradeQty);
      var take: u64 := SelfTradeTake(o, tradeQty);
      var ok := CancelBestAsk(h, provide, q);
      if !ok {
        return Err(EventQueueFull);
      }
      var nativeTakerPcUnlocked: u64 := Notional(take, Price(best.key), config.pcLot);
      var nativeTakerPcStillLocked: u64 := o.pcLocked - nativeTakerPcUnlocked;
      var coinQtyRemaining: u64 := o.coinQty - take;
      var rest := if coinQtyRemaining == 0 || nativeTakerPcStillLocked == 0 then None
                  else Some(o.(coinQty := coinQtyRemaining, pcLocked := nativeTakerPcStillLocked));
      ok := q.PushBack(if rest.Some? then OrderOut(o, nativeTakerPcUnlocked, nativeTakerPcStillLocked)
                       else OrderOut(o, o.pcLocked, 0));
      if !ok {
        return Err(EventQueueFull);
      }
      return Ok(rest);
    }

    // ----- cancel_order -----

    /** Remove the order if it is there and belongs to the caller; put it back if it does not. */
    method CancelOrder(side: Side, id: nat, owner: nat, slot: nat, q: Queue<Event>) returns (r: Result<Option<Order>>)
      requires Valid() && q.Valid() && BookOk(config, View())
      modifies bids, bids.nodes, asks, asks.nodes, q, q.buf
      ensures Valid() && q.Valid()
      ensures Computes(CancelStep(config, old(View()), side, id, owner, slot), market.View(), old(q.contents),
            q.buf.Length,
                       View(), market.View(), q.contents, r)
    {
      hide Slab.Valid, Slab.IsHandle, Queue.Valid, LeafOk, Notional, Ascending, Find, Remove, Insert, Price;
      NoAccrual(market.View());
      q.WithinCapacity();
      ghost var s := SideOf(View(), side);
      ghost var before := View();
      assert BookOk(config, before);
      var found := RemoveFrom(side, id);
      if found.None? {
        AbsentUnchanged(before, side, id);
        assert q.contents == old(q.contents) + [];
        return Ok(None);
      }
      var leaf := found.value;
      if leaf.owner == owner && leaf.slot == slot {
        LeafFits(config, side, s, leaf);
        var nativeQtyUnlocked: u64 := LeafLock(config, side, leaf);
        var pushed := q.PushBack(LeafOut(side, leaf, nativeQtyUnlocked, 0));
        if !pushed {
          return Err(EventQueueFull);
        }
        return Ok(None);
      }
      ReinsertFits(config, side, s, id);
      PutBack(side, leaf);
      assert View() == before;
      assert q.contents == old(q.contents) + [];
      return Ok(None);
    }

    method RemoveFrom(side: Side, id: nat) returns (r: Option<Leaf>)
      requires Valid()
      modifies bids, bids.nodes, asks, asks.nodes
      ensures Valid()
      ensures r == Find(SideOf(old(View()), side), id)
      ensures View() == WithSide(old(View()), side, Remove(SideOf(old(View()), side), id))
    {
      hide Slab.Valid, Find, Remove;
      if side == Bid {
        r := bids.RemoveByKey(id);
      } else {
        r := asks.RemoveByKey(id);
      }
    }

    /** The reinsertion of a leaf that was just removed: it always finds room. */
    method PutBack(side: Side, leaf: Leaf)
      requires Valid() && leaf.key < TWO128
      requires 2 * |SideOf(View(), side)| + 1 <= Slots(config, side)
      modifies bids, bids.nodes, asks, asks.nodes
      ensures Valid()
      ensures View() == WithSide(old(View()), side, Insert(SideOf(old(View()), side), leaf))
    {
      hide Slab.Valid, Slab.IsHandle, Insert, Find;
      if side == Bid {
        var inserted := bids.InsertLeaf(leaf);
        assert inserted.Inserted?;
      } else {
        var inserted := asks.InsertLeaf(leaf);
        assert inserted.Inserted?;
      }
    }

    // ----- new_order and process_requests -----

    /** One step for a new order. */
    method OneStep(o: Order, q: Queue<Event>) returns (r: Result<Option<Order>>)
      requires Valid() && q.Valid()
      requires BookOk(config, View()) && OrderOk(config, o)
      requires var out := OrderStep(config, View(), o); CanAccrue(market.View(), out.fee, out.rebate)
      modifies bids, bids.nodes, asks, asks.nodes, market, q, q.buf
      ensures Valid() && q.Valid()
      ensures Computes(OrderStep(config, old(View()), o), old(market.View()), old(q.contents), q.buf.Length,
                       View(), market.View(), q.contents, r)
    {
      hide Slab.Valid, Queue.Valid, BookOk, OrderOk, BidStep, AskStep, Computes, CanAccrue;
      if o.side == Bid {
        r := NewBid(o, q);
      } else {
        r := NewAsk(o, q);
      }
    }

    /** The crank state that this object, a request list and an event queue make up. */
    ghost function CrankView(requests: seq<Request>, events: seq<Event>): CrankState
      reads bids, asks, market
    {
      CrankState(View(), market.View(), requests, events)
    }

    /**
     new_order: step until the order is done or the limit is used up.  The loop runs ahead of the
     request queue, whose front `process_requests` rewrites afterwards; `tail` is what is behind it.
     */
    method NewOrderLoop(o: Order, q: Queue<Event>, limit: nat, ghost tail: seq<Request>, ghost n: int)
      returns (r: Result<Option<Order>>, limitLeft: nat)
      requires Valid() && q.Valid() && 0 < limit
      requires CrankOk(config, CrankView([NewOrder(o)] + tail, q.contents), n)
      modifies bids, bids.nodes, asks, asks.nodes, market, q, q.buf
      ensures Valid() && q.Valid() && limitLeft < limit
      ensures var before := Run(config, q.buf.Length, old(CrankView([NewOrder(o)] + tail, q.contents)), limit);
              if r.Err? then before == Err(r.error)
              else var after := CrankView(WithRest(r.value, tail), q.contents);
                   before == Run(config, q.buf.Length, after, limitLeft) && CrankOk(config, after, n)
                   && (r.value.Some? ==> limitLeft == 0)
    {
      hide Slab.Valid, Queue.Valid, CrankOk, Run, OrderStep, Computes, Accrue;
      limitLeft := limit;
      var current := o;
      ghost var start := CrankView([NewOrder(o)] + tail, q.contents);
      while limitLeft > 0
        invariant Valid() && q.Valid() && limitLeft <= limit
        invariant limitLeft == limit ==> current == o
        invariant CrankOk(config, CrankView([NewOrder(current)] + tail, q.contents), n)
        invariant Run(config, q.buf.Length, start, limit)
               == Run(config, q.buf.Length, CrankView([NewOrder(current)] + tail, q.contents), limitLeft)
      {
        ghost var s := CrankView([NewOrder(current)] + tail, q.contents);
        StepReady(config, s, n);
        RunUnfolds(config, q.buf.Length, s, current, tail, limitLeft);
        limitLeft := limitLeft - 1;
        var remaining := OneStep(current, q);
        StepResult(config, q.buf.Length, s, current, tail, CrankView([], q.contents), remaining, n);
        if remaining.Err? {
          return Err(remaining.error), limitLeft;
        }
        if limitLeft == 0 || remaining.value.None? {
          return Ok(remaining.value), limitLeft;
        }
        current := remaining.value.value;
      }
      return Ok(Some(current)), 0;
    }

    /** process_requests: repeated work on the front request is exactly `Run`. */
    method ProcessRequests(reqQ: Queue<Request>, q: Queue<Event>, limit: nat, ghost n: int) returns (r: Result<()>)
      requires Valid() && q.Valid() && reqQ.Valid()
      requires CrankOk(config, CrankView(reqQ.contents, q.contents), n)
      modifies bids, bids.nodes, asks, asks.nodes, market, q, q.buf, reqQ, reqQ.buf
      ensures Valid() && q.Valid() && reqQ.Valid()
      ensures var out := Run(config, q.buf.Length, old(CrankView(reqQ.contents, q.contents)), limit);
              if r.Err? then out == Err(r.error) else out == Ok(CrankView(reqQ.contents, q.contents))
    {
      hide Slab.Valid, Queue.Valid, CrankOk, Run, CancelStep, Computes, Accrue;
      var limitRemaining: nat := limit;
      ghost var start := CrankView(reqQ.contents, q.contents);
      RunStops(config, q.buf.Length, start);
      while limitRemaining > 0
        invariant Valid() && q.Valid() && reqQ.Valid() && limitRemaining <= limit
        invariant CrankOk(config, CrankView(reqQ.contents, q.contents), n)
        invariant Run(config, q.buf.Length, start, limit)
               == Run(config, q.buf.Length, CrankView(reqQ.contents, q.contents), limitRemaining)
      {
        var request := reqQ.PeekFront();
        ghost var s := CrankView(reqQ.contents, q.contents);
        RunStops(config, q.buf.Length, s);
        if request.None? {
          break;
        }
        ghost var tail := reqQ.contents[1..];
        assert s.requests == [request.value] + tail;
        var result := Handle(request.value, q, limitRemaining, tail, n);
        if result.0.Err? {
          return Err(result.0.error);
        }
        limitRemaining := result.1;
        if result.0.value.Some? {
          reqQ.ReplaceFront(NewOrder(result.0.value.value));
        } else {
          var _ := reqQ.PopFront();
        }
        assert reqQ.contents == WithRest(result.0.value, tail);
      }
      RunStops(config, q.buf.Length, CrankView(reqQ.contents, q.contents));
      return Ok(());
    }

    /** process_orderbook_request: returns what is left of the request, and the limit that is left. */
    method Handle(request: Request, q: Queue<Event>, limit: nat, ghost tail: seq<Request>, ghost n: int)
      returns (result: (Result<Option<Order>>, nat))
      requires Valid() && q.Valid() && 0 < limit
      requires CrankOk(config, CrankView([request] + tail, q.contents), n)
      modifies bids, bids.nodes, asks, asks.nodes, market, q, q.buf
      ensures Valid() && q.Valid() && result.1 < limit
      ensures var before := Run(config, q.buf.Length, old(CrankView([request] + tail, q.contents)), limit);
              if result.0.Err? then before == Err(result.0.error)
              else var after := CrankView(WithRest(result.0.value, tail), q.contents);
                   before == Run(config, q.buf.Length, after, result.1) && CrankOk(config, after, n)
    {
      hide Slab.Valid, Queue.Valid, CrankOk, Run, CancelStep, Computes, Accrue;
      match request
      case NewOrder(o) =>
        var r, left := NewOrderLoop(o, q, limit, tail, n);
        return (r, left);
      case CancelOrder(side, id, cancelId, slot, owner, clientId) =>
        ghost var s := CrankView([request] + tail, q.contents);
        StepReady(config, s, n);
        CancelUnfolds(config, q.buf.Length, s, request, tail, limit, n);
        var r := CancelOrder(side, id, owner, slot, q);
        CancelResult(config, s, request, q.buf.Length, CrankView([], q.contents), r);
        assert WithRest(None, tail) == tail;
        return (r, limit - 1);
    }
  }
}
