/**
 What every matching step keeps: both sides stay ordered maps of well-formed
 leaves that fit their slabs, and the book is never crossed.
 */
module BookLaws {
  import opened Numbers
  import opened Fees
  import opened Orders
  import opened Ladder
  import opened Engine

  function Slots(c: Config, side: Side): nat {
    if side == Bid then c.bidSlots else c.askSlots
  }

  ghost predicate LeafOk(c: Config, side: Side, x: Leaf) {
    && x.key < TWO128 && Price(x.key) > 0 && x.qty > 0 && x.slot < 128
    && FitsU64(LeafLock(c, side, x))
  }

  ghost predicate SideOk(c: Config, side: Side, s: seq<Leaf>) {
    && Ascending(s)
    && (forall x :: x in s ==> LeafOk(c, side, x))
    && 2 * |s| <= Slots(c, side) + 1
  }

  /** Every resting bid is strictly below every resting ask. */
  ghost predicate Uncrossed(b: Book) {
    forall x, y :: x in b.bids && y in b.asks ==> Price(x.key) < Price(y.key)
  }

  ghost predicate BookOk(c: Config, b: Book) {
    SideOk(c, Bid, b.bids) && SideOk(c, Ask, b.asks) && Uncrossed(b)
  }

  /** A NewOrder request as `process_new_order` builds it, or as a step puts it back. */
  ghost predicate OrderOk(c: Config, o: Order) {
    && o.id < TWO128 && Price(o.id) > 0 && o.coinQty > 0 && FitsU64(o.coinQty) && o.slot < 128
    && if o.side == Bid then 0 < o.pcLocked && FitsU64(o.pcLocked)
       else o.pcLocked == 0 && FitsU64(o.coinQty * c.coinLot)
  }

  /** All resting orders were accepted before sequence number `n`. */
  ghost predicate Older(b: Book, n: int) {
    && (forall x :: x in b.bids ==> SeqOf(Bid, x.key) < n)
    && (forall x :: x in b.asks ==> SeqOf(Ask, x.key) < n)
  }

  /** Every key of `r` is a key of `s`. */
  ghost predicate KeysWithin(r: seq<Leaf>, s: seq<Leaf>) {
    forall y :: y in r ==> HasKey(s, y.key)
  }

  /** The lock of part of a leaf, in range. */
  lemma PartLock(c: Config, side: Side, x: Leaf, qty: nat)
    requires LeafOk(c, side, x) && qty <= x.qty
    ensures 0 <= LeafLock(c, side, x.(qty := qty)) <= LeafLock(c, side, x)
  {
    NotionalMonotone(qty, x.qty, Price(x.key), c.pcLot);
    NotionalPositive(qty, Price(x.key), c.pcLot);
    ProductMonotone(qty, x.qty, c.coinLot);
    ProductMonotone(0, qty, c.coinLot);
  }

  lemma SmallerLeafOk(c: Config, side: Side, x: Leaf, qty: nat)
    requires LeafOk(c, side, x) && 0 < qty <= x.qty
    ensures LeafOk(c, side, x.(qty := qty))
  {
    PartLock(c, side, x, qty);
  }

  lemma ReduceBidOk(c: Config, s: seq<Leaf>, qty: nat)
    requires SideOk(c, Bid, s) && s != [] && qty <= s[|s| - 1].qty
    ensures SideOk(c, Bid, ReduceBid(s, qty)) && KeysWithin(ReduceBid(s, qty), s)
  {
    var x := s[|s| - 1];
    assert x in s;
    if qty > 0 {
      SmallerLeafOk(c, Bid, x, qty);
    }
  }

  lemma ReduceAskOk(c: Config, s: seq<Leaf>, qty: nat)
    requires SideOk(c, Ask, s) && s != [] && qty <= s[0].qty
    ensures SideOk(c, Ask, ReduceAsk(s, qty)) && KeysWithin(ReduceAsk(s, qty), s)
  {
    assert s[0] in s;
    if qty > 0 {
      SmallerLeafOk(c, Ask, s[0], qty);
    }
  }

  lemma InsertOk(c: Config, side: Side, s: seq<Leaf>, x: Leaf)
    requires SideOk(c, side, s) && LeafOk(c, side, x)
    requires 2 * |s| + 1 <= Slots(c, side)
    ensures SideOk(c, side, Insert(s, x))
  {
    InsertAscending(s, x);
    FindAfterInsert(s, x, x.key);
  }

  lemma PostOk(c: Config, s: seq<Leaf>, side: Side, x: Leaf)
    requires SideOk(c, side, s) && LeafOk(c, side, x) && Find(s, x.key).None?
    ensures var r := if side == Bid then PostBid(c, s, x).0 else PostAsk(c, s, x).0;
            SideOk(c, side, r) && x in r && forall y :: y in r ==> y == x || y in s
  {
    if !Full(s, Slots(c, side)) {
      InsertOk(c, side, s, x);
    } else if side == Bid {
      assert s == [s[0]] + s[1..];
      InsertOk(c, side, s[1..], x);
    } else {
      InsertOk(c, side, s[..|s| - 1], x);
    }
  }

  lemma RemoveOk(c: Config, side: Side, s: seq<Leaf>, key: nat)
    requires SideOk(c, side, s)
    ensures SideOk(c, side, Remove(s, key))
  {
    RemoveAscending(s, key);
    FindAfterRemove(s, key, key);
  }

  /** The best bid has the greatest price, the best ask the least. */
  lemma BestPrice(c: Config, b: Book)
    requires BookOk(c, b)
    ensures b.bids != [] ==> forall x :: x in b.bids ==> Price(x.key) <= Price(BestBid(b).key)
    ensures b.asks != [] ==> forall x :: x in b.asks ==> Price(BestAsk(b).key) <= Price(x.key)
  {
  }

  lemma NewKey(b: Book, o: Order)
    requires Older(b, SeqOf(o.side, o.id))
    ensures Find(SideOf(b, o.side), o.id).None?
  {
  }

  ghost predicate Keeps(c: Config, o: Order, out: Outcome, n: int) {
    && BookOk(c, out.book)
    && Older(out.book, n)
    && (out.rest.Some? ==>
          && OrderOk(c, out.rest.value) && Older(out.book, SeqOf(o.side, o.id))
          && out.rest.value == o.(coinQty := out.rest.value.coinQty, pcLocked := out.rest.value.pcLocked))
  }

  lemma ReducedBidBook(c: Config, b: Book, qty: nat, n: int)
    requires BookOk(c, b) && b.bids != [] && qty <= BestBid(b).qty && Older(b, n)
    ensures var b' := b.(bids := ReduceBid(b.bids, qty)); BookOk(c, b') && Older(b', n)
  {
    hide ReduceBid;
    ReduceBidOk(c, b.bids, qty);
  }

  lemma ReducedAskBook(c: Config, b: Book, qty: nat, n: int)
    requires BookOk(c, b) && b.asks != [] && qty <= BestAsk(b).qty && Older(b, n)
    ensures var b' := b.(asks := ReduceAsk(b.asks, qty)); BookOk(c, b') && Older(b', n)
  {
    hide ReduceAsk;
    ReduceAskOk(c, b.asks, qty);
  }

  lemma AskRestKeeps(c: Config, b: Book, o: Order, n: int)
    requires BookOk(c, b) && OrderOk(c, o) && o.side == Ask && Older(b, SeqOf(Ask, o.id)) && SeqOf(Ask, o.id) < n
    requires b.bids == [] || Price(o.id) > Price(BestBid(b).key)
    ensures Keeps(c, o, AskRest(c, b, o), n)
  {
    hide PostAsk, PostBid, Price, SeqOf;
    if o.orderType != ImmediateOrCancel {
      var x := LeafOf(o, o.coinQty);
      NewKey(b, o);
      PostOk(c, b.asks, Ask, x);
      BestPrice(c, b);
    }
  }

  lemma AskStepKeeps(c: Config, b: Book, o: Order, n: int)
    requires BookOk(c, b) && OrderOk(c, o) && o.side == Ask && Older(b, SeqOf(Ask, o.id)) && SeqOf(Ask, o.id) < n
    ensures Keeps(c, o, AskStep(c, b, o), n)
  {
    hide ReduceBid, AskRest, Price, SeqOf, Ascending, Notional;
    if b.bids == [] || Price(o.id) > Price(BestBid(b).key) {
      AskRestKeeps(c, b, o, n);
    } else {
      var best := BestBid(b);
      assert best in b.bids;
      var q := AskTradeQty(o, best);
      var left := best.qty - (if o.owner == best.owner then SelfTradeProvide(o, best, q) else q);
      ReducedBidBook(c, b, left, SeqOf(Ask, o.id));
      ReducedBidBook(c, b, left, n);
      ProductMonotone(o.coinQty - q, o.coinQty, c.coinLot);
      ProductMonotone(0, o.coinQty - q, c.coinLot);
    }
  }

  lemma BidRestKeeps(c: Config, b: Book, o: Order, n: int)
    requires BookOk(c, b) && OrderOk(c, o) && o.side == Bid && Older(b, SeqOf(Bid, o.id)) && SeqOf(Bid, o.id) < n
    requires b.asks == [] || Price(o.id) < Price(BestAsk(b).key)
    ensures Keeps(c, o, BidRest(c, b, o), n)
  {
    hide PostAsk, PostBid, Price, SeqOf, BidPostQty, Notional;
    var qty := BidPostQty(c, o);
    if o.orderType != ImmediateOrCancel && qty > 0 {
      var x := LeafOf(o, qty);
      NewKey(b, o);
      PostQtyAffordable(c, o);
      PostOk(c, b.bids, Bid, x);
      BestPrice(c, b);
    }
  }

  /** The lots a bid posts are covered by what it still has locked. */
  lemma PostQtyAffordable(c: Config, o: Order)
    requires OrderOk(c, o) && o.side == Bid
    ensures 0 <= Notional(BidPostQty(c, o), Price(o.id), c.pcLot) <= o.pcLocked
    ensures BidPostQty(c, o) * Price(o.id) <= o.pcLocked / c.pcLot
  {
    var lots := o.pcLocked / c.pcLot;
    FloorTimes(o.pcLocked, c.pcLot);
    FloorTimes(lots, Price(o.id));
    ProductMonotone(BidPostQty(c, o), lots / Price(o.id), Price(o.id));
    ProductMonotone(BidPostQty(c, o) * Price(o.id), lots, c.pcLot);
    NotionalPositive(BidPostQty(c, o), Price(o.id), c.pcLot);
  }

  /** What a bid trades, fee included, never exceeds what it has locked. */
  lemma TradeAffordable(c: Config, o: Order, best: Leaf)
    requires OrderOk(c, o) && o.side == Bid && Price(best.key) > 0
    ensures 0 <= BidTradeQty(c, o, best)
    ensures var native := Notional(BidTradeQty(c, o, best), Price(best.key), c.pcLot);
            && 0 <= native && native <= MaxPcQty(c, o) * c.pcLot <= o.pcLocked
            && native + TakerFee(o.tier, native) <= o.pcLocked
            && BidTradeQty(c, o, best) * Price(best.key) <= MaxPcQty(c, o)
  {
    var total, q, p := RemoveTakerFee(o.tier, o.pcLocked), BidTradeQty(c, o, best), Price(best.key);
    WithheldIsFeeOrOneMore(o.tier, o.pcLocked);
    TakerFeeIsCeiling(o.tier, total);
    FloorTimes(total, c.pcLot);
    FloorTimes(total / c.pcLot, p);
    ProductMonotone(q, total / c.pcLot / p, p);
    ProductMonotone(q * p, total / c.pcLot, c.pcLot);
    NotionalPositive(q, p, c.pcLot);
    FillFitsLock(o.tier, o.pcLocked, Notional(q, p, c.pcLot));
  }

  lemma BidStepKeeps(c: Config, b: Book, o: Order, n: int)
    requires BookOk(c, b) && OrderOk(c, o) && o.side == Bid && Older(b, SeqOf(Bid, o.id)) && SeqOf(Bid, o.id) < n
    ensures Keeps(c, o, BidStep(c, b, o), n)
  {
    hide ReduceAsk, BidRest, Price, SeqOf, Ascending, Notional, BidTradeQty, TakerFee, MakerRebate;
    if b.asks == [] || Price(o.id) < Price(BestAsk(b).key) {
      BidRestKeeps(c, b, o, n);
    } else if o.orderType != PostOnly && BidTradeQty(c, o, BestAsk(b)) > 0 {
      var best := BestAsk(b);
      assert best in b.asks;
      var q := BidTradeQty(c, o, best);
      TradeQtyBounds(c, o, best);
      TradeAffordable(c, o, best);
      var native := Notional(q, Price(best.key), c.pcLot);
      FillFeesNonNegative(o.tier, o.tier, native);
      NotionalPositive(0, Price(best.key), c.pcLot);
      var left := best.qty - (if o.owner == best.owner then SelfTradeProvide(o, best, q) else q);
      ReducedAskBook(c, b, left, SeqOf(Bid, o.id));
      ReducedAskBook(c, b, left, n);
    }
  }

  lemma TradeQtyBounds(c: Config, o: Order, best: Leaf)
    ensures BidTradeQty(c, o, best) <= best.qty && BidTradeQty(c, o, best) <= o.coinQty
  {
  }

  /** Every step on a new order keeps the book, whatever the order type, and the order put back is well formed. */
  lemma OrderStepKeeps(c: Config, b: Book, o: Order, n: int)
    requires BookOk(c, b) && OrderOk(c, o) && Older(b, SeqOf(o.side, o.id)) && SeqOf(o.side, o.id) < n
    ensures Keeps(c, o, OrderStep(c, b, o), n)
  {
    hide BidStep, AskStep, BookOk, Older, OrderOk;
    if o.side == Bid {
      BidStepKeeps(c, b, o, n);
    } else {
      AskStepKeeps(c, b, o, n);
    }
  }

  lemma CancelStepKeeps(c: Config, b: Book, side: Side, id: nat, owner: nat, slot: nat, n: int)
    requires BookOk(c, b) && Older(b, n)
    ensures var out := CancelStep(c, b, side, id, owner, slot);
            BookOk(c, out.book) && Older(out.book, n) && out.rest.None?
  {
    hide Remove, Find, LeafOk, Ascending, LeafLock, Price, SeqOf;
    RemoveOk(c, side, SideOf(b, side), id);
  }
}
