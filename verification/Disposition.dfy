/**
 What becomes of an order and of the book in one step: exactly when the order
 trades, exactly when it rests, and that no third order is touched.
 */
module Disposition {
  import opened Numbers
  import opened Fees
  import opened Orders
  import opened Ladder
  import opened Engine
  import opened BookLaws
  import opened Accounting
  import opened Events
  import opened Progress

  /** Some resting order of the other side is within the limit of `o`. */
  ghost predicate Marketable(b: Book, o: Order) {
    exists x :: x in SideOf(b, Opposite(o.side)) && WithinLimit(o, Price(x.key))
  }

  /** The bid can pay for one lot at the given price, fee included; an ask always has its lot. */
  predicate CanPay(c: Config, o: Order, price: nat) {
    var native := Notional(1, price, c.pcLot);
    o.side == Bid ==> native + TakerFee(o.tier, native) <= o.pcLocked
  }

  /** The bid's lock covers one lot at its own limit; no fee is due on a resting order. */
  predicate CanRest(c: Config, o: Order) {
    o.side == Bid ==> Notional(1, Price(o.id), c.pcLot) <= o.pcLocked
  }

  /** Lots with which `o` enters the book. */
  function RestingQty(c: Config, o: Order): nat {
    if o.side == Bid then BidPostQty(c, o) else o.coinQty
  }

  /** The order that is in front on the other side. */
  function BestOther(b: Book, o: Order): Leaf
    requires SideOf(b, Opposite(o.side)) != []
  {
    if o.side == Bid then BestAsk(b) else BestBid(b)
  }

  /** A marketable order is within its limit at the best price. */
  lemma MarketableAtBest(c: Config, b: Book, o: Order)
    requires BookOk(c, b)
    ensures var s := SideOf(b, Opposite(o.side));
            && (s != [] ==> BestOther(b, o) in s && IsBest(Opposite(o.side), s, BestOther(b, o)))
            && (Marketable(b, o) <==> s != [] && WithinLimit(o, Price(BestOther(b, o).key)))
  {
    var s := SideOf(b, Opposite(o.side));
    if s != [] {
      BestPrice(c, b);
      LastIsBest(s);
      assert BestOther(b, o) in s;
    }
  }

  /**
   An order trades if and only if the best order of the other side is within its limit, is not its
   owner's, is not refused by post-only, and one lot of it can be paid for.
   */
  lemma TradesExactlyWhen(c: Config, b: Book, o: Order)
    requires BookOk(c, b) && OrderOk(c, o)
    ensures AnyFill(OrderStep(c, b, o).events) <==>
              && Marketable(b, o) && o.orderType != PostOnly
              && BestOther(b, o).owner != o.owner && CanPay(c, o, Price(BestOther(b, o).key))
  {
    MarketableAtBest(c, b, o);
    hide Notional, TakerFee, MakerRebate, ReduceAsk, ReduceBid, Ascending, IsBest, Price, MaxPcQty, Quot;
    if o.side == Bid && b.asks != [] {
      var best := BestAsk(b);
      BestAskOk(c, b);
      TradesAllItCan(c, o, best, 1);
      if BidTradeQty(c, o, best) > 0 {
        assert Marketable(b, o) && o.orderType != PostOnly && best.owner != o.owner
            ==> BidStep(c, b, o).events[0].Fill?;
      }
    } else if o.side == Ask && b.bids != [] {
      assert BestBid(b) in b.bids;
      assert AskTradeQty(o, BestBid(b)) > 0;
      assert Marketable(b, o) && o.orderType != PostOnly && BestBid(b).owner != o.owner
          ==> AskStep(c, b, o).events[0].Fill?;
    }
  }

  /**
   A new order enters the book if and only if it is not marketable, may be posted, and its lock
   covers at least one lot; it then rests under its own id with what the lock covers.
   */
  lemma RestsExactlyWhen(c: Config, b: Book, o: Order)
    requires BookOk(c, b) && OrderOk(c, o) && Find(SideOf(b, o.side), o.id).None?
    ensures Find(SideOf(OrderStep(c, b, o).book, o.side), o.id)
         == if !Marketable(b, o) && o.orderType != ImmediateOrCancel && CanRest(c, o)
            then Some(LeafOf(o, RestingQty(c, o))) else None
  {
    hide AskStep, BidStep, Marketable, LeafOf, RestingQty, BookOk, OrderOk, Find;
    MarketableAtBest(c, b, o);
    if o.side == Bid {
      BidRests(c, b, o);
    } else {
      AskRests(c, b, o);
    }
  }

  lemma AskRests(c: Config, b: Book, o: Order)
    requires BookOk(c, b) && OrderOk(c, o) && o.side == Ask && Find(b.asks, o.id).None?
    ensures var crossing := b.bids != [] && WithinLimit(o, Price(BestBid(b).key));
            Find(AskStep(c, b, o).book.asks, o.id)
              == if !crossing && o.orderType != ImmediateOrCancel then Some(LeafOf(o, RestingQty(c, o))) else None
  {
    hide Notional, TakerFee, MakerRebate, ReduceBid, Price, PostAsk, Find, Ascending, LeafOf;
    LeafOfKey(o, o.coinQty);
    PostedFinds(c, b.asks, Ask, LeafOf(o, o.coinQty), o.id);
  }

  lemma BidRests(c: Config, b: Book, o: Order)
    requires BookOk(c, b) && OrderOk(c, o) && o.side == Bid && Find(b.bids, o.id).None?
    ensures var crossing := b.asks != [] && WithinLimit(o, Price(BestAsk(b).key));
            Find(BidStep(c, b, o).book.bids, o.id)
              == if !crossing && o.orderType != ImmediateOrCancel && CanRest(c, o)
                 then Some(LeafOf(o, RestingQty(c, o))) else None
  {
    hide Notional, TakerFee, MakerRebate, ReduceAsk, Price, PostBid, Find, Ascending, LeafOf, BidTradeQty, BidPostQty;
    PostsAllItCan(c, o, 1);
    LeafOfKey(o, BidPostQty(c, o));
    PostedFinds(c, b.bids, Bid, LeafOf(o, BidPostQty(c, o)), o.id);
  }

  lemma LeafOfKey(o: Order, qty: nat)
    ensures LeafOf(o, qty).key == o.id
  {
  }

  /** Looking up a key after posting a fresh order, on a side that may be full. */
  lemma PostedFinds(c: Config, s: seq<Leaf>, side: Side, x: Leaf, key: nat)
    requires Ascending(s) && Find(s, x.key).None?
    ensures var r := if side == Bid then PostBid(c, s, x).0 else PostAsk(c, s, x).0;
            && (key == x.key ==> Find(r, key) == Some(x))
            && (key != x.key && !Booted(c, s, side, key) ==> Find(r, key) == Find(s, key))
            && (key != x.key && Booted(c, s, side, key) ==> Find(r, key) == None)
  {
    hide Notional, Insert, Find, Ascending;
    FindAfterInsert(s, x, key);
    if s != [] {
      var n := |s| - 1;
      AscendingParts(s);
      EndsDropped(s, key);
      EndsDropped(s, x.key);
      FindAfterInsert(s[1..], x, key);
      FindAfterInsert(s[..n], x, key);
    }
  }

  /** Posting on a full side takes out the order that is last in the queue. */
  predicate Booted(c: Config, s: seq<Leaf>, side: Side, key: nat) {
    s != [] && Full(s, Slots(c, side)) && key == (if side == Bid then s[0] else s[|s| - 1]).key
  }

  lemma AscendingParts(s: seq<Leaf>)
    requires Ascending(s) && s != []
    ensures Ascending(s[1..]) && Ascending(s[..|s| - 1])
  {
  }

  lemma EndsDropped(s: seq<Leaf>, key: nat)
    requires Ascending(s) && s != []
    ensures Find(s[1..], key) == if key == s[0].key then None else Find(s, key)
    ensures Find(s[..|s| - 1], key) == if key == s[|s| - 1].key then None else Find(s, key)
  {
    var n := |s| - 1;
    if key == s[0].key {
      FindBelow(s[1..], key);
    }
    FindInitial(s, key);
  }

  lemma {:induction false} FindInitial(s: seq<Leaf>, key: nat)
    requires Ascending(s) && s != []
    ensures Find(s[..|s| - 1], key) == if key == s[|s| - 1].key then None else Find(s, key)
  {
    if |s| > 1 {
      assert s[..|s| - 1][1..] == s[1..][..|s[1..]| - 1];
      assert s[0].key < s[1..][|s[1..]| - 1].key;
      FindInitial(s[1..], key);
    }
  }

  /** Reducing the best order changes what is found under its key only, and there the quantity only. */
  lemma ReducedFinds(s: seq<Leaf>, qty: nat, key: nat)
    requires Ascending(s) && s != []
    ensures var x := s[|s| - 1];
            Find(ReduceBid(s, qty), key)
              == if key != x.key then Find(s, key) else if qty == 0 then None else Some(x.(qty := qty))
    ensures Find(ReduceAsk(s, qty), key)
         == if key != s[0].key then Find(s, key) else if qty == 0 then None else Some(s[0].(qty := qty))
  {
    var n := |s| - 1;
    EndsDropped(s, key);
    AppendFinds(s[..n], s[n].(qty := qty), key);
    assert ([s[0].(qty := qty)] + s[1..])[1..] == s[1..];
  }

  lemma {:induction false} AppendFinds(s: seq<Leaf>, x: Leaf, key: nat)
    ensures Find(s + [x], key) == if Find(s, key).Some? then Find(s, key) else if key == x.key then Some(x) else None
  {
    if s == [] {
      assert s + [x] == [x];
    } else {
      assert (s + [x])[1..] == s[1..] + [x];
      AppendFinds(s[1..], x, key);
    }
  }

  /**
   A step touches no third order: on the other side only the best order may change, and on the
   own side only the new order appears and at most the last order of a full side is booted.
   */
  lemma OthersUntouched(c: Config, b: Book, o: Order, key: nat)
    requires BookOk(c, b) && OrderOk(c, o) && Find(SideOf(b, o.side), o.id).None?
    ensures var after, other := OrderStep(c, b, o).book, Opposite(o.side);
            && (key != o.id && !Booted(c, SideOf(b, o.side), o.side, key) ==>
                  Find(SideOf(after, o.side), key) == Find(SideOf(b, o.side), key))
            && (SideOf(b, other) == [] || key != BestOther(b, o).key ==>
                  Find(SideOf(after, other), key) == Find(SideOf(b, other), key))
  {
    hide AskStep, BidStep, BookOk, OrderOk, Find, Booted;
    if o.side == Bid {
      BidTouches(c, b, o, key);
    } else {
      AskTouches(c, b, o, key);
    }
  }

  /** The shapes either side of the book can take after a step. */
  lemma AskShapes(c: Config, b: Book, o: Order)
    ensures var after := AskStep(c, b, o).book;
            && (after.asks == b.asks || after.asks == PostAsk(c, b.asks, LeafOf(o, o.coinQty)).0)
            && (after.bids == b.bids ||
                  (b.bids != [] &&
                   exists left: nat {:trigger ReduceBid(b.bids, left)} :: after.bids == ReduceBid(b.bids, left)))
  {
    hide Notional, TakerFee, MakerRebate, Price, PostAsk, ReduceBid, LeafOf;
  }

  lemma BidShapes(c: Config, b: Book, o: Order)
    ensures var after := BidStep(c, b, o).book;
            && (after.bids == b.bids || after.bids == PostBid(c, b.bids, LeafOf(o, BidPostQty(c, o))).0)
            && (after.asks == b.asks ||
                  (b.asks != [] &&
                   exists left: nat {:trigger ReduceAsk(b.asks, left)} :: after.asks == ReduceAsk(b.asks, left)))
  {
    hide Notional, TakerFee, MakerRebate, Price, PostBid, ReduceAsk, LeafOf, BidPostQty;
  }

  lemma AskTouches(c: Config, b: Book, o: Order, key: nat)
    requires BookOk(c, b) && Find(b.asks, o.id).None?
    ensures var after := AskStep(c, b, o).book;
            && (key != o.id && !Booted(c, b.asks, Ask, key) ==> Find(after.asks, key) == Find(b.asks, key))
            && (b.bids == [] || key != BestBid(b).key ==> Find(after.bids, key) == Find(b.bids, key))
  {
    hide AskStep, PostAsk, ReduceBid, Ascending, Find, Booted, LeafOf;
    AskShapes(c, b, o);
    LeafOfKey(o, o.coinQty);
    PostedFinds(c, b.asks, Ask, LeafOf(o, o.coinQty), key);
    var after := AskStep(c, b, o).book;
    if after.bids != b.bids {
      var left: nat :| after.bids == ReduceBid(b.bids, left);
      ReducedFinds(b.bids, left, key);
    }
  }

  lemma BidTouches(c: Config, b: Book, o: Order, key: nat)
    requires BookOk(c, b) && Find(b.bids, o.id).None?
    ensures var after := BidStep(c, b, o).book;
            && (key != o.id && !Booted(c, b.bids, Bid, key) ==> Find(after.bids, key) == Find(b.bids, key))
            && (b.asks == [] || key != BestAsk(b).key ==> Find(after.asks, key) == Find(b.asks, key))
  {
    hide BidStep, PostBid, ReduceAsk, Ascending, Find, Booted, LeafOf, BidPostQty;
    BidShapes(c, b, o);
    LeafOfKey(o, BidPostQty(c, o));
    PostedFinds(c, b.bids, Bid, LeafOf(o, BidPostQty(c, o)), key);
    var after := BidStep(c, b, o).book;
    if after.asks != b.asks {
      var left: nat :| after.asks == ReduceAsk(b.asks, left);
      ReducedFinds(b.asks, left, key);
    }
  }

  /** A cancel takes out the named order if that is its owner's and sits in the named slot, and nothing else. */
  lemma CancelTakesOnlyItsOrder(c: Config, b: Book, side: Side, id: nat, owner: nat, slot: nat, key: nat)
    requires BookOk(c, b)
    ensures var x, out := Find(SideOf(b, side), id), CancelStep(c, b, side, id, owner, slot);
            var mine := x.Some? && x.value.owner == owner && x.value.slot == slot;
            && Find(SideOf(out.book, side), key) == (if mine && key == id then None else Find(SideOf(b, side), key))
            && SideOf(out.book, Opposite(side)) == SideOf(b, Opposite(side))
            && (out.events != [] <==> mine) && (!mine ==> out.book == b)
  {
    hide Ascending, Find, Remove;
    FindAfterRemove(SideOf(b, side), id, key);
  }
}
