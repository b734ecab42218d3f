/**
 One ledger for everything that is conserved.  A `Measure` assigns a weight to
 each queued order, resting leaf and pending event; the weights of an event are
 defined by what its consumption will do to the owner's account.  Every matching
 step conserves every measure, up to the fee that leaves the deposits.
 */
module Accounting {
  import opened Numbers
  import opened Fees
  import opened Orders
  import opened Ladder
  import opened Engine
  import opened BookLaws

  datatype Measure =
    | PcLock(owner: nat)             // price currency of one account that is locked
    | CoinLock(owner: nat)
    | Place(owner: nat, slot: nat)   // how many places hold the order of one account slot
    | PcFree | CoinFree              // currency that is or will become free
    | PcNet | CoinNet                // signed effect of pending fills on the account totals
    | Referral                       // referrer rebates still to be credited

  // ----- what consuming an event adds to its owner's account -----

  function PcFreeInc(e: Event): int {
    match e
    case Fill(side, maker, _, received, fee, _, _, _, _, _) =>
      if side == Ask then received else if maker then fee else 0
    case Out(side, unlocked, _, _, _, _, _) => if side == Bid then unlocked else 0
  }

  function PcTotalInc(e: Event): int {
    match e
    case Fill(side, _, paid, received, _, _, _, _, _, _) => if side == Ask then received else -paid
    case Out(_, _, _, _, _, _, _) => 0
  }

  function CoinFreeInc(e: Event): int {
    match e
    case Fill(side, _, _, received, _, _, _, _, _, _) => if side == Bid then received else 0
    case Out(side, unlocked, _, _, _, _, _) => if side == Ask then unlocked else 0
  }

  function CoinTotalInc(e: Event): int {
    match e
    case Fill(side, _, paid, received, _, _, _, _, _, _) => if side == Bid then received else -paid
    case Out(_, _, _, _, _, _, _) => 0
  }

  function ReferralInc(e: Event): int {
    if e.Fill? && !e.maker then ReferrerRebate(e.fee) else 0
  }

  predicate FullyOut(e: Event) {
    e.Out? && e.locked == 0
  }

  // ----- weights -----

  function EventWeight(m: Measure, e: Event): int {
    match m
    case PcLock(o) => if e.owner == o then PcFreeInc(e) - PcTotalInc(e) else 0
    case CoinLock(o) => if e.owner == o then CoinFreeInc(e) - CoinTotalInc(e) else 0
    case Place(o, i) => if e.owner == o && e.slot == i && FullyOut(e) then 1 else 0
    case PcFree => PcFreeInc(e)
    case CoinFree => CoinFreeInc(e)
    case PcNet => PcTotalInc(e)
    case CoinNet => CoinTotalInc(e)
    case Referral => ReferralInc(e)
  }

  /** Weight of an order in the queue or in the book that has `lock` units locked. */
  function HeldWeight(m: Measure, side: Side, owner: nat, slot: nat, lock: int): int {
    match m
    case PcLock(o) => if side == Bid && owner == o then lock else 0
    case CoinLock(o) => if side == Ask && owner == o then lock else 0
    case Place(o, i) => if owner == o && slot == i then 1 else 0
    case PcFree => if side == Bid then lock else 0
    case CoinFree => if side == Ask then lock else 0
    case PcNet => 0
    case CoinNet => 0
    case Referral => 0
  }

  function OrderLock(c: Config, o: Order): int {
    if o.side == Bid then o.pcLocked else o.coinQty * c.coinLot
  }

  function OrderWeight(c: Config, m: Measure, o: Order): int {
    HeldWeight(m, o.side, o.owner, o.slot, OrderLock(c, o))
  }

  function LeafWeight(c: Config, m: Measure, side: Side, x: Leaf): int {
    HeldWeight(m, side, x.owner, x.slot, LeafLock(c, side, x))
  }

  function RequestWeight(c: Config, m: Measure, r: Request): int {
    if r.NewOrder? then OrderWeight(c, m, r.order) else 0
  }

  function RestWeight(c: Config, m: Measure, rest: Option<Order>): int {
    if rest.Some? then OrderWeight(c, m, rest.value) else 0
  }

  /** What a fill takes out of the deposits and promises to the referrer. */
  function Drift(m: Measure, fee: int, rebate: int): int {
    if m == PcFree || m == PcNet then rebate - fee
    else if m == Referral then ReferrerRebate(fee)
    else 0
  }

  // ----- sums -----

  function SumEvents(m: Measure, s: seq<Event>): int {
    if s == [] then 0 else EventWeight(m, s[0]) + SumEvents(m, s[1..])
  }

  function SumLeaves(c: Config, m: Measure, side: Side, s: seq<Leaf>): int {
    if s == [] then 0 else LeafWeight(c, m, side, s[0]) + SumLeaves(c, m, side, s[1..])
  }

  function SumRequests(c: Config, m: Measure, s: seq<Request>): int {
    if s == [] then 0 else RequestWeight(c, m, s[0]) + SumRequests(c, m, s[1..])
  }

  function BookSum(c: Config, m: Measure, b: Book): int {
    SumLeaves(c, m, Bid, b.bids) + SumLeaves(c, m, Ask, b.asks)
  }

  lemma {:induction false} SumEventsConcat(m: Measure, a: seq<Event>, b: seq<Event>)
    ensures SumEvents(m, a + b) == SumEvents(m, a) + SumEvents(m, b)
  {
    if a == [] {
      assert a + b == b;
    } else {
      assert (a + b)[1..] == a[1..] + b;
      SumEventsConcat(m, a[1..], b);
    }
  }

  lemma {:induction false} SumRequestsConcat(c: Config, m: Measure, a: seq<Request>, b: seq<Request>)
    ensures SumRequests(c, m, a + b) == SumRequests(c, m, a) + SumRequests(c, m, b)
  {
    if a == [] {
      assert a + b == b;
    } else {
      assert (a + b)[1..] == a[1..] + b;
      SumRequestsConcat(c, m, a[1..], b);
    }
  }

  lemma {:induction false} SumLeavesConcat(c: Config, m: Measure, side: Side, a: seq<Leaf>, b: seq<Leaf>)
    ensures SumLeaves(c, m, side, a + b) == SumLeaves(c, m, side, a) + SumLeaves(c, m, side, b)
  {
    if a == [] {
      assert a + b == b;
    } else {
      assert (a + b)[1..] == a[1..] + b;
      SumLeavesConcat(c, m, side, a[1..], b);
    }
  }

  lemma {:induction false} SumAfterInsert(c: Config, m: Measure, side: Side, s: seq<Leaf>, x: Leaf)
    requires Find(s, x.key).None?
    ensures SumLeaves(c, m, side, Insert(s, x)) == SumLeaves(c, m, side, s) + LeafWeight(c, m, side, x)
  {
    if s == [] {
      assert [x][1..] == [];
    } else if x.key < s[0].key {
      assert ([x] + s)[1..] == s;
    } else {
      SumAfterInsert(c, m, side, s[1..], x);
      assert ([s[0]] + Insert(s[1..], x))[1..] == Insert(s[1..], x);
    }
  }

  lemma {:induction false} SumAfterRemove(c: Config, m: Measure, side: Side, s: seq<Leaf>, key: nat)
    requires Find(s, key).Some?
    ensures SumLeaves(c, m, side, Remove(s, key))
         == SumLeaves(c, m, side, s) - LeafWeight(c, m, side, Find(s, key).value)
  {
    if s[0].key != key {
      SumAfterRemove(c, m, side, s[1..], key);
      assert ([s[0]] + Remove(s[1..], key))[1..] == Remove(s[1..], key);
    }
  }

  lemma SumSplitLast(c: Config, m: Measure, side: Side, s: seq<Leaf>)
    requires s != []
    ensures SumLeaves(c, m, side, s)
         == SumLeaves(c, m, side, s[..|s| - 1]) + LeafWeight(c, m, side, s[|s| - 1])
  {
    var n := |s| - 1;
    assert s == s[..n] + [s[n]];
    SumLeavesConcat(c, m, side, s[..n], [s[n]]);
  }

  // ----- the book edits -----

  /** What is left of a leaf's weight after its quantity is set. */
  function LeftWeight(c: Config, m: Measure, side: Side, x: Leaf, qty: nat): int {
    if qty == 0 then 0 else LeafWeight(c, m, side, x.(qty := qty))
  }

  lemma SumAfterReduceBid(c: Config, m: Measure, s: seq<Leaf>, qty: nat)
    requires s != []
    ensures SumLeaves(c, m, Bid, ReduceBid(s, qty))
         == SumLeaves(c, m, Bid, s) - LeafWeight(c, m, Bid, s[|s| - 1]) + LeftWeight(c, m, Bid, s[|s| - 1], qty)
  {
    SumSplitLast(c, m, Bid, s);
    if qty > 0 {
      var r := ReduceBid(s, qty);
      SumSplitLast(c, m, Bid, r);
      assert r[..|r| - 1] == s[..|s| - 1];
    }
  }

  lemma SumAfterReduceAsk(c: Config, m: Measure, s: seq<Leaf>, qty: nat)
    requires s != []
    ensures SumLeaves(c, m, Ask, ReduceAsk(s, qty))
         == SumLeaves(c, m, Ask, s) - LeafWeight(c, m, Ask, s[0]) + LeftWeight(c, m, Ask, s[0], qty)
  {
  }

  lemma SumAfterPost(c: Config, m: Measure, s: seq<Leaf>, side: Side, x: Leaf)
    requires Find(s, x.key).None?
    ensures var (r, booted) := if side == Bid then PostBid(c, s, x) else PostAsk(c, s, x);
            SumLeaves(c, m, side, r) + SumEvents(m, booted) == SumLeaves(c, m, side, s) + LeafWeight(c, m, side, x)
  {
    hide LeafWeight, EventWeight, Notional, Insert, Find;
    NoEvents(m);
    if !Full(s, Slots(c, side)) || s == [] {
      SumAfterInsert(c, m, side, s, x);
    } else if side == Bid {
      assert s == [s[0]] + s[1..];
      SumAfterInsert(c, m, side, s[1..], x);
      OutWeight(c, m, side, s[0]);
    } else {
      var n := |s| - 1;
      SumSplitLast(c, m, side, s);
      NotInPrefix(s, n, x.key);
      SumAfterInsert(c, m, side, s[..n], x);
      OutWeight(c, m, side, s[n]);
    }
  }

  lemma NotInPrefix(s: seq<Leaf>, n: nat, key: nat)
    requires n <= |s| && Find(s, key).None?
    ensures Find(s[..n], key).None?
  {
    assert forall x :: x in s[..n] ==> x in s;
  }

  /** An order that leaves the book hands its whole weight to its Out event. */
  lemma OutWeight(c: Config, m: Measure, side: Side, x: Leaf)
    ensures EventWeight(m, LeafOut(side, x, LeafLock(c, side, x), 0)) == LeafWeight(c, m, side, x)
    ensures SumEvents(m, [LeafOut(side, x, LeafLock(c, side, x), 0)]) == LeafWeight(c, m, side, x)
  {
    var e := LeafOut(side, x, LeafLock(c, side, x), 0);
    assert [e][1..] == [];
  }

  /** A new order that is turned away hands its whole weight to its Out event. */
  lemma OrderOutWeight(c: Config, m: Measure, o: Order)
    ensures SumEvents(m, [OrderOut(o, OrderLock(c, o), 0)]) == OrderWeight(c, m, o)
  {
    var e := OrderOut(o, OrderLock(c, o), 0);
    assert [e][1..] == [];
  }

  // ----- conservation -----

  ghost predicate Conserves(c: Config, m: Measure, b: Book, o: Order, out: Outcome) {
    OrderWeight(c, m, o) + BookSum(c, m, b) + Drift(m, out.fee, out.rebate)
    == RestWeight(c, m, out.rest) + BookSum(c, m, out.book) + SumEvents(m, out.events)
  }

  lemma AskRestConserves(c: Config, m: Measure, b: Book, o: Order)
    requires o.side == Ask && Find(b.asks, o.id).None?
    ensures Conserves(c, m, b, o, AskRest(c, b, o))
  {
    hide PostAsk, PostBid, SumEvents, SumLeaves;
    OrderOutWeight(c, m, o);
    if o.orderType != ImmediateOrCancel && o.coinQty > 0 {
      SumAfterPost(c, m, b.asks, Ask, LeafOf(o, o.coinQty));
    }
  }

  /** Where the two events of a self-trade put the weight they take. */
  lemma TwoEvents(m: Measure, a: Event, b: Event)
    ensures SumEvents(m, [a, b]) == EventWeight(m, a) + EventWeight(m, b)
  {
    assert [a, b][1..] == [b];
    OptionalOut(m, b, true);
  }

  lemma FillEvents(m: Measure, a: Event, xs: seq<Event>, b: Event, ys: seq<Event>)
    ensures SumEvents(m, [a] + xs + [b] + ys)
          == EventWeight(m, a) + SumEvents(m, xs) + EventWeight(m, b) + SumEvents(m, ys)
  {
    SumEventsConcat(m, [a] + xs + [b], ys);
    SumEventsConcat(m, [a] + xs, [b]);
    SumEventsConcat(m, [a], xs);
    assert [a][1..] == [] && [b][1..] == [];
  }

  lemma OptionalOut(m: Measure, e: Event, present: bool)
    ensures SumEvents(m, if present then [e] else []) == if present then EventWeight(m, e) else 0
  {
    assert [e][1..] == [];
  }

  /** Splitting a leaf's quantity splits its lock. */
  lemma LockSplits(c: Config, side: Side, x: Leaf, a: nat, b: nat)
    requires x.qty == a + b
    ensures LeafLock(c, side, x) == LeafLock(c, side, x.(qty := a)) + LeafLock(c, side, x.(qty := b))
    ensures b == 0 ==> LeafLock(c, side, x.(qty := b)) == 0
  {
    NotionalSplit(a, b, Price(x.key), c.pcLot);
    assert (a + b) * c.coinLot == a * c.coinLot + b * c.coinLot;
  }

  /** A maker that loses `a` of its lots: the rest of its weight stays in the book, or its slot is freed. */
  lemma MakerReduced(c: Config, m: Measure, side: Side, x: Leaf, a: nat, left: nat)
    requires x.qty == a + left && Price(x.key) > 0
    ensures LeafWeight(c, m, side, x)
         == LeftWeight(c, m, side, x, left)
          + EventWeight(m, LeafOut(side, x, LeafLock(c, side, x.(qty := a)), LeafLock(c, side, x.(qty := left))))
    ensures LeafLock(c, side, x.(qty := left)) == 0 <==> left == 0
  {
    hide LeafLock;
    LockSplits(c, side, x, a, left);
    LockPositive(c, side, x.(qty := left));
  }

  lemma LockPositive(c: Config, side: Side, x: Leaf)
    requires Price(x.key) > 0
    ensures LeafLock(c, side, x) == 0 <==> x.qty == 0
  {
    NotionalPositive(x.qty, Price(x.key), c.pcLot);
    ProductMonotone(1, c.coinLot, x.qty);
  }

  /** The out event of part of an ask and what is left of it weigh as much as the ask. */
  lemma OrderReduced(c: Config, m: Measure, o: Order, take: nat, unfilled: nat)
    requires o.side == Ask && take + unfilled == o.coinQty
    ensures OrderWeight(c, m, o)
         == EventWeight(m, OrderOut(o, take * c.coinLot, unfilled))
          + RestWeight(c, m, if unfilled == 0 then None else Some(o.(coinQty := unfilled)))
  {
    assert (take + unfilled) * c.coinLot == take * c.coinLot + unfilled * c.coinLot;
  }

  lemma AskSelfTradeConserves(c: Config, m: Measure, b: Book, o: Order)
    requires o.side == Ask && b.bids != [] && Price(BestBid(b).key) > 0
    ensures Conserves(c, m, b, o, AskSelfTrade(c, b, o))
  {
    var best, q := BestBid(b), AskTradeQty(o, BestBid(b));
    var provide := SelfTradeProvide(o, best, q);
    var take := SelfTradeTake(o, q);
    var left: nat := best.qty - provide;
    var unfilled: nat := o.coinQty - take;
    SumAfterReduceBid(c, m, b.bids, left);
    MakerReduced(c, m, Bid, best, provide, left);
    TwoEvents(m,
              LeafOut(Bid, best, Notional(provide, Price(best.key), c.pcLot), Notional(left, Price(best.key), c.pcLot)),
              OrderOut(o, take * c.coinLot, unfilled));
    hide Notional, SumLeaves, SumEvents, ReduceBid, AskTradeQty, SelfTradeProvide, SelfTradeTake, HeldWeight,
        EventWeight;
    OrderReduced(c, m, o, take, unfilled);
  }

  /** The two Fill events of a match, an ask taking a bid. */
  lemma AskFillWeights(c: Config, m: Measure, best: Leaf, o: Order, q: nat, left: nat, native: int, fee: int,
      rebate: int)
    requires o.side == Ask && best.qty == q + left && q <= o.coinQty
    requires native == LeafLock(c, Bid, best.(qty := q))
    ensures var mf, tf := MakerFill(Bid, best, native - rebate, q * c.coinLot, rebate),
          TakerFill(o, q * c.coinLot, native - fee, fee);
            var unfilled: nat := o.coinQty - q;
            OrderWeight(c, m, o) + LeafWeight(c, m, Bid, best) + Drift(m, fee, rebate)
            == OrderWeight(c, m, o.(coinQty := unfilled)) + LeafWeight(c, m, Bid, best.(qty := left))
             + EventWeight(m, mf) + EventWeight(m, tf)
  {
    LockSplits(c, Bid, best, q, left);
    var unfilled: nat := o.coinQty - q;
    assert (q + unfilled) * c.coinLot == q * c.coinLot + unfilled * c.coinLot;
    hide LeafLock;
  }

  /** An order with nothing left: its remaining weight is that of a fully-out event. */
  lemma SpentOrderWeight(c: Config, m: Measure, o: Order)
    requires OrderLock(c, o) == 0
    ensures EventWeight(m, OrderOut(o, 0, 0)) == OrderWeight(c, m, o)
  {
  }

  lemma SpentLeafWeight(c: Config, m: Measure, side: Side, x: Leaf)
    requires x.qty == 0
    ensures EventWeight(m, LeafOut(side, x, 0, 0)) == LeafWeight(c, m, side, x)
  {
    LockSplits(c, side, x, 0, 0);
  }

  lemma AskFillConserves(c: Config, m: Measure, b: Book, o: Order)
    requires o.side == Ask && b.bids != []
    ensures Conserves(c, m, b, o, AskFill(c, b, o))
  {
    hide SumLeaves, SumEvents, ReduceBid, HeldWeight, EventWeight, Drift, Notional, MakerRebate, TakerFee;
    var best, q := BestBid(b), AskTradeQty(o, BestBid(b));
    var native := Notional(q, Price(best.key), c.pcLot);
    var rebate, fee := MakerRebate(best.tier, native), TakerFee(o.tier, native);
    var left: nat := best.qty - q;
    var unfilled: nat := o.coinQty - q;
    SumAfterReduceBid(c, m, b.bids, left);
    AskFillWeights(c, m, best, o, q, left, native, fee, rebate);
    SpentLeafWeight(c, m, Bid, best.(qty := 0));
    SpentOrderWeight(c, m, o.(coinQty := 0));
    OptionalOut(m, LeafOut(Bid, best, 0, 0), left == 0);
    OptionalOut(m, OrderOut(o, 0, 0), unfilled == 0);
    FillEvents(m, MakerFill(Bid, best, native - rebate, q * c.coinLot, rebate),
               if left == 0 then [LeafOut(Bid, best, 0, 0)] else [],
               TakerFill(o, q * c.coinLot, native - fee, fee),
               if unfilled == 0 then [OrderOut(o, 0, 0)] else []);
  }

  lemma AskStepConserves(c: Config, m: Measure, b: Book, o: Order)
    requires BookOk(c, b) && o.side == Ask && Find(b.asks, o.id).None?
    ensures Conserves(c, m, b, o, AskStep(c, b, o))
  {
    hide Conserves, AskRest, AskFill, AskSelfTrade, AskTradeQty, Find;
    OrderOutWeight(c, m, o);
    AskRestConserves(c, m, b, o);
    if b.bids != [] {
      assert BestBid(b) in b.bids;
      AskSelfTradeConserves(c, m, b, o);
      AskFillConserves(c, m, b, o);
    }
    AskRejectConserves(c, m, b, o);
  }

  lemma AskRejectConserves(c: Config, m: Measure, b: Book, o: Order)
    requires o.side == Ask
    ensures Conserves(c, m, b, o, AskReject(c, b, o))
  {
    OrderOutWeight(c, m, o);
  }

  lemma BidRejectConserves(c: Config, m: Measure, b: Book, o: Order)
    requires o.side == Bid
    ensures Conserves(c, m, b, o, BidReject(c, b, o))
  {
    OrderOutWeight(c, m, o);
  }

  lemma BidRestConserves(c: Config, m: Measure, b: Book, o: Order)
    requires OrderOk(c, o) && o.side == Bid && Find(b.bids, o.id).None?
    ensures Conserves(c, m, b, o, BidRest(c, b, o))
  {
    hide PostAsk, PostBid, SumEvents, SumLeaves, BidPostQty, Notional;
    BidRejectConserves(c, m, b, o);
    var qty := BidPostQty(c, o);
    if o.orderType != ImmediateOrCancel && qty > 0 {
      var x := LeafOf(o, qty);
      var keep := Notional(qty, Price(o.id), c.pcLot);
      NotionalPositive(qty, Price(o.id), c.pcLot);
      SumAfterPost(c, m, b.bids, Bid, x);
      var out := OrderOut(o, o.pcLocked - keep, keep);
      SumEventsConcat(m, [out], PostBid(c, b.bids, x).1);
      OptionalOut(m, out, true);
    }
  }

  lemma BidSelfTradeConserves(c: Config, m: Measure, b: Book, o: Order)
    requires BookOk(c, b) && OrderOk(c, o) && o.side == Bid && b.asks != [] && 0 <= BidTradeQty(c, o, BestAsk(b))
    ensures Conserves(c, m, b, o, BidSelfTrade(c, b, o))
  {
    hide Notional, SumLeaves, SumEvents, ReduceAsk, BidTradeQty, BookOk;
    var best, q := BestAsk(b), BidTradeQty(c, o, BestAsk(b));
    BestAskOk(c, b);
    TradeQtyBounds(c, o, best);
    TradeAffordable(c, o, best);
    var provide := SelfTradeProvide(o, best, q);
    var left: nat := best.qty - provide;
    SumAfterReduceAsk(c, m, b.asks, left);
    MakerReduced(c, m, Ask, best, provide, left);
    var out := BidSelfTrade(c, b, o);
    TwoEvents(m, out.events[0], out.events[1]);
    hide SelfTradeProvide;
  }

  lemma BestAskOk(c: Config, b: Book)
    requires BookOk(c, b) && b.asks != []
    ensures LeafOk(c, Ask, BestAsk(b))
  {
    assert BestAsk(b) in b.asks;
  }

  /** The two Fill events of a match, a bid taking an ask. */
  lemma BidFillWeights(c: Config, m: Measure, best: Leaf, o: Order, q: nat, left: nat, native: int, fee: int,
      rebate: int)
    requires o.side == Bid && best.qty == q + left && q <= o.coinQty && native + fee <= o.pcLocked
    ensures var mf, tf := MakerFill(Ask, best, q * c.coinLot, native + rebate, rebate),
          TakerFill(o, native + fee, q * c.coinLot, fee);
            var pcLeft: nat := o.pcLocked - native - fee;
            var coinLeft: nat := o.coinQty - q;
            OrderWeight(c, m, o) + LeafWeight(c, m, Ask, best) + Drift(m, fee, rebate)
            == OrderWeight(c, m, o.(coinQty := coinLeft, pcLocked := pcLeft))
               + LeafWeight(c, m, Ask, best.(qty := left))
             + EventWeight(m, mf) + EventWeight(m, tf)
  {
    LockSplits(c, Ask, best, q, left);
    assert LeafLock(c, Ask, best.(qty := q)) == q * c.coinLot;
    hide LeafLock;
  }

  lemma DoneBidWeight(c: Config, m: Measure, o: Order)
    requires o.side == Bid
    ensures EventWeight(m, OrderOut(o, o.pcLocked, 0)) == OrderWeight(c, m, o)
  {
  }

  lemma BidFillConserves(c: Config, m: Measure, b: Book, o: Order)
    requires BookOk(c, b) && OrderOk(c, o) && o.side == Bid && b.asks != [] && 0 <= BidTradeQty(c, o, BestAsk(b))
    ensures Conserves(c, m, b, o, BidFill(c, b, o))
  {
    hide SumLeaves, SumEvents, ReduceAsk, HeldWeight, EventWeight, Drift, Notional, BidTradeQty, BookOk, MakerRebate,
        TakerFee;
    var best, q := BestAsk(b), BidTradeQty(c, o, BestAsk(b));
    BestAskOk(c, b);
    TradeQtyBounds(c, o, best);
    TradeAffordable(c, o, best);
    var native := Notional(q, Price(best.key), c.pcLot);
    var rebate, fee := MakerRebate(best.tier, native), TakerFee(o.tier, native);
    var left: nat := best.qty - q;
    var coinLeft: nat := o.coinQty - q;
    var pcLeft: nat := o.pcLocked - native - fee;
    var done := coinLeft == 0 || pcLeft <= 0;
    SumAfterReduceAsk(c, m, b.asks, left);
    BidFillWeights(c, m, best, o, q, left, native, fee, rebate);
    SpentLeafWeight(c, m, Ask, best.(qty := 0));
    DoneBidWeight(c, m, o.(coinQty := coinLeft, pcLocked := pcLeft));
    OptionalOut(m, LeafOut(Ask, best, 0, 0), left == 0);
    OptionalOut(m, OrderOut(o, pcLeft, 0), done);
    FillEvents(m, MakerFill(Ask, best, q * c.coinLot, native + rebate, rebate),
               if left == 0 then [LeafOut(Ask, best, 0, 0)] else [],
               TakerFill(o, native + fee, q * c.coinLot, fee),
               if done then [OrderOut(o, pcLeft, 0)] else []);
  }

  lemma BidStepConserves(c: Config, m: Measure, b: Book, o: Order)
    requires BookOk(c, b) && OrderOk(c, o) && o.side == Bid && Find(b.bids, o.id).None?
    ensures Conserves(c, m, b, o, BidStep(c, b, o))
  {
    hide Conserves, BidRest, BidFill, BidSelfTrade, BidTradeQty, Find, BookOk, OrderOk;
    BidRestConserves(c, m, b, o);
    if b.asks != [] && 0 <= BidTradeQty(c, o, BestAsk(b)) {
      BidSelfTradeConserves(c, m, b, o);
      BidFillConserves(c, m, b, o);
    }
    BidRejectConserves(c, m, b, o);
  }

  /** A step on a new order moves every measure from the order and the book to what it leaves and emits. */
  lemma OrderStepConserves(c: Config, m: Measure, b: Book, o: Order)
    requires BookOk(c, b) && OrderOk(c, o) && Older(b, SeqOf(o.side, o.id))
    ensures Conserves(c, m, b, o, OrderStep(c, b, o))
  {
    NewKey(b, o);
    hide BidStep, AskStep, BookOk, Conserves, OrderOk, Find, Older;
    if o.side == Bid {
      BidStepConserves(c, m, b, o);
    } else {
      AskStepConserves(c, m, b, o);
    }
  }

  /** Cancelling moves the whole weight of the cancelled leaf to its Out event, and nothing otherwise. */
  lemma CancelStepConserves(c: Config, m: Measure, b: Book, side: Side, id: nat, owner: nat, slot: nat)
    ensures var out := CancelStep(c, b, side, id, owner, slot);
            BookSum(c, m, b) == BookSum(c, m, out.book) + SumEvents(m, out.events)
  {
    hide SumEvents, SumLeaves, Remove, Find, LeafLock;
    var x := Find(SideOf(b, side), id);
    if x.Some? {
      SumAfterRemove(c, m, side, SideOf(b, side), id);
      OutWeight(c, m, side, x.value);
    }
    NoEvents(m);
  }

  lemma NoEvents(m: Measure)
    ensures SumEvents(m, []) == 0
  {
  }
}
