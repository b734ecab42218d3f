/**
 The crank makes progress: every unit of limit uses up a request or lots, so a
 large enough limit empties the request queue.  And a bid that a fill leaves
 short of funds can afford no further lot at that price.
 */
module Progress {
  import opened Numbers
  import opened Fees
  import opened Orders
  import opened Ladder
  import opened Engine
  import opened BookLaws
  import opened Accounting
  import opened Crank

  function Lots(s: seq<Leaf>): nat {
    if s == [] then 0 else s[0].qty + Lots(s[1..])
  }

  function QueueWork(s: seq<Request>): nat {
    if s == [] then 0 else (if s[0].NewOrder? then s[0].order.coinQty + 1 else 1) + QueueWork(s[1..])
  }

  /** An upper bound for the steps that the queued requests can take. */
  function Work(s: CrankState): nat {
    QueueWork(s.requests) + Lots(s.book.bids) + Lots(s.book.asks)
  }

  lemma {:induction false} LotsConcat(a: seq<Leaf>, b: seq<Leaf>)
    ensures Lots(a + b) == Lots(a) + Lots(b)
  {
    if a == [] {
      assert a + b == b;
    } else {
      assert (a + b)[1..] == a[1..] + b;
      LotsConcat(a[1..], b);
    }
  }

  lemma {:induction false} LotsAfterInsert(s: seq<Leaf>, x: Leaf)
    ensures Lots(Insert(s, x)) <= Lots(s) + x.qty
  {
    if s == [] {
      assert [x][1..] == [];
    } else if x.key < s[0].key {
      assert ([x] + s)[1..] == s;
    } else if x.key == s[0].key {
      assert ([x] + s[1..])[1..] == s[1..];
    } else {
      LotsAfterInsert(s[1..], x);
      assert ([s[0]] + Insert(s[1..], x))[1..] == Insert(s[1..], x);
    }
  }

  lemma {:induction false} LotsAfterRemove(s: seq<Leaf>, key: nat)
    ensures Lots(Remove(s, key)) <= Lots(s)
  {
    if s != [] && s[0].key != key {
      LotsAfterRemove(s[1..], key);
      assert ([s[0]] + Remove(s[1..], key))[1..] == Remove(s[1..], key);
    }
  }

  lemma LotsSplitLast(s: seq<Leaf>)
    requires s != []
    ensures Lots(s) == Lots(s[..|s| - 1]) + s[|s| - 1].qty
  {
    assert s == s[..|s| - 1] + [s[|s| - 1]];
    LotsConcat(s[..|s| - 1], [s[|s| - 1]]);
  }

  lemma LotsAfterReduce(s: seq<Leaf>, qty: nat)
    requires s != []
    ensures Lots(ReduceBid(s, qty)) == Lots(s) - s[|s| - 1].qty + qty
    ensures Lots(ReduceAsk(s, qty)) == Lots(s) - s[0].qty + qty
  {
    LotsSplitLast(s);
    var x := s[|s| - 1].(qty := qty);
    LotsConcat(s[..|s| - 1], [x]);
    assert [x][1..] == [];
  }

  lemma LotsAfterPost(c: Config, s: seq<Leaf>, x: Leaf)
    ensures Lots(PostBid(c, s, x).0) <= Lots(s) + x.qty
    ensures Lots(PostAsk(c, s, x).0) <= Lots(s) + x.qty
  {
    LotsAfterInsert(s, x);
    if s != [] {
      LotsSplitLast(s);
      LotsAfterInsert(s[1..], x);
      LotsAfterInsert(s[..|s| - 1], x);
    }
  }

  /** A step lowers the work of its request and the book by at least one. */
  ghost predicate Lowers(b: Book, o: Order, out: Outcome) {
    (if out.rest.Some? then out.rest.value.coinQty + 1 else 0) + Lots(out.book.bids) + Lots(out.book.asks)
    <= o.coinQty + Lots(b.bids) + Lots(b.asks)
  }

  lemma AskStepLowers(c: Config, b: Book, o: Order)
    requires BookOk(c, b) && o.side == Ask
    ensures Lowers(b, o, AskStep(c, b, o))
  {
    hide PostAsk, PostBid, ReduceBid, Notional, MakerRebate, TakerFee, Lots, Ascending, Price;
    LotsAfterPost(c, b.asks, LeafOf(o, o.coinQty));
    if b.bids != [] {
      var best := BestBid(b);
      assert best in b.bids;
      var q := AskTradeQty(o, best);
      LotsAfterReduce(b.bids, best.qty - SelfTradeProvide(o, best, q));
      LotsAfterReduce(b.bids, best.qty - q);
    }
  }

  lemma BidStepLowers(c: Config, b: Book, o: Order)
    requires BookOk(c, b) && o.side == Bid
    ensures Lowers(b, o, BidStep(c, b, o))
  {
    hide PostAsk, PostBid, ReduceAsk, Notional, MakerRebate, TakerFee, Lots, Ascending, Price, BidTradeQty, BidPostQty;
    PostAtMostAsked(c, o);
    LotsAfterPost(c, b.bids, LeafOf(o, BidPostQty(c, o)));
    if b.asks != [] && BidTradeQty(c, o, BestAsk(b)) > 0 {
      var best := BestAsk(b);
      assert best in b.asks;
      var q := BidTradeQty(c, o, best);
      TradeQtyBounds(c, o, best);
      LotsAfterReduce(b.asks, best.qty - SelfTradeProvide(o, best, q));
      LotsAfterReduce(b.asks, best.qty - q);
    }
  }

  lemma PostAtMostAsked(c: Config, o: Order)
    ensures BidPostQty(c, o) <= o.coinQty
  {
  }

  lemma StepLowersWork(c: Config, s: CrankState, n: int)
    requires s.requests != [] && CrankOk(c, s, n)
    ensures Work(AfterStep(s, Step(c, s.book, s.requests[0]))) < Work(s)
  {
    hide BidStep, AskStep, BookOk, Lots, Remove, Find, InOrder, Backed, OrderOk, Accrue;
    var r := s.requests[0];
    var out := Step(c, s.book, r);
    QueueWorkTail(s.requests, out.rest);
    match r
    case NewOrder(o) =>
      if o.side == Bid {
        BidStepLowers(c, s.book, o);
      } else {
        AskStepLowers(c, s.book, o);
      }
    case CancelOrder(side, id, _, _, _, _) =>
      LotsAfterRemove(SideOf(s.book, side), id);
  }

  lemma QueueWorkTail(s: seq<Request>, rest: Option<Order>)
    requires s != []
    ensures QueueWork((if rest.Some? then [NewOrder(rest.value)] else []) + s[1..])
         == QueueWork(s[1..]) + (if rest.Some? then rest.value.coinQty + 1 else 0)
  {
    if rest.Some? {
      assert ([NewOrder(rest.value)] + s[1..])[1..] == s[1..];
    } else {
      assert [] + s[1..] == s[1..];
    }
  }

  /** With a limit of at least `Work`, and room for the events, one call empties the request queue. */
  lemma {:induction false} CrankDrains(c: Config, eventCap: nat, s: CrankState, limit: nat, n: int)
    requires CrankOk(c, s, n) && Work(s) <= limit && Run(c, eventCap, s, limit).Ok?
    ensures Run(c, eventCap, s, limit).value.requests == []
    decreases limit
  {
    hide CrankStep, CrankOk;
    if s.requests != [] {
      StepLowersWork(c, s, n);
      CrankStepKeeps(c, eventCap, s, n);
      StepIsAfterStep(c, eventCap, s);
      CrankDrains(c, eventCap, CrankStep(c, eventCap, s).value, limit - 1, n);
    }
  }

  lemma StepIsAfterStep(c: Config, eventCap: nat, s: CrankState)
    requires s.requests != [] && CrankStep(c, eventCap, s).Ok?
    ensures CrankStep(c, eventCap, s).value == AfterStep(s, Step(c, s.book, s.requests[0]))
  {
  }

  /** Successive calls, each with its own limit. */
  function RunCalls(c: Config, eventCap: nat, s: CrankState, limits: seq<nat>): Result<CrankState>
    decreases |limits|
  {
    if limits == [] then Ok(s)
    else
      var mid :- Run(c, eventCap, s, limits[0]);
      RunCalls(c, eventCap, mid, limits[1..])
  }

  function Sum(limits: seq<nat>): nat {
    if limits == [] then 0 else limits[0] + Sum(limits[1..])
  }

  lemma {:induction false} CallsAreOneCall(c: Config, eventCap: nat, s: CrankState, limits: seq<nat>)
    ensures RunCalls(c, eventCap, s, limits) == Run(c, eventCap, s, Sum(limits))
    decreases |limits|
  {
    hide CrankStep;
    if limits != [] {
      BatchingIrrelevant(c, eventCap, s, limits[0], Sum(limits[1..]));
      var r := Run(c, eventCap, s, limits[0]);
      if r.Ok? {
        CallsAreOneCall(c, eventCap, r.value, limits[1..]);
      }
    }
  }

  /** A limit is a 16-bit number; but calls whose limits add up to at least `Work` empty the request queue together. */
  lemma CallsDrain(c: Config, eventCap: nat, s: CrankState, limits: seq<nat>, n: int)
    requires CrankOk(c, s, n) && Work(s) <= Sum(limits) && RunCalls(c, eventCap, s, limits).Ok?
    ensures RunCalls(c, eventCap, s, limits).value.requests == []
  {
    CallsAreOneCall(c, eventCap, s, limits);
    CrankDrains(c, eventCap, s, Sum(limits), n);
  }

  // ----- a bid that runs out of funds -----

  /**
   A fill that leaves both sides unfinished was limited by the bid's funds, and leaves too little for one more
   lot.
   */
  lemma FundsExhausted(c: Config, b: Book, o: Order)
    requires BookOk(c, b) && OrderOk(c, o) && o.side == Bid && b.asks != []
    requires Price(BestAsk(b).key) <= Price(o.id) && o.orderType != PostOnly && o.owner != BestAsk(b).owner
    requires 0 < BidTradeQty(c, o, BestAsk(b)) < BestAsk(b).qty && BidStep(c, b, o).rest.Some?
    ensures var out := BidStep(c, b, o);
            && out.book.asks != [] && BestAsk(out.book).key == BestAsk(b).key
            && BidTradeQty(c, out.rest.value, BestAsk(out.book)) == 0
            && BidStep(c, out.book, out.rest.value) == BidReject(c, out.book, out.rest.value)
  {
    BestAskOk(c, b);
    var best := BestAsk(b);
    var p := Price(best.key);
    var out := BidStep(c, b, o);
    hide Notional, TakerFee, MakerRebate, RemoveTakerFee, Ascending, Price;
    assert out == BidFill(c, b, o);
    var q: nat := BidTradeQty(c, o, best);
    assert q == MaxPcQty(c, o) / p;
    NoMoreLots(c, o, p, q, out.rest.value.pcLocked);
  }

  /** If `q` lots are the most that `o` can pay for, what remains after paying for them buys no further lot. */
  lemma NoMoreLots(c: Config, o: Order, p: nat, q: nat, left: nat)
    requires OrderOk(c, o) && o.side == Bid && 0 < p && q == MaxPcQty(c, o) / p
    requires var native := Notional(q, p, c.pcLot); left == o.pcLocked - native - TakerFee(o.tier, native)
    ensures MaxPcQty(c, o.(pcLocked := left)) / p == 0
  {
    hide TakerFee, RemoveTakerFee;
    var native, one := Notional(q, p, c.pcLot), Notional(1, p, c.pcLot);
    NotionalPositive(q, p, c.pcLot);
    NotionalPositive(1, p, c.pcLot);
    NotionalSplit(q, 1, p, c.pcLot);
    WithheldIsFeeOrOneMore(o.tier, left);
    if one <= RemoveTakerFee(o.tier, left) {
      FillFitsLock(o.tier, left, one);
      TakerFeeSubadditive(o.tier, native, one);
      TakerFeeIsCeiling(o.tier, native + one);
      RemoveTakerFeeMonotone(o.tier, native + one + TakerFee(o.tier, native + one), o.pcLocked);
      RemoveUndoesAdd(o.tier, native + one);
      LotsFloor(RemoveTakerFee(o.tier, o.pcLocked), p, c.pcLot, q + 1);
      assert false;
    }
    LotsBelow(RemoveTakerFee(o.tier, left), p, c.pcLot);
  }

  /**
   A bid trades as much as it can: `k` lots are within what it trades exactly when the resting order
   has them, the bid wants them, and its lock pays for them with the taker fee on top.
   */
  lemma TradesAllItCan(c: Config, o: Order, best: Leaf, k: nat)
    requires OrderOk(c, o) && o.side == Bid && Price(best.key) > 0
    ensures var native := Notional(k, Price(best.key), c.pcLot);
            k <= BidTradeQty(c, o, best) <==>
              k <= best.qty && k <= o.coinQty && native + TakerFee(o.tier, native) <= o.pcLocked
  {
    hide TakerFee, RemoveTakerFee, Price;
    var p, q := Price(best.key), BidTradeQty(c, o, best);
    var native := Notional(k, p, c.pcLot);
    TradeAffordable(c, o, best);
    NotionalPositive(k, p, c.pcLot);
    TakerFeeIsCeiling(o.tier, native);
    if k <= q {
      NotionalMonotone(k, q, p, c.pcLot);
      TakerFeeMonotone(o.tier, native, Notional(q, p, c.pcLot));
    } else if native + TakerFee(o.tier, native) <= o.pcLocked {
      RemoveTakerFeeMonotone(o.tier, native + TakerFee(o.tier, native), o.pcLocked);
      RemoveUndoesAdd(o.tier, native);
      LotsFloor(RemoveTakerFee(o.tier, o.pcLocked), p, c.pcLot, k);
    }
  }

  /** A resting bid is as large as its lock allows at its own price. */
  lemma PostsAllItCan(c: Config, o: Order, k: nat)
    requires OrderOk(c, o) && o.side == Bid
    ensures k <= BidPostQty(c, o) <==> k <= o.coinQty && Notional(k, Price(o.id), c.pcLot) <= o.pcLocked
  {
    hide Price;
    PostQtyAffordable(c, o);
    if k <= BidPostQty(c, o) {
      NotionalMonotone(k, BidPostQty(c, o), Price(o.id), c.pcLot);
    } else if Notional(k, Price(o.id), c.pcLot) <= o.pcLocked {
      LotsFloor(o.pcLocked, Price(o.id), c.pcLot, k);
    }
  }

  lemma TakerFeeSubadditive(t: FeeTier, a: nat, b: nat)
    ensures TakerFee(t, a + b) <= TakerFee(t, a) + TakerFee(t, b)
  {
    hide TakerFee, TakerRate;
    TakerFeeIsCeiling(t, a);
    TakerFeeIsCeiling(t, b);
    TakerFeeIsCeiling(t, a + b);
    assert TakerRate(t) * (a + b) == TakerRate(t) * a + TakerRate(t) * b;
  }

  lemma RemoveTakerFeeMonotone(t: FeeTier, a: nat, b: nat)
    requires a <= b
    ensures RemoveTakerFee(t, a) <= RemoveTakerFee(t, b)
  {
    hide TakerRate;
    var unit := TWO64 + TakerRate(t);
    RemoveTakerFeeIsFloor(t, a);
    RemoveTakerFeeIsFloor(t, b);
    var x, y := RemoveTakerFee(t, a), RemoveTakerFee(t, b);
    if x > y {
      ProductMonotone(y + 1, x, unit);
    }
  }
}
