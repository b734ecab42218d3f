/**
 A history in which an account total wraps: fees of pending fills are swept and
 deposited again, so that one account comes to own 2^64.  It is not careful in
 either sense of module Ledger.  The account can then not be settled, and the next
 event of the queue, the unlock of its cancelled bid, is refused for good.
 */
module Overflow {
  import opened Numbers
  import opened Fees
  import opened Orders
  import opened Engine
  import opened Accounting
  import opened Crank
  import opened Accounts
  import opened Exchange
  import opened Ledger
  import opened Guarantees
  import opened Blocked

  const SMALL: Config := RawConfig(1, 1, 201, 201)
  const SETUP: Setup := Setup(SMALL, 10, 100)

  const BIG: nat := 1_000_000_000_000_000_000
  const DEAD: nat := 17_405_250_322_998_953_916
  const TOP: nat := 1_000_000_000_000_000
  const FUNDS: nat := 0xFFFF_FFFF_FFFF_FFFF

  function Place(owner: nat, side: Side, price: nat, orderType: OrderType): Action {
    PlaceOrder(owner, side, price, 1, orderType, 0, DecrementTake, Base, FUNDS)
  }

  /** An order of one lot, as it is queued. */
  function OrderOf(owner: nat, slot: nat, side: Side, price: nat, orderType: OrderType, seqNum: nat, lock: nat): Order
    requires seqNum < TWO64
  {
    Order(side, orderType, OrderId(side, price, seqNum), owner, slot, Base, 1, lock, 0, DecrementTake)
  }

  /** The order as its account lists it. */
  function Listed(side: Side, price: nat, seqNum: nat): OpenOrder
    requires seqNum < TWO64
  {
    OpenOrder(OrderId(side, price, seqNum), side, 0)
  }

  const FIRST_ASK: Order := OrderOf(0, 0, Ask, 1, Limit, 0, 0)
  const FIRST_BID: Order := OrderOf(1, 0, Bid, 1, Limit, 1, 2)
  const DEAD_BID: Order := OrderOf(0, 1, Bid, DEAD, ImmediateOrCancel, 2, DEAD + DEAD_FEE)
  const BIG_ASK: Order := OrderOf(1, 1, Ask, BIG, Limit, 3, 0)
  const BIG_BID: Order := OrderOf(0, 2, Bid, BIG, Limit, 4, BIG + BIG_FEE)
  const LAST_BID: Order := OrderOf(0, 3, Bid, TOP, Limit, 5, TOP + TOP_FEE)

  const BIG_FEE: nat := 2_200_000_000_000_000
  const BIG_REBATE: nat := 300_000_000_000_000
  const DEAD_FEE: nat := 38_291_550_710_597_699
  const TOP_FEE: nat := 2_200_000_000_000

  /** What the bids of account 0 lock before the crank is turned. */
  const LOCKS: nat := DEAD + DEAD_FEE + BIG + BIG_FEE

  /** The two accounts before the crank is turned. */
  const SELLER: Account :=
    Account(0, 1, 0, LOCKS, map[0 := Listed(Ask, 1, 0), 1 := Listed(Bid, DEAD, 2), 2 := Listed(Bid, BIG, 4)], 0)
  const BUYER: Account := Account(0, 1, 0, 2, map[0 := Listed(Bid, 1, 1), 1 := Listed(Ask, BIG, 3)], 0)

  const QUEUED: State := State(
    CrankState(Book([], []), Market(2, 2 + LOCKS, 0, 0),
               [NewOrder(FIRST_ASK), NewOrder(FIRST_BID), NewOrder(DEAD_BID), NewOrder(BIG_ASK), NewOrder(BIG_BID)],
                   []),
    [SELLER, BUYER], 5, 2, 2 + LOCKS)

  /** The events of a trade of one lot that uses up both orders. */
  function Trade(maker: Order, taker: Order, price: nat, fee: nat, rebate: nat): seq<Event> {
    var x := LeafOf(maker, 1);
    [MakerFill(Ask, x, 1, price + rebate, rebate), LeafOut(Ask, x, 0, 0),
     TakerFill(taker, price + fee, 1, fee), OrderOut(taker, 0, 0)]
  }

  lemma FeeValues()
    ensures TakerFee(Base, 1) == 1 && MakerRebate(Base, 1) == 0 && RemoveTakerFee(Base, 2) == 1
    ensures TakerFee(Base, BIG) == BIG_FEE && MakerRebate(Base, BIG) == BIG_REBATE
          && RemoveTakerFee(Base, BIG + BIG_FEE) == BIG
    ensures TakerFee(Base, DEAD) == DEAD_FEE && TakerFee(Base, TOP) == TOP_FEE
    ensures ReferrerRebate(1) == 0 && ReferrerRebate(BIG_FEE) == 440_000_000_000_000
  {
  }

  // ----- single steps -----

  lemma AskRests(o: Order)
    requires o.side == Ask && o.orderType == Limit && o.coinQty == 1
    ensures Step(SMALL, Book([], []), NewOrder(o)) == Outcome(Book([], [LeafOf(o, 1)]), [], None, 0, 0)
  {
  }

  lemma BidDies(o: Order)
    requires o.side == Bid && o.orderType == ImmediateOrCancel
    ensures Step(SMALL, Book([], []), NewOrder(o)) == Outcome(Book([], []), [OrderOut(o, o.pcLocked, 0)], None, 0, 0)
  {
  }

  /** A bid whose lock is exactly the price and fee of one lot takes a lot of another owner. */
  lemma BidTakes(maker: Order, taker: Order, price: nat, fee: nat, rebate: nat)
    requires taker.side == Bid && taker.orderType == Limit && taker.coinQty == 1 && taker.tier == maker.tier == Base
    requires taker.owner != maker.owner && Price(maker.id) == Price(taker.id) == price && 0 < price
    requires taker.pcLocked == price + fee && RemoveTakerFee(Base, price + fee) == price
    requires TakerFee(Base, price) == fee && MakerRebate(Base, price) == rebate
    ensures Step(SMALL, Book([], [LeafOf(maker, 1)]), NewOrder(taker))
         == Outcome(Book([], []), Trade(maker, taker, price, fee, rebate), None, fee, rebate)
  {
    hide TakerFee, MakerRebate, RemoveTakerFee, Price;
    var b := Book([], [LeafOf(maker, 1)]);
    assert price / price == 1;
    assert BidTradeQty(SMALL, taker, BestAsk(b)) == 1;
    assert b.asks[1..] == [];
  }

  lemma StepFirst(s: CrankState, r: Request, tail: seq<Request>, out: Outcome, limit: nat)
    requires s.requests == [r] + tail && Step(SMALL, s.book, r) == out && out.rest.None?
    requires |s.events| + |out.events| <= 100
    ensures Run(SMALL, 100, s, limit + 1)
         == Run(SMALL, 100, CrankState(out.book, Accrue(s.market, out.fee, out.rebate), tail, s.events + out.events),
             limit)
  {
    hide Step;
    assert s.requests[0] == r && s.requests[1..] == tail && [] + tail == tail;
  }

  // ----- the crank call -----

  const FIRST_TRADE: seq<Event> := Trade(FIRST_ASK, FIRST_BID, 1, 1, 0)
  const BIG_TRADE: seq<Event> := Trade(BIG_ASK, BIG_BID, BIG, BIG_FEE, BIG_REBATE)

  const UNLOCK: Event := OrderOut(DEAD_BID, DEAD + DEAD_FEE, 0)

  const MATCHED: State := QUEUED.(crank := CrankState(
    Book([], []), Market(2, 1 + LOCKS - BIG_FEE + BIG_REBATE, 1_460_000_000_000_001, 440_000_000_000_000), [],
    FIRST_TRADE + [UNLOCK] + BIG_TRADE))

  lemma OrderPrices()
    ensures Price(FIRST_ASK.id) == Price(FIRST_BID.id) == 1 && Price(BIG_ASK.id) == Price(BIG_BID.id) == BIG
  {
    OrderIdFields(Ask, 1, 0);
    OrderIdFields(Bid, 1, 1);
    OrderIdFields(Ask, BIG, 3);
    OrderIdFields(Bid, BIG, 4);
  }

  lemma RunIdle(s: CrankState, limit: nat)
    requires s.requests == []
    ensures Run(SMALL, 100, s, limit) == Ok(s)
  {
  }

  lemma TradeSizes()
    ensures |FIRST_TRADE| == |BIG_TRADE| == 4
  {
  }

  lemma Matched()
    ensures Match(SETUP, QUEUED, 10) == Ok(MATCHED)
  {
    FeeValues();
    OrderPrices();
    TradeSizes();
    hide TakerFee, MakerRebate, RemoveTakerFee, Step, Trade, OrderId, Run;
    var k0 := QUEUED.crank;
    var x1, x2 := LeafOf(FIRST_ASK, 1), LeafOf(BIG_ASK, 1);
    var r1, r2, r3, r4, r5 := NewOrder(FIRST_ASK), NewOrder(FIRST_BID), NewOrder(DEAD_BID), NewOrder(BIG_ASK),
        NewOrder(BIG_BID);
    AskRests(FIRST_ASK);
    StepFirst(k0, r1, [r2, r3, r4, r5], Outcome(Book([], [x1]), [], None, 0, 0), 9);
    BidTakes(FIRST_ASK, FIRST_BID, 1, 1, 0);
    var k1 := CrankState(Book([], [x1]), k0.market, [r2, r3, r4, r5], []);
    StepFirst(k1, r2, [r3, r4, r5], Outcome(Book([], []), FIRST_TRADE, None, 1, 0), 8);
    BidDies(DEAD_BID);
    var m2 := Accrue(k0.market, 1, 0);
    var k2 := CrankState(Book([], []), m2, [r3, r4, r5], FIRST_TRADE);
    StepFirst(k2, r3, [r4, r5], Outcome(Book([], []), [UNLOCK], None, 0, 0), 7);
    AskRests(BIG_ASK);
    var k3 := CrankState(Book([], []), m2, [r4, r5], FIRST_TRADE + [UNLOCK]);
    StepFirst(k3, r4, [r5], Outcome(Book([], [x2]), [], None, 0, 0), 6);
    BidTakes(BIG_ASK, BIG_BID, BIG, BIG_FEE, BIG_REBATE);
    var k4 := CrankState(Book([], [x2]), m2, [r5], FIRST_TRADE + [UNLOCK]);
    StepFirst(k4, r5, [], Outcome(Book([], []), BIG_TRADE, None, BIG_FEE, BIG_REBATE), 5);
    assert k0.events + [] == [] && [] + FIRST_TRADE == FIRST_TRADE && k3.events + [] == k3.events;
    assert Accrue(k0.market, 0, 0) == k0.market && Accrue(m2, 0, 0) == m2;
    assert Accrue(m2, BIG_FEE, BIG_REBATE) == MATCHED.crank.market;
    RunIdle(MATCHED.crank, 5);
  }

  // ----- the history -----

  /** The instructions up to the call of the crank, and the rest. */
  function Placements(): seq<Action> {
    [OpenAccount] + [OpenAccount]
    + [Place(0, Ask, 1, Limit)] + [Place(1, Bid, 1, Limit)] + [Place(0, Bid, DEAD, ImmediateOrCancel)]
    + [Place(1, Ask, BIG, Limit)] + [Place(0, Bid, BIG, Limit)]
  }

  function History(): seq<Action> {
    Placements() + [MatchOrders(10)] + [SweepFees] + [Place(0, Bid, TOP, Limit)] + [ConsumeEvents(4, {0, 1})]
  }

  /** Every instruction of the history succeeds. */
  predicate Accepted(setup: Setup, history: seq<Action>) {
    history == [] ||
    var before := history[..|history| - 1];
    Accepted(setup, before) && Transition(setup, Reach(setup, before), history[|history| - 1]).Ok?
  }

  lemma Then(history: seq<Action>, act: Action, s: State, t: State)
    requires Accepted(SETUP, history) && Reach(SETUP, history) == s && Transition(SETUP, s, act) == Ok(t)
    ensures Accepted(SETUP, history + [act]) && Reach(SETUP, history + [act]) == t
  {
    hide Transition;
    assert (history + [act])[..|history|] == history;
  }

  const NOTHING: CrankState := CrankState(Book([], []), Market(0, 0, 0, 0), [], [])

  const ONE_ORDER: State := State(
    CrankState(Book([], []), Market(1, 0, 0, 0), [NewOrder(FIRST_ASK)], []),
    [Account(0, 1, 0, 0, map[0 := Listed(Ask, 1, 0)], 0), EMPTY_ACCOUNT], 1, 1, 0)

  const TWO_ORDERS: State := State(
    CrankState(Book([], []), Market(1, 2, 0, 0), [NewOrder(FIRST_ASK), NewOrder(FIRST_BID)], []),
    [ONE_ORDER.accounts[0], Account(0, 0, 0, 2, map[0 := Listed(Bid, 1, 1)], 0)], 2, 1, 2)

  const THREE_ORDERS: State := State(
    CrankState(Book([], []), Market(1, 2 + DEAD + DEAD_FEE, 0, 0),
               [NewOrder(FIRST_ASK), NewOrder(FIRST_BID), NewOrder(DEAD_BID)], []),
    [Account(0, 1, 0, DEAD + DEAD_FEE, map[0 := Listed(Ask, 1, 0), 1 := Listed(Bid, DEAD, 2)], 0),
        TWO_ORDERS.accounts[1]],
    3, 1, 2 + DEAD + DEAD_FEE)

  const FOUR_ORDERS: State := State(
    CrankState(Book([], []), Market(2, 2 + DEAD + DEAD_FEE, 0, 0),
               [NewOrder(FIRST_ASK), NewOrder(FIRST_BID), NewOrder(DEAD_BID), NewOrder(BIG_ASK)], []),
    [THREE_ORDERS.accounts[0], BUYER], 4, 2, 2 + DEAD + DEAD_FEE)

  /** An order that is paid for from outside, because its owner has nothing free. */
  function AfterOrder(s: State, owner: nat, side: Side, price: nat, orderType: OrderType, lock: nat, slot: nat): State
    requires owner < |s.accounts| && s.nextSeq < TWO64
  {
    var a := s.accounts[owner];
    var b := if side == Bid then a.(pcTotal := a.pcTotal + lock) else a.(coinTotal := a.coinTotal + lock);
    var o := OrderOf(owner, slot, side, price, orderType, s.nextSeq, if side == Bid then lock else 0);
    State(s.crank.(market := Deposit(s.crank.market, side, lock), requests := s.crank.requests + [NewOrder(o)]),
          s.accounts[owner := b.(orders := b.orders[slot := Listed(side, price, s.nextSeq)])], s.nextSeq + 1,
          if side == Ask then s.coinVault + lock else s.coinVault, if side == Bid then s.pcVault + lock else s.pcVault)
  }

  predicate Payable(s: State, owner: nat, side: Side, price: nat, orderType: OrderType, lock: nat, slot: nat) {
    && owner < |s.accounts| && 0 < price < TWO64 && |s.crank.requests| < 10 && s.nextSeq + 1 < TWO64
    && LockAmount(SMALL, side, price, 1, Base) == Some(lock) && lock <= FUNDS
    && var t := AfterOrder(s, owner, side, price, orderType, lock, slot);
       && (side == Bid ==> s.accounts[owner].pcFree == 0) && (side == Ask ==> s.accounts[owner].coinFree == 0)
       && FitsU64(t.accounts[owner].pcTotal) && FitsU64(t.accounts[owner].coinTotal)
       && FitsU64(t.crank.market.pcDeposits) && FitsU64(t.crank.market.coinDeposits)
       && FitsU64(t.coinVault) && FitsU64(t.pcVault)
       && FreeFrom(s.accounts[owner].orders, 0) == Some(slot)
  }

  lemma Placing(s: State, owner: nat, side: Side, price: nat, orderType: OrderType, lock: nat, slot: nat)
    requires Payable(s, owner, side, price, orderType, lock, slot)
    ensures Transition(SETUP, s, Place(owner, side, price, orderType))
          == Ok(AfterOrder(s, owner, side, price, orderType, lock, slot))
  {
    hide LockAmount, FreeFrom, OrderId;
    var act, d, a := Place(owner, side, price, orderType), DeskOf(s, owner), s.accounts[owner];
    var t := AfterOrder(s, owner, side, price, orderType, lock, slot);
    var b := if side == Bid then a.(pcTotal := a.pcTotal + lock) else a.(coinTotal := a.coinTotal + lock);
    assert LockFunds(a, side, lock) == (b, lock);
    var funded := d.(account := b, market := t.crank.market, coinVault := t.coinVault, pcVault := t.pcVault);
    assert Funded(d, side, lock, FUNDS) == Ok(funded);
    var order := Listed(side, price, s.nextSeq);
    assert AddOrder(b, order) == Ok((b.(orders := b.orders[slot := order]), slot));
    assert QueuedOrder(act, s.nextSeq, slot, lock)
        == OrderOf(owner, slot, side, price, orderType, s.nextSeq, if side == Bid then lock else 0);
  }

  /** Comparing states part by part. */
  lemma Reached(s: State, t: State, owner: nat, side: Side, price: nat, orderType: OrderType, lock: nat, slot: nat)
    requires owner < |s.accounts| == |t.accounts| && s.nextSeq < TWO64
    requires var u := AfterOrder(s, owner, side, price, orderType, lock, slot);
             && t == State(t.crank, t.accounts, u.nextSeq, u.coinVault, u.pcVault)
             && t.crank == u.crank.(requests := t.crank.requests)
             && |t.crank.requests| == |s.crank.requests| + 1
             && (forall i :: 0 <= i < |s.crank.requests| ==> t.crank.requests[i] == s.crank.requests[i])
             && t.crank.requests[|s.crank.requests|] == u.crank.requests[|s.crank.requests|]
             && (forall i :: 0 <= i < |t.accounts| ==> t.accounts[i] == u.accounts[i])
    ensures t == AfterOrder(s, owner, side, price, orderType, lock, slot)
  {
    var u := AfterOrder(s, owner, side, price, orderType, lock, slot);
    assert t.accounts == u.accounts && t.crank.requests == u.crank.requests;
  }

  // ----- the five orders -----

  const TWO_ACCOUNTS: State := State(NOTHING, [EMPTY_ACCOUNT, EMPTY_ACCOUNT], 0, 0, 0)

  lemma FirstPayable()
    ensures Payable(TWO_ACCOUNTS, 0, Ask, 1, Limit, 1, 0)
  {
    hide OrderId, Listed;
    assert FreeFrom(EMPTY_ACCOUNT.orders, 0) == Some(0);
  }

  lemma FirstOrder()
    ensures Transition(SETUP, TWO_ACCOUNTS, Place(0, Ask, 1, Limit)) == Ok(ONE_ORDER)
  {
    hide Transition, OrderId, Payable;
    FirstPayable();
    Placing(TWO_ACCOUNTS, 0, Ask, 1, Limit, 1, 0);
    assert map[][0 := Listed(Ask, 1, 0)] == map[0 := Listed(Ask, 1, 0)];
    Reached(TWO_ACCOUNTS, ONE_ORDER, 0, Ask, 1, Limit, 1, 0);
  }

  lemma SecondOrder()
    ensures Transition(SETUP, ONE_ORDER, Place(1, Bid, 1, Limit)) == Ok(TWO_ORDERS)
  {
    FeeValues();
    hide TakerFee, Transition, OrderId;
    Placing(ONE_ORDER, 1, Bid, 1, Limit, 2, 0);
    assert map[][0 := Listed(Bid, 1, 1)] == map[0 := Listed(Bid, 1, 1)];
    Reached(ONE_ORDER, TWO_ORDERS, 1, Bid, 1, Limit, 2, 0);
  }

  lemma ThirdOrder()
    ensures Transition(SETUP, TWO_ORDERS, Place(0, Bid, DEAD, ImmediateOrCancel)) == Ok(THREE_ORDERS)
  {
    FeeValues();
    hide TakerFee, Transition, OrderId;
    assert FreeFrom(TWO_ORDERS.accounts[0].orders, 1) == Some(1);
    Placing(TWO_ORDERS, 0, Bid, DEAD, ImmediateOrCancel, DEAD + DEAD_FEE, 1);
    assert TWO_ORDERS.accounts[0].orders[1 := Listed(Bid, DEAD, 2)] == THREE_ORDERS.accounts[0].orders;
    Reached(TWO_ORDERS, THREE_ORDERS, 0, Bid, DEAD, ImmediateOrCancel, DEAD + DEAD_FEE, 1);
  }

  lemma FourthOrder()
    ensures Transition(SETUP, THREE_ORDERS, Place(1, Ask, BIG, Limit)) == Ok(FOUR_ORDERS)
  {
    hide Transition, OrderId;
    assert FreeFrom(THREE_ORDERS.accounts[1].orders, 1) == Some(1);
    Placing(THREE_ORDERS, 1, Ask, BIG, Limit, 1, 1);
    assert THREE_ORDERS.accounts[1].orders[1 := Listed(Ask, BIG, 3)] == BUYER.orders;
    Reached(THREE_ORDERS, FOUR_ORDERS, 1, Ask, BIG, Limit, 1, 1);
  }

  lemma FifthOrder()
    ensures Transition(SETUP, FOUR_ORDERS, Place(0, Bid, BIG, Limit)) == Ok(QUEUED)
  {
    FeeValues();
    hide TakerFee, Transition, OrderId;
    assert FreeFrom(FOUR_ORDERS.accounts[0].orders, 2) == Some(2);
    assert FreeFrom(FOUR_ORDERS.accounts[0].orders, 1) == Some(2);
    Placing(FOUR_ORDERS, 0, Bid, BIG, Limit, BIG + BIG_FEE, 2);
    assert FOUR_ORDERS.accounts[0].orders[2 := Listed(Bid, BIG, 4)] == SELLER.orders;
    Reached(FOUR_ORDERS, QUEUED, 0, Bid, BIG, Limit, BIG + BIG_FEE, 2);
  }

  lemma Opened()
    ensures Accepted(SETUP, [OpenAccount] + [OpenAccount])
          && Reach(SETUP, [OpenAccount] + [OpenAccount]) == TWO_ACCOUNTS
  {
    var one := State(NOTHING, [EMPTY_ACCOUNT], 0, 0, 0);
    assert [] + [OpenAccount] == [OpenAccount];
    assert [] + [EMPTY_ACCOUNT] == one.accounts && one.accounts + [EMPTY_ACCOUNT] == TWO_ACCOUNTS.accounts;
    assert Transition(SETUP, Initial(), OpenAccount) == Ok(one)
        && Transition(SETUP, one, OpenAccount) == Ok(TWO_ACCOUNTS);
    assert Accepted(SETUP, []) && Reach(SETUP, []) == Initial();
    hide Transition, Accepted, Reach;
    Then([], OpenAccount, Initial(), one);
    Then([OpenAccount], OpenAccount, one, TWO_ACCOUNTS);
  }

  lemma Queued()
    ensures Accepted(SETUP, Placements()) && Reach(SETUP, Placements()) == QUEUED
  {
    Opened();
    FirstOrder();
    SecondOrder();
    ThirdOrder();
    FourthOrder();
    FifthOrder();
    hide Transition, Accepted, Reach, Place;
    var h, a, b := [OpenAccount] + [OpenAccount], Place(0, Ask, 1, Limit), Place(1, Bid, 1, Limit);
    var d, e, f := Place(0, Bid, DEAD, ImmediateOrCancel), Place(1, Ask, BIG, Limit), Place(0, Bid, BIG, Limit);
    Then(h, a, TWO_ACCOUNTS, ONE_ORDER);
    Then(h + [a], b, ONE_ORDER, TWO_ORDERS);
    Then(h + [a] + [b], d, TWO_ORDERS, THREE_ORDERS);
    Then(h + [a] + [b] + [d], e, THREE_ORDERS, FOUR_ORDERS);
    Then(h + [a] + [b] + [d] + [e], f, FOUR_ORDERS, QUEUED);
  }

  // ----- the sweep, the last deposit and the consumption -----

  /** After the sweep, with the fees deposited again, account 0 owns 2^64 - 1 and is still to receive 1. */
  const SWEPT: State := MATCHED.(crank := MATCHED.crank.(market := MATCHED.crank.market.(pcFees := 0)),
                                 pcVault := 1 + LOCKS - BIG_FEE + BIG_REBATE + 440_000_000_000_000)

  const BEFORE: Account := SELLER.(pcTotal := TWO64 - 1, orders := SELLER.orders[3 := Listed(Bid, TOP, 5)])

  const LOADED: State := SWEPT.(
    crank := SWEPT.crank.(market := SWEPT.crank.market.(pcDeposits := SWEPT.crank.market.pcDeposits + TOP + TOP_FEE),
                          requests := [NewOrder(LAST_BID)]),
    accounts := [BEFORE, BUYER], nextSeq := 6, pcVault := SWEPT.pcVault + TOP + TOP_FEE)

  /** The accounts after the fill of the ask, after its out event, and after the two events of the bid. */
  const PAID: Account := BEFORE.(coinTotal := 0, pcFree := 1, pcTotal := 0)
  const AFTER: Account := PAID.(orders := BEFORE.orders - {0})
  const TAKER: Account := BUYER.(coinFree := 1, coinTotal := 2, pcTotal := 0)
  const DONE: Account := TAKER.(orders := BUYER.orders - {0})

  const WRAPPED: State := LOADED.(crank := LOADED.crank.(events := [UNLOCK] + BIG_TRADE), accounts := [AFTER, DONE])

  lemma LastOrder()
    ensures Sweep(MATCHED) == Ok(SWEPT) && Transition(SETUP, SWEPT, Place(0, Bid, TOP, Limit)) == Ok(LOADED)
  {
    FeeValues();
    hide TakerFee, OrderId, Transition;
    assert FreeFrom(SELLER.orders, 3) == Some(3);
    assert FreeFrom(SELLER.orders, 2) == Some(3);
    assert FreeFrom(SELLER.orders, 1) == Some(3);
    Placing(SWEPT, 0, Bid, TOP, Limit, TOP + TOP_FEE, 3);
    assert [] + [NewOrder(LAST_BID)] == [NewOrder(LAST_BID)];
    assert LOADED.accounts == SWEPT.accounts[0 := BEFORE];
  }

  lemma EventEffects()
    ensures ApplyEvent(BEFORE, FIRST_TRADE[0]) == Ok(PAID) && ApplyEvent(PAID, FIRST_TRADE[1]) == Ok(AFTER)
    ensures ApplyEvent(BUYER, FIRST_TRADE[2]) == Ok(TAKER) && ApplyEvent(TAKER, FIRST_TRADE[3]) == Ok(DONE)
    ensures FIRST_TRADE[0].owner == FIRST_TRADE[1].owner == 0 && FIRST_TRADE[2].owner == FIRST_TRADE[3].owner == 1
  {
    hide OrderId;
    var e := FIRST_TRADE[0];
    assert PcFreeInc(e) == 1 && PcTotalInc(e) == 1 && CoinFreeInc(e) == 0 && CoinTotalInc(e) == -1
        && ReferralInc(e) == 0;
    assert Posted(BEFORE, e) == BEFORE.(coinTotal := 0, pcFree := 1, pcTotal := TWO64);
    assert Posted(PAID, FIRST_TRADE[1]) == AFTER && Posted(BUYER, FIRST_TRADE[2]) == TAKER
        && Posted(TAKER, FIRST_TRADE[3]) == DONE;
  }

  lemma ConsumeOne(s: State, limit: nat, a: Account, t: State)
    requires s.crank.events != [] && s.crank.events[0].owner in {0, 1} && s.crank.events[0].owner < |s.accounts|
    requires ApplyEvent(s.accounts[s.crank.events[0].owner], s.crank.events[0]) == Ok(a)
    requires t == s.(crank := s.crank.(events := t.crank.events), accounts := t.accounts)
    requires t.crank.events == s.crank.events[1..] && t.accounts == s.accounts[s.crank.events[0].owner := a]
    ensures Consume(s, limit + 1, {0, 1}) == Consume(t, limit, {0, 1})
  {
    hide ApplyEvent;
    assert Consumed(s, a) == t;
  }

  lemma ConsumeNone(s: State)
    ensures Consume(s, 0, {0, 1}) == Ok(s)
  {
  }

  lemma Consumption()
    ensures Consume(LOADED, 4, {0, 1}) == Ok(WRAPPED)
  {
    hide ApplyEvent, Trade, Consume;
    EventEffects();
    TradeSizes();
    ConsumeNone(WRAPPED);
    var es := LOADED.crank.events;
    assert es == FIRST_TRADE + ([UNLOCK] + BIG_TRADE);
    assert forall i :: 0 <= i < 4 ==> es[i..][0] == FIRST_TRADE[i] && es[i..][1..] == es[i + 1..];
    assert es[0..] == es && es[4..] == [UNLOCK] + BIG_TRADE;
    var s1 := LOADED.(crank := LOADED.crank.(events := es[1..]), accounts := [PAID, BUYER]);
    var s2 := s1.(crank := s1.crank.(events := es[2..]), accounts := [AFTER, BUYER]);
    var s3 := s2.(crank := s2.crank.(events := es[3..]), accounts := [AFTER, TAKER]);
    ConsumeOne(LOADED, 3, PAID, s1);
    ConsumeOne(s1, 2, AFTER, s2);
    ConsumeOne(s2, 1, TAKER, s3);
    ConsumeOne(s3, 0, DONE, WRAPPED);
  }

  lemma Ending()
    ensures Transition(SETUP, QUEUED, MatchOrders(10)) == Ok(MATCHED)
    ensures Transition(SETUP, MATCHED, SweepFees) == Ok(SWEPT)
    ensures Transition(SETUP, SWEPT, Place(0, Bid, TOP, Limit)) == Ok(LOADED)
    ensures Transition(SETUP, LOADED, ConsumeEvents(4, {0, 1})) == Ok(WRAPPED)
  {
    Matched();
    LastOrder();
    Consumption();
    hide Match, Consume, AcceptOrder, Sweep;
  }

  /**
   Every instruction succeeds; then account 0 stores a total of 0 with 1 free and cannot be settled, and the
   unlock of its bid, which is the next event, is refused.
   */
  lemma WrappedTotal()
    ensures Accepted(SETUP, History()) && Reach(SETUP, History()) == WRAPPED
    ensures WRAPPED.accounts[0].pcTotal == 0 && WRAPPED.accounts[0].pcFree == 1
    ensures Settle(WRAPPED, 0, false) == Err(AssertionError)
    ensures Stuck(WRAPPED) && Large(SETUP, WRAPPED) && Consume(WRAPPED, 1, {0, 1}) == Err(AssertionError)
  {
    Queued();
    Ending();
    var h, a, b, c, d := Placements(), MatchOrders(10), SweepFees, Place(0, Bid, TOP, Limit), ConsumeEvents(4, {0, 1});
    hide Transition, Accepted, Reach, Placements, Trade, OrderId;
    Then(h, a, QUEUED, MATCHED);
    Then(h + [a], b, MATCHED, SWEPT);
    Then(h + [a] + [b], c, SWEPT, LOADED);
    Then(h + [a] + [b] + [c], d, LOADED, WRAPPED);
  }

  /** From then on no instructions whatever get an event consumed again. */
  lemma FrozenMarket(later: seq<Action>)
    requires History() <= later
    ensures Stuck(Reach(SETUP, later)) && WRAPPED.crank.events <= Reach(SETUP, later).crank.events
  {
    WrappedTotal();
    hide Reach, Stuck, Large, History;
    BlockedForever(SETUP, History(), later);
  }

  /** Neither discipline was kept. */
  lemma NotCareful()
    ensures !Careful(SETUP, History()) && !SweptIdle(SETUP, History())
  {
    WrappedTotal();
    hide Reach, Careful, SweptIdle, Settle;
    if Careful(SETUP, History()) || SweptIdle(SETUP, History()) {
      PayoutsNeverFail(SETUP, History(), 0, false);
    }
  }
}
