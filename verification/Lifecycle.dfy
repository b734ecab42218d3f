/**
 The crank and event consumption keep the market invariant.  The crux is the
 life cycle of an order: it is in exactly one of the request queue, the book or
 a pending fully-out event, so an event that is consumed finds its order in the
 slot it names.
 */
module Lifecycle {
  import opened Numbers
  import opened Fees
  import opened Orders
  import opened Ladder
  import opened Engine
  import opened BookLaws
  import opened Accounting
  import opened Events
  import opened Crank
  import opened Accounts
  import opened Exchange
  import opened Invariants

  // ----- where the leaves of the next book come from -----

  ghost predicate FromSide(s: seq<Leaf>, y: Leaf) {
    exists x :: x in s && y == x.(qty := y.qty)
  }

  ghost predicate LeavesFrom(b: Book, o: Order, after: Book) {
    && (forall y :: y in after.bids ==> FromSide(b.bids, y) || (o.side == Bid && y == LeafOf(o, y.qty)))
    && (forall y :: y in after.asks ==> FromSide(b.asks, y) || (o.side == Ask && y == LeafOf(o, y.qty)))
  }

  lemma SameLeaf(s: seq<Leaf>)
    ensures forall y :: y in s ==> FromSide(s, y)
  {
    forall y | y in s ensures FromSide(s, y) {
      assert y == y.(qty := y.qty);
    }
  }

  lemma ReducedFrom(s: seq<Leaf>, qty: nat)
    requires s != []
    ensures forall y :: y in ReduceBid(s, qty) ==> FromSide(s, y)
    ensures forall y :: y in ReduceAsk(s, qty) ==> FromSide(s, y)
  {
    hide FromSide;
    PartFrom(s, s[..|s| - 1], s[|s| - 1], qty);
    PartFrom(s, s[1..], s[0], qty);
  }

  lemma PartFrom(s: seq<Leaf>, part: seq<Leaf>, x: Leaf, qty: nat)
    requires x in s && forall y :: y in part ==> y in s
    ensures forall y :: y in part || y == x.(qty := qty) ==> FromSide(s, y)
  {
    SameLeaf(s);
    Touched(s, x, qty);
  }

  lemma Touched(s: seq<Leaf>, x: Leaf, qty: nat)
    requires x in s
    ensures FromSide(s, x.(qty := qty))
  {
    assert x.(qty := qty) == x.(qty := x.(qty := qty).qty);
  }

  lemma PostedFrom(c: Config, s: seq<Leaf>, x: Leaf)
    ensures forall y :: y in PostBid(c, s, x).0 ==> y == x || FromSide(s, y)
    ensures forall y :: y in PostAsk(c, s, x).0 ==> y == x || FromSide(s, y)
  {
    SameLeaf(s);
    if s != [] {
      assert forall y :: y in s[1..] ==> y in s;
      assert forall y :: y in s[..|s| - 1] ==> y in s;
    }
  }

  lemma AskStepLeaves(c: Config, b: Book, o: Order)
    requires o.side == Ask
    ensures LeavesFrom(b, o, AskStep(c, b, o).book)
  {
    hide FromSide, PostAsk, PostBid, ReduceBid, Notional, MakerRebate, TakerFee;
    SameLeaf(b.bids);
    SameLeaf(b.asks);
    PostedFrom(c, b.asks, LeafOf(o, o.coinQty));
    if b.bids != [] {
      var best, q := BestBid(b), AskTradeQty(o, BestBid(b));
      ReducedFrom(b.bids, best.qty - SelfTradeProvide(o, best, q));
      ReducedFrom(b.bids, best.qty - q);
    }
  }

  lemma BidStepLeaves(c: Config, b: Book, o: Order)
    requires o.side == Bid
    ensures LeavesFrom(b, o, BidStep(c, b, o).book)
  {
    hide FromSide, PostAsk, PostBid, ReduceAsk, Notional, MakerRebate, TakerFee, BidTradeQty, BidPostQty;
    SameLeaf(b.bids);
    SameLeaf(b.asks);
    PostedFrom(c, b.bids, LeafOf(o, BidPostQty(c, o)));
    if b.asks != [] {
      var best, q := BestAsk(b), BidTradeQty(c, o, BestAsk(b));
      TradeQtyBounds(c, o, best);
      if q > 0 {
        ReducedFrom(b.asks, best.qty - SelfTradeProvide(o, best, q));
        ReducedFrom(b.asks, best.qty - q);
      }
    }
  }

  lemma StepBookRegistered(c: Config, accounts: seq<Account>, b: Book, r: Request)
    requires BookRegistered(accounts, b) && (r.NewOrder? ==> OrderRegistered(accounts, r.order))
    ensures BookRegistered(accounts, Step(c, b, r).book)
  {
    hide AskStep, BidStep, Remove, Find;
    match r
    case NewOrder(o) =>
      if o.side == Bid {
        BidStepLeaves(c, b, o);
      } else {
        AskStepLeaves(c, b, o);
      }
      OriginRegistered(accounts, b, o, OrderStep(c, b, o).book);
    case CancelOrder(_, _, _, _, _, _) =>
  }

  lemma OriginRegistered(accounts: seq<Account>, b: Book, o: Order, after: Book)
    requires BookRegistered(accounts, b) && OrderRegistered(accounts, o) && LeavesFrom(b, o, after)
    ensures BookRegistered(accounts, after)
  {
  }

  // ----- one place for every order -----

  /** An occupied slot's order is held in exactly one place, a free slot's in none. */
  lemma OnePlace(setup: Setup, s: State, owner: nat, slot: nat)
    requires Inv(setup, s) && owner < |s.accounts|
    ensures Total(setup.config, Place(owner, slot), s.crank) == if slot in s.accounts[owner].orders then 1 else 0
  {
    hide CrankOk, AllRegistered, EventQueueOk, AccountsOk, Solvent, Total;
    assert Meaningful(Place(owner, slot), |s.accounts|);
  }

  /** At most one of these is at least one: queue, either side of the book, pending events. */
  lemma PlacesExclusive(setup: Setup, s: State, owner: nat, slot: nat)
    requires Inv(setup, s) && owner < |s.accounts|
    ensures var m := Place(owner, slot);
            var q, b, a, e := SumRequests(setup.config, m, s.crank.requests),
                SumLeaves(setup.config, m, Bid, s.crank.book.bids),
                              SumLeaves(setup.config, m, Ask, s.crank.book.asks), SumEvents(m, s.crank.events);
            && 0 <= q && 0 <= b && 0 <= a && 0 <= e
            && q + b + a + e == (if slot in s.accounts[owner].orders then 1 else 0)
            && (forall r :: r in s.crank.requests ==> RequestWeight(setup.config, m, r) <= q)
            && (forall x :: x in s.crank.book.bids ==> LeafWeight(setup.config, m, Bid, x) <= b)
            && (forall x :: x in s.crank.book.asks ==> LeafWeight(setup.config, m, Ask, x) <= a)
            && (forall x :: x in s.crank.events ==> EventWeight(m, x) <= e)
  {
    OnePlace(setup, s, owner, slot);
    var m := Place(owner, slot);
    hide LeafOk, Ascending, EventOk, OrderOk, InOrder, AllRegistered, Balanced, RequestWeight, LeafWeight, EventWeight,
      AccountsOk, Solvent, NothingAfterOut, Backed;
    LeavesNonNegative(setup.config, m, Bid, s.crank.book.bids);
    LeavesNonNegative(setup.config, m, Ask, s.crank.book.asks);
    RequestsNonNegative(setup.config, m, s.crank.requests);
    EventsNonNegative(m, s.crank.events);
  }

  lemma FrontApart(setup: Setup, s: State)
    requires Inv(setup, s) && s.crank.requests != [] && s.crank.requests[0].NewOrder?
    ensures SlotApart(s.crank.book, s.crank.requests[0].order)
  {
    var r := s.crank.requests[0];
    assert r in s.crank.requests && OrderRegistered(s.accounts, r.order);
    PlacesExclusive(setup, s, r.order.owner, r.order.slot);
    hide Inv, SumRequests, SumLeaves, SumEvents, OrderLock, LeafLock;
    var m := Place(r.order.owner, r.order.slot);
    assert RequestWeight(setup.config, m, r) == 1;
    forall x | x in s.crank.book.bids ensures !(x.owner == r.order.owner && x.slot == r.order.slot) {
      assert LeafWeight(setup.config, m, Bid, x) < 1;
    }
    forall x | x in s.crank.book.asks ensures !(x.owner == r.order.owner && x.slot == r.order.slot) {
      assert LeafWeight(setup.config, m, Ask, x) < 1;
    }
  }

  /** The slot of a pending fully-out event is named by nothing in the queue or the book. */
  lemma OutApart(setup: Setup, s: State, e: Event)
    requires Inv(setup, s) && e in s.crank.events && FullyOut(e)
    ensures forall r :: r in s.crank.requests && r.NewOrder? ==> !(r.order.owner == e.owner && r.order.slot == e.slot)
    ensures forall x :: x in s.crank.book.bids ==> !(x.owner == e.owner && x.slot == e.slot)
    ensures forall x :: x in s.crank.book.asks ==> !(x.owner == e.owner && x.slot == e.slot)
  {
    assert EventRegistered(s.accounts, e);
    PlacesExclusive(setup, s, e.owner, e.slot);
    hide Inv, SumRequests, SumLeaves, SumEvents, OrderLock, LeafLock;
    var m := Place(e.owner, e.slot);
    assert EventWeight(m, e) == 1;
    forall r | r in s.crank.requests && r.NewOrder? ensures !(r.order.owner == e.owner && r.order.slot == e.slot) {
      assert RequestWeight(setup.config, m, r) < 1;
    }
    forall x | x in s.crank.book.bids ensures !(x.owner == e.owner && x.slot == e.slot) {
      assert LeafWeight(setup.config, m, Bid, x) < 1;
    }
    forall x | x in s.crank.book.asks ensures !(x.owner == e.owner && x.slot == e.slot) {
      assert LeafWeight(setup.config, m, Ask, x) < 1;
    }
  }

  // ----- the crank -----

  lemma StepEventsApart(setup: Setup, s: State)
    requires Inv(setup, s) && s.crank.requests != []
    ensures NothingAfterOut(Step(setup.config, s.crank.book, s.crank.requests[0]).events)
  {
    var r := s.crank.requests[0];
    if r.NewOrder? {
      FrontApart(setup, s);
      FrontOk(setup, s);
      hide Inv, OrderStep, NothingAfterOut, BookOk, OrderOk, SlotApart;
      StepNothingAfterOut(setup.config, s.crank.book, r.order);
    }
  }

  lemma FrontOk(setup: Setup, s: State)
    requires Inv(setup, s) && s.crank.requests != []
    ensures BookOk(setup.config, s.crank.book) && RequestOk(setup.config, s.crank.requests[0])
    ensures RequestsOk(setup.config, s.crank.requests)
    ensures s.crank.requests[0].NewOrder? ==>
              Older(s.crank.book, OrderSeq(s.crank.requests[0]))
                  && OrderRegistered(s.accounts, s.crank.requests[0].order)
  {
    assert s.crank.requests[0] in s.crank.requests;
  }

  /** New events never name the slot of a fully-out event that is already pending. */
  lemma NewEventApart(setup: Setup, s: State, gone: Event, e: Event)
    requires Inv(setup, s) && s.crank.requests != []
    requires gone in s.crank.events && FullyOut(gone)
          && e in Step(setup.config, s.crank.book, s.crank.requests[0]).events
    ensures !SameSlot(gone, e)
  {
    var r := s.crank.requests[0];
    FrontOk(setup, s);
    StepEventsOk(setup.config, s.crank.book, r);
    OutApart(setup, s, gone);
    hide Step, Inv, BookOk, OrderOk, EventOk, Older;
    assert r in s.crank.requests;
    if NamesResting(e, s.crank.book) {
      var x :| x in SideOf(s.crank.book, e.side) && NamesLeaf(e, e.side, x);
      assert !(x.owner == gone.owner && x.slot == gone.slot);
    }
  }

  lemma StepEventQueueOk(setup: Setup, s: State)
    requires Inv(setup, s) && s.crank.requests != []
    ensures EventQueueOk(s.crank.events + Step(setup.config, s.crank.book, s.crank.requests[0]).events)
  {
    var out := Step(setup.config, s.crank.book, s.crank.requests[0]);
    FrontOk(setup, s);
    StepEventsOk(setup.config, s.crank.book, s.crank.requests[0]);
    StepEventsApart(setup, s);
    forall i, j | 0 <= i < |s.crank.events| && 0 <= j < |out.events| && FullyOut(s.crank.events[i])
      ensures !SameSlot(s.crank.events[i], out.events[j])
    {
      NewEventApart(setup, s, s.crank.events[i], out.events[j]);
    }
    assert EventQueueOk(s.crank.events);
    hide Inv, Step, EventOk, FullyOut, SameSlot;
  }

  lemma StepAllRegistered(setup: Setup, s: State)
    requires Inv(setup, s) && s.crank.requests != []
    ensures AllRegistered(s.(crank := AfterStep(s.crank, Step(setup.config, s.crank.book, s.crank.requests[0]))))
  {
    var r := s.crank.requests[0];
    FrontOk(setup, s);
    StepBookRegistered(setup.config, s.accounts, s.crank.book, r);
    StepEventsOk(setup.config, s.crank.book, r);
    StepKeepsFront(setup, s);
    assert AllRegistered(s);
    hide Inv, Step, EventOk, Registered, BookOk, Older, OrderOk;
    var out := Step(setup.config, s.crank.book, r);
    forall e | e in out.events ensures EventRegistered(s.accounts, e) {
      if NamesResting(e, s.crank.book) {
        var x :| x in SideOf(s.crank.book, e.side) && NamesLeaf(e, e.side, x);
        assert LeafRegistered(s.accounts, e.side, x);
      }
    }
  }

  /** The request put back is the one taken, with less left of it. */
  lemma StepKeepsFront(setup: Setup, s: State)
    requires Inv(setup, s) && s.crank.requests != []
    ensures var r, out := s.crank.requests[0], Step(setup.config, s.crank.book, s.crank.requests[0]);
            out.rest.Some? ==> r.NewOrder? && OrderRegistered(s.accounts, out.rest.value)
  {
    FrontOk(setup, s);
    var r := s.crank.requests[0];
    hide Step, BookOk, OrderOk, SeqOf;
    StepKeeps(setup.config, s.crank.book, r, s.nextSeq);
  }

  lemma StepBalanced(setup: Setup, s: State, m: Measure)
    requires Inv(setup, s) && s.crank.requests != [] && Meaningful(m, |s.accounts|)
    ensures var next := AfterStep(s.crank, Step(setup.config, s.crank.book, s.crank.requests[0]));
            Booked(m, next.market, s.accounts) == Total(setup.config, m, next)
  {
    FrontOk(setup, s);
    assert Booked(m, s.crank.market, s.accounts) == Total(setup.config, m, s.crank);
    hide Inv, Step, Total, SumAccounts, BookOk, OrderOk, Older, Accrue, Drift, RequestsOk, MarketField;
    AfterStepTotal(setup.config, m, s.crank);
    var out := Step(setup.config, s.crank.book, s.crank.requests[0]);
    AccrueIsDrift(m, s.crank.market, out.fee, out.rebate);
  }

  lemma AccrueIsDrift(m: Measure, k: Market, fee: int, rebate: int)
    ensures MarketField(m, Accrue(k, fee, rebate)) == MarketField(m, k) + Drift(m, fee, rebate)
  {
  }

  lemma StepInv(setup: Setup, s: State)
    requires Inv(setup, s) && s.crank.requests != []
    ensures var r := CrankStep(setup.config, setup.eventCap, s.crank); r.Ok? ==> Inv(setup, s.(crank := r.value))
  {
    var next := AfterStep(s.crank, Step(setup.config, s.crank.book, s.crank.requests[0]));
    CrankStepKeeps(setup.config, setup.eventCap, s.crank, s.nextSeq);
    StepEventQueueOk(setup, s);
    StepAllRegistered(setup, s);
    forall m | Meaningful(m, |s.accounts|)
      ensures Booked(m, next.market, s.accounts) == Total(setup.config, m, next)
    {
      StepBalanced(setup, s, m);
    }
    hide CrankOk, Step, EventQueueOk, AllRegistered, Total, Booked;
  }

  lemma {:induction false} MatchKeeps(setup: Setup, s: State, limit: nat)
    requires Inv(setup, s)
    ensures Match(setup, s, limit).Ok? ==> Inv(setup, Match(setup, s, limit).value)
    decreases limit
  {
    hide Inv, CrankStep;
    if limit > 0 && s.crank.requests != [] {
      StepInv(setup, s);
      var r := CrankStep(setup.config, setup.eventCap, s.crank);
      if r.Ok? {
        MatchKeeps(setup, s.(crank := r.value), limit - 1);
      }
    }
    assert s.(crank := s.crank) == s;
  }

  // ----- consuming events -----

  /** The slot that the event at the front names always holds the order it names. */
  lemma FrontMatches(setup: Setup, s: State)
    requires Inv(setup, s) && s.crank.events != []
    ensures var e := s.crank.events[0]; e.owner < |s.accounts| && SlotMatches(s.accounts[e.owner], e)
  {
    var e := s.crank.events[0];
    assert e in s.crank.events && EventRegistered(s.accounts, e);
  }

  /** Consuming an event changes what the account shows by exactly the weight of the event. */
  lemma PostedEffect(m: Measure, a: Account, e: Event)
    requires SlotMatches(a, e) && AccountOk(a) && EventOk(e)
    ensures var b := Posted(a, e);
            && AccountOk(b)
            && (Global(m) ==> AccountField(m, b) - AccountField(m, a) == EventWeight(m, e))
            && (!Global(m) && m.owner == e.owner ==> Held(m, a) - Held(m, b) == EventWeight(m, e))
            && b.orders == if FullyOut(e) then a.orders - {e.slot} else a.orders
  {
  }

  lemma ConsumedBalanced(setup: Setup, s: State, a: Account, m: Measure)
    requires Inv(setup, s) && s.crank.events != [] && Meaningful(m, |s.accounts|)
    requires var e := s.crank.events[0]; e.owner < |s.accounts| && a == Posted(s.accounts[e.owner], e)
    ensures Booked(m, s.crank.market, Consumed(s, a).accounts) == Total(setup.config, m, Consumed(s, a).crank)
  {
    var e := s.crank.events[0];
    assert Booked(m, s.crank.market, s.accounts) == Total(setup.config, m, s.crank);
    FrontEventOk(setup, s);
    FrontMatches(setup, s);
    hide Inv, Posted, BookSum, SumRequests, SumAccounts, AccountOk, EventOk, Held, AccountField;
    PostedEffect(m, s.accounts[e.owner], e);
    BookedUpdate(m, s.crank.market, s.accounts, e.owner, a);
    if !Global(m) && m.owner != e.owner {
      OtherOwner(m, e);
    }
  }

  lemma OtherOwner(m: Measure, e: Event)
    requires !Global(m) && m.owner != e.owner
    ensures EventWeight(m, e) == 0
  {
  }

  lemma FrontEventOk(setup: Setup, s: State)
    requires Inv(setup, s) && s.crank.events != []
    ensures var e := s.crank.events[0]; EventOk(e) && e.owner < |s.accounts| && AccountOk(s.accounts[e.owner])
    ensures EventQueueOk(s.crank.events[1..])
  {
    var e := s.crank.events[0];
    assert e in s.crank.events && EventRegistered(s.accounts, e);
    AccountAt(s, e.owner);
    hide EventOk, SameSlot, FullyOut;
  }

  /** When the event frees the slot, nothing else in flight names it. */
  lemma ConsumedRegistered(setup: Setup, s: State, a: Account)
    requires Inv(setup, s) && s.crank.events != []
    requires var e := s.crank.events[0]; e.owner < |s.accounts| && a == Posted(s.accounts[e.owner], e)
    ensures AllRegistered(Consumed(s, a))
  {
    var e := s.crank.events[0];
    FrontEventOk(setup, s);
    FrontMatches(setup, s);
    PostedEffect(PcFree, s.accounts[e.owner], e);
    assert AllRegistered(s);
    if FullyOut(e) {
      OutApart(setup, s, e);
      RestApart(setup, s);
    }
    hide Inv, Posted, EventOk, AccountOk, Registered, FullyOut;
    var after := Consumed(s, a).accounts;
    forall owner, slot, order | Registered(s.accounts, owner, slot, order)
        && (FullyOut(e) ==> !(owner == e.owner && slot == e.slot))
      ensures Registered(after, owner, slot, order)
    {
      StaysRegistered(s.accounts, e, a, owner, slot, order);
    }
    forall x | x in s.crank.events[1..] ensures EventRegistered(after, x) {
      assert EventRegistered(s.accounts, x);
    }
  }

  lemma StaysRegistered(accounts: seq<Account>, e: Event, a: Account, owner: nat, slot: nat, order: OpenOrder)
    requires e.owner < |accounts|
    requires a.orders == if FullyOut(e) then accounts[e.owner].orders - {e.slot} else accounts[e.owner].orders
    requires Registered(accounts, owner, slot, order) && (FullyOut(e) ==> !(owner == e.owner && slot == e.slot))
    ensures Registered(accounts[e.owner := a], owner, slot, order)
  {
  }

  lemma RestApart(setup: Setup, s: State)
    requires Inv(setup, s) && s.crank.events != [] && FullyOut(s.crank.events[0])
    ensures forall e :: e in s.crank.events[1..] ==>
              !(e.owner == s.crank.events[0].owner && e.slot == s.crank.events[0].slot)
  {
    assert NothingAfterOut(s.crank.events);
    hide Inv;
    forall e | e in s.crank.events[1..]
      ensures !(e.owner == s.crank.events[0].owner && e.slot == s.crank.events[0].slot)
    {
      var j :| 0 <= j < |s.crank.events[1..]| && s.crank.events[1..][j] == e;
      assert s.crank.events[j + 1] == e;
      assert !SameSlot(s.crank.events[0], s.crank.events[j + 1]);
    }
  }

  lemma ConsumedInv(setup: Setup, s: State, a: Account)
    requires Inv(setup, s) && s.crank.events != []
    requires var e := s.crank.events[0]; e.owner < |s.accounts| && a == Posted(s.accounts[e.owner], e)
    ensures Inv(setup, Consumed(s, a))
  {
    var t := Consumed(s, a);
    forall m | Meaningful(m, |t.accounts|)
      ensures Booked(m, t.crank.market, t.accounts) == Total(setup.config, m, t.crank)
    {
      ConsumedBalanced(setup, s, a, m);
    }
    ConsumedRegistered(setup, s, a);
    FrontEventOk(setup, s);
    FrontMatches(setup, s);
    PostedEffect(PcFree, s.accounts[s.crank.events[0].owner], s.crank.events[0]);
    hide BookOk, RequestsOk, InOrder, EventQueueOk, AllRegistered, Total, Booked, Posted, EventOk, AccountOk, BookSum,
        SumRequests;
  }
}
