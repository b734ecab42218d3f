/**
 The crank: `process_requests` as repeated steps on the front request.  A step
 that leaves an order unfinished rewrites the front of the queue, so cutting the
 work into several calls changes nothing.
 */
module Crank {
  import opened Numbers
  import opened Fees
  import opened Orders
  import opened Ladder
  import opened Engine
  import opened BookLaws
  import opened Accounting
  import opened Events

  /** The deposit and fee counters of the market account. */
  datatype Market = Market(coinDeposits: int, pcDeposits: int, pcFees: int, referrals: int)

  datatype CrankState = CrankState(book: Book, market: Market, requests: seq<Request>, events: seq<Event>)

  /** A fill moves its net fee from the deposits to the fee and referral counters. */
  function Accrue(m: Market, fee: int, rebate: int): Market {
    m.(pcDeposits := m.pcDeposits - (fee - rebate),
       pcFees := m.pcFees + (fee - rebate - ReferrerRebate(fee)),
       referrals := m.referrals + ReferrerRebate(fee))
  }

  function AfterStep(s: CrankState, out: Outcome): CrankState
    requires s.requests != []
  {
    CrankState(
      out.book, Accrue(s.market, out.fee, out.rebate),
      (if out.rest.Some? then [NewOrder(out.rest.value)] else []) + s.requests[1..],
      s.events + out.events)
  }

  /** One step on the front request; an event that finds the queue full fails the whole instruction. */
  function CrankStep(c: Config, eventCap: nat, s: CrankState): Result<CrankState>
    requires s.requests != []
  {
    var out := Step(c, s.book, s.requests[0]);
    if |s.events| + |out.events| > eventCap then Err(EventQueueFull) else Ok(AfterStep(s, out))
  }

  /** `process_requests` with the given limit. */
  function Run(c: Config, eventCap: nat, s: CrankState, limit: nat): Result<CrankState>
    decreases limit
  {
    if limit == 0 || s.requests == [] then Ok(s)
    else match CrankStep(c, eventCap, s)
      case Err(e) => Err(e)
      case Ok(next) => Run(c, eventCap, next, limit - 1)
  }

  /** Batching is irrelevant: two calls in a row are one call with the sum of the limits. */
  lemma {:induction false} BatchingIrrelevant(c: Config, eventCap: nat, s: CrankState, a: nat, b: nat)
    ensures Run(c, eventCap, s, a + b)
         == (match Run(c, eventCap, s, a)
             case Err(e) => Err(e)
             case Ok(mid) => Run(c, eventCap, mid, b))
    decreases a
  {
    hide CrankStep;
    if a > 0 && s.requests != [] {
      var r := CrankStep(c, eventCap, s);
      if r.Ok? {
        BatchingIrrelevant(c, eventCap, r.value, a - 1, b);
      }
    } else if s.requests == [] {
      assert Run(c, eventCap, s, a) == Ok(s);
    }
  }

  /** With four free event slots per unit of limit the crank cannot fail. */
  lemma {:induction false} EnoughEventSlots(c: Config, eventCap: nat, s: CrankState, limit: nat)
    requires |s.events| + MAX_EVENTS_PER_STEP * limit <= eventCap
    ensures Run(c, eventCap, s, limit).Ok?
    ensures |Run(c, eventCap, s, limit).value.events| <= |s.events| + MAX_EVENTS_PER_STEP * limit
    decreases limit
  {
    if limit > 0 && s.requests != [] {
      StepEventBound(c, s.book, s.requests[0]);
      EnoughEventSlots(c, eventCap, CrankStep(c, eventCap, s).value, limit - 1);
    }
  }

  // ----- the invariant of the crank alone -----

  ghost predicate RequestOk(c: Config, r: Request) {
    r.NewOrder? ==> OrderOk(c, r.order)
  }

  ghost predicate RequestsOk(c: Config, s: seq<Request>) {
    forall r :: r in s ==> RequestOk(c, r)
  }

  function OrderSeq(r: Request): int
    requires r.NewOrder?
  {
    SeqOf(r.order.side, r.order.id)
  }

  /** Queued orders are in the order of their sequence numbers, and resting ones are older. */
  ghost predicate InOrder(b: Book, s: seq<Request>, n: int) {
    && Older(b, n)
    && (forall r :: r in s && r.NewOrder? ==> Older(b, OrderSeq(r)) && OrderSeq(r) < n)
    && (forall i, j :: 0 <= i < j < |s| && s[i].NewOrder? && s[j].NewOrder? ==> OrderSeq(s[i]) < OrderSeq(s[j]))
  }

  /** Price currency locked by queued bids and resting bids. */
  function Backing(c: Config, s: CrankState): int {
    SumRequests(c, PcFree, s.requests) + BookSum(c, PcFree, s.book)
  }

  /** The deposits cover every lock, and the counters together fit the vault. */
  ghost predicate Backed(c: Config, s: CrankState) {
    && Backing(c, s) <= s.market.pcDeposits
    && 0 <= s.market.pcFees && 0 <= s.market.referrals
    && s.market.pcDeposits + s.market.pcFees + s.market.referrals < TWO64
  }

  ghost predicate CrankOk(c: Config, s: CrankState, n: int) {
    && BookOk(c, s.book)
    && RequestsOk(c, s.requests)
    && InOrder(s.book, s.requests, n)
    && Backed(c, s)
  }

  lemma {:induction false} EventsNonNegative(m: Measure, s: seq<Event>)
    requires m == PcFree || m == CoinFree || m.PcLock? || m.CoinLock? || m.Place? || m.Referral?
    requires forall e :: e in s ==> EventOk(e)
    ensures 0 <= SumEvents(m, s)
    ensures forall e :: e in s ==> EventWeight(m, e) <= SumEvents(m, s)
  {
    if s != [] {
      assert forall e :: e in s ==> e == s[0] || e in s[1..];
      EventsNonNegative(m, s[1..]);
      EventNonNegative(m, s[0]);
    }
  }

  lemma EventNonNegative(m: Measure, e: Event)
    requires m == PcFree || m == CoinFree || m.PcLock? || m.CoinLock? || m.Place? || m.Referral?
    requires EventOk(e)
    ensures 0 <= EventWeight(m, e)
  {
  }

  lemma {:induction false} LeavesNonNegative(c: Config, m: Measure, side: Side, s: seq<Leaf>)
    requires forall x :: x in s ==> LeafOk(c, side, x)
    ensures 0 <= SumLeaves(c, m, side, s)
    ensures forall x :: x in s ==> LeafWeight(c, m, side, x) <= SumLeaves(c, m, side, s)
  {
    hide LeafOk;
    if s != [] {
      assert forall x :: x in s ==> x == s[0] || x in s[1..];
      LeavesNonNegative(c, m, side, s[1..]);
      LeafNonNegative(c, m, side, s[0]);
      hide LeafWeight;
    }
  }

  lemma LeafNonNegative(c: Config, m: Measure, side: Side, x: Leaf)
    requires LeafOk(c, side, x)
    ensures 0 <= LeafWeight(c, m, side, x)
  {
    hide LeafLock;
  }

  lemma {:induction false} RequestsNonNegative(c: Config, m: Measure, s: seq<Request>)
    requires RequestsOk(c, s)
    ensures 0 <= SumRequests(c, m, s)
    ensures forall r :: r in s ==> 0 <= RequestWeight(c, m, r) <= SumRequests(c, m, s)
  {
    if s != [] {
      assert forall r :: r in s ==> r == s[0] || r in s[1..];
      RequestsNonNegative(c, m, s[1..]);
    }
  }

  /** The total weight held by requests, book and events. */
  function Total(c: Config, m: Measure, s: CrankState): int {
    SumRequests(c, m, s.requests) + BookSum(c, m, s.book) + SumEvents(m, s.events)
  }

  lemma StepConserves(c: Config, m: Measure, b: Book, r: Request)
    requires BookOk(c, b) && RequestOk(c, r)
    requires r.NewOrder? ==> Older(b, OrderSeq(r))
    ensures var out := Step(c, b, r);
            RequestWeight(c, m, r) + BookSum(c, m, b) + Drift(m, out.fee, out.rebate)
            == RestWeight(c, m, out.rest) + BookSum(c, m, out.book) + SumEvents(m, out.events)
  {
    hide OrderStep, CancelStep, BookSum, SumEvents, BookOk, Older, OrderOk;
    match r
    case NewOrder(o) => OrderStepConserves(c, m, b, o);
    case CancelOrder(side, id, _, slot, owner, _) =>
      CancelStepConserves(c, m, b, side, id, owner, slot);
      CancelHasNoFee(c, b, side, id, owner, slot);
  }

  lemma CancelHasNoFee(c: Config, b: Book, side: Side, id: nat, owner: nat, slot: nat)
    ensures var out := CancelStep(c, b, side, id, owner, slot); out.fee == 0 && out.rebate == 0 && out.rest.None?
  {
  }

  /** A step conserves every measure, up to the fee it accrues. */
  lemma AfterStepTotal(c: Config, m: Measure, s: CrankState)
    requires s.requests != [] && BookOk(c, s.book) && RequestsOk(c, s.requests)
    requires s.requests[0].NewOrder? ==> Older(s.book, OrderSeq(s.requests[0]))
    ensures var out := Step(c, s.book, s.requests[0]);
            Total(c, m, AfterStep(s, out)) == Total(c, m, s) + Drift(m, out.fee, out.rebate)
  {
    hide Step, BookSum, SumEvents, SumRequests, BookOk, Older, OrderOk;
    var out := Step(c, s.book, s.requests[0]);
    StepConserves(c, m, s.book, s.requests[0]);
    SumEventsConcat(m, s.events, out.events);
    RestThenTail(c, m, s.requests, out.rest);
  }

  lemma RestThenTail(c: Config, m: Measure, s: seq<Request>, rest: Option<Order>)
    requires s != []
    ensures SumRequests(c, m, (if rest.Some? then [NewOrder(rest.value)] else []) + s[1..])
         == SumRequests(c, m, s) - RequestWeight(c, m, s[0]) + RestWeight(c, m, rest)
  {
    if rest.Some? {
      assert ([NewOrder(rest.value)] + s[1..])[1..] == s[1..];
    } else {
      assert [] + s[1..] == s[1..];
    }
  }

  lemma StepFees(c: Config, b: Book, r: Request)
    requires BookOk(c, b) && RequestOk(c, r)
    ensures var out := Step(c, b, r);
            && 0 <= out.rebate && out.rebate <= out.fee && 0 <= ReferrerRebate(out.fee) <= out.fee - out.rebate
  {
    hide Notional, MakerRebate, TakerFee, ReduceAsk, ReduceBid, BidTradeQty, Insert, Find, Remove, Ascending,
        LeafLock, Price;
    if r.NewOrder? {
      var o := r.order;
      if o.side == Bid && b.asks != [] {
        BestAskOk(c, b);
        TradeAffordable(c, o, BestAsk(b));
        FillFeesNonNegative(o.tier, BestAsk(b).tier,
            Notional(BidTradeQty(c, o, BestAsk(b)), Price(BestAsk(b).key), c.pcLot));
      } else if o.side == Ask && b.bids != [] {
        var best := BestBid(b);
        assert best in b.bids;
        NotionalPositive(AskTradeQty(o, best), Price(best.key), c.pcLot);
        FillFeesNonNegative(o.tier, best.tier, Notional(AskTradeQty(o, best), Price(best.key), c.pcLot));
      }
    }
  }

  lemma StepKeeps(c: Config, b: Book, r: Request, n: int)
    requires BookOk(c, b) && RequestOk(c, r) && Older(b, n)
    requires r.NewOrder? ==> Older(b, OrderSeq(r)) && OrderSeq(r) < n
    ensures var out := Step(c, b, r);
            && BookOk(c, out.book) && Older(out.book, n)
            && (out.rest.Some? ==>
                  && r.NewOrder? && OrderOk(c, out.rest.value) && Older(out.book, OrderSeq(r))
                  && out.rest.value == r.order.(coinQty := out.rest.value.coinQty, pcLocked := out.rest.value.pcLocked))
  {
    hide OrderStep, CancelStep, BookOk, Older, OrderOk;
    match r
    case NewOrder(o) => OrderStepKeeps(c, b, o, n);
    case CancelOrder(side, id, _, slot, owner, _) => CancelStepKeeps(c, b, side, id, owner, slot, n);
  }

  lemma StepEventsOk(c: Config, b: Book, r: Request)
    requires BookOk(c, b) && RequestOk(c, r)
    ensures forall e :: e in Step(c, b, r).events ==>
              EventOk(e) && (NamesResting(e, b) || (r.NewOrder? && NamesOrder(e, r.order)))
  {
    hide OrderStep, CancelStep, BookOk, OrderOk, EventOk, NamesResting, NamesOrder;
    match r
    case NewOrder(o) => OrderStepEventsOk(c, b, o);
    case CancelOrder(side, id, _, slot, owner, _) => CancelStepEventsOk(c, b, side, id, owner, slot);
  }

  /** The order of sequence numbers survives a step. */
  lemma AfterStepInOrder(c: Config, s: CrankState, n: int)
    requires s.requests != [] && BookOk(c, s.book) && RequestsOk(c, s.requests) && InOrder(s.book, s.requests, n)
    ensures var next := AfterStep(s, Step(c, s.book, s.requests[0]));
            BookOk(c, next.book) && RequestsOk(c, next.requests) && InOrder(next.book, next.requests, n)
  {
    hide Step, BookOk, Older, OrderOk, SeqOf, Accrue;
    var r := s.requests[0];
    var out := Step(c, s.book, r);
    var next := AfterStep(s, out);
    StepKeeps(c, s.book, r, n);
    forall q | q in s.requests[1..] && q.NewOrder? ensures Older(out.book, OrderSeq(q)) && OrderSeq(q) < n {
      StepKeeps(c, s.book, r, OrderSeq(q));
    }
    if out.rest.Some? {
      assert next.requests == [NewOrder(out.rest.value)] + s.requests[1..];
    } else {
      assert next.requests == s.requests[1..];
    }
  }

  lemma AfterStepBacked(c: Config, s: CrankState, n: int)
    requires s.requests != [] && CrankOk(c, s, n)
    ensures var out := Step(c, s.book, s.requests[0]);
            && Backed(c, AfterStep(s, out))
            && 0 <= out.fee - out.rebate <= s.market.pcDeposits
  {
    hide Step, BookOk, Older, SumEvents, SumRequests, SumLeaves, EventOk;
    var out := Step(c, s.book, s.requests[0]);
    AfterStepInOrder(c, s, n);
    StepFees(c, s.book, s.requests[0]);
    StepConserves(c, PcFree, s.book, s.requests[0]);
    RestThenTail(c, PcFree, s.requests, out.rest);
    StepEventsOk(c, s.book, s.requests[0]);
    EventsNonNegative(PcFree, out.events);
    BackingNonNegative(c, AfterStep(s, out));
  }

  lemma BackingNonNegative(c: Config, s: CrankState)
    requires BookOk(c, s.book) && RequestsOk(c, s.requests)
    ensures 0 <= Backing(c, s)
  {
    LeavesNonNegative(c, PcFree, Bid, s.book.bids);
    LeavesNonNegative(c, PcFree, Ask, s.book.asks);
    RequestsNonNegative(c, PcFree, s.requests);
  }

  /** Every step keeps the invariant of the crank. */
  lemma CrankStepKeeps(c: Config, eventCap: nat, s: CrankState, n: int)
    requires s.requests != [] && CrankOk(c, s, n)
    ensures CrankStep(c, eventCap, s).Ok? ==> CrankOk(c, CrankStep(c, eventCap, s).value, n)
  {
    hide Step, BookOk, RequestsOk, InOrder, Backed;
    AfterStepInOrder(c, s, n);
    AfterStepBacked(c, s, n);
  }

  /** Any run of the crank keeps it; in particular the book is never crossed. */
  lemma {:induction false} RunKeeps(c: Config, eventCap: nat, s: CrankState, limit: nat, n: int)
    requires CrankOk(c, s, n)
    ensures Run(c, eventCap, s, limit).Ok? ==> CrankOk(c, Run(c, eventCap, s, limit).value, n)
    decreases limit
  {
    hide CrankStep, CrankOk;
    if limit > 0 && s.requests != [] {
      CrankStepKeeps(c, eventCap, s, n);
      var r := CrankStep(c, eventCap, s);
      if r.Ok? {
        RunKeeps(c, eventCap, r.value, limit - 1, n);
      }
    }
  }
}
