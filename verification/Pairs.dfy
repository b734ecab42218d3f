/**
 The fills in the event queue come in pairs: the maker's and then the taker's of
 the same trade, between two different owners.  From that follows a bound on how
 much more than the deposits the pending events can show in one account: the fees
 that have left the deposits while their fills are still pending.
 */
module Pairs {
  import opened Numbers
  import opened Fees
  import opened Orders
  import opened Ladder
  import opened Engine
  import opened BookLaws
  import opened Accounting
  import opened Events
  import opened Crank

  /** `m` and `t` are the maker's and the taker's fill of one trade. */
  predicate Matches(m: Event, t: Event) {
    && m.Fill? && t.Fill? && m.maker && !t.maker && t.side == Opposite(m.side) && t.owner != m.owner
    && 0 <= m.paid && 0 <= m.fee && 0 <= ReferrerRebate(t.fee) <= t.fee - m.fee
    && 400 * (t.fee - m.fee) <= (if m.side == Bid then t.received else m.received) + 800
    && (if m.side == Bid then m.paid + m.fee == t.received + t.fee && m.received == t.paid
        else m.received - m.fee == t.paid - t.fee && m.paid == t.received)
  }

  /**
   Every maker fill is followed by its taker fill, with at most the maker's own out event between them;
   `open` is a maker fill that came before `s`.
   */
  predicate Paired(open: Option<Event>, s: seq<Event>)
    decreases |s|
  {
    if s == [] then open.None?
    else if s[0].Out? then
      (open.Some? ==> s[0].side == open.value.side && s[0].owner == open.value.owner) && Paired(open, s[1..])
    else if s[0].maker then open.None? && Paired(Some(s[0]), s[1..])
    else open.Some? && Matches(open.value, s[0]) && Paired(None, s[1..])
  }

  /** The maker fill that is open after `e`. */
  function OpenAfter(open: Option<Event>, e: Event): Option<Event> {
    if e.Out? then open else if e.maker then Some(e) else None
  }

  /** Taker fees less maker rebates of the pending fills. */
  function NetFees(s: seq<Event>): int {
    if s == [] then 0
    else (if s[0].Out? then 0 else if s[0].maker then -s[0].fee else s[0].fee) + NetFees(s[1..])
  }

  /** The rebate of an open maker fill, which `NetFees` no longer counts. */
  function OpenRebate(open: Option<Event>): int {
    if open.Some? && open.value.Fill? then open.value.fee else 0
  }

  lemma {:induction false} PairedConcat(open: Option<Event>, a: seq<Event>, b: seq<Event>)
    requires Paired(open, a) && Paired(None, b)
    ensures Paired(open, a + b)
    decreases |a|
  {
    if a == [] {
      assert a + b == b;
    } else {
      assert (a + b)[1..] == a[1..] + b;
      PairedConcat(OpenAfter(open, a[0]), a[1..], b);
    }
  }

  lemma {:induction false} NetFeesConcat(a: seq<Event>, b: seq<Event>)
    ensures NetFees(a + b) == NetFees(a) + NetFees(b)
  {
    if a == [] {
      assert a + b == b;
    } else {
      assert (a + b)[1..] == a[1..] + b;
      NetFeesConcat(a[1..], b);
    }
  }

  /** The fees of the complete pairs cover their referrer rebates. */
  lemma {:induction false} FeesCoverReferrals(open: Option<Event>, s: seq<Event>)
    requires Paired(open, s)
    ensures 0 <= OpenRebate(open) && 0 <= SumEvents(Referral, s) <= NetFees(s) - OpenRebate(open)
    decreases |s|
  {
    if s != [] {
      FeesCoverReferrals(OpenAfter(open, s[0]), s[1..]);
    }
  }

  /** Consuming the front event keeps the pairing and never raises the pending fees. */
  lemma FrontPaired(open: Option<Event>, s: seq<Event>)
    requires Paired(open, s) && s != []
    ensures var next := OpenAfter(open, s[0]);
            && Paired(next, s[1..])
            && NetFees(s[1..]) - OpenRebate(next) <= NetFees(s) - OpenRebate(open)
            && NetFees(s[1..]) - OpenRebate(next) - SumEvents(Referral, s[1..])
               <= NetFees(s) - OpenRebate(open) - SumEvents(Referral, s)
  {
  }

  // ----- the bound -----

  /** The measure of what one account has locked of the currency that `side` pays with, and of what is free of it. */
  function Locks(side: Side, owner: nat): Measure {
    if side == Bid then PcLock(owner) else CoinLock(owner)
  }

  function Frees(side: Side): Measure {
    if side == Bid then PcFree else CoinFree
  }

  /** Fees are taken in the price currency. */
  function FeesOf(side: Side, fees: int): int {
    if side == Bid then fees else 0
  }

  /** By how much an open maker fill lets the locks of `owner` exceed what the taker fill will show as received. */
  function Carry(side: Side, owner: nat, open: Option<Event>): int {
    if open.None? || !open.value.Fill? then 0
    else if open.value.side == side then open.value.paid
    else if open.value.owner == owner then 0
    else -open.value.received
  }

  /** How much event `e` shows as locked by `owner` beyond what it will set free for anybody. */
  function Excess(side: Side, owner: nat, e: Event): int {
    EventWeight(Locks(side, owner), e) - EventWeight(Frees(side), e)
  }

  lemma MakerExcess(side: Side, owner: nat, m: Event)
    requires m.Fill? && m.maker && EventOk(m)
    ensures Excess(side, owner, m) <= Carry(side, owner, Some(m))
  {
  }

  lemma TakerExcess(side: Side, owner: nat, m: Event, t: Event)
    requires Matches(m, t) && EventOk(t)
    ensures Carry(side, owner, Some(m)) + Excess(side, owner, t) <= FeesOf(side, t.fee - m.fee)
  {
  }

  lemma OutExcess(side: Side, owner: nat, e: Event)
    requires e.Out? && EventOk(e)
    ensures Excess(side, owner, e) <= 0
  {
  }

  lemma NothingOpen(side: Side, owner: nat)
    ensures Carry(side, owner, None) == 0
  {
  }

  /** Pending events show no more as locked by one account than they will set free, beyond their fees. */
  lemma {:induction false} PairedBound(side: Side, owner: nat, open: Option<Event>, s: seq<Event>, x: int)
    requires Paired(open, s) && forall e :: e in s ==> EventOk(e)
    requires x <= Carry(side, owner, open)
    ensures x + SumEvents(Locks(side, owner), s) - SumEvents(Frees(side), s)
         <= FeesOf(side, NetFees(s) - OpenRebate(open))
    decreases |s|
  {
    hide EventWeight, EventOk, Carry;
    NothingOpen(side, owner);
    if s != [] {
      var e, rest := s[0], s[1..];
      var next := x + Excess(side, owner, e);
      if e.Out? {
        OutExcess(side, owner, e);
        PairedBound(side, owner, open, rest, next);
      } else if e.maker {
        MakerExcess(side, owner, e);
        PairedBound(side, owner, Some(e), rest, next);
      } else {
        TakerExcess(side, owner, open.value, e);
        PairedBound(side, owner, None, rest, next - FeesOf(side, e.fee - open.value.fee));
      }
    }
  }

  /** What an open ask maker fill has set free already. */
  function Received(open: Option<Event>): int {
    if open.Some? && open.value.Fill? && open.value.side == Ask then open.value.received else 0
  }

  /** The pending fees are at most a 400th part of what the pending events set free, up to two units for each event. */
  lemma {:induction false} FeesAreSmall(open: Option<Event>, s: seq<Event>)
    requires Paired(open, s) && forall e :: e in s ==> EventOk(e)
    ensures 400 * (NetFees(s) - OpenRebate(open)) <= SumEvents(PcFree, s) + Received(open) + 800 * |s|
    decreases |s|
  {
    if s != [] {
      assert s[0] in s;
      FeesAreSmall(OpenAfter(open, s[0]), s[1..]);
    }
  }

  // ----- the crank pushes whole pairs -----

  lemma {:induction false} NoLeafWeight(c: Config, m: Measure, side: Side, s: seq<Leaf>)
    requires m == PcNet || m == CoinNet || m == Referral
    ensures SumLeaves(c, m, side, s) == 0
  {
    if s != [] {
      NoLeafWeight(c, m, side, s[1..]);
    }
  }

  lemma {:induction false} NoRequestWeight(c: Config, m: Measure, s: seq<Request>)
    requires m == PcNet || m == CoinNet || m == Referral
    ensures SumRequests(c, m, s) == 0
  {
    if s != [] {
      NoRequestWeight(c, m, s[1..]);
    }
  }

  /** The events of one trade: both fills, each possibly followed by an out event. */
  lemma TradePairs(m: Event, gone: seq<Event>, t: Event, done: seq<Event>)
    requires Matches(m, t) && |gone| <= 1 && |done| <= 1
    requires gone == [] || (gone[0].Out? && gone[0].side == m.side && gone[0].owner == m.owner)
    requires done == [] || done[0].Out?
    ensures var s := [m] + gone + [t] + done; Paired(None, s) && NetFees(s) == t.fee - m.fee
  {
    var last, all := [t] + done, [m] + (gone + ([t] + done));
    assert last[1..] == done && all[1..] == gone + last;
    OnlyOuts(done);
    OutFirst(Some(m), gone, last);
    assert all == [m] + gone + [t] + done;
  }

  lemma {:induction false} OnlyOuts(s: seq<Event>)
    requires forall e :: e in s ==> e.Out?
    ensures Paired(None, s) && NetFees(s) == 0
  {
    if s != [] {
      assert s[0] in s;
      OnlyOuts(s[1..]);
    }
  }

  lemma OutFirst(open: Option<Event>, gone: seq<Event>, rest: seq<Event>)
    requires |gone| <= 1 && (gone == [] || gone[0].Out?)
    requires gone != [] && open.Some? ==> gone[0].side == open.value.side && gone[0].owner == open.value.owner
    ensures Paired(open, gone + rest) == Paired(open, rest) && NetFees(gone + rest) == NetFees(rest)
  {
    if gone == [] {
      assert gone + rest == rest;
    } else {
      assert (gone + rest)[1..] == rest;
    }
  }

  lemma AskTradePairs(c: Config, b: Book, o: Order)
    requires o.side == Ask && b.bids != [] && BestBid(b).owner != o.owner
    requires var best := BestBid(b);
             var native := Notional(AskTradeQty(o, best), Price(best.key), c.pcLot);
             var fee, rebate := TakerFee(o.tier, native), MakerRebate(best.tier, native);
             && 0 <= rebate <= native && 0 <= ReferrerRebate(fee) <= fee - rebate
             && 401 * fee <= native + 800
    ensures var out := AskFill(c, b, o); Paired(None, out.events) && NetFees(out.events) == out.fee - out.rebate
  {
    hide Notional, MakerRebate, TakerFee, ReduceBid, Price, Paired, NetFees;
    var best := BestBid(b);
    var q := AskTradeQty(o, best);
    var native := Notional(q, Price(best.key), c.pcLot);
    var fee, rebate := TakerFee(o.tier, native), MakerRebate(best.tier, native);
    TradePairs(MakerFill(Bid, best, native - rebate, q * c.coinLot, rebate),
               if best.qty == q then [LeafOut(Bid, best, 0, 0)] else [],
               TakerFill(o, q * c.coinLot, native - fee, fee),
               if o.coinQty == q then [OrderOut(o, 0, 0)] else []);
  }

  lemma BidTradePairs(c: Config, b: Book, o: Order)
    requires o.side == Bid && b.asks != [] && BestAsk(b).owner != o.owner && 0 <= BidTradeQty(c, o, BestAsk(b))
    requires var best := BestAsk(b);
             var native := Notional(BidTradeQty(c, o, best), Price(best.key), c.pcLot);
             var fee, rebate := TakerFee(o.tier, native), MakerRebate(best.tier, native);
             && 0 <= rebate <= native && 0 <= ReferrerRebate(fee) <= fee - rebate
             && 401 * fee <= native + 800
    ensures var out := BidFill(c, b, o); Paired(None, out.events) && NetFees(out.events) == out.fee - out.rebate
  {
    hide Notional, MakerRebate, TakerFee, ReduceAsk, Price, Paired, NetFees, MaxPcQty;
    var best := BestAsk(b);
    var q := BidTradeQty(c, o, best);
    var native := Notional(q, Price(best.key), c.pcLot);
    var fee, rebate := TakerFee(o.tier, native), MakerRebate(best.tier, native);
    var left := o.pcLocked - native - fee;
    TradePairs(MakerFill(Ask, best, q * c.coinLot, native + rebate, rebate),
               if best.qty == q then [LeafOut(Ask, best, 0, 0)] else [],
               TakerFill(o, native + fee, q * c.coinLot, fee),
               if o.coinQty == q || left <= 0 then [OrderOut(o, left, 0)] else []);
  }

  lemma AskPairs(c: Config, b: Book, o: Order)
    requires BookOk(c, b) && o.side == Ask
    ensures var out := AskStep(c, b, o); Paired(None, out.events) && NetFees(out.events) == out.fee - out.rebate
  {
    hide Notional, MakerRebate, TakerFee, ReduceBid, Find, Insert, Ascending, LeafLock, Price, AskFill, Paired, NetFees;
    if b.bids != [] {
      var best := BestBid(b);
      assert best in b.bids;
      NotionalPositive(AskTradeQty(o, best), Price(best.key), c.pcLot);
      FillFeesNonNegative(o.tier, best.tier, Notional(AskTradeQty(o, best), Price(best.key), c.pcLot));
      FeeShare(o.tier, Notional(AskTradeQty(o, best), Price(best.key), c.pcLot));
      if best.owner != o.owner {
        AskTradePairs(c, b, o);
      }
    }
    var out := AskStep(c, b, o);
    if forall e :: e in out.events ==> e.Out? {
      OnlyOuts(out.events);
    }
  }

  lemma BidPairs(c: Config, b: Book, o: Order)
    requires BookOk(c, b) && OrderOk(c, o) && o.side == Bid
    ensures var out := BidStep(c, b, o); Paired(None, out.events) && NetFees(out.events) == out.fee - out.rebate
  {
    hide Notional, MakerRebate, TakerFee, ReduceAsk, Find, Insert, Ascending, LeafLock, Price, BidTradeQty,
        BidPostQty, BidFill, Paired, NetFees;
    if b.asks != [] {
      var best := BestAsk(b);
      BestAskOk(c, b);
      TradeAffordable(c, o, best);
      FillFeesNonNegative(o.tier, best.tier, Notional(BidTradeQty(c, o, best), Price(best.key), c.pcLot));
      FeeShare(o.tier, Notional(BidTradeQty(c, o, best), Price(best.key), c.pcLot));
      if best.owner != o.owner {
        BidTradePairs(c, b, o);
      }
    }
    var out := BidStep(c, b, o);
    if forall e :: e in out.events ==> e.Out? {
      OnlyOuts(out.events);
    }
  }

  lemma StepPairs(c: Config, b: Book, r: Request)
    requires BookOk(c, b) && RequestOk(c, r)
    ensures var out := Step(c, b, r); Paired(None, out.events) && NetFees(out.events) == out.fee - out.rebate
  {
    hide AskStep, BidStep, BookOk, OrderOk;
    match r
    case NewOrder(o) =>
      if o.side == Bid {
        BidPairs(c, b, o);
      } else {
        AskPairs(c, b, o);
      }
    case CancelOrder(_, _, _, _, _, _) =>
  }

  /** The pending fees, referrer rebates apart, are still in the fee counter. */
  ghost predicate Unswept(s: CrankState, open: Option<Event>) {
    NetFees(s.events) - OpenRebate(open) - SumEvents(Referral, s.events) <= s.market.pcFees
  }

  /** What a crank call does to the pairing and to the fees: they move from the deposits to the pending fills. */
  ghost predicate FeesMoved(s: CrankState, next: CrankState, open: Option<Event>) {
    && Paired(open, next.events)
    && next.market.pcDeposits + NetFees(next.events) == s.market.pcDeposits + NetFees(s.events)
    && (Unswept(s, open) ==> Unswept(next, open))
  }

  lemma StepMovesFees(c: Config, s: CrankState, n: int, open: Option<Event>)
    requires s.requests != [] && CrankOk(c, s, n) && Paired(open, s.events)
    ensures FeesMoved(s, AfterStep(s, Step(c, s.book, s.requests[0])), open)
  {
    hide Step, BookOk, Older, OrderOk, SumEvents, SumRequests, SumLeaves, Backed, Paired, NetFees;
    var r := s.requests[0];
    var out := Step(c, s.book, r);
    StepPairs(c, s.book, r);
    PairedConcat(open, s.events, out.events);
    NetFeesConcat(s.events, out.events);
    SumEventsConcat(Referral, s.events, out.events);
    StepConserves(c, Referral, s.book, r);
    NoReferralHeld(c, s.book, r, out);
  }

  /** Orders hold no referrer rebates. */
  lemma NoReferralHeld(c: Config, b: Book, r: Request, out: Outcome)
    ensures RequestWeight(c, Referral, r) == 0 && RestWeight(c, Referral, out.rest) == 0
    ensures BookSum(c, Referral, b) == 0 && BookSum(c, Referral, out.book) == 0
  {
    NoLeafWeight(c, Referral, Bid, b.bids);
    NoLeafWeight(c, Referral, Ask, b.asks);
    NoLeafWeight(c, Referral, Bid, out.book.bids);
    NoLeafWeight(c, Referral, Ask, out.book.asks);
  }

  lemma {:induction false} RunMovesFees(c: Config, eventCap: nat, s: CrankState, limit: nat, n: int,
      open: Option<Event>)
    requires CrankOk(c, s, n) && Paired(open, s.events)
    ensures var r := Run(c, eventCap, s, limit); r.Ok? ==> FeesMoved(s, r.value, open)
    decreases limit
  {
    hide CrankOk, Paired, NetFees, SumEvents, Step;
    if limit > 0 && s.requests != [] {
      StepMovesFees(c, s, n, open);
      CrankStepKeeps(c, eventCap, s, n);
      var r := CrankStep(c, eventCap, s);
      if r.Ok? {
        RunMovesFees(c, eventCap, r.value, limit - 1, n, open);
      }
    }
  }
}
