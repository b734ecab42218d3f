/**
 The program adds to the account totals without checking, so a total can wrap.
 Beside what the program stores this module keeps the exact balances, the ledger,
 for which the market invariant holds in every reachable state.  The two agree up
 to multiples of 2^64 in the price-currency totals, and entirely as long as no
 total has reached 2^64.
 */
module Ledger {
  import opened Numbers
  import opened Orders
  import opened Ladder
  import opened Engine
  import opened BookLaws
  import opened Accounting
  import opened Events
  import opened Crank
  import opened Accounts
  import opened Exchange
  import opened Invariants
  import opened Lifecycle
  import opened Pairs

  // ----- a bound on the totals -----

  /** Total and deposits of the currency that `side` pays with. */
  function TotalOf(side: Side, a: Account): int {
    if side == Bid then a.pcTotal else a.coinTotal
  }

  function DepositsOf(side: Side, k: Market): int {
    if side == Bid then k.pcDeposits else k.coinDeposits
  }

  lemma {:induction false} RequestsDominated(c: Config, side: Side, owner: nat, s: seq<Request>)
    requires RequestsOk(c, s)
    ensures SumRequests(c, Locks(side, owner), s) <= SumRequests(c, Frees(side), s)
  {
    if s != [] {
      assert s[0] in s;
      ProductMonotone(0, if s[0].NewOrder? then s[0].order.coinQty else 0, c.coinLot);
      RequestsDominated(c, side, owner, s[1..]);
    }
  }

  lemma {:induction false} LeavesDominated(c: Config, side: Side, owner: nat, bookSide: Side, s: seq<Leaf>)
    requires forall x :: x in s ==> LeafOk(c, bookSide, x)
    ensures SumLeaves(c, Locks(side, owner), bookSide, s) <= SumLeaves(c, Frees(side), bookSide, s)
  {
    hide LeafLock;
    if s != [] {
      assert s[0] in s;
      LeavesDominated(c, side, owner, bookSide, s[1..]);
    }
  }

  /**
   No total exceeds the deposits by more than the pending fees, unless it belongs to the taker of a
   half-consumed pair who still has to pay.
   */
  lemma TotalBound(setup: Setup, r: State, side: Side, owner: nat, open: Option<Event>)
    requires Inv(setup, r) && owner < |r.accounts| && Paired(open, r.crank.events) && 0 <= Carry(side, owner, open)
    ensures TotalOf(side, r.accounts[owner])
         <= DepositsOf(side, r.crank.market) + FeesOf(side, NetFees(r.crank.events) - OpenRebate(open))
  {
    var c, s := setup.config, r.crank;
    var lock, free := Locks(side, owner), Frees(side);
    assert Booked(lock, s.market, r.accounts) == Total(c, lock, s);
    assert Booked(free, s.market, r.accounts) == Total(c, free, s);
    hide Ascending, Uncrossed, LeafOk, InOrder, Registered, NothingAfterOut, EventOk, Paired, NetFees, OrderOk;
    RequestsDominated(c, side, owner, s.requests);
    LeavesDominated(c, side, owner, Bid, s.book.bids);
    LeavesDominated(c, side, owner, Ask, s.book.asks);
    PairedBound(side, owner, open, s.events, 0);
    SumAccountsNonNegative(free, r.accounts);
  }

  // ----- stored and exact balances -----

  /** `s` is what the program stores when the exact balances are those of `r`. */
  ghost predicate Shows(s: State, r: State) {
    && s == r.(accounts := s.accounts)
    && |s.accounts| == |r.accounts|
    && forall i :: 0 <= i < |s.accounts| ==> s.accounts[i] == Stored(r.accounts[i])
  }

  ghost predicate CoinsFit(s: seq<Account>) {
    forall a :: a in s ==> FitsU64(a.coinTotal)
  }

  /** No price-currency total has reached 2^64. */
  ghost predicate TotalsFit(s: seq<Account>) {
    forall a :: a in s ==> FitsU64(a.pcTotal)
  }

  /** The invariant of the program's state `s` with ledger `r`. */
  ghost predicate Kept(setup: Setup, s: State, r: State, open: Option<Event>) {
    Shows(s, r) && Inv(setup, r) && CoinsFit(r.accounts) && Paired(open, r.crank.events)
  }

  /** The deposits and the pending fees together stay below 2^64. */
  predicate Room(s: CrankState, open: Option<Event>) {
    s.market.pcDeposits + NetFees(s.events) - OpenRebate(open) < TWO64
  }

  /** Only price-currency totals can differ from the ledger. */
  lemma StoredParts(setup: Setup, s: State, r: State, open: Option<Event>, i: nat)
    requires Kept(setup, s, r, open) && i < |s.accounts|
    ensures s.accounts[i] == r.accounts[i].(pcTotal := Wrap(r.accounts[i].pcTotal))
    ensures AccountOk(r.accounts[i]) && FitsU64(r.accounts[i].pcFree) && 0 <= r.accounts[i].pcTotal
    ensures FitsU64(r.accounts[i].coinFree) && FitsU64(r.accounts[i].referrals) && FitsU64(r.accounts[i].coinTotal)
  {
    SettleCovered(setup, r, i);
    AccountAt(r, i);
    hide Balanced, AllRegistered, EventQueueOk, BookOk, RequestsOk, InOrder, Paired;
    BackingNonNegative(setup.config, r.crank);
    assert r.accounts[i] in r.accounts;
  }

  /** When no total has reached 2^64 the program's state is the ledger. */
  lemma ExactState(setup: Setup, s: State, r: State, open: Option<Event>)
    requires Kept(setup, s, r, open) && TotalsFit(r.accounts)
    ensures s == r
  {
    forall i | 0 <= i < |s.accounts| ensures s.accounts[i] == r.accounts[i] {
      StoredParts(setup, s, r, open, i);
      assert r.accounts[i] in r.accounts;
    }
    hide Inv, Paired;
    assert s.accounts == r.accounts;
  }

  // ----- every instruction moves state and ledger together -----

  /** `t` with ledger `r2` follows `s` with ledger `r`; if `safe`, no total reaches 2^64 on the way. */
  ghost predicate Follows(setup: Setup, r: State, t: State, r2: State, open2: Option<Event>, safe: bool) {
    Kept(setup, t, r2, open2) && (safe && TotalsFit(r.accounts) ==> TotalsFit(r2.accounts))
  }

  lemma OpenAccountFollows(setup: Setup, s: State, r: State, open: Option<Event>)
    requires Kept(setup, s, r, open)
    ensures Follows(setup, r, s.(accounts := s.accounts + [EMPTY_ACCOUNT]),
          r.(accounts := r.accounts + [EMPTY_ACCOUNT]), open, true)
  {
    OpenAccountKeeps(setup, r);
    hide Inv, Paired;
  }

  /** A placed order: the stored total and the exact one grow by the same deposit. */
  lemma LockStored(a: Account, b: Account, side: Side, lock: nat)
    requires b == a.(pcTotal := Wrap(a.pcTotal)) && AccountOk(a) && FitsU64(a.pcFree) && FitsU64(a.coinFree)
    requires FitsU64(a.coinTotal) && FitsU64(a.referrals) && 0 <= a.pcTotal
    requires var l := LockFunds(b, side, lock).0; FitsU64(l.pcTotal) && FitsU64(l.coinTotal)
    ensures var exact, l := LockFunds(a, side, lock), LockFunds(b, side, lock);
            && l.1 == exact.1 && l.0 == Stored(exact.0)
            && FitsU64(exact.0.coinTotal) && (FitsU64(a.pcTotal) ==> FitsU64(exact.0.pcTotal))
  {
    WrapSum(a.pcTotal, LockFunds(a, side, lock).1);
  }

  lemma PlaceFollows(setup: Setup, s: State, r: State, open: Option<Event>, act: Action) returns (r2: State)
    requires Kept(setup, s, r, open) && act.PlaceOrder? && AcceptOrder(setup, s, act).Ok?
    ensures Follows(setup, r, AcceptOrder(setup, s, act).value, r2, open, true)
  {
    hide Inv, Paired, LockAmount, LockFunds, QueuedOrder;
    var t, owner := AcceptOrder(setup, s, act).value, act.owner;
    var d := DeskOf(s, owner);
    var lock := LockAmount(setup.config, act.side, act.price, act.qty, act.tier).value;
    StoredParts(setup, s, r, open, owner);
    LockStored(r.accounts[owner], d.account, act.side, lock);
    var funded := Funded(d, act.side, lock, act.payerFunds).value;
    var order := OpenOrder(OrderId(act.side, act.price, s.nextSeq), act.side, act.clientId);
    var slot := AddOrder(funded.account, order).value.1;
    var (b, deposit) := LockFunds(r.accounts[owner], act.side, lock);
    var a := b.(orders := b.orders[slot := order]);
    r2 := State(t.crank, r.accounts[owner := a], t.nextSeq, t.coinVault, t.pcVault);
    QueuedNames(act, s.nextSeq, slot, lock);
    QueuedKeys(act, s.nextSeq, slot, lock);
    VaultsAfterPlace(setup, r);
    assert Placed(setup, r, act, lock, a, slot, r2);
    PlacedKeeps(setup, r, act, lock, a, slot, r2);
  }

  lemma QueuedKeys(act: Action, seqNum: nat, slot: nat, lock: nat)
    requires act.PlaceOrder? && seqNum < TWO64
    ensures var o := QueuedOrder(act, seqNum, slot, lock);
            o.id == OrderId(act.side, act.price, seqNum) && o.clientId == act.clientId
  {
  }

  lemma VaultsAfterPlace(setup: Setup, r: State)
    requires Inv(setup, r)
    ensures FitsU64(r.pcVault) && FitsU64(r.coinVault) && r.nextSeq < TWO64
  {
  }

  lemma EnqueueFollows(setup: Setup, s: State, r: State, open: Option<Event>, q: Request)
    requires Kept(setup, s, r, open) && q.CancelOrder? && s.nextSeq + 1 < TWO64 && Enqueue(setup, s, q).Ok?
    ensures Follows(setup, r, Enqueue(setup, s, q).value, Enqueue(setup, r, q).value, open, true)
  {
    EnqueueKeeps(setup, r, q);
    hide Inv, Paired;
  }

  lemma MatchFollows(setup: Setup, s: State, r: State, open: Option<Event>, limit: nat)
    requires Kept(setup, s, r, open) && Match(setup, s, limit).Ok?
    ensures Match(setup, r, limit).Ok?
          && Follows(setup, r, Match(setup, s, limit).value, Match(setup, r, limit).value, open, true)
    ensures FeesMoved(s.crank, Match(setup, s, limit).value.crank, open)
  {
    assert s.crank == r.crank && CrankOk(setup.config, r.crank, r.nextSeq);
    MatchKeeps(setup, r, limit);
    RunMovesFees(setup.config, setup.eventCap, r.crank, limit, r.nextSeq, open);
    hide Inv, Paired, Run, Unswept, NetFees, CrankOk, CoinsFit, TotalsFit, Stored;
  }

  // ----- consuming events -----

  /** The ledger after the event at the front. */
  function Next(r: State): State
    requires r.crank.events != [] && r.crank.events[0].owner < |r.accounts|
  {
    var e := r.crank.events[0];
    Consumed(r, Posted(r.accounts[e.owner], e))
  }

  /** Wrapping at every event loses nothing against wrapping once. */
  lemma PostedStored(a: Account, e: Event)
    ensures Stored(Posted(Stored(a), e)) == Stored(Posted(a, e))
  {
    WrapSum(a.pcFree, PcFreeInc(e));
    WrapSum(a.pcTotal, PcTotalInc(e));
    WrapSum(a.coinFree, CoinFreeInc(e));
    WrapSum(a.coinTotal, CoinTotalInc(e));
    WrapSum(a.referrals, ReferralInc(e));
    hide Wrap;
  }

  /** Coin totals never wrap, and price-currency totals do not while there is room for the pending fees. */
  lemma NextFits(setup: Setup, r: State, open: Option<Event>)
    requires Inv(setup, r) && CoinsFit(r.accounts) && Paired(open, r.crank.events) && r.crank.events != []
    ensures r.crank.events[0].owner < |r.accounts|
    ensures var e := r.crank.events[0];
            var open2 := OpenAfter(open, e);
            && Inv(setup, Next(r)) && Paired(open2, Next(r).crank.events) && CoinsFit(Next(r).accounts)
            && (Room(r.crank, open) ==> Room(Next(r).crank, open2))
            && (Room(r.crank, open) && TotalsFit(r.accounts) ==> TotalsFit(Next(r).accounts))
  {
    FrontMatches(setup, r);
    var e := r.crank.events[0];
    var a := Posted(r.accounts[e.owner], e);
    var open2 := OpenAfter(open, e);
    ConsumedInv(setup, r, a);
    FrontPaired(open, r.crank.events);
    FrontFits(setup, r, open);
    hide Inv, Paired, NetFees, Posted;
  }

  lemma FrontFits(setup: Setup, r: State, open: Option<Event>)
    requires Inv(setup, r) && Paired(open, r.crank.events) && r.crank.events != []
          && r.crank.events[0].owner < |r.accounts|
    requires Inv(setup, Next(r)) && Paired(OpenAfter(open, r.crank.events[0]), Next(r).crank.events)
    ensures var e := r.crank.events[0];
            var before, after := r.accounts[e.owner], Posted(r.accounts[e.owner], e);
            && (FitsU64(before.coinTotal) ==> FitsU64(after.coinTotal))
            && (FitsU64(before.pcTotal) && Room(Next(r).crank, OpenAfter(open, e)) ==> FitsU64(after.pcTotal))
  {
    var e := r.crank.events[0];
    var open2 := OpenAfter(open, e);
    FrontEventOk(setup, r);
    SettleCovered(setup, Next(r), e.owner);
    MarketInRange(setup, Next(r));
    assert Next(r).accounts[e.owner] == Posted(r.accounts[e.owner], e);
    hide Inv, Paired, NetFees;
    if e.Fill? {
      TotalBound(setup, Next(r), Ask, e.owner, open2);
      TotalBound(setup, Next(r), Bid, e.owner, open2);
    }
  }

  lemma MarketInRange(setup: Setup, s: State)
    requires Inv(setup, s)
    ensures var k := s.crank.market;
            FitsU64(k.pcDeposits) && FitsU64(k.coinDeposits) && FitsU64(k.referrals) && FitsU64(k.pcFees)
  {
    BackingNonNegative(setup.config, s.crank);
  }

  /** The program's effect of the front event is that of the ledger, unless the check on an unlock stops it. */
  lemma FrontFollows(setup: Setup, s: State, r: State, open: Option<Event>)
    requires Kept(setup, s, r, open) && s.crank.events != []
    ensures s.crank == r.crank && s.crank.events[0].owner < |s.accounts| == |r.accounts|
    ensures var e := s.crank.events[0];
            var a, exact := ApplyEvent(s.accounts[e.owner], e), Posted(r.accounts[e.owner], e);
            && (a.Ok? <==> UnlockCovered(Stored(exact), e))
            && (a.Ok? ==> Follows(setup, r, Consumed(s, a.value), Next(r), OpenAfter(open, e), Room(r.crank, open)))
            && (Room(r.crank, open) ==> Room(Next(r).crank, OpenAfter(open, e)))
  {
    FrontMatches(setup, r);
    NextFits(setup, r, open);
    var e := s.crank.events[0];
    PostedStored(r.accounts[e.owner], e);
    hide Inv, Paired, Stored, Posted, Room, NetFees;
    assert SlotMatches(s.accounts[e.owner], e) by {
      SameOrders(r.accounts[e.owner]);
    }
  }

  lemma SameOrders(a: Account)
    ensures Stored(a).orders == a.orders
  {
  }

  /** Without a wrapped total the check on an unlock never fails. */
  lemma FrontCovered(setup: Setup, r: State, open: Option<Event>)
    requires Inv(setup, r) && CoinsFit(r.accounts) && Paired(open, r.crank.events) && r.crank.events != []
    requires r.crank.events[0].owner < |r.accounts| && TotalsFit(Next(r).accounts)
    ensures var e := r.crank.events[0]; UnlockCovered(Stored(Posted(r.accounts[e.owner], e)), e)
  {
    var e := r.crank.events[0];
    NextFits(setup, r, open);
    SettleCovered(setup, Next(r), e.owner);
    var b := Posted(r.accounts[e.owner], e);
    assert Next(r).accounts[e.owner] == b && b in Next(r).accounts;
    hide Inv, Paired, Posted;
  }

  /** Only events were taken off, and the fees they held back did not grow. */
  predicate Eased(s: CrankState, open: Option<Event>, t: CrankState, open2: Option<Event>) {
    && t == s.(events := t.events)
    && NetFees(t.events) - OpenRebate(open2) - SumEvents(Referral, t.events)
       <= NetFees(s.events) - OpenRebate(open) - SumEvents(Referral, s.events)
  }

  lemma EasedSelf(s: CrankState, open: Option<Event>)
    ensures Eased(s, open, s, open)
  {
  }

  lemma EasedTwice(s: CrankState, open: Option<Event>, t: CrankState, open2: Option<Event>, u: CrankState,
      open3: Option<Event>)
    requires Eased(s, open, t, open2) && Eased(t, open2, u, open3)
    ensures Eased(s, open, u, open3)
  {
  }

  lemma NextEased(r: State, open: Option<Event>)
    requires Paired(open, r.crank.events) && r.crank.events != [] && r.crank.events[0].owner < |r.accounts|
    ensures Eased(r.crank, open, Next(r).crank, OpenAfter(open, r.crank.events[0]))
  {
    FrontPaired(open, r.crank.events);
  }

  /**
   A successful call keeps state and ledger together; with room for the fees and no wrapped total every call
   succeeds.
   */
  lemma {:induction false} ConsumeFollows(setup: Setup, s: State, r: State, open: Option<Event>, limit: nat,
      loaded: set<nat>)
    returns (r2: State, open2: Option<Event>)
    requires Kept(setup, s, r, open)
    ensures var t := Consume(s, limit, loaded);
            && (t.Ok? ==> Follows(setup, r, t.value, r2, open2, Room(r.crank, open)))
            && (Room(r.crank, open) && TotalsFit(r.accounts) ==> t.Ok?)
            && (t.Ok? ==> Eased(r.crank, open, r2.crank, open2))
    decreases limit
  {
    r2, open2 := r, open;
    EasedSelf(r.crank, open);
    if limit > 0 && s.crank.events != [] && s.crank.events[0].owner in loaded {
      var e := s.crank.events[0];
      ConsumeStep(setup, s, r, open);
      hide Kept, ApplyEvent, Room, TotalsFit, Next, OpenAfter, Eased, Consumed, Follows;
      var a, next := ApplyEvent(s.accounts[e.owner], e), OpenAfter(open, e);
      if a.Ok? {
        r2, open2 := ConsumeFollows(setup, Consumed(s, a.value), Next(r), next, limit - 1, loaded);
        var t := Consume(Consumed(s, a.value), limit - 1, loaded);
        if t.Ok? {
          EasedTwice(r.crank, open, Next(r).crank, next, r2.crank, open2);
          FollowsOn(setup, r, Next(r), t.value, r2, open2, Room(r.crank, open), Room(Next(r).crank, next));
        }
      }
    } else {
      FollowsSelf(setup, s, r, open, Room(r.crank, open));
    }
  }

  lemma FollowsSelf(setup: Setup, s: State, r: State, open: Option<Event>, safe: bool)
    requires Kept(setup, s, r, open)
    ensures Follows(setup, r, s, r, open, safe)
  {
  }

  lemma FollowsOn(setup: Setup, r: State, mid: State, t: State, r2: State, open2: Option<Event>, safe: bool,
      after: bool)
    requires Follows(setup, mid, t, r2, open2, after)
          && (safe && TotalsFit(r.accounts) ==> after && TotalsFit(mid.accounts))
    ensures Follows(setup, r, t, r2, open2, safe)
  {
  }

  /** One round of the loop. */
  lemma ConsumeStep(setup: Setup, s: State, r: State, open: Option<Event>)
    requires Kept(setup, s, r, open) && s.crank.events != []
    ensures s.crank == r.crank && s.crank.events[0].owner < |s.accounts| == |r.accounts|
    ensures var e := s.crank.events[0];
            var a, next := ApplyEvent(s.accounts[e.owner], e), OpenAfter(open, e);
            && (a.Ok? ==> Kept(setup, Consumed(s, a.value), Next(r), next))
            && (Room(r.crank, open) && TotalsFit(r.accounts) ==>
                  a.Ok? && Room(Next(r).crank, next) && TotalsFit(Next(r).accounts))
            && Eased(r.crank, open, Next(r).crank, next)
  {
    FrontFollows(setup, s, r, open);
    NextEased(r, open);
    NextFits(setup, r, open);
    hide Inv, Paired, ApplyEvent, Room, Next, OpenAfter, Eased, TotalsFit, Posted, Stored, UnlockCovered;
    if Room(r.crank, open) && TotalsFit(r.accounts) {
      FrontCovered(setup, r, open);
    }
  }

  // ----- settlement and sweep -----

  lemma SettledStored(a: Account, b: Account)
    requires b == a.(pcTotal := Wrap(a.pcTotal)) && AccountOk(a) && FitsU64(a.pcFree) && FitsU64(a.coinFree)
    requires FitsU64(a.coinTotal) && FitsU64(a.referrals) && a.coinFree <= a.coinTotal && b.pcFree <= b.pcTotal
    ensures Settled(b) == Stored(Settled(a)) && FitsU64(Settled(a).coinTotal)
  {
    WrapSum(a.pcTotal, -a.pcFree);
  }

  lemma SettleFollows(setup: Setup, s: State, r: State, open: Option<Event>, owner: nat, withReferrer: bool)
    requires Kept(setup, s, r, open) && owner < |s.accounts|
    ensures Settle(r, owner, withReferrer).Ok?
    ensures var t := Settle(s, owner, withReferrer);
            && (t.Ok? <==> s.accounts[owner].pcFree <= s.accounts[owner].pcTotal)
            && (t.Ok? ==> Follows(setup, r, t.value, Settle(r, owner, withReferrer).value, open, true)
                          && (Unswept(s.crank, open) ==> Unswept(t.value.crank, open)))
  {
    SettleKeeps(setup, r, owner, withReferrer);
    SettleCovered(setup, r, owner);
    StoredParts(setup, s, r, open, owner);
    SettleAlike(s, r, owner, withReferrer);
    hide Inv, Paired, NetFees, SumEvents, Wrap, TotalsFit, CoinsFit, Stored, Settled, Settle;
    var a, b := r.accounts[owner], s.accounts[owner];
    if b.pcFree <= b.pcTotal {
      SettledStored(a, b);
      SettledFits(setup, r, owner, withReferrer);
    }
  }

  /** Settlement depends on a total only through the check that it covers what is free. */
  lemma SettleAlike(s: State, r: State, owner: nat, withReferrer: bool)
    requires s == r.(accounts := s.accounts) && |s.accounts| == |r.accounts| && owner < |s.accounts|
    requires var a, b := r.accounts[owner], s.accounts[owner]; b == a.(pcTotal := b.pcTotal) && 0 <= a.referrals
    requires Settle(r, owner, withReferrer).Ok?
    ensures var t, exact := Settle(s, owner, withReferrer), Settle(r, owner, withReferrer).value;
            && (t.Ok? <==> s.accounts[owner].pcFree <= s.accounts[owner].pcTotal)
            && (t.Ok? ==> && t.value == exact.(accounts := s.accounts[owner := Settled(s.accounts[owner])])
                          && t.value.crank == s.crank.(market := t.value.crank.market)
                          && s.crank.market.pcFees <= t.value.crank.market.pcFees)
  {
  }

  lemma SettledFits(setup: Setup, r: State, owner: nat, withReferrer: bool)
    requires owner < |r.accounts| && Settle(r, owner, withReferrer).Ok? && 0 <= r.accounts[owner].pcFree
    requires CoinsFit(r.accounts) && FitsU64(Settled(r.accounts[owner]).coinTotal)
    ensures var t := Settle(r, owner, withReferrer).value;
            && t.accounts == r.accounts[owner := Settled(r.accounts[owner])]
            && CoinsFit(t.accounts) && (TotalsFit(r.accounts) ==> TotalsFit(t.accounts))
  {
    assert r.accounts[owner] in r.accounts;
  }

  lemma SweepFollows(setup: Setup, s: State, r: State, open: Option<Event>)
    requires Kept(setup, s, r, open)
    ensures Sweep(s).Ok? && Sweep(r).Ok? && Follows(setup, r, Sweep(s).value, Sweep(r).value, open, true)
  {
    SweepKeeps(setup, r);
    hide Inv, Paired;
  }

  // ----- all runs -----

  lemma CancelFollows(setup: Setup, s: State, r: State, open: Option<Event>, owner: nat, side: Side, id: nat,
      slot: nat, clientId: nat)
    returns (r2: State)
    requires Kept(setup, s, r, open) && Cancel(setup, s, owner, side, id, slot, clientId).Ok?
    ensures var t := Cancel(setup, s, owner, side, id, slot, clientId).value;
            Follows(setup, r, t, r2, open, true) && SameFees(s.crank, t.crank)
  {
    var q := CancelOrder(side, id, s.nextSeq, slot, owner, clientId);
    EnqueueFollows(setup, s, r, open, q);
    r2 := Enqueue(setup, r, q).value;
  }

  predicate SameFees(s: CrankState, t: CrankState) {
    t.events == s.events && t.market.pcFees == s.market.pcFees
  }

  /** What `act` must meet so that no total wraps. */
  predicate Guard(s: State, open: Option<Event>, act: Action) {
    act.ConsumeEvents? ==> Room(s.crank, open)
  }

  /** Fees are swept only when no event is pending. */
  predicate SweepsIdle(s: State, act: Action) {
    act.SweepFees? ==> s.crank.events == []
  }

  /** Every successful instruction leads from stored state and ledger to stored state and ledger. */
  lemma TransitionFollows(setup: Setup, s: State, r: State, open: Option<Event>, act: Action)
      returns (r2: State, open2: Option<Event>)
    requires Kept(setup, s, r, open)
    ensures var t := Transition(setup, s, act);
            t.Ok? ==> && Follows(setup, r, t.value, r2, open2, Guard(s, open, act))
                      && (Unswept(s.crank, open) && SweepsIdle(s, act) ==> Unswept(t.value.crank, open2))
  {
    assert s.crank == r.crank;
    hide Kept, Follows, AcceptOrder, Cancel, Match, Consume, Settle, Paired, NetFees, SumEvents, Room;
    r2, open2 := r, open;
    var t := Transition(setup, s, act);
    if t.Ok? {
      match act
      case OpenAccount =>
        OpenAccountFollows(setup, s, r, open);
        r2 := r.(accounts := r.accounts + [EMPTY_ACCOUNT]);
      case PlaceOrder(_, _, _, _, _, _, _, _, _) =>
        r2 := PlaceFollows(setup, s, r, open, act);
        PlaceSameFees(setup, s, act);
      case CancelById(owner, side, id, slot) =>
        r2 := CancelFollows(setup, s, r, open, owner, side, id, slot, 0);
      case CancelByClientId(owner, clientId) =>
        var slot := ClientSlotFrom(s.accounts[owner].orders, clientId, 0).value;
        var order := s.accounts[owner].orders[slot];
        r2 := CancelFollows(setup, s, r, open, owner, order.side, order.id, slot, clientId);
      case MatchOrders(limit) =>
        MatchFollows(setup, s, r, open, limit);
        r2 := Match(setup, r, limit).value;
      case ConsumeEvents(limit, loaded) =>
        r2, open2 := ConsumeFollows(setup, s, r, open, limit, loaded);
        FollowsKept(setup, r, t.value, r2, open2, Room(r.crank, open));
        ConsumeUnswept(setup, s, r, open, t.value, r2, open2);
      case SettleFunds(owner, withReferrer) =>
        r2 := SettleCase(setup, s, r, open, owner, withReferrer);
      case SweepFees =>
        SweepFollows(setup, s, r, open);
        r2 := Sweep(r).value;
        SweepUnswept(setup, s, r, open);
    }
    FollowsWeaken(setup, r, if t.Ok? then t.value else s, r2, open2, Guard(s, open, act));
  }

  lemma FollowsWeaken(setup: Setup, r: State, t: State, r2: State, open2: Option<Event>, safe: bool)
    ensures Follows(setup, r, t, r2, open2, true) ==> Follows(setup, r, t, r2, open2, safe)
  {
  }

  lemma PlaceSameFees(setup: Setup, s: State, act: Action)
    requires act.PlaceOrder? && AcceptOrder(setup, s, act).Ok?
    ensures SameFees(s.crank, AcceptOrder(setup, s, act).value.crank)
  {
    hide LockAmount, LockFunds, AddOrder, QueuedOrder;
  }

  lemma ConsumeUnswept(setup: Setup, s: State, r: State, open: Option<Event>, t: State, r2: State, open2: Option<Event>)
    requires Kept(setup, s, r, open) && Kept(setup, t, r2, open2) && Eased(r.crank, open, r2.crank, open2)
    ensures Unswept(s.crank, open) ==> Unswept(t.crank, open2)
  {
    hide Inv, Paired, NetFees, SumEvents;
  }

  lemma SweepUnswept(setup: Setup, s: State, r: State, open: Option<Event>)
    requires Kept(setup, s, r, open)
    ensures Sweep(s).Ok? && (s.crank.events == [] ==> Unswept(Sweep(s).value.crank, open))
  {
    hide Inv;
    SweepFollows(setup, s, r, open);
  }

  lemma SettleCase(setup: Setup, s: State, r: State, open: Option<Event>, owner: nat, withReferrer: bool)
      returns (r2: State)
    requires Kept(setup, s, r, open) && Settle(s, owner, withReferrer).Ok?
    ensures var t := Settle(s, owner, withReferrer).value;
            Follows(setup, r, t, r2, open, true) && (Unswept(s.crank, open) ==> Unswept(t.crank, open))
  {
    hide Kept, Follows;
    SettleFollows(setup, s, r, open, owner, withReferrer);
    r2 := Settle(r, owner, withReferrer).value;
  }

  /** While the pending fees are in the counter, the vault itself leaves room for them. */
  lemma UnsweptRoom(setup: Setup, r: State, open: Option<Event>)
    requires Inv(setup, r) && Unswept(r.crank, open)
    ensures Room(r.crank, open)
  {
    assert Booked(Referral, r.crank.market, r.accounts) == Total(setup.config, Referral, r.crank);
    SumAccountsNonNegative(Referral, r.accounts);
    NoReferralInBook(setup.config, r.crank);
    hide BookOk, RequestsOk, InOrder, AllRegistered, EventQueueOk, Balanced, SumEvents, SumRequests, BookSum, NetFees,
        SumAccounts;
  }

  lemma NoReferralInBook(c: Config, s: CrankState)
    ensures Total(c, Referral, s) == SumEvents(Referral, s.events)
  {
    NoLeafWeight(c, Referral, Bid, s.book.bids);
    NoLeafWeight(c, Referral, Ask, s.book.asks);
    NoRequestWeight(c, Referral, s.requests);
  }

  /** Every consumption was started with deposits and pending fees below 2^64 together. */
  predicate Careful(setup: Setup, history: seq<Action>) {
    history == [] ||
    var before, act := history[..|history| - 1], history[|history| - 1];
    && Careful(setup, before)
    && (act.ConsumeEvents? ==>
          var s := Reach(setup, before).crank; s.market.pcDeposits + NetFees(s.events) < TWO64)
  }

  /** Fees were never swept while an event was pending. */
  predicate SweptIdle(setup: Setup, history: seq<Action>) {
    history == [] ||
    var before, act := history[..|history| - 1], history[|history| - 1];
    SweptIdle(setup, before) && SweepsIdle(Reach(setup, before), act)
  }

  /**
   Every reachable state has a ledger for which the market invariant holds; and if the history was
   careful in either sense, no total has ever reached 2^64.
   */
  lemma {:induction false} ReachableKept(setup: Setup, history: seq<Action>) returns (r: State, open: Option<Event>)
    ensures Kept(setup, Reach(setup, history), r, open)
    ensures Careful(setup, history) ==> TotalsFit(r.accounts)
    ensures SweptIdle(setup, history) ==> TotalsFit(r.accounts) && Unswept(r.crank, open)
  {
    hide Kept, TotalsFit, Transition, NetFees, Unswept, Room;
    if history == [] {
      r, open := Initial(), None;
      InitialKept(setup);
    } else {
      var before, act := history[..|history| - 1], history[|history| - 1];
      var s := Reach(setup, before);
      r, open := ReachableKept(setup, before);
      GuardHolds(setup, s, r, open);
      var r2, open2 := TransitionFollows(setup, s, r, open, act);
      if Transition(setup, s, act).Ok? {
        FollowsKept(setup, r, Transition(setup, s, act).value, r2, open2, Guard(s, open, act));
        r, open := r2, open2;
      }
    }
  }

  lemma InitialKept(setup: Setup)
    ensures Kept(setup, Initial(), Initial(), None) && TotalsFit(Initial().accounts) && Unswept(Initial().crank, None)
  {
  }

  lemma FollowsKept(setup: Setup, r: State, t: State, r2: State, open2: Option<Event>, safe: bool)
    requires Follows(setup, r, t, r2, open2, safe)
    ensures Kept(setup, t, r2, open2) && (safe && TotalsFit(r.accounts) ==> TotalsFit(r2.accounts))
          && t.crank == r2.crank
  {
  }

  lemma GuardHolds(setup: Setup, s: State, r: State, open: Option<Event>)
    requires Kept(setup, s, r, open)
    ensures s.crank == r.crank
    ensures s.crank.market.pcDeposits + NetFees(s.crank.events) < TWO64 ==> Room(s.crank, open)
    ensures Unswept(r.crank, open) ==> Room(s.crank, open)
  {
    FeesCoverReferrals(open, r.crank.events);
    if Unswept(r.crank, open) {
      UnsweptRoom(setup, r, open);
    }
    hide Inv, NetFees, Paired;
  }

  // ----- the ledger, read off the state -----

  /** The exact balances: a total is what is free and what requests, book and events have locked. */
  function Exact(c: Config, s: State): State {
    s.(accounts := seq(|s.accounts|, i requires 0 <= i < |s.accounts| =>
         var a := s.accounts[i];
         a.(pcTotal := a.pcFree + Total(c, PcLock(i), s.crank),
             coinTotal := a.coinFree + Total(c, CoinLock(i), s.crank))))
  }

  /** No account owns 2^64 or more, counting what is free and what is locked. */
  predicate InRange(c: Config, s: State) {
    forall i :: 0 <= i < |s.accounts| ==> s.accounts[i].pcFree + Total(c, PcLock(i), s.crank) < TWO64
  }

  lemma LedgerIsExact(setup: Setup, s: State, r: State, open: Option<Event>)
    requires Kept(setup, s, r, open)
    ensures r == Exact(setup.config, s)
    ensures InRange(setup.config, s) <==> TotalsFit(r.accounts)
    ensures InRange(setup.config, s) ==> s == r
  {
    var t := Exact(setup.config, s);
    forall i | 0 <= i < |s.accounts| ensures t.accounts[i] == r.accounts[i] && 0 <= r.accounts[i].pcTotal {
      ExactAccount(setup, s, r, open, i);
    }
    assert t.accounts == r.accounts;
    hide Inv, Paired, Total;
    if InRange(setup.config, s) {
      ExactState(setup, s, r, open);
    }
  }

  lemma ExactAccount(setup: Setup, s: State, r: State, open: Option<Event>, i: nat)
    requires Kept(setup, s, r, open) && i < |s.accounts|
    ensures Exact(setup.config, s).accounts[i] == r.accounts[i] && 0 <= r.accounts[i].pcTotal
  {
    StoredParts(setup, s, r, open, i);
    assert Booked(PcLock(i), r.crank.market, r.accounts) == Total(setup.config, PcLock(i), r.crank);
    assert Booked(CoinLock(i), r.crank.market, r.accounts) == Total(setup.config, CoinLock(i), r.crank);
    hide Inv, Paired, Total;
  }

  /** After the front event all balances but a price-currency total are in range. */
  lemma FrontParts(setup: Setup, s: State, r: State, open: Option<Event>)
    requires Kept(setup, s, r, open) && s.crank.events != []
    ensures s.crank.events[0].owner < |s.accounts| == |r.accounts|
    ensures var e := s.crank.events[0];
            var b := Posted(r.accounts[e.owner], e);
            && EventOk(e) && FitsU64(b.pcFree) && FitsU64(b.coinFree) && FitsU64(b.coinTotal) && FitsU64(b.referrals)
            && b.pcFree <= b.pcTotal && b.coinFree <= b.coinTotal
  {
    NextFits(setup, r, open);
    FrontEventOk(setup, r);
    var e := s.crank.events[0];
    var b := Posted(r.accounts[e.owner], e);
    assert Next(r).accounts[e.owner] == b && b in Next(r).accounts;
    SettleCovered(setup, Next(r), e.owner);
    MarketInRange(setup, Next(r));
    hide Inv, Paired, NetFees, Room, Posted, EventOk;
  }

  lemma LockOf(setup: Setup, s: State, r: State, open: Option<Event>, i: nat)
    requires Kept(setup, s, r, open) && i < |s.accounts|
    ensures |s.accounts| == |r.accounts|
    ensures r.accounts[i].pcTotal == s.accounts[i].pcFree + Total(setup.config, PcLock(i), s.crank)
    ensures s.accounts[i].pcFree == r.accounts[i].pcFree && FitsU64(s.accounts[i].pcFree)
    ensures s.accounts[i].pcTotal == Wrap(r.accounts[i].pcTotal)
  {
    ExactAccount(setup, s, r, open, i);
    StoredParts(setup, s, r, open, i);
    hide Inv, Paired, Total;
  }
}
