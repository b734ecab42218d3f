/**
 What holds for a market after any history of instructions, as the program
 stores it.  Results that need the totals to be exact ask for `InRange`, which
 can be read off the state, or for a history that keeps it.
 */
module Guarantees {
  import opened Numbers
  import opened Orders
  import opened Engine
  import opened BookLaws
  import opened Accounting
  import opened Events
  import opened Crank
  import opened Accounts
  import opened Exchange
  import opened Invariants
  import opened Lifecycle
  import opened Pairs
  import opened Ledger

  // ----- when the stored totals are exact -----

  /** Either discipline keeps every total below 2^64: guarding each consumption, or sweeping only an idle market. */
  lemma CarefulInRange(setup: Setup, history: seq<Action>)
    requires Careful(setup, history) || SweptIdle(setup, history)
    ensures InRange(setup.config, Reach(setup, history))
  {
    hide Careful, SweptIdle, Kept, InRange;
    var r, open := ReachableKept(setup, history);
    LedgerIsExact(setup, Reach(setup, history), r, open);
  }

  /**
   Consuming the front event never wraps a coin total, a free balance or a rebate.  A price-currency total wraps
   exactly when an ask's fill takes the stored one to 2^64, or a bid's fill takes more than is stored; the
   latter happens to totals that have wrapped already only.
   */
  lemma FrontEventWraps(setup: Setup, history: seq<Action>)
    requires Reach(setup, history).crank.events != []
    ensures var s := Reach(setup, history);
            var e := s.crank.events[0];
            && e.owner < |s.accounts|
            && var a, b := s.accounts[e.owner], Posted(s.accounts[e.owner], e);
               && FitsU64(b.coinTotal) && FitsU64(b.coinFree) && FitsU64(b.pcFree) && FitsU64(b.referrals)
               && (Stored(b) == b <==>
                     !(e.Fill? && e.side == Ask && a.pcTotal + e.received >= TWO64)
                     && !(e.Fill? && e.side == Bid && a.pcTotal < e.paid))
               && (InRange(setup.config, s) && e.Fill? && e.side == Bid ==> e.paid <= a.pcTotal)
  {
    var s := Reach(setup, history);
    var r, open := ReachableKept(setup, history);
    FrontParts(setup, s, r, open);
    var e := s.crank.events[0];
    StoredParts(setup, s, r, open, e.owner);
    LedgerIsExact(setup, s, r, open);
    hide Reach, Inv, Paired, NetFees, Room, InRange, EventOk;
    FillOverflow(s.accounts[e.owner], r.accounts[e.owner], e);
  }

  lemma FillOverflow(a: Account, exact: Account, e: Event)
    requires EventOk(e) && a == exact.(pcTotal := Wrap(exact.pcTotal))
    requires var b := Posted(exact, e);
             && FitsU64(b.pcFree) && FitsU64(b.coinFree) && FitsU64(b.coinTotal) && FitsU64(b.referrals)
             && b.pcFree <= b.pcTotal
    ensures var b := Posted(a, e);
            && FitsU64(b.pcFree) && FitsU64(b.coinFree) && FitsU64(b.coinTotal) && FitsU64(b.referrals)
            && (Stored(b) == b <==>
                  !(e.Fill? && e.side == Ask && a.pcTotal + e.received >= TWO64)
                  && !(e.Fill? && e.side == Bid && a.pcTotal < e.paid))
            && (a == exact && e.Fill? && e.side == Bid ==> e.paid <= a.pcTotal)
  {
  }

  /** Consumption is safe: fees were only ever swept from an idle market, or there is room for the pending ones. */
  predicate Healthy(setup: Setup, history: seq<Action>) {
    var s := Reach(setup, history);
    || SweptIdle(setup, history)
    || (InRange(setup.config, s) && s.crank.market.pcDeposits + NetFees(s.crank.events) < TWO64)
  }

  lemma HealthyRoom(setup: Setup, history: seq<Action>) returns (r: State, open: Option<Event>)
    requires Healthy(setup, history)
    ensures var s := Reach(setup, history);
            Kept(setup, s, r, open) && s.crank == r.crank && TotalsFit(r.accounts) && Room(s.crank, open)
                && InRange(setup.config, s)
  {
    hide Reach, Kept, InRange, Room, TotalsFit, NetFees, SweptIdle, Careful, Unswept;
    r, open := ReachableKept(setup, history);
    LedgerIsExact(setup, Reach(setup, history), r, open);
    GuardHolds(setup, Reach(setup, history), r, open);
  }

  /** In a healthy market no consumption can fail or wrap a total, and the totals stay exact. */
  lemma ConsumptionNeverFails(setup: Setup, history: seq<Action>, limit: nat, loaded: set<nat>)
    requires Healthy(setup, history)
    ensures var t := Consume(Reach(setup, history), limit, loaded); t.Ok? && InRange(setup.config, t.value)
  {
    var s := Reach(setup, history);
    var r, open := HealthyRoom(setup, history);
    hide Reach, Kept, InRange, Room, TotalsFit, NetFees, Consume, Healthy;
    var r2, open2 := ConsumeFollows(setup, s, r, open, limit, loaded);
    var t := Consume(s, limit, loaded).value;
    FollowsKept(setup, r, t, r2, open2, Room(r.crank, open));
    LedgerIsExact(setup, t, r2, open2);
  }

  /**
   In any reachable state the front event passes the program's checks, except the unlock of a bid whose
   owner's free and locked funds together have reached 2^64.
   */
  lemma ConsumesExactlyWhen(setup: Setup, history: seq<Action>)
    requires Reach(setup, history).crank.events != []
    ensures var s := Reach(setup, history);
            var e := s.crank.events[0];
            && e.owner < |s.accounts|
            && var a, locked := s.accounts[e.owner], Total(setup.config, PcLock(e.owner), s.crank);
               ApplyEvent(a, e).Ok? <==>
                 (e.Out? && e.side == Bid ==> a.pcFree + e.unlocked + (locked - e.unlocked) % TWO64 < TWO64)
  {
    var s := Reach(setup, history);
    var r, open := ReachableKept(setup, history);
    hide Reach, Kept, Total, ApplyEvent;
    PassesExactlyWhen(setup, s, r, open);
  }

  lemma PassesExactlyWhen(setup: Setup, s: State, r: State, open: Option<Event>)
    requires Kept(setup, s, r, open) && s.crank.events != []
    ensures s.crank.events[0].owner < |s.accounts|
    ensures var e := s.crank.events[0];
            var a, locked := s.accounts[e.owner], Total(setup.config, PcLock(e.owner), s.crank);
            ApplyEvent(a, e).Ok? <==>
              (e.Out? && e.side == Bid ==> a.pcFree + e.unlocked + (locked - e.unlocked) % TWO64 < TWO64)
  {
    hide Kept, Room, Total, ApplyEvent, Follows, EventOk, Next;
    FrontFollows(setup, s, r, open);
    FrontParts(setup, s, r, open);
    LockOf(setup, s, r, open, s.crank.events[0].owner);
    UnlockModulo(r.accounts[s.crank.events[0].owner], s.crank.events[0]);
  }

  lemma UnlockModulo(a: Account, e: Event)
    requires var b := Posted(a, e);
             FitsU64(b.pcFree) && FitsU64(b.coinFree) && FitsU64(b.coinTotal) && b.coinFree <= b.coinTotal
    ensures UnlockCovered(Stored(Posted(a, e)), e) <==>
              (e.Out? && e.side == Bid ==> a.pcFree + e.unlocked + (a.pcTotal - a.pcFree - e.unlocked) % TWO64 < TWO64)
  {
    if e.Out? && e.side == Bid {
      CoveredModulo(a.pcFree + e.unlocked, a.pcTotal - a.pcFree - e.unlocked);
    }
  }

  /** A stored total covers the free part exactly when the free part and the rest modulo 2^64 stay below 2^64. */
  lemma CoveredModulo(free: int, rest: int)
    requires FitsU64(free)
    ensures free <= Wrap(free + rest) <==> free + rest % TWO64 < TWO64
  {
    WrapSum(rest, free);
    var x := rest % TWO64;
    assert Wrap(free + rest) == if free + x < TWO64 then free + x else free + x - TWO64 by {
      SameResidue(free + x - TWO64, 1);
    }
  }

  // ----- locks -----

  /** Price currency locked by the account's queued bids, resting bids and pending events. */
  function LockedPc(c: Config, s: CrankState, owner: nat): int {
    SumRequests(c, PcLock(owner), s.requests) + SumLeaves(c, PcLock(owner), Bid, s.book.bids)
    + SumEvents(PcLock(owner), s.events)
  }

  /** Coins locked by the account's queued asks, resting asks and pending events. */
  function LockedCoin(c: Config, s: CrankState, owner: nat): int {
    SumRequests(c, CoinLock(owner), s.requests) + SumLeaves(c, CoinLock(owner), Ask, s.book.asks)
    + SumEvents(CoinLock(owner), s.events)
  }

  /** Asks lock no price currency and bids no coins. */
  lemma LockedIsTotal(c: Config, s: CrankState, owner: nat)
    ensures LockedPc(c, s, owner) == Total(c, PcLock(owner), s)
          && LockedCoin(c, s, owner) == Total(c, CoinLock(owner), s)
  {
    WeightlessSide(c, PcLock(owner), Ask, s.book.asks);
    WeightlessSide(c, CoinLock(owner), Bid, s.book.bids);
  }

  lemma {:induction false} WeightlessSide(c: Config, m: Measure, side: Side, s: seq<Leaf>)
    requires (m.PcLock? && side == Ask) || (m.CoinLock? && side == Bid)
    ensures SumLeaves(c, m, side, s) == 0
  {
    if s != [] {
      WeightlessSide(c, m, side, s[1..]);
    }
  }

  /**
   What an account has locked is what its queued, resting and pending orders lock: exactly for coins, modulo
   2^64 for the price currency, and there exactly if and only if the account owns less than 2^64.
   */
  lemma LockAccounting(setup: Setup, history: seq<Action>, owner: nat)
    requires owner < |Reach(setup, history).accounts|
    ensures var s := Reach(setup, history);
            var a, pc, coin := s.accounts[owner], LockedPc(setup.config, s.crank, owner),
                LockedCoin(setup.config, s.crank, owner);
            && 0 <= pc && 0 <= a.pcFree && a.pcTotal == (a.pcFree + pc) % TWO64
            && 0 <= coin && 0 <= a.coinFree && a.coinTotal == a.coinFree + coin
            && (a.pcTotal - a.pcFree == pc <==> a.pcFree + pc < TWO64)
  {
    hide Reach, Kept, LockedPc, LockedCoin;
    var r, open := ReachableKept(setup, history);
    LocksOf(setup, Reach(setup, history), r, open, owner);
  }

  lemma LocksOf(setup: Setup, s: State, r: State, open: Option<Event>, owner: nat)
    requires Kept(setup, s, r, open) && owner < |s.accounts|
    ensures var a, pc, coin := s.accounts[owner], LockedPc(setup.config, s.crank, owner),
          LockedCoin(setup.config, s.crank, owner);
            && 0 <= pc && 0 <= a.pcFree && a.pcTotal == (a.pcFree + pc) % TWO64
            && 0 <= coin && 0 <= a.coinFree && a.coinTotal == a.coinFree + coin
            && (a.pcTotal - a.pcFree == pc <==> a.pcFree + pc < TWO64)
  {
    StoredParts(setup, s, r, open, owner);
    ExactAccount(setup, s, r, open, owner);
    LockedIsTotal(setup.config, s.crank, owner);
    SettleCovered(setup, r, owner);
    hide Inv, Paired, Total, LockedPc, LockedCoin;
  }

  /** After a careful history the locks are exact. */
  lemma LocksExact(setup: Setup, history: seq<Action>, owner: nat)
    requires Careful(setup, history) || SweptIdle(setup, history)
    requires owner < |Reach(setup, history).accounts|
    ensures var s := Reach(setup, history);
            var a := s.accounts[owner];
            && a.pcTotal == a.pcFree + LockedPc(setup.config, s.crank, owner)
            && a.coinTotal == a.coinFree + LockedCoin(setup.config, s.crank, owner)
  {
    CarefulInRange(setup, history);
    LockAccounting(setup, history, owner);
    LockedIsTotal(setup.config, Reach(setup, history).crank, owner);
    hide Reach, Careful, SweptIdle, LockedPc, LockedCoin, Total;
  }

  // ----- the life of an order -----

  /**
   An occupied slot's order is in exactly one of the request queue, the book and the pending
   fully-out events; a free slot's in none.  Whatever is in flight is registered in its slot,
   and nothing is queued behind the event that frees the slot.
   */
  lemma OrderLifecycle(setup: Setup, history: seq<Action>, owner: nat, slot: nat)
    requires owner < |Reach(setup, history).accounts|
    ensures var s, c, m := Reach(setup, history), setup.config, Place(owner, slot);
            && SumRequests(c, m, s.crank.requests) + SumLeaves(c, m, Bid, s.crank.book.bids)
               + SumLeaves(c, m, Ask, s.crank.book.asks) + SumEvents(m, s.crank.events)
               == (if slot in s.accounts[owner].orders then 1 else 0)
            && AllRegistered(s) && NothingAfterOut(s.crank.events)
  {
    var s := Reach(setup, history);
    var r, open := ReachableKept(setup, history);
    StoredParts(setup, s, r, open, owner);
    PlacesExclusive(setup, r, owner, slot);
    RegisteredMonotone(r.accounts, s.accounts, r);
    hide Reach, SumLeaves, SumEvents, SumRequests, CrankOk, Balanced, NothingAfterOut, AccountsOk, Solvent, Paired,
      RequestsRegistered, BookRegistered, EventsRegistered;
  }

  // ----- solvency -----

  /**
   The vaults hold what the market account says; and deposits and rebates are what the accounts own, plus the
   effect of the pending fills.  What an account owns is `Exact`: free and locked funds together.
   */
  lemma Solvency(setup: Setup, history: seq<Action>)
    ensures var s := Reach(setup, history);
            var k, exact := s.crank.market, Exact(setup.config, s).accounts;
            && s.pcVault == k.pcDeposits + k.pcFees + k.referrals && s.coinVault == k.coinDeposits
            && 0 <= k.pcDeposits && 0 <= k.pcFees && 0 <= k.referrals && s.pcVault < TWO64
            && k.pcDeposits == SumAccounts(PcNet, exact) + SumEvents(PcNet, s.crank.events)
            && k.coinDeposits == SumAccounts(CoinNet, exact) + SumEvents(CoinNet, s.crank.events)
            && k.referrals == SumAccounts(Referral, exact) + SumEvents(Referral, s.crank.events)
            && (InRange(setup.config, s) ==> exact == s.accounts)
  {
    var s := Reach(setup, history);
    var r, open := ReachableKept(setup, history);
    LedgerIsExact(setup, s, r, open);
    SolventLedger(setup, r);
    hide Reach, Inv, SumAccounts, SumEvents, Exact, InRange, Paired, CoinsFit, Stored;
  }

  lemma SolventLedger(setup: Setup, r: State)
    requires Inv(setup, r)
    ensures var k := r.crank.market;
            && r.pcVault == k.pcDeposits + k.pcFees + k.referrals && r.coinVault == k.coinDeposits
            && 0 <= k.pcDeposits && 0 <= k.pcFees && 0 <= k.referrals && r.pcVault < TWO64
            && k.pcDeposits == SumAccounts(PcNet, r.accounts) + SumEvents(PcNet, r.crank.events)
            && k.coinDeposits == SumAccounts(CoinNet, r.accounts) + SumEvents(CoinNet, r.crank.events)
            && k.referrals == SumAccounts(Referral, r.accounts) + SumEvents(Referral, r.crank.events)
  {
    NetEquation(setup, r, PcNet);
    NetEquation(setup, r, CoinNet);
    NetEquation(setup, r, Referral);
    MarketInRange(setup, r);
    hide SumAccounts, SumEvents, CrankOk, AllRegistered, EventQueueOk, Balanced, AccountsOk;
  }

  lemma NetEquation(setup: Setup, r: State, m: Measure)
    requires Balanced(setup.config, r) && (m == PcNet || m == CoinNet || m == Referral)
    ensures MarketField(m, r.crank.market) - SumAccounts(m, r.accounts) == SumEvents(m, r.crank.events)
  {
    NoLeafWeight(setup.config, m, Bid, r.crank.book.bids);
    NoLeafWeight(setup.config, m, Ask, r.crank.book.asks);
    NoRequestWeight(setup.config, m, r.crank.requests);
    assert Booked(m, r.crank.market, r.accounts) == Total(setup.config, m, r.crank);
  }

  /**
   The fee sweep always goes through, and settlement of an account if and only if the free and locked funds
   of its owner have not reached 2^64 (locked funds counted modulo 2^64).
   */
  lemma PayoutsExactlyWhen(setup: Setup, history: seq<Action>, owner: nat, withReferrer: bool)
    ensures var s := Reach(setup, history);
            && Sweep(s).Ok?
            && (owner < |s.accounts| ==>
                  (Settle(s, owner, withReferrer).Ok? <==>
                     s.accounts[owner].pcFree + LockedPc(setup.config, s.crank, owner) % TWO64 < TWO64))
  {
    var s := Reach(setup, history);
    var r, open := ReachableKept(setup, history);
    hide Reach, Kept, Settle, Sweep, LockedPc;
    SweepFollows(setup, s, r, open);
    if owner < |s.accounts| {
      SettlesExactlyWhen(setup, s, r, open, owner, withReferrer);
    }
  }

  lemma SettlesExactlyWhen(setup: Setup, s: State, r: State, open: Option<Event>, owner: nat, withReferrer: bool)
    requires Kept(setup, s, r, open) && owner < |s.accounts|
    ensures Settle(s, owner, withReferrer).Ok? <==>
              s.accounts[owner].pcFree + LockedPc(setup.config, s.crank, owner) % TWO64 < TWO64
  {
    hide Kept, Settle, LockedPc, LockedCoin, Total, Follows, Unswept;
    SettleFollows(setup, s, r, open, owner, withReferrer);
    LockOf(setup, s, r, open, owner);
    LockedIsTotal(setup.config, s.crank, owner);
    CoveredModulo(s.accounts[owner].pcFree, LockedPc(setup.config, s.crank, owner));
  }

  /** After a careful history, settlement of any account and the fee sweep go through. */
  lemma PayoutsNeverFail(setup: Setup, history: seq<Action>, owner: nat, withReferrer: bool)
    requires Careful(setup, history) || SweptIdle(setup, history)
    ensures var s := Reach(setup, history);
            && Sweep(s).Ok?
            && (owner < |s.accounts| ==> Settle(s, owner, withReferrer).Ok?)
  {
    PayoutsExactlyWhen(setup, history, owner, withReferrer);
    if owner < |Reach(setup, history).accounts| {
      LocksExact(setup, history, owner);
      LockAccounting(setup, history, owner);
    }
    hide Reach, Careful, SweptIdle, LockedPc, LockedCoin, Settle, Sweep;
  }

  /**
   In every reachable state the book is ordered, fits its slabs and is not crossed, and the deposits cover all
   locks.
   */
  lemma BookNeverCrossed(setup: Setup, history: seq<Action>)
    ensures var s := Reach(setup, history);
            && BookOk(setup.config, s.crank.book) && Uncrossed(s.crank.book)
            && Backed(setup.config, s.crank)
  {
    var r, open := ReachableKept(setup, history);
    hide Reach, Paired;
  }

  /** Every fill of every run is at the best resting order's price and within the taker's limit. */
  lemma PriceTimePriority(setup: Setup, history: seq<Action>, o: Order)
    requires var q := Reach(setup, history).crank.requests; q != [] && q[0] == NewOrder(o)
    requires AnyFill(Step(setup.config, Reach(setup, history).crank.book, NewOrder(o)).events)
    ensures var b := Reach(setup, history).crank.book;
            exists x, q :: TradesWithBest(setup.config, b, o, Step(setup.config, b, NewOrder(o)).events, x, q)
  {
    BookNeverCrossed(setup, history);
    var b := Reach(setup, history).crank.book;
    hide Reach, AnyFill, TradesWithBest, OrderStep, BookOk;
    FillPriority(setup.config, b, o);
  }

  /** Between any two instructions the crank may be turned: what its methods require holds. */
  lemma CrankMayRun(setup: Setup, history: seq<Action>)
    ensures CrankOk(setup.config, Reach(setup, history).crank, Reach(setup, history).nextSeq)
  {
    var r, open := ReachableKept(setup, history);
    hide Reach, Paired;
  }

  /** What settlement subtracts from the market's counters and the vaults is there, in every reachable state. */
  lemma SettlementCovered(setup: Setup, history: seq<Action>, owner: nat)
    requires owner < |Reach(setup, history).accounts|
    ensures var s := Reach(setup, history);
            var a, k := s.accounts[owner], s.crank.market;
            && 0 <= a.coinFree <= k.coinDeposits && 0 <= a.pcFree <= k.pcDeposits && 0 <= a.referrals <= k.referrals
            && 0 <= k.pcFees && k.pcFees + k.referrals < TWO64 && a.coinFree <= a.coinTotal
            && a.coinFree <= s.coinVault && a.pcFree + a.referrals <= s.pcVault
  {
    var s := Reach(setup, history);
    var r, open := ReachableKept(setup, history);
    StoredParts(setup, s, r, open, owner);
    SettleCovered(setup, r, owner);
    MarketInRange(setup, r);
    Solvency(setup, history);
    hide Reach, Kept, Exact, SumAccounts, SumEvents, InRange;
  }

  // ----- the end of trading -----

  predicate Idle(s: State) {
    s.crank == CrankState(Book([], []), s.crank.market, [], [])
  }

  /** A market with nothing in flight owes its accounts exactly their free balances, and all slots are free. */
  lemma DrainedMarket(setup: Setup, history: seq<Action>)
    requires Idle(Reach(setup, history))
    ensures var s := Reach(setup, history);
            && s.crank.market.pcDeposits == SumAccounts(PcFree, s.accounts)
            && s.crank.market.coinDeposits == SumAccounts(CoinFree, s.accounts)
            && forall i :: 0 <= i < |s.accounts| ==>
                 var a := s.accounts[i]; a.pcTotal == a.pcFree && a.coinTotal == a.coinFree && a.orders == map[]
  {
    var s := Reach(setup, history);
    var r, open := ReachableKept(setup, history);
    forall i | 0 <= i < |r.accounts|
      ensures var a := r.accounts[i];
              a.pcTotal == a.pcFree && a.coinTotal == a.coinFree && a.orders == map[] && FitsU64(a.pcFree)
    {
      DrainedAccount(setup, r, i);
      StoredParts(setup, s, r, open, i);
    }
    ExactState(setup, s, r, open);
    MasterEquation(setup, r, PcFree);
    MasterEquation(setup, r, CoinFree);
    hide Reach, Inv, SumAccounts, Paired;
  }

  lemma MasterEquation(setup: Setup, r: State, m: Measure)
    requires Balanced(setup.config, r) && Meaningful(m, |r.accounts|)
    ensures Booked(m, r.crank.market, r.accounts) == Total(setup.config, m, r.crank)
  {
  }

  lemma DrainedAccount(setup: Setup, r: State, i: nat)
    requires Inv(setup, r) && i < |r.accounts| && Idle(r)
    ensures var a := r.accounts[i]; a.pcTotal == a.pcFree && a.coinTotal == a.coinFree && a.orders == map[]
  {
    MasterEquation(setup, r, PcLock(i));
    MasterEquation(setup, r, CoinLock(i));
    forall slot ensures slot !in r.accounts[i].orders {
      MasterEquation(setup, r, Place(i, slot));
    }
  }

  predicate PaidOut(a: Account) {
    a.pcFree == 0 && a.coinFree == 0 && a.referrals == 0
  }

  /**
   When in addition every account has been settled, the market owes nobody anything: the coin vault is
   empty and the other one holds exactly the fees that can still be swept.
   */
  lemma FullySettled(setup: Setup, history: seq<Action>)
    requires Idle(Reach(setup, history)) && forall a :: a in Reach(setup, history).accounts ==> PaidOut(a)
    ensures var s := Reach(setup, history);
            && s.crank.market == Market(0, 0, s.crank.market.pcFees, 0)
            && s.coinVault == 0 && s.pcVault == s.crank.market.pcFees
  {
    var s := Reach(setup, history);
    DrainedMarket(setup, history);
    Solvency(setup, history);
    NothingFree(PcFree, s.accounts);
    NothingFree(CoinFree, s.accounts);
    NothingFree(Referral, s.accounts);
    NoReferrals(setup.config, s);
    hide Reach, Exact, SumAccounts, InRange;
  }

  lemma NoReferrals(c: Config, s: State)
    requires forall a :: a in s.accounts ==> PaidOut(a)
    ensures SumAccounts(Referral, Exact(c, s).accounts) == 0
  {
    hide Total;
    var t := Exact(c, s).accounts;
    forall a | a in t ensures PaidOut(a) {
      var i :| 0 <= i < |t| && t[i] == a;
      assert s.accounts[i] in s.accounts;
    }
    NothingFree(Referral, t);
  }

  lemma {:induction false} NothingFree(m: Measure, s: seq<Account>)
    requires m == PcFree || m == CoinFree || m == Referral
    requires forall a :: a in s ==> PaidOut(a)
    ensures SumAccounts(m, s) == 0
  {
    if s != [] {
      NothingFree(m, s[..|s| - 1]);
      assert s[|s| - 1] in s;
    }
  }
}
